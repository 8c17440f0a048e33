/**
 What every run of the asynchronous server guarantees: tags are live and in the right status,
 each request is answered once and its object deleted once, listeners are conserved, and
 without new arrivals the server drains.
 */
module Service {
  import opened Options
  import opened CallData

  // The reply has been handed to the runtime.
  predicate Answered(s: State, c: Call) {
    c.status == FINISH && !(c.place.AtThread? && c.place.t < |s.threads| && s.threads[c.place.t].Finishing?)
  }

  // The object r arrived in still carries it.
  predicate InUse(s: State, r: nat)
    requires r < |s.accepted|
  {
    s.accepted[r].tag in s.calls && s.calls[s.accepted[r].tag].rid == Some(r)
  }

  // Every accepted request is in one live object or was retired; it was answered at most once,
  // with a response to its own body.
  ghost predicate RequestsOk(s: State, serves: (string, string) -> bool) {
    CallsCarry(s) && Counted(s, serves)
  }

  ghost predicate CallsCarry(s: State) {
    forall o :: o in s.calls && s.calls[o].rid.Some? ==> CallOk(s, o)
  }

  ghost predicate Counted(s: State, serves: (string, string) -> bool) {
    && (forall r: nat :: s.retired[r] <= s.finished[r] <= 1)
    && (forall r: nat :: r >= |s.accepted| ==> s.finished[r] == 0)
    && (forall r: nat :: r < |s.accepted| && s.retired[r] == 0 ==> InUse(s, r))
    && (forall r: nat :: s.finished[r] == 1 ==> r in s.answers && serves(s.accepted[r].body, s.answers[r]))
  }

  predicate CallOk(s: State, o: Tag)
    requires o in s.calls && s.calls[o].rid.Some?
  {
    var r := s.calls[o].rid.value;
    && r < |s.accepted| && s.accepted[r].tag == o
    && s.retired[r] == 0 && s.finished[r] == if Answered(s, s.calls[o]) then 1 else 0
  }

  // A thread that has run the handler holds a response to the body of its own request.
  ghost predicate ReplyOk(s: State, t: nat, serves: (string, string) -> bool)
    requires t < |s.threads|
  {
    s.threads[t].Served? || s.threads[t].Finishing? ==>
      var body := Body(s, s.threads[t].tag);
      body.Some? && serves(body.value, s.calls[s.threads[t].tag].reply)
  }

  ghost predicate RepliesOk(s: State, serves: (string, string) -> bool) {
    forall t :: 0 <= t < |s.threads| ==> ReplyOk(s, t, serves)
  }

  // The step leaves the requests and their objects as they are.
  ghost predicate SameRequests(s: State, s': State) {
    && s'.accepted == s.accepted && s'.finished == s.finished && s'.retired == s.retired && s'.answers == s.answers
    && (forall o :: o in s.calls && s.calls[o].rid.Some? ==>
          o in s'.calls && s'.calls[o].rid == s.calls[o].rid
          && (Answered(s', s'.calls[o]) <==> Answered(s, s.calls[o])))
    && (forall o :: o in s'.calls && s'.calls[o].rid.Some? ==> o in s.calls && s.calls[o].rid.Some?)
  }

  lemma Quiet(s: State, s': State, serves: (string, string) -> bool)
    requires RequestsOk(s, serves) && SameRequests(s, s')
    ensures RequestsOk(s', serves)
  {
  }

  // Thread u is not the one that moved: what it holds is as before.
  lemma RepliesKept(s: State, s': State, t: nat, serves: (string, string) -> bool)
    requires Owned(s) && RepliesOk(s, serves) && |s'.threads| == |s.threads|
    requires forall u :: 0 <= u < |s.threads| && u != t ==> s'.threads[u] == s.threads[u]
    requires forall o :: o in s.calls && s.calls[o].place.AtThread? && s.calls[o].place.t != t ==>
               o in s'.calls && s'.calls[o] == s.calls[o]
    requires s.accepted <= s'.accepted
    requires t < |s.threads| ==> ReplyOk(s', t, serves)
    ensures RepliesOk(s', serves)
  {
    forall u | 0 <= u < |s.threads| && u != t ensures ReplyOk(s', u, serves) {
      assert ThreadOk(u, s.threads[u], s.calls);
      assert ReplyOk(s, u, serves);
      if s.threads[u].Served? || s.threads[u].Finishing? {
        assert s.threads[u].tag in Holds(s.threads[u]);
      }
    }
  }

  ghost predicate Good(s: State, serves: (string, string) -> bool) {
    Owned(s) && RequestsOk(s, serves) && RepliesOk(s, serves)
  }

  // One object changes, its request not being answered by that; at most thread t moves.
  lemma QuietMove(s: State, s': State, t: nat, tag: Tag, c': Call, serves: (string, string) -> bool)
    requires Good(s, serves) && tag in s.calls && s'.calls == s.calls[tag := c'] && |s'.threads| == |s.threads|
    requires forall u :: 0 <= u < |s.threads| && u != t ==> s'.threads[u] == s.threads[u]
    requires s'.accepted == s.accepted && s'.finished == s.finished
    requires s'.retired == s.retired && s'.answers == s.answers
    requires c'.rid == s.calls[tag].rid && (Answered(s', c') <==> Answered(s, s.calls[tag]))
    requires s.calls[tag].place.AtThread? ==> s.calls[tag].place.t == t
    requires forall o :: o in s.calls && s.calls[o].place == AtThread(t) && o != tag ==> s.calls[o].status != FINISH
    requires t < |s.threads| ==> ReplyOk(s', t, serves)
    ensures RequestsOk(s', serves) && RepliesOk(s', serves)
  {
    Quiet(s, s', serves);
    RepliesKept(s, s', t, serves);
  }

  // The object thread t works on, as its program point expects it.
  predicate HeldOk(s: State, t: nat)
    requires t < |s.threads| && s.threads[t] !in {Boot, Poll, Crashed}
  {
    var tag := s.threads[t].tag;
    tag in s.calls && s.calls[tag].place == AtThread(t) && Suits(s.threads[t], tag, s.calls[tag])
  }

  lemma HeldTag(s: State, t: nat)
    requires Owned(s) && t < |s.threads| && s.threads[t] !in {Boot, Poll, Crashed}
    ensures HeldOk(s, t)
  {
    assert ThreadOk(t, s.threads[t], s.calls);
    assert s.threads[t].tag in Holds(s.threads[t]);
  }

  // What a step that neither answers nor deletes does to the object it is about.
  lemma RunEffect(s: State, t: nat, serves: (string, string) -> bool)
    requires Enabled(s, Run(t), serves) && HeldOk(s, t) && ReplyOk(s, t, serves)
    requires !s.threads[t].Finishing? && !s.threads[t].Deleting?
    ensures
      var tag, s' := s.threads[t].tag, RunThread(s, t);
      && tag in s.calls && tag in s'.calls && s'.calls == s.calls[tag := s'.calls[tag]]
      && s.calls[tag].place == AtThread(t) && s'.calls[tag].rid == s.calls[tag].rid
      && s'.threads == s.threads[t := s'.threads[t]]
      && s'.accepted == s.accepted && s'.finished == s.finished && s'.retired == s.retired && s'.answers == s.answers
      && (Answered(s', s'.calls[tag]) <==> Answered(s, s.calls[tag]))
      && ReplyOk(s', t, serves)
  {
    var pc := s.threads[t];
    if pc.Popped? { assert s.calls[pc.tag := s.calls[pc.tag]] == s.calls; }
  }

  lemma RunQuiet(s: State, t: nat, serves: (string, string) -> bool)
    requires Good(s, serves) && Enabled(s, Run(t), serves)
    requires !s.threads[t].Finishing? && !s.threads[t].Deleting?
    ensures RequestsOk(RunThread(s, t), serves) && RepliesOk(RunThread(s, t), serves)
  {
    var tag, s' := s.threads[t].tag, RunThread(s, t);
    HeldTag(s, t);
    assert ReplyOk(s, t, serves);
    RunEffect(s, t, serves);
    assert ThreadOk(t, s.threads[t], s.calls);
    QuietMove(s, s', t, tag, s'.calls[tag], serves);
  }

  // What thread t works on alone.
  lemma Alone(s: State, t: nat)
    requires Owned(s) && t < |s.threads| && s.threads[t] !in {Boot, Poll, Crashed}
    requires !s.threads[t].Constructed? && !s.threads[t].Marked?
    ensures HeldOk(s, t)
    ensures forall o :: o in s.calls && s.calls[o].place == AtThread(t) ==> o == s.threads[t].tag
  {
    HeldTag(s, t);
    assert ThreadOk(t, s.threads[t], s.calls);
  }

  // The one request that a step answers.
  ghost predicate Finishes(s: State, s': State, tag: Tag, r: nat, serves: (string, string) -> bool) {
    && tag in s.calls && s.calls[tag].rid == Some(r) && !Answered(s, s.calls[tag]) && s.calls[tag].status == FINISH
    && s'.calls == s.calls[tag := s.calls[tag].(place := Sending)]
    && (forall o :: o in s.calls && o != tag ==> (Answered(s', s.calls[o]) <==> Answered(s, s.calls[o])))
    && s'.accepted == s.accepted && s'.retired == s.retired && r < |s.accepted|
    && serves(s.accepted[r].body, s.calls[tag].reply)
    && s'.finished == s.finished + multiset{r} && s'.answers == s.answers[r := s.calls[tag].reply]
  }

  lemma FinishCalls(s: State, s': State, tag: Tag, r: nat, serves: (string, string) -> bool)
    requires CallsCarry(s) && Finishes(s, s', tag, r, serves)
    ensures CallsCarry(s')
  {
    assert CallOk(s, tag);
    forall o | o in s'.calls && s'.calls[o].rid.Some? ensures CallOk(s', o) {
      assert CallOk(s, o);
    }
  }

  lemma FinishCounts(s: State, s': State, tag: Tag, r: nat, serves: (string, string) -> bool)
    requires RequestsOk(s, serves) && Finishes(s, s', tag, r, serves)
    ensures Counted(s', serves)
  {
    assert CallOk(s, tag);
    assert forall q: nat :: q < |s.accepted| ==> (InUse(s', q) <==> InUse(s, q));
  }

  lemma FinishEffect(s: State, t: nat, serves: (string, string) -> bool)
    requires t < |s.threads| && s.threads[t].Finishing? && HeldOk(s, t) && ReplyOk(s, t, serves)
    requires forall o :: o in s.calls && s.calls[o].place == AtThread(t) ==> o == s.threads[t].tag
    ensures Finishes(s, RunThread(s, t), s.threads[t].tag, s.calls[s.threads[t].tag].rid.value, serves)
    ensures RunThread(s, t).threads == s.threads[t := Poll]
  {
  }

  lemma RunFinished(s: State, t: nat, serves: (string, string) -> bool)
    requires Good(s, serves) && Enabled(s, Run(t), serves) && s.threads[t].Finishing?
    ensures RequestsOk(RunThread(s, t), serves) && RepliesOk(RunThread(s, t), serves)
  {
    var tag, s' := s.threads[t].tag, RunThread(s, t);
    Alone(s, t);
    FinishEffect(s, t, serves);
    FinishCalls(s, s', tag, s.calls[tag].rid.value, serves);
    FinishCounts(s, s', tag, s.calls[tag].rid.value, serves);
    RepliesKept(s, s', t, serves);
  }

  // The object of an answered request goes.
  ghost predicate Deletes(s: State, s': State, tag: Tag, r: nat) {
    && tag in s.calls && s.calls[tag].rid == Some(r) && Answered(s, s.calls[tag]) && s'.calls == s.calls - {tag}
    && (forall o :: o in s'.calls ==> (Answered(s', s.calls[o]) <==> Answered(s, s.calls[o])))
    && s'.accepted == s.accepted && s'.finished == s.finished && s'.answers == s.answers
    && s'.retired == s.retired + multiset{r}
  }

  lemma DeleteCalls(s: State, s': State, tag: Tag, r: nat)
    requires CallsCarry(s) && Deletes(s, s', tag, r)
    ensures CallsCarry(s')
  {
    assert CallOk(s, tag);
    forall o | o in s'.calls && s'.calls[o].rid.Some? ensures CallOk(s', o) {
      assert CallOk(s, o);
    }
  }

  lemma DeleteCounts(s: State, s': State, tag: Tag, r: nat, serves: (string, string) -> bool)
    requires RequestsOk(s, serves) && Deletes(s, s', tag, r)
    ensures Counted(s', serves)
  {
    assert CallOk(s, tag);
    assert forall q: nat :: q < |s.accepted| && q != r && InUse(s, q) ==> InUse(s', q);
  }

  lemma RunDeleted(s: State, t: nat, serves: (string, string) -> bool)
    requires Good(s, serves) && Enabled(s, Run(t), serves) && s.threads[t].Deleting?
    ensures RequestsOk(RunThread(s, t), serves) && RepliesOk(RunThread(s, t), serves)
  {
    var tag, s' := s.threads[t].tag, RunThread(s, t);
    Alone(s, t);
    DeleteCalls(s, s', tag, s.calls[tag].rid.value);
    DeleteCounts(s, s', tag, s.calls[tag].rid.value, serves);
    RepliesKept(s, s', t, serves);
  }

  lemma AllocQuiet(s: State, t: nat, tag: Tag, serves: (string, string) -> bool)
    requires Good(s, serves) && Enabled(s, Alloc(t, tag), serves)
    ensures RequestsOk(Apply(s, Alloc(t, tag), serves), serves)
    ensures RepliesOk(Apply(s, Alloc(t, tag), serves), serves)
  {
    var pc, s' := s.threads[t], Apply(s, Alloc(t, tag), serves);
    assert ThreadOk(t, pc, s.calls);
    if pc.Spawning? {
      assert pc.tag in Holds(pc);
      AllocMove(s, s', t, s.calls[pc.tag := s.calls[pc.tag].(replaced := true)], tag, serves);
    } else {
      AllocMove(s, s', t, s.calls, tag, serves);
    }
  }

  // A new object appears; others are at most marked as replaced.
  lemma AllocMove(s: State, s': State, t: nat, calls: map<Tag, Call>, tag: Tag, serves: (string, string) -> bool)
    requires Good(s, serves) && t < |s.threads| && tag !in s.calls && calls.Keys == s.calls.Keys
    requires forall o :: o in s.calls ==> calls[o] in {s.calls[o], s.calls[o].(replaced := true)}
    requires forall o :: o in s.calls && calls[o] != s.calls[o] ==> s.calls[o].place == AtThread(t)
    requires forall o :: o in s.calls && s.calls[o].place == AtThread(t) ==> s.calls[o].status != FINISH
    requires s'.calls == calls[tag := NewCall(t)] && |s'.threads| == |s.threads| && s'.threads[t].Constructed?
    requires forall u :: 0 <= u < |s.threads| && u != t ==> s'.threads[u] == s.threads[u]
    requires s'.accepted == s.accepted && s'.finished == s.finished
    requires s'.retired == s.retired && s'.answers == s.answers
    ensures RequestsOk(s', serves) && RepliesOk(s', serves)
  {
    Quiet(s, s', serves);
    RepliesKept(s, s', t, serves);
  }

  lemma HandleEffect(s: State, t: nat, reply: string, serves: (string, string) -> bool)
    requires Enabled(s, Handle(t, reply), serves) && HeldOk(s, t) && CallsCarry(s)
    ensures
      var tag, s' := s.threads[t].tag, Apply(s, Handle(t, reply), serves);
      && s'.calls == s.calls[tag := s.calls[tag].(reply := reply)]
      && s'.threads == s.threads[t := Served(tag)]
      && s'.accepted == s.accepted && s'.finished == s.finished && s'.retired == s.retired && s'.answers == s.answers
      && !Answered(s', s'.calls[tag]) && !Answered(s, s.calls[tag])
      && ReplyOk(s', t, serves)
  {
    assert CallOk(s, s.threads[t].tag);
  }

  lemma HandleQuiet(s: State, t: nat, reply: string, serves: (string, string) -> bool)
    requires Good(s, serves) && Enabled(s, Handle(t, reply), serves)
    ensures RequestsOk(Apply(s, Handle(t, reply), serves), serves)
    ensures RepliesOk(Apply(s, Handle(t, reply), serves), serves)
  {
    var tag, s' := s.threads[t].tag, Apply(s, Handle(t, reply), serves);
    Alone(s, t);
    HandleEffect(s, t, reply, serves);
    QuietMove(s, s', t, tag, s.calls[tag].(reply := reply), serves);
  }

  lemma NextEffect(s: State, t: nat, event: Event, serves: (string, string) -> bool)
    requires Enabled(s, Next(t, event), serves) && Placed(s.calls, event.tag, Queued(event.kind))
    ensures
      var tag, s' := event.tag, Apply(s, Next(t, event), serves);
      && s'.calls == s.calls[tag := s.calls[tag].(place := AtThread(t))]
      && s'.threads == s.threads[t := Popped(tag, event.kind)]
      && s'.accepted == s.accepted && s'.finished == s.finished && s'.retired == s.retired && s'.answers == s.answers
      && (Answered(s', s'.calls[tag]) <==> Answered(s, s.calls[tag]))
      && ReplyOk(s', t, serves)
  {
  }

  lemma NextQuiet(s: State, t: nat, event: Event, serves: (string, string) -> bool)
    requires Good(s, serves) && Enabled(s, Next(t, event), serves)
    ensures RequestsOk(Apply(s, Next(t, event), serves), serves)
    ensures RepliesOk(Apply(s, Next(t, event), serves), serves)
  {
    assert ThreadOk(t, s.threads[t], s.calls);
    assert Placed(s.calls, event.tag, Queued(event.kind));
    NextEffect(s, t, event, serves);
    QuietMove(s, Apply(s, Next(t, event), serves), t, event.tag, s.calls[event.tag].(place := AtThread(t)), serves);
  }

  lemma DeliverQuiet(s: State, tag: Tag, serves: (string, string) -> bool)
    requires Good(s, serves) && Enabled(s, Deliver(tag), serves)
    ensures RequestsOk(Apply(s, Deliver(tag), serves), serves)
    ensures RepliesOk(Apply(s, Deliver(tag), serves), serves)
  {
    assert Placed(s.calls, tag, Sending);
    QuietMove(s, Apply(s, Deliver(tag), serves), |s.threads|, tag, s.calls[tag].(place := Queued(Completion)), serves);
  }

  lemma ArriveRequests(s: State, tag: Tag, body: string, serves: (string, string) -> bool)
    requires Good(s, serves) && Enabled(s, Arrive(tag, body), serves)
    ensures RequestsOk(Apply(s, Arrive(tag, body), serves), serves)
         && RepliesOk(Apply(s, Arrive(tag, body), serves), serves)
  {
    assert Placed(s.calls, tag, Armed);
    var s' := Apply(s, Arrive(tag, body), serves);
    ArriveCalls(s, s', tag, body, serves);
    ArriveCounts(s, s', tag, body, serves);
    RepliesKept(s, s', |s.threads|, serves);
  }

  // The runtime puts a new request into an armed object.
  predicate Arrives(s: State, s': State, tag: Tag, body: string) {
    && tag in s.calls && s.calls[tag].rid.None? && s.calls[tag].status == PROCESS
    && s'.threads == s.threads && s'.accepted == s.accepted + [Incoming(tag, body)]
    && s'.calls == s.calls[tag := s.calls[tag].(rid := Some(|s.accepted|), place := Queued(Request))]
    && s'.finished == s.finished && s'.retired == s.retired && s'.answers == s.answers
  }

  lemma ArriveCalls(s: State, s': State, tag: Tag, body: string, serves: (string, string) -> bool)
    requires RequestsOk(s, serves) && Arrives(s, s', tag, body)
    ensures CallsCarry(s')
  {
    var n := |s.accepted|;
    assert s.finished[n] == 0 && s.retired[n] == 0;
    forall o | o in s'.calls && s'.calls[o].rid.Some? ensures CallOk(s', o) {
      if o != tag { assert CallOk(s, o); }
    }
  }

  lemma ArriveCounts(s: State, s': State, tag: Tag, body: string, serves: (string, string) -> bool)
    requires Counted(s, serves) && Arrives(s, s', tag, body)
    ensures Counted(s', serves)
  {
    forall r: nat | r < |s'.accepted| && s'.retired[r] == 0 ensures InUse(s', r) {
      if r < |s.accepted| { assert InUse(s, r); }
    }
  }

  lemma StepGood(s: State, step: Step, serves: (string, string) -> bool)
    requires Good(s, serves) && Enabled(s, step, serves)
    ensures Good(Apply(s, step, serves), serves)
  {
    StepOwned(s, step, serves);
    match step
    case Run(t) =>
      if s.threads[t].Finishing? { RunFinished(s, t, serves); }
      else if s.threads[t].Deleting? { RunDeleted(s, t, serves); }
      else { RunQuiet(s, t, serves); }
    case Alloc(t, tag) => AllocQuiet(s, t, tag, serves);
    case Next(t, event) => NextQuiet(s, t, event, serves);
    case Handle(t, reply) => HandleQuiet(s, t, reply, serves);
    case Arrive(tag, body) => ArriveRequests(s, tag, body, serves);
    case Deliver(tag) => DeliverQuiet(s, tag, serves);
  }

  lemma InitGood(s: State, serves: (string, string) -> bool)
    requires Init(s)
    ensures Good(s, serves)
  {
  }

  lemma {:induction false} RunsGood(s: State, steps: seq<Step>, serves: (string, string) -> bool)
    requires Good(s, serves) && Exec(s, steps, serves).Some?
    ensures Good(Exec(s, steps, serves).value, serves)
    decreases |steps|
  {
    if steps != [] {
      StepGood(s, steps[0], serves);
      RunsGood(Apply(s, steps[0], serves), steps[1..], serves);
    }
  }

  // ---------------------------------------------------------------- safety of every run

  /** In every interleaving: an event's tag is a live object, in PROCESS for a request and in FINISH
      for a completion; so is the tag a thread has just popped; the assertion before deletion
      holds; and no thread ever touches a dead object. */
  lemma TagsAreLive(s: State, steps: seq<Step>, serves: (string, string) -> bool)
    requires Init(s) && Exec(s, steps, serves).Some?
    ensures
      var r := Exec(s, steps, serves).value;
      && (forall e :: e in r.queue ==> e.tag in r.calls && r.calls[e.tag].status == Expected(e.kind))
      && (forall t :: 0 <= t < |r.threads| ==> ThreadLive(r, t))
  {
    InitGood(s, serves);
    RunsGood(s, steps, serves);
    var r := Exec(s, steps, serves).value;
    QueueLive(r);
    forall t | 0 <= t < |r.threads| ensures ThreadLive(r, t) { ThreadIsLive(r, t); }
  }

  lemma QueueLive(r: State)
    requires Owned(r)
    ensures forall e :: e in r.queue ==> e.tag in r.calls && r.calls[e.tag].status == Expected(e.kind)
  {
    forall e | e in r.queue ensures e.tag in r.calls && r.calls[e.tag].status == Expected(e.kind) {
      assert Placed(r.calls, e.tag, Queued(e.kind));
    }
  }

  // What a thread is working on is live, and in the status its program point presupposes.
  predicate ThreadLive(r: State, t: nat)
    requires t < |r.threads|
  {
    var pc := r.threads[t];
    && pc != Crashed
    && (forall o :: o in Holds(pc) ==> o in r.calls)
    && (pc.Popped? ==> pc.tag in r.calls && r.calls[pc.tag].status == Expected(pc.kind))
    && (pc.Deleting? ==> pc.tag in r.calls && r.calls[pc.tag].status == FINISH)
  }

  lemma ThreadIsLive(r: State, t: nat)
    requires Owned(r) && t < |r.threads|
    ensures ThreadLive(r, t)
  {
    assert ThreadOk(t, r.threads[t], r.calls);
    if r.threads[t].Popped? || r.threads[t].Deleting? { HeldTag(r, t); }
  }

  function Expected(kind: Kind): Status {
    if kind == Request then PROCESS else FINISH
  }

  /** No two threads ever work on the same object, nor a thread on one that the runtime has armed,
      queued or is sending: once Requestcall or Finish has been called the caller is done with it. */
  lemma NoSharing(s: State, steps: seq<Step>, serves: (string, string) -> bool)
    requires Init(s) && Exec(s, steps, serves).Some?
    ensures
      var r := Exec(s, steps, serves).value;
      forall t, o :: 0 <= t < |r.threads| && o in Holds(r.threads[t]) ==>
        && (forall u :: 0 <= u < |r.threads| && u != t ==> o !in Holds(r.threads[u]))
        && r.armed[o] == 0 && r.sending[o] == 0 && r.queue[Event(o, Request)] == 0 && r.queue[Event(o, Completion)] == 0
  {
    InitGood(s, serves);
    RunsGood(s, steps, serves);
    var r := Exec(s, steps, serves).value;
    forall t, o | 0 <= t < |r.threads| && o in Holds(r.threads[t])
      ensures o in r.calls && r.calls[o].place == AtThread(t)
    {
      assert ThreadOk(t, r.threads[t], r.calls);
    }
  }

  /** Finish is called at most once for each request, with a response to that request's body; its
      object is deleted at most once, and not before. */
  lemma AnsweredOnce(s: State, steps: seq<Step>, serves: (string, string) -> bool)
    requires Init(s) && Exec(s, steps, serves).Some?
    ensures
      var r := Exec(s, steps, serves).value;
      forall q: nat ::
        && r.retired[q] <= r.finished[q] <= 1
        && (q >= |r.accepted| ==> r.finished[q] == 0)
        && (r.finished[q] == 1 ==> q in r.answers && q < |r.accepted| && serves(r.accepted[q].body, r.answers[q]))
        && (q < |r.accepted| && r.retired[q] == 0 ==> InUse(r, q))
  {
    InitGood(s, serves);
    RunsGood(s, steps, serves);
  }
}
