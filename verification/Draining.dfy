/**
 Counting in the asynchronous server: how many objects listen and serve in every state, and why
 the work in hand runs out.
 */
module Draining {
  import opened CallData
  import opened Service

  function Total(threads: seq<Pc>, weight: Pc -> nat): nat {
    if threads == [] then 0 else weight(threads[0]) + Total(threads[1..], weight)
  }

  lemma {:induction false} TotalAt(threads: seq<Pc>, t: nat, pc: Pc, weight: Pc -> nat)
    requires t < |threads|
    ensures Total(threads[t := pc], weight) + weight(threads[t]) == Total(threads, weight) + weight(pc)
  {
    if t == 0 {
      assert threads[t := pc][1..] == threads[1..];
    } else {
      TotalAt(threads[1..], t - 1, pc, weight);
      assert threads[t := pc][1..] == threads[1..][t - 1 := pc];
    }
  }

  // ---------------------------------------------------------------- conservation

  // A thread that has allocated its first object.
  const STARTED: Pc -> nat := (pc: Pc) => if pc == Boot then 0 else 1

  // A thread between running the handler and calling Finish.
  const ANSWERING: Pc -> nat := (pc: Pc) => if pc.Served? || pc.Finishing? then 1 else 0

  // Objects whose successor is still to come: not yet armed, armed, or with a fresh request.
  function Listening(calls: map<Tag, Call>): set<Tag> {
    set o | o in calls && !calls[o].replaced
  }

  function InService(calls: map<Tag, Call>): set<Tag> {
    set o | o in calls && calls[o].replaced
  }

  function WithRequest(calls: map<Tag, Call>): set<Tag> {
    set o | o in calls && calls[o].rid.Some?
  }

  ghost predicate Conserved(s: State) {
    && |s.threads| == THREADS
    && |Listening(s.calls)| == Total(s.threads, STARTED)
    && |s.accepted| == |s.retired| + |WithRequest(s.calls)|
    && s.served == |s.finished| + Total(s.threads, ANSWERING)
  }

  lemma InitConserved(s: State)
    requires Init(s)
    ensures Conserved(s)
  {
    BootTotals(s.threads);
  }

  lemma {:induction false} BootTotals(threads: seq<Pc>)
    requires forall t :: 0 <= t < |threads| ==> threads[t] == Boot
    ensures Total(threads, STARTED) == 0 && Total(threads, ANSWERING) == 0
  {
    if threads != [] {
      BootTotals(threads[1..]);
    }
  }

  // Rewriting an object without touching its request or marking it replaced.
  lemma SetsKept(calls: map<Tag, Call>, tag: Tag, c: Call)
    requires tag in calls && c.replaced == calls[tag].replaced && (c.rid.Some? <==> calls[tag].rid.Some?)
    ensures Listening(calls[tag := c]) == Listening(calls) && WithRequest(calls[tag := c]) == WithRequest(calls)
  {
  }

  // Allocating a successor moves the parent from listening to being served, and adds one listener.
  lemma SpawnSets(calls: map<Tag, Call>, parent: Tag, tag: Tag, c: Call)
    requires parent in calls && tag !in calls && !calls[parent].replaced && !c.replaced && c.rid.None?
    ensures
      var calls' := calls[parent := calls[parent].(replaced := true)][tag := c];
      |Listening(calls')| == |Listening(calls)| && WithRequest(calls') == WithRequest(calls)
  {
    var calls' := calls[parent := calls[parent].(replaced := true)][tag := c];
    assert Listening(calls') == Listening(calls) - {parent} + {tag};
  }

  lemma StepConserved(s: State, step: Step, serves: (string, string) -> bool)
    requires Good(s, serves) && Conserved(s) && Enabled(s, step, serves)
    ensures Conserved(Apply(s, step, serves))
  {
    match step
    case Run(t) =>
      HeldTag(s, t);
      RunConserved(s, t);
    case Alloc(t, tag) =>
      if s.threads[t].Spawning? { HeldTag(s, t); }
      AllocConserved(s, t, tag, serves);
    case Next(t, event) =>
      assert Placed(s.calls, event.tag, Queued(event.kind));
      NextConserved(s, t, event, serves);
    case Handle(t, reply) =>
      HeldTag(s, t);
      HandleConserved(s, t, reply, serves);
    case Arrive(tag, body) =>
      assert Placed(s.calls, tag, Armed);
      ArriveConserved(s, tag, body, serves);
    case Deliver(tag) =>
      assert Placed(s.calls, tag, Sending);
      DeliverConserved(s, tag, serves);
  }

  lemma NextConserved(s: State, t: nat, event: Event, serves: (string, string) -> bool)
    requires Conserved(s) && Enabled(s, Next(t, event), serves) && event.tag in s.calls
    ensures Conserved(Apply(s, Next(t, event), serves))
  {
    ThreadMoves(s.threads, t, Popped(event.tag, event.kind));
    SetsKept(s.calls, event.tag, s.calls[event.tag].(place := AtThread(t)));
  }

  lemma HandleConserved(s: State, t: nat, reply: string, serves: (string, string) -> bool)
    requires Conserved(s) && Enabled(s, Handle(t, reply), serves) && s.threads[t].tag in s.calls
    ensures Conserved(Apply(s, Handle(t, reply), serves))
  {
    var tag := s.threads[t].tag;
    ThreadMoves(s.threads, t, Served(tag));
    SetsKept(s.calls, tag, s.calls[tag].(reply := reply));
  }

  lemma ArriveConserved(s: State, tag: Tag, body: string, serves: (string, string) -> bool)
    requires Conserved(s) && Enabled(s, Arrive(tag, body), serves) && tag in s.calls && s.calls[tag].rid.None?
    ensures Conserved(Apply(s, Arrive(tag, body), serves))
  {
    var s' := Apply(s, Arrive(tag, body), serves);
    assert Listening(s'.calls) == Listening(s.calls);
    assert WithRequest(s'.calls) == WithRequest(s.calls) + {tag};
  }

  lemma DeliverConserved(s: State, tag: Tag, serves: (string, string) -> bool)
    requires Conserved(s) && Enabled(s, Deliver(tag), serves) && tag in s.calls
    ensures Conserved(Apply(s, Deliver(tag), serves))
  {
    SetsKept(s.calls, tag, s.calls[tag].(place := Queued(Completion)));
  }

  lemma ThreadMoves(threads: seq<Pc>, t: nat, pc: Pc)
    requires t < |threads|
    ensures Total(threads[t := pc], STARTED) + STARTED(threads[t]) == Total(threads, STARTED) + STARTED(pc)
    ensures Total(threads[t := pc], ANSWERING) + ANSWERING(threads[t]) == Total(threads, ANSWERING) + ANSWERING(pc)
  {
    TotalAt(threads, t, pc, STARTED);
    TotalAt(threads, t, pc, ANSWERING);
  }

  lemma RunConserved(s: State, t: nat)
    requires Conserved(s) && t < |s.threads| && !Allocates(s.threads[t]) && !s.threads[t].Serving?
    requires s.threads[t] !in {Poll, Crashed} && HeldOk(s, t)
    ensures Conserved(RunThread(s, t))
  {
    var pc, s' := s.threads[t], RunThread(s, t);
    var tag := pc.tag;
    ThreadMoves(s.threads, t, s'.threads[t]);
    if pc.Deleting? {
      assert Listening(s'.calls) == Listening(s.calls);
      assert WithRequest(s'.calls) == WithRequest(s.calls) - {tag};
    } else if pc.Popped? {
      assert s'.calls == s.calls;
    } else {
      SetsKept(s.calls, tag, s'.calls[tag]);
    }
  }

  lemma AllocConserved(s: State, t: nat, tag: Tag, serves: (string, string) -> bool)
    requires Conserved(s) && Enabled(s, Alloc(t, tag), serves)
    requires s.threads[t].Spawning? ==> HeldOk(s, t)
    ensures Conserved(Apply(s, Alloc(t, tag), serves))
  {
    if s.threads[t] == Boot {
      ThreadMoves(s.threads, t, Constructed(tag, ToLoop));
      FirstSets(s.calls, tag, NewCall(t));
    } else {
      ThreadMoves(s.threads, t, Constructed(tag, ToServe(s.threads[t].tag)));
      SpawnSets(s.calls, s.threads[t].tag, tag, NewCall(t));
    }
  }

  // A thread's first object adds a listener.
  lemma FirstSets(calls: map<Tag, Call>, tag: Tag, c: Call)
    requires tag !in calls && !c.replaced && c.rid.None?
    ensures |Listening(calls[tag := c])| == |Listening(calls)| + 1 && WithRequest(calls[tag := c]) == WithRequest(calls)
  {
    assert Listening(calls[tag := c]) == Listening(calls) + {tag};
  }

  lemma {:induction false} RunsConserved(s: State, steps: seq<Step>, serves: (string, string) -> bool)
    requires Good(s, serves) && Conserved(s) && Exec(s, steps, serves).Some?
    ensures Conserved(Exec(s, steps, serves).value)
    decreases |steps|
  {
    if steps != [] {
      StepGood(s, steps[0], serves);
      StepConserved(s, steps[0], serves);
      RunsConserved(Apply(s, steps[0], serves), steps[1..], serves);
    }
  }

  // Objects that hold a request whose replacement is still to come.
  function Unreplaced(calls: map<Tag, Call>): set<Tag> {
    set o | o in calls && calls[o].rid.Some? && !calls[o].replaced
  }

  // Only an object with a request is ever marked as replaced.
  lemma ReplacedHasRequest(s: State, o: Tag)
    requires Owned(s) && o in s.calls && s.calls[o].replaced
    ensures s.calls[o].rid.Some?
  {
    assert Stands(s.calls[o]);
    if s.calls[o].place.AtThread? {
      var t := s.calls[o].place.t;
      assert ThreadOk(t, s.threads[t], s.calls);
      assert o in Holds(s.threads[t]);
    }
  }

  lemma ServiceCount(s: State)
    requires Owned(s)
    ensures |s.calls| == |Listening(s.calls)| + |InService(s.calls)|
    ensures |WithRequest(s.calls)| == |InService(s.calls)| + |Unreplaced(s.calls)|
  {
    assert s.calls.Keys == Listening(s.calls) + InService(s.calls);
    forall o | o in InService(s.calls) ensures o in WithRequest(s.calls) { ReplacedHasRequest(s, o); }
    assert WithRequest(s.calls) == InService(s.calls) + Unreplaced(s.calls);
  }

  /** In every reachable state exactly one object listens for each thread that has started; the live
      objects are these and those of the requests accepted and replaced but not retired; every accepted
      request is retired or in a live object; and the counter agrees with the calls of Finish up to
      threads about to make one. */
  lemma ListenersConserved(s: State, steps: seq<Step>, serves: (string, string) -> bool)
    requires Init(s) && Exec(s, steps, serves).Some?
    ensures
      var r := Exec(s, steps, serves).value;
      && |Listening(r.calls)| == Total(r.threads, STARTED) <= 6
      && |r.calls| + |r.retired| + |Unreplaced(r.calls)| == Total(r.threads, STARTED) + |r.accepted|
      && |r.accepted| == |r.retired| + |WithRequest(r.calls)|
      && r.served == |r.finished| + Total(r.threads, ANSWERING)
  {
    InitGood(s, serves);
    InitConserved(s);
    RunsGood(s, steps, serves);
    RunsConserved(s, steps, serves);
    var r := Exec(s, steps, serves).value;
    ServiceCount(r);
    StartedAtMost(r.threads);
  }

  lemma {:induction false} StartedAtMost(threads: seq<Pc>)
    ensures Total(threads, STARTED) <= |threads|
  {
    if threads != [] {
      StartedAtMost(threads[1..]);
    }
  }

  // ---------------------------------------------------------------- draining

  // How far a thread is from waiting for an event again.
  const TO_GO: Pc -> nat := (pc: Pc) =>
    match pc
    case Poll => 0
    case Crashed => 0
    case Boot => 3
    case Constructed(_, cont) => if cont == ToLoop then 2 else 9
    case Marked(_, cont) => if cont == ToLoop then 1 else 8
    case Popped(_, _) => 11
    case Spawning(_) => 10
    case Serving(_) => 7
    case Served(_) => 6
    case Finishing(_) => 5
    case Deleting(_) => 1

  const EVENT := 20

  // What is left to do: unanswered requests, replies being sent, queued events, threads under way.
  function Effort(s: State): nat
    requires |s.finished| <= |s.accepted|
  {
    22 * (|s.accepted| - |s.finished|) + (EVENT + 1) * |s.sending| + EVENT * |s.queue| + Total(s.threads, TO_GO)
  }

  lemma {:induction false} AtMostEach(m: multiset<nat>, n: nat)
    requires forall r: nat :: m[r] <= 1 && (r >= n ==> m[r] == 0)
    ensures |m| <= n
  {
    if n == 0 {
      assert m == multiset{};
    } else if m[n - 1] == 1 {
      AtMostEach(m - multiset{n - 1}, n - 1);
      assert m == m - multiset{n - 1} + multiset{n - 1};
    } else {
      AtMostEach(m, n - 1);
    }
  }

  lemma FinishedBounded(s: State, serves: (string, string) -> bool)
    requires RequestsOk(s, serves)
    ensures |s.finished| <= |s.accepted|
  {
    AtMostEach(s.finished, |s.accepted|);
  }

  /** Without new arrivals every step leaves strictly less to do: allocation cannot go on for ever,
      because constructing an object only arms it. */
  lemma StepDrains(s: State, step: Step, serves: (string, string) -> bool)
    requires Good(s, serves) && Enabled(s, step, serves) && !step.Arrive?
    ensures |s.finished| <= |s.accepted|
    ensures
      var s' := Apply(s, step, serves);
      |s'.finished| <= |s'.accepted| && Effort(s') < Effort(s)
  {
    FinishedBounded(s, serves);
    StepGood(s, step, serves);
    FinishedBounded(Apply(s, step, serves), serves);
    ActorHolds(s, step, serves);
    EffortFalls(s, step, serves);
  }

  // The thread that moves holds its object as its program point expects.
  predicate Acting(s: State, step: Step, serves: (string, string) -> bool)
    requires Enabled(s, step, serves)
  {
    match step
    case Run(t) => HeldOk(s, t)
    case Alloc(t, _) => s.threads[t].Spawning? ==> HeldOk(s, t)
    case Handle(t, _) => HeldOk(s, t)
    case _ => true
  }

  lemma ActorHolds(s: State, step: Step, serves: (string, string) -> bool)
    requires Owned(s) && Enabled(s, step, serves)
    ensures Acting(s, step, serves)
  {
    match step
    case Run(t) => HeldTag(s, t);
    case Alloc(t, _) => if s.threads[t].Spawning? { HeldTag(s, t); }
    case Handle(t, _) => HeldTag(s, t);
    case _ =>
  }

  lemma EffortFalls(s: State, step: Step, serves: (string, string) -> bool)
    requires Enabled(s, step, serves) && !step.Arrive? && Acting(s, step, serves)
    requires |s.finished| <= |s.accepted|
    requires |Apply(s, step, serves).finished| <= |Apply(s, step, serves).accepted|
    ensures Effort(Apply(s, step, serves)) < Effort(s)
  {
    match step
    case Run(t) => if s.threads[t].Finishing? { FinishDrains(s, t); } else { RunDrains(s, t); }
    case Alloc(t, tag) => AllocDrains(s, t, tag, serves);
    case Next(t, event) => NextDrains(s, t, event, serves);
    case Handle(t, reply) => HandleDrains(s, t, reply, serves);
    case Deliver(tag) =>
  }

  lemma AllocDrains(s: State, t: nat, tag: Tag, serves: (string, string) -> bool)
    requires |s.finished| <= |s.accepted| && Enabled(s, Alloc(t, tag), serves)
    requires s.threads[t].Spawning? ==> HeldOk(s, t)
    ensures Effort(Apply(s, Alloc(t, tag), serves)) < Effort(s)
  {
    TotalAt(s.threads, t, Constructed(tag, if s.threads[t] == Boot then ToLoop else ToServe(s.threads[t].tag)), TO_GO);
  }

  lemma NextDrains(s: State, t: nat, event: Event, serves: (string, string) -> bool)
    requires |s.finished| <= |s.accepted| && Enabled(s, Next(t, event), serves)
    ensures Effort(Apply(s, Next(t, event), serves)) < Effort(s)
  {
    TotalAt(s.threads, t, Popped(event.tag, event.kind), TO_GO);
  }

  lemma HandleDrains(s: State, t: nat, reply: string, serves: (string, string) -> bool)
    requires |s.finished| <= |s.accepted| && Enabled(s, Handle(t, reply), serves) && HeldOk(s, t)
    ensures Effort(Apply(s, Handle(t, reply), serves)) < Effort(s)
  {
    TotalAt(s.threads, t, Served(s.threads[t].tag), TO_GO);
  }

  lemma RunDrains(s: State, t: nat)
    requires t < |s.threads| && !Allocates(s.threads[t]) && !s.threads[t].Serving? && !s.threads[t].Finishing?
    requires s.threads[t] !in {Poll, Crashed} && HeldOk(s, t)
    requires |s.finished| <= |s.accepted|
    ensures |RunThread(s, t).finished| <= |RunThread(s, t).accepted| && Effort(RunThread(s, t)) < Effort(s)
  {
    TotalAt(s.threads, t, RunThread(s, t).threads[t], TO_GO);
  }

  lemma FinishDrains(s: State, t: nat)
    requires t < |s.threads| && s.threads[t].Finishing? && HeldOk(s, t)
    requires |s.finished| <= |s.accepted| && |RunThread(s, t).finished| <= |RunThread(s, t).accepted|
    ensures Effort(RunThread(s, t)) < Effort(s)
  {
    TotalAt(s.threads, t, Poll, TO_GO);
  }

  // ---------------------------------------------------------------- the quiet state

  // Nothing can happen but an arrival.
  ghost predicate Quiescent(s: State, serves: (string, string) -> bool) {
    forall step: Step :: !step.Arrive? ==> !Enabled(s, step, serves)
  }

  ghost predicate CanServe(serves: (string, string) -> bool, body: string) {
    exists reply :: serves(body, reply)
  }

  lemma {:induction false} FreshTag(tags: set<Tag>) returns (tag: Tag)
    ensures forall o :: o in tags ==> o < tag
  {
    if tags == {} {
      tag := 0;
    } else {
      var o :| o in tags;
      var above := FreshTag(tags - {o});
      tag := if above <= o then o + 1 else above;
      forall p | p in tags ensures p < tag {
        assert p == o || p in tags - {o};
      }
    }
  }

  lemma AllocEnabled(s: State, t: nat, serves: (string, string) -> bool) returns (tag: Tag)
    requires t < |s.threads| && Allocates(s.threads[t])
    ensures Enabled(s, Alloc(t, tag), serves)
  {
    tag := FreshTag(s.calls.Keys);
  }

  lemma HandleEnabled(s: State, t: nat, serves: (string, string) -> bool) returns (reply: string)
    requires t < |s.threads| && s.threads[t].Serving? && forall body :: CanServe(serves, body)
    ensures Enabled(s, Handle(t, reply), serves)
  {
    var body := Body(s, s.threads[t].tag);
    if body.Some? {
      assert CanServe(serves, body.value);
      reply :| serves(body.value, reply);
    } else {
      reply := "";
    }
  }

  lemma IdleThread(s: State, t: nat, serves: (string, string) -> bool)
    requires Quiescent(s, serves) && (forall body :: CanServe(serves, body)) && t < |s.threads|
    ensures s.threads[t] in {Poll, Crashed}
  {
    if Allocates(s.threads[t]) {
      var tag := AllocEnabled(s, t, serves);
    } else if s.threads[t].Serving? {
      var reply := HandleEnabled(s, t, serves);
    } else {
      assert s.threads[t] !in {Poll, Crashed} ==> Enabled(s, Run(t), serves);
    }
  }

  /** When nothing is left to do, every thread waits in Next, every accepted request has been answered
      and its object deleted, and exactly the listening objects remain: armed, one for each thread. */
  lemma QuietState(s: State, steps: seq<Step>, serves: (string, string) -> bool)
    requires Init(s) && Exec(s, steps, serves).Some? && forall body :: CanServe(serves, body)
    requires Quiescent(Exec(s, steps, serves).value, serves)
    ensures
      var r := Exec(s, steps, serves).value;
      && (forall t :: 0 <= t < |r.threads| ==> r.threads[t] == Poll)
      && r.queue == multiset{} && r.sending == multiset{}
      && (forall o :: o in r.calls ==> r.armed[o] == 1) && |r.calls| == |r.armed| == 6
      && (forall q: nat :: q < |r.accepted| ==> r.finished[q] == 1 && r.retired[q] == 1)
  {
    InitGood(s, serves);
    InitConserved(s);
    RunsGood(s, steps, serves);
    RunsConserved(s, steps, serves);
    var r := Exec(s, steps, serves).value;
    NothingQueued(r, serves);
    AllArmed(r);
    AllRetired(r, serves);
    AllStarted(r.threads);
    assert Listening(r.calls) == r.calls.Keys by {
      forall o | o in r.calls ensures !r.calls[o].replaced { assert Stands(r.calls[o]); }
    }
  }

  predicate NoArrivals(steps: seq<Step>) {
    forall i :: 0 <= i < |steps| ==> !steps[i].Arrive?
  }

  /** No run without arrivals is longer than the effort it starts from. */
  lemma {:induction false} DrainBound(s: State, steps: seq<Step>, serves: (string, string) -> bool)
    requires Good(s, serves) && NoArrivals(steps) && Exec(s, steps, serves).Some?
    ensures |s.finished| <= |s.accepted| && |steps| <= Effort(s)
    decreases |steps|
  {
    FinishedBounded(s, serves);
    if steps != [] {
      StepDrains(s, steps[0], serves);
      StepGood(s, steps[0], serves);
      DrainBound(Apply(s, steps[0], serves), steps[1..], serves);
    }
  }

  lemma ExecFirst(s: State, step: Step, rest: seq<Step>, serves: (string, string) -> bool)
    requires Enabled(s, step, serves)
    ensures Exec(s, [step] + rest, serves) == Exec(Apply(s, step, serves), rest, serves)
  {
    assert ([step] + rest)[1..] == rest;
  }

  lemma SomeStep(s: State, serves: (string, string) -> bool) returns (step: Step)
    requires !Quiescent(s, serves)
    ensures !step.Arrive? && Enabled(s, step, serves)
  {
    step :| !step.Arrive? && Enabled(s, step, serves);
  }

  lemma StepDown(s: State, step: Step, serves: (string, string) -> bool)
    requires Good(s, serves) && Enabled(s, step, serves) && !step.Arrive?
    ensures Good(Apply(s, step, serves), serves)
    ensures |s.finished| <= |s.accepted|
    ensures |Apply(s, step, serves).finished| <= |Apply(s, step, serves).accepted|
    ensures Effort(Apply(s, step, serves)) < Effort(s)
  {
    StepDrains(s, step, serves);
    StepGood(s, step, serves);
  }

  lemma Onward(s: State, serves: (string, string) -> bool) returns (step: Step, s': State)
    requires Good(s, serves) && !Quiescent(s, serves)
    ensures !step.Arrive? && Enabled(s, step, serves) && s' == Apply(s, step, serves) && Good(s', serves)
    ensures |s.finished| <= |s.accepted| && |s'.finished| <= |s'.accepted| && Effort(s') < Effort(s)
  {
    step := SomeStep(s, serves);
    StepDown(s, step, serves);
    s' := Apply(s, step, serves);
  }

  ghost predicate LeadsToQuiet(s: State, steps: seq<Step>, serves: (string, string) -> bool) {
    NoArrivals(steps) && Exec(s, steps, serves).Some? && Quiescent(Exec(s, steps, serves).value, serves)
  }

  lemma StepFirst(s: State, step: Step, rest: seq<Step>, serves: (string, string) -> bool)
    requires !step.Arrive? && Enabled(s, step, serves) && LeadsToQuiet(Apply(s, step, serves), rest, serves)
    ensures LeadsToQuiet(s, [step] + rest, serves)
  {
    ExecFirst(s, step, rest, serves);
  }

  lemma {:induction false} DrainFrom(s: State, effort: nat, serves: (string, string) -> bool)
    returns (steps: seq<Step>)
    requires Good(s, serves) && |s.finished| <= |s.accepted| && effort == Effort(s)
    ensures LeadsToQuiet(s, steps, serves)
    decreases effort
  {
    if Quiescent(s, serves) {
      steps := [];
    } else {
      var step, s' := Onward(s, serves);
      var rest := DrainFrom(s', Effort(s'), serves);
      steps := [step] + rest;
      StepFirst(s, step, rest, serves);
    }
  }

  /** From every reachable state the server can be left alone until nothing is left to do. */
  lemma RunsToQuiet(s: State, serves: (string, string) -> bool) returns (steps: seq<Step>)
    requires Good(s, serves)
    ensures LeadsToQuiet(s, steps, serves)
  {
    FinishedBounded(s, serves);
    steps := DrainFrom(s, Effort(s), serves);
  }

  lemma {:induction false} ExecConcat(s: State, a: seq<Step>, b: seq<Step>, serves: (string, string) -> bool)
    requires Exec(s, a, serves).Some?
    ensures Exec(s, a + b, serves) == Exec(Exec(s, a, serves).value, b, serves)
    decreases |a|
  {
    if a == [] {
      assert a + b == b;
    } else {
      assert a + b == [a[0]] + (a[1..] + b);
      ExecFirst(s, a[0], a[1..] + b, serves);
      ExecConcat(Apply(s, a[0], serves), a[1..], b, serves);
    }
  }

  lemma {:induction false} AcceptedKept(s: State, steps: seq<Step>, serves: (string, string) -> bool)
    requires NoArrivals(steps) && Exec(s, steps, serves).Some?
    ensures Exec(s, steps, serves).value.accepted == s.accepted
    decreases |steps|
  {
    if steps != [] {
      assert Apply(s, steps[0], serves).accepted == s.accepted;
      AcceptedKept(Apply(s, steps[0], serves), steps[1..], serves);
    }
  }

  /** Every run can be continued, without new arrivals, to a state in which each request it accepted has
      been answered once, with a response to its own body, and its object deleted once. */
  lemma EventuallyAnswered(s: State, steps: seq<Step>, serves: (string, string) -> bool) returns (more: seq<Step>)
    requires Init(s) && Exec(s, steps, serves).Some? && forall body :: CanServe(serves, body)
    ensures NoArrivals(more) && Exec(s, steps + more, serves).Some?
    ensures
      var accepted, r := Exec(s, steps, serves).value.accepted, Exec(s, steps + more, serves).value;
      && r.accepted == accepted
      && forall q: nat :: q < |accepted| ==>
           r.finished[q] == r.retired[q] == 1 && q in r.answers && serves(accepted[q].body, r.answers[q])
  {
    InitGood(s, serves);
    RunsGood(s, steps, serves);
    more := RunsToQuiet(Exec(s, steps, serves).value, serves);
    AcceptedKept(Exec(s, steps, serves).value, more, serves);
    ExecConcat(s, steps, more, serves);
    QuietState(s, steps + more, serves);
    AnsweredOnce(s, steps + more, serves);
  }

  lemma NothingQueued(r: State, serves: (string, string) -> bool)
    requires Owned(r) && |r.threads| == THREADS && Quiescent(r, serves) && forall body :: CanServe(serves, body)
    ensures forall t :: 0 <= t < |r.threads| ==> r.threads[t] == Poll
    ensures r.queue == multiset{} && r.sending == multiset{}
  {
    forall t | 0 <= t < |r.threads| ensures r.threads[t] == Poll {
      IdleThread(r, t, serves);
      assert ThreadOk(t, r.threads[t], r.calls);
    }
    forall e ensures e !in r.queue {
      assert !Enabled(r, Next(0, e), serves);
    }
    forall o ensures o !in r.sending {
      assert !Enabled(r, Deliver(o), serves);
    }
  }

  lemma AllArmed(r: State)
    requires Owned(r) && forall t :: 0 <= t < |r.threads| ==> r.threads[t] == Poll
    requires r.queue == multiset{} && r.sending == multiset{}
    ensures forall o :: o in r.calls ==> r.calls[o].place == Armed && r.armed[o] == 1
    ensures |r.armed| == |r.calls|
  {
    forall o | o in r.calls ensures r.calls[o].place == Armed {
      assert r.queue[Event(o, Request)] == r.queue[Event(o, Completion)] == r.sending[o] == 0;
      NoThreadHas(r, o);
    }
    assert r.armed == multiset(r.calls.Keys);
  }

  lemma NoThreadHas(r: State, o: Tag)
    requires Owned(r) && (forall t :: 0 <= t < |r.threads| ==> r.threads[t] == Poll) && o in r.calls
    ensures !r.calls[o].place.AtThread?
  {
    forall t | 0 <= t < |r.threads| ensures r.calls[o].place != AtThread(t) {
      assert ThreadOk(t, r.threads[t], r.calls);
    }
  }

  lemma AllRetired(r: State, serves: (string, string) -> bool)
    requires RequestsOk(r, serves) && CallsOk(r.calls, |r.threads|)
    requires forall o :: o in r.calls ==> r.calls[o].place == Armed
    ensures forall q: nat :: q < |r.accepted| ==> r.finished[q] == 1 && r.retired[q] == 1
  {
    forall q: nat | q < |r.accepted| ensures r.retired[q] == 1 {
      assert InUse(r, q) ==> Stands(r.calls[r.accepted[q].tag]);
    }
  }

  lemma {:induction false} AllStarted(threads: seq<Pc>)
    requires forall t :: 0 <= t < |threads| ==> threads[t] == Poll
    ensures Total(threads, STARTED) == |threads|
  {
    if threads != [] {
      AllStarted(threads[1..]);
    }
  }
}
