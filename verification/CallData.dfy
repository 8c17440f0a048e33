/**
 The asynchronous server: heap-allocated CallData objects that respawn themselves, the
 gRPC runtime that arms them and completes their calls, and worker threads that share one
 completion queue. Every status write, allocation, publication and deletion is a step of its
 own, and the threads and the runtime interleave freely.

 Addresses of deleted objects may be handed out again, and the queue hands out its events
 in any order.
 */
module CallData {
  import opened Options

  // The address of a CallData object, which is also the tag of its events.
  type Tag = nat

  datatype Status = CREATE | PROCESS | FINISH

  datatype Kind = Request | Completion

  // Who may touch an object next. A history variable: no step tests it.
  datatype Place = AtThread(t: nat) | Armed | Queued(kind: Kind) | Sending

  // `rid` numbers the request the runtime has put into the object. `replaced` says whether its
  // successor has been allocated; like `place` it is history.
  datatype Call = Call(status: Status, rid: Option<nat>, reply: string, place: Place, replaced: bool)

  datatype Event = Event(tag: Tag, kind: Kind)

  // A request and the object it arrived in.
  datatype Incoming = Incoming(tag: Tag, body: string)

  // Where a constructor returns to: the event loop, or the middle of `Proceed` for another object.
  datatype Cont = ToLoop | ToServe(tag: Tag)

  datatype Pc =
    | Boot                                  // about to allocate the thread's first object
    | Constructed(tag: Tag, cont: Cont)     // status CREATE; about to write PROCESS
    | Marked(tag: Tag, cont: Cont)          // about to call Requestcall
    | Poll                                  // about to call Next
    | Popped(tag: Tag, kind: Kind)          // about to test the status; the kind is history
    | Spawning(tag: Tag)                    // about to allocate the successor
    | Serving(tag: Tag)                     // about to run the handler and set the reply
    | Served(tag: Tag)                      // about to write FINISH
    | Finishing(tag: Tag)                   // about to call Finish
    | Deleting(tag: Tag)                    // past the assertion, about to delete
    | Crashed                               // touched a dead object, or the assertion failed

  datatype State = State(threads: seq<Pc>,
                         calls: map<Tag, Call>,
                         armed: multiset<Tag>,         // registered with the runtime
                         queue: multiset<Event>,
                         sending: multiset<Tag>,       // replies the runtime is sending
                         accepted: seq<Incoming>,      // the requests so far
                         finished: multiset<nat>,      // requests for which Finish was called
                         answers: map<nat, string>,    // with which reply
                         retired: multiset<nat>,       // requests whose object was deleted
                         served: nat)                  // the counter grpc_recv_num

  // Six worker threads.
  const THREADS := 6

  predicate Init(s: State) {
    && s.threads == seq(THREADS, _ => Boot)
    && s.calls == map[] && s.armed == multiset{} && s.queue == multiset{} && s.sending == multiset{}
    && s.accepted == [] && s.finished == multiset{} && s.answers == map[] && s.retired == multiset{} && s.served == 0
  }

  datatype Step =
    | Run(t: nat)                          // thread t takes its next step
    | Alloc(t: nat, tag: Tag)              // thread t's `new` returns this address
    | Next(t: nat, event: Event)           // thread t's call to Next returns this event
    | Handle(t: nat, reply: string)        // thread t's handler computes this response
    | Arrive(tag: Tag, body: string)       // a request arrives at an armed object
    | Deliver(tag: Tag)                    // a reply is out: its completion is queued

  predicate Allocates(pc: Pc) {
    pc == Boot || pc.Spawning?
  }

  // `serves(body, reply)` says that the handler may answer `body` with `reply`.
  predicate Enabled(s: State, step: Step, serves: (string, string) -> bool) {
    match step
    case Run(t) =>
      t < |s.threads| && !Allocates(s.threads[t]) && s.threads[t] !in {Poll, Crashed} && !s.threads[t].Serving?
    case Alloc(t, tag) => t < |s.threads| && Allocates(s.threads[t]) && tag !in s.calls
    case Next(t, event) => t < |s.threads| && s.threads[t] == Poll && event in s.queue
    case Handle(t, reply) =>
      && t < |s.threads| && s.threads[t].Serving?
      && (Body(s, s.threads[t].tag).Some? ==> serves(Body(s, s.threads[t].tag).value, reply))
    case Arrive(tag, _) => tag in s.armed
    case Deliver(tag) => tag in s.sending
  }

  // The request body in a live object.
  function Body(s: State, tag: Tag): Option<string> {
    if tag in s.calls && s.calls[tag].rid.Some? && s.calls[tag].rid.value < |s.accepted| then
      Some(s.accepted[s.calls[tag].rid.value].body)
    else None
  }

  function At(s: State, t: nat, pc: Pc): State
    requires t < |s.threads|
  {
    s.(threads := s.threads[t := pc])
  }

  function Return(cont: Cont): Pc {
    match cont
    case ToLoop => Poll
    case ToServe(tag) => Serving(tag)
  }

  function NewCall(t: nat): Call {
    Call(CREATE, None, "", AtThread(t), false)
  }

  function Update(s: State, tag: Tag, call: Call): State {
    s.(calls := s.calls[tag := call])
  }

  // The next step of thread t, where it involves no choice.
  function RunThread(s: State, t: nat): State
    requires t < |s.threads|
  {
    match s.threads[t]
    case Constructed(tag, cont) =>
      if tag !in s.calls then At(s, t, Crashed)
      else Update(At(s, t, Marked(tag, cont)), tag, s.calls[tag].(status := PROCESS))
    case Marked(tag, cont) =>
      if tag !in s.calls then At(s, t, Crashed)
      else
        Update(At(s, t, Return(cont)), tag, s.calls[tag].(place := Armed)).(armed := s.armed + multiset{tag})
    case Popped(tag, _) =>
      if tag !in s.calls then At(s, t, Crashed)
      else
        At(s, t, match s.calls[tag].status
                 case CREATE => Constructed(tag, ToLoop)
                 case PROCESS => Spawning(tag)
                 case FINISH => Deleting(tag))
    case Served(tag) =>
      if tag !in s.calls then At(s, t, Crashed)
      else Update(At(s, t, Finishing(tag)), tag, s.calls[tag].(status := FINISH))
    case Finishing(tag) =>
      if tag !in s.calls || s.calls[tag].rid.None? then At(s, t, Crashed)
      else
        var rid := s.calls[tag].rid.value;
        Update(At(s, t, Poll), tag, s.calls[tag].(place := Sending))
          .(sending := s.sending + multiset{tag},
            finished := s.finished + multiset{rid},
            answers := s.answers[rid := s.calls[tag].reply])
    case Deleting(tag) =>
      if tag !in s.calls || s.calls[tag].rid.None? then At(s, t, Crashed)
      else At(s, t, Poll).(calls := s.calls - {tag}, retired := s.retired + multiset{s.calls[tag].rid.value})
    case _ => s
  }

  function Apply(s: State, step: Step, serves: (string, string) -> bool): State
    requires Enabled(s, step, serves)
  {
    match step
    case Run(t) => RunThread(s, t)
    case Alloc(t, tag) =>
      (match s.threads[t]
       case Spawning(parent) =>
         if parent !in s.calls then At(s, t, Crashed)
         else
           Update(Update(At(s, t, Constructed(tag, ToServe(parent))), parent, s.calls[parent].(replaced := true)),
                  tag, NewCall(t))
       case _ => Update(At(s, t, Constructed(tag, ToLoop)), tag, NewCall(t)))
    case Next(t, event) =>
      var s' := At(s, t, Popped(event.tag, event.kind)).(queue := s.queue - multiset{event});
      if event.tag in s.calls then Update(s', event.tag, s.calls[event.tag].(place := AtThread(t))) else s'
    case Handle(t, reply) =>
      var tag := s.threads[t].tag;
      if tag !in s.calls then At(s, t, Crashed)
      else Update(At(s, t, Served(tag)), tag, s.calls[tag].(reply := reply)).(served := s.served + 1)
    case Arrive(tag, body) =>
      var s' := s.(armed := s.armed - multiset{tag}, accepted := s.accepted + [Incoming(tag, body)],
                   queue := s.queue + multiset{Event(tag, Request)});
      if tag in s.calls then
        Update(s', tag, s.calls[tag].(rid := Some(|s.accepted|), place := Queued(Request)))
      else s'
    case Deliver(tag) =>
      var s' := s.(sending := s.sending - multiset{tag}, queue := s.queue + multiset{Event(tag, Completion)});
      if tag in s.calls then Update(s', tag, s.calls[tag].(place := Queued(Completion))) else s'
  }

  function Exec(s: State, steps: seq<Step>, serves: (string, string) -> bool): Option<State>
    decreases |steps|
  {
    if steps == [] then Some(s)
    else if !Enabled(s, steps[0], serves) then None
    else Exec(Apply(s, steps[0], serves), steps[1..], serves)
  }

  // ---------------------------------------------------------------- ownership

  // The objects a thread will still touch.
  function Holds(pc: Pc): set<Tag> {
    match pc
    case Boot => {}
    case Poll => {}
    case Crashed => {}
    case Constructed(tag, cont) => {tag} + Waiting(cont)
    case Marked(tag, cont) => {tag} + Waiting(cont)
    case _ => {pc.tag}
  }

  function Waiting(cont: Cont): set<Tag> {
    match cont
    case ToLoop => {}
    case ToServe(tag) => {tag}
  }

  // What the program point says about the object it is working on.
  predicate Suits(pc: Pc, tag: Tag, c: Call) {
    match pc
    case Constructed(o, cont) =>
      if tag == o then c.status == CREATE && c.rid.None? && !c.replaced else InProcess(c, true)
    case Marked(o, cont) =>
      if tag == o then c.status == PROCESS && c.rid.None? && !c.replaced else InProcess(c, true)
    case Popped(_, kind) => if kind == Request then InProcess(c, false) else Done(c)
    case Spawning(_) => InProcess(c, false)
    case Serving(_) => InProcess(c, true)
    case Served(_) => InProcess(c, true)
    case Finishing(_) => Done(c)
    case Deleting(_) => Done(c)
    case _ => false
  }

  predicate InProcess(c: Call, replaced: bool) {
    c.status == PROCESS && c.rid.Some? && c.replaced == replaced
  }

  predicate Done(c: Call) {
    c.status == FINISH && c.rid.Some? && c.replaced
  }

  // What a place outside the threads says.
  predicate Stands(c: Call) {
    match c.place
    case AtThread(_) => true
    case Armed => c.status == PROCESS && c.rid.None? && !c.replaced
    case Queued(kind) => if kind == Request then InProcess(c, false) else Done(c)
    case Sending => Done(c)
  }

  predicate Distinct(pc: Pc) {
    (pc.Constructed? || pc.Marked?) && pc.cont.ToServe? ==> pc.tag != pc.cont.tag
  }

  // Thread t at pc holds exactly the objects that are placed with it, each as pc expects it.
  ghost predicate ThreadOk(t: nat, pc: Pc, calls: map<Tag, Call>) {
    && pc != Crashed && Distinct(pc)
    && (forall o :: o in Holds(pc) ==> o in calls && calls[o].place == AtThread(t) && Suits(pc, o, calls[o]))
    && (forall o :: o in calls && calls[o].place == AtThread(t) ==> o in Holds(pc))
  }

  ghost predicate CallsOk(calls: map<Tag, Call>, threads: nat) {
    forall o :: o in calls ==> Stands(calls[o]) && (calls[o].place.AtThread? ==> calls[o].place.t < threads)
  }

  // What the runtime knows of each object agrees with its place; nothing is known of dead objects.
  ghost predicate CountsOk(s: State) {
    && (forall o :: s.armed[o] == if Placed(s.calls, o, Armed) then 1 else 0)
    && (forall o :: s.sending[o] == if Placed(s.calls, o, Sending) then 1 else 0)
    && (forall e :: s.queue[e] == if Placed(s.calls, e.tag, Queued(e.kind)) then 1 else 0)
  }

  predicate Placed(calls: map<Tag, Call>, o: Tag, place: Place) {
    o in calls && calls[o].place == place
  }

  ghost predicate Owned(s: State) {
    && (forall t :: 0 <= t < |s.threads| ==> ThreadOk(t, s.threads[t], s.calls))
    && CallsOk(s.calls, |s.threads|)
    && CountsOk(s)
  }

  // Thread t touched nothing but `touched`, none of which is placed with another thread.
  ghost predicate Only(t: nat, touched: set<Tag>, calls: map<Tag, Call>, calls': map<Tag, Call>) {
    && (forall o :: o !in touched ==> (o in calls <==> o in calls') && (o in calls ==> calls[o] == calls'[o]))
    && (forall o :: o in touched && o in calls && calls[o].place.AtThread? ==> calls[o].place.t == t)
    && (forall o :: o in touched && o in calls' && calls'[o].place.AtThread? ==> calls'[o].place.t == t)
  }

  lemma OtherThread(u: nat, pc: Pc, t: nat, touched: set<Tag>, calls: map<Tag, Call>, calls': map<Tag, Call>)
    requires ThreadOk(u, pc, calls) && u != t && Only(t, touched, calls, calls')
    ensures ThreadOk(u, pc, calls')
  {
  }

  // Thread t moves; the other threads keep their ground.
  lemma Moved(s: State, s': State, t: nat, touched: set<Tag>)
    requires Owned(s) && t < |s.threads| && Only(t, touched, s.calls, s'.calls)
    requires |s'.threads| == |s.threads| && s'.threads == s.threads[t := s'.threads[t]]
    requires ThreadOk(t, s'.threads[t], s'.calls)
    requires CallsOk(s'.calls, |s.threads|) && CountsOk(s')
    ensures Owned(s')
  {
    forall u | 0 <= u < |s'.threads| ensures ThreadOk(u, s'.threads[u], s'.calls) {
      if u != t {
        OtherThread(u, s.threads[u], t, touched, s.calls, s'.calls);
      }
    }
  }

  // A thread rewrites an object it holds, and keeps it.
  lemma Rewritten(s: State, t: nat, pc': Pc, tag: Tag, c': Call)
    requires Owned(s) && t < |s.threads| && tag in Holds(s.threads[t])
    requires c'.place == AtThread(t) && Holds(pc') == Holds(s.threads[t]) && pc' != Crashed && Distinct(pc')
    requires forall o :: o in Holds(pc') && o != tag && o in s.calls ==>
               (Suits(s.threads[t], o, s.calls[o]) ==> Suits(pc', o, s.calls[o]))
    requires Suits(pc', tag, c')
    ensures Owned(Update(At(s, t, pc'), tag, c'))
  {
    assert ThreadOk(t, s.threads[t], s.calls);
    var s' := Update(At(s, t, pc'), tag, c');
    forall o, place: Place | !place.AtThread?
      ensures Placed(s'.calls, o, place) <==> Placed(s.calls, o, place)
    {
    }
    Moved(s, s', t, {tag});
  }

  // A thread gives up an object: to the runtime, or to nobody.
  lemma GivenUp(s: State, t: nat, pc': Pc, tag: Tag, s': State)
    requires Owned(s) && t < |s.threads| && tag in Holds(s.threads[t])
    requires Holds(pc') == Holds(s.threads[t]) - {tag} && pc' != Crashed && Distinct(pc')
    requires forall o :: o in Holds(pc') && o in s.calls ==>
               (Suits(s.threads[t], o, s.calls[o]) ==> Suits(pc', o, s.calls[o]))
    requires s'.threads == s.threads[t := pc']
    requires s'.calls == s.calls - {tag}
          || (tag in s'.calls && s'.calls == s.calls[tag := s'.calls[tag]]
              && !s'.calls[tag].place.AtThread? && Stands(s'.calls[tag]))
    requires CountsOk(s')
    ensures Owned(s')
  {
    assert ThreadOk(t, s.threads[t], s.calls);
    Moved(s, s', t, {tag});
  }

  lemma RunMarked(s: State, t: nat)
    requires Owned(s) && t < |s.threads| && s.threads[t].Marked?
    ensures Owned(RunThread(s, t))
  {
    assert ThreadOk(t, s.threads[t], s.calls);
    var tag, s' := s.threads[t].tag, RunThread(s, t);
    assert tag in Holds(s.threads[t]);
    GivenUp(s, t, Return(s.threads[t].cont), tag, s');
  }

  lemma RunFinishing(s: State, t: nat)
    requires Owned(s) && t < |s.threads| && s.threads[t].Finishing?
    ensures Owned(RunThread(s, t))
  {
    assert ThreadOk(t, s.threads[t], s.calls);
    assert s.threads[t].tag in Holds(s.threads[t]);
    Dispatched(s, t, s.threads[t].tag, RunThread(s, t));
  }

  lemma Dispatched(s: State, t: nat, tag: Tag, s': State)
    requires Owned(s) && t < |s.threads| && s.threads[t] == Finishing(tag) && tag in s.calls
    requires s.calls[tag].place == AtThread(t) && Done(s.calls[tag])
    requires s'.threads == s.threads[t := Poll] && s'.calls == s.calls[tag := s.calls[tag].(place := Sending)]
    requires s'.armed == s.armed && s'.queue == s.queue && s'.sending == s.sending + multiset{tag}
    ensures Owned(s')
  {
    SendingCounts(s, s', tag);
    GivenUp(s, t, Poll, tag, s');
  }

  lemma SendingCounts(s: State, s': State, tag: Tag)
    requires CountsOk(s) && s'.armed == s.armed && s'.queue == s.queue && s'.sending == s.sending + multiset{tag}
    requires tag in s.calls && s.calls[tag].place.AtThread?
    requires s'.calls == s.calls[tag := s.calls[tag].(place := Sending)]
    ensures CountsOk(s')
  {
  }

  lemma RunDeleting(s: State, t: nat)
    requires Owned(s) && t < |s.threads| && s.threads[t].Deleting?
    ensures Owned(RunThread(s, t))
  {
    assert ThreadOk(t, s.threads[t], s.calls);
    var tag, s' := s.threads[t].tag, RunThread(s, t);
    assert tag in Holds(s.threads[t]);
    GivenUp(s, t, Poll, tag, s');
  }

  lemma RunInPlace(s: State, t: nat)
    requires Owned(s) && t < |s.threads|
    requires s.threads[t].Constructed? || s.threads[t].Popped? || s.threads[t].Served?
    ensures Owned(RunThread(s, t))
  {
    var pc := s.threads[t];
    assert ThreadOk(t, pc, s.calls);
    assert pc.tag in Holds(pc);
    var c := s.calls[pc.tag];
    match pc
    case Constructed(tag, cont) =>
      Rewritten(s, t, Marked(tag, cont), tag, c.(status := PROCESS));
    case Popped(tag, kind) =>
      Rewritten(s, t, if c.status == PROCESS then Spawning(tag) else Deleting(tag), tag, c);
      assert s.calls[tag := c] == s.calls;
    case Served(tag) =>
      Rewritten(s, t, Finishing(tag), tag, c.(status := FINISH));
  }

  lemma RunOwned(s: State, t: nat, serves: (string, string) -> bool)
    requires Owned(s) && Enabled(s, Run(t), serves)
    ensures Owned(Apply(s, Run(t), serves))
  {
    match s.threads[t]
    case Marked(_, _) => RunMarked(s, t);
    case Finishing(_) => RunFinishing(s, t);
    case Deleting(_) => RunDeleting(s, t);
    case _ => RunInPlace(s, t);
  }

  // A thread that holds nothing takes up an object that no thread has.
  lemma TakenUp(s: State, t: nat, pc': Pc, tag: Tag, s': State)
    requires Owned(s) && t < |s.threads| && Holds(s.threads[t]) == {}
    requires tag in s.calls ==> !s.calls[tag].place.AtThread?
    requires Holds(pc') == {tag} && pc' != Crashed && Distinct(pc')
    requires s'.threads == s.threads[t := pc'] && tag in s'.calls && s'.calls == s.calls[tag := s'.calls[tag]]
    requires s'.calls[tag].place == AtThread(t) && Suits(pc', tag, s'.calls[tag])
    requires CountsOk(s')
    ensures Owned(s')
  {
    assert ThreadOk(t, s.threads[t], s.calls);
    Moved(s, s', t, {tag});
  }

  // A thread that holds one object allocates another.
  lemma Spawned(s: State, t: nat, parent: Tag, tag: Tag, s': State)
    requires Owned(s) && t < |s.threads| && s.threads[t] == Spawning(parent) && tag !in s.calls
    requires parent in s.calls
    requires s'.threads == s.threads[t := Constructed(tag, ToServe(parent))]
    requires s'.calls == s.calls[parent := s.calls[parent].(replaced := true)][tag := NewCall(t)]
    requires CountsOk(s')
    ensures Owned(s')
  {
    assert ThreadOk(t, s.threads[t], s.calls);
    assert parent in Holds(s.threads[t]);
    Moved(s, s', t, {tag, parent});
  }

  lemma BootOwned(s: State, t: nat, tag: Tag, serves: (string, string) -> bool)
    requires Owned(s) && Enabled(s, Alloc(t, tag), serves) && s.threads[t] == Boot
    ensures Owned(Apply(s, Alloc(t, tag), serves))
  {
    var s' := Apply(s, Alloc(t, tag), serves);
    SameCounts(s, s', {tag});
    TakenUp(s, t, Constructed(tag, ToLoop), tag, s');
  }

  lemma SpawnOwned(s: State, t: nat, tag: Tag, serves: (string, string) -> bool)
    requires Owned(s) && Enabled(s, Alloc(t, tag), serves) && s.threads[t].Spawning?
    ensures Owned(Apply(s, Alloc(t, tag), serves))
  {
    var s' := Apply(s, Alloc(t, tag), serves);
    var parent := s.threads[t].tag;
    assert ThreadOk(t, s.threads[t], s.calls);
    assert parent in Holds(s.threads[t]);
    SameCounts(s, s', {tag, parent});
    Spawned(s, t, parent, tag, s');
  }

  // Objects that were and are with threads do not concern the runtime.
  lemma SameCounts(s: State, s': State, touched: set<Tag>)
    requires CountsOk(s) && s'.armed == s.armed && s'.sending == s.sending && s'.queue == s.queue
    requires forall o :: o !in touched ==>
               (o in s.calls <==> o in s'.calls) && (o in s.calls ==> s.calls[o] == s'.calls[o])
    requires forall o :: o in touched ==>
               (o in s.calls ==> s.calls[o].place.AtThread?) && (o in s'.calls ==> s'.calls[o].place.AtThread?)
    ensures CountsOk(s')
  {
  }

  lemma HandleOwned(s: State, t: nat, reply: string, serves: (string, string) -> bool)
    requires Owned(s) && Enabled(s, Handle(t, reply), serves)
    ensures Owned(Apply(s, Handle(t, reply), serves))
  {
    var tag := s.threads[t].tag;
    assert ThreadOk(t, s.threads[t], s.calls);
    assert tag in Holds(s.threads[t]);
    Rewritten(s, t, Served(tag), tag, s.calls[tag].(reply := reply));
    var s1 := Update(At(s, t, Served(tag)), tag, s.calls[tag].(reply := reply));
    assert Apply(s, Handle(t, reply), serves) == s1.(served := s.served + 1);
  }

  lemma NextCounts(s: State, t: nat, event: Event, serves: (string, string) -> bool)
    requires CountsOk(s) && Enabled(s, Next(t, event), serves) && Placed(s.calls, event.tag, Queued(event.kind))
    ensures CountsOk(Apply(s, Next(t, event), serves))
  {
    var s' := Apply(s, Next(t, event), serves);
    forall o, place: Place | !place.AtThread?
      ensures Placed(s'.calls, o, place) <==>
                Placed(s.calls, o, place) && !(o == event.tag && place == Queued(event.kind))
    {
    }
    assert s'.queue == s.queue - multiset{event};
  }

  lemma NextOwned(s: State, t: nat, event: Event, serves: (string, string) -> bool)
    requires Owned(s) && Enabled(s, Next(t, event), serves)
    ensures Owned(Apply(s, Next(t, event), serves))
  {
    var s' := Apply(s, Next(t, event), serves);
    assert ThreadOk(t, s.threads[t], s.calls);
    assert Placed(s.calls, event.tag, Queued(event.kind));
    NextCounts(s, t, event, serves);
    TakenUp(s, t, Popped(event.tag, event.kind), event.tag, s');
  }

  // The runtime moves an object it has.
  lemma Relocated(s: State, s': State, tag: Tag)
    requires Owned(s) && s'.threads == s.threads && tag in s.calls && !s.calls[tag].place.AtThread?
    requires tag in s'.calls && s'.calls == s.calls[tag := s'.calls[tag]]
    requires !s'.calls[tag].place.AtThread? && Stands(s'.calls[tag]) && CountsOk(s')
    ensures Owned(s')
  {
    forall u | 0 <= u < |s'.threads| ensures ThreadOk(u, s'.threads[u], s'.calls) {
      OtherThread(u, s.threads[u], |s.threads|, {tag}, s.calls, s'.calls);
    }
  }

  lemma ArriveOwned(s: State, tag: Tag, body: string, serves: (string, string) -> bool)
    requires Owned(s) && Enabled(s, Arrive(tag, body), serves)
    ensures Owned(Apply(s, Arrive(tag, body), serves))
  {
    assert Placed(s.calls, tag, Armed);
    Relocated(s, Apply(s, Arrive(tag, body), serves), tag);
  }

  lemma DeliverOwned(s: State, tag: Tag, serves: (string, string) -> bool)
    requires Owned(s) && Enabled(s, Deliver(tag), serves)
    ensures Owned(Apply(s, Deliver(tag), serves))
  {
    assert Placed(s.calls, tag, Sending);
    Relocated(s, Apply(s, Deliver(tag), serves), tag);
  }

  lemma StepOwned(s: State, step: Step, serves: (string, string) -> bool)
    requires Owned(s) && Enabled(s, step, serves)
    ensures Owned(Apply(s, step, serves))
  {
    match step
    case Run(t) => RunOwned(s, t, serves);
    case Alloc(t, tag) =>
      if s.threads[t] == Boot { BootOwned(s, t, tag, serves); } else { SpawnOwned(s, t, tag, serves); }
    case Next(t, event) => NextOwned(s, t, event, serves);
    case Handle(t, reply) => HandleOwned(s, t, reply, serves);
    case Arrive(tag, body) => ArriveOwned(s, tag, body, serves);
    case Deliver(tag) => DeliverOwned(s, tag, serves);
  }
}
