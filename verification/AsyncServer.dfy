/**
 The code of one worker thread, statement by statement, with the rest of the server running in
 between. `others(k)` is whatever the other threads, the clients and the runtime do before the
 thread's k-th step.
 */
module AsyncServer {
  import opened Options
  import opened CallData
  import opened Service
  import opened Draining

  // The step is not thread t's.
  predicate Foreign(step: Step, t: nat) {
    match step
    case Run(u) => u != t
    case Alloc(u, _) => u != t
    case Next(u, _) => u != t
    case Handle(u, _) => u != t
    case _ => true
  }

  // Objects placed with thread t are as they were.
  ghost predicate Untouched(s: State, s': State, t: nat) {
    && |s'.threads| == |s.threads| && (t < |s.threads| ==> s'.threads[t] == s.threads[t])
    && (forall o :: o in s.calls && s.calls[o].place == AtThread(t) ==> o in s'.calls && s'.calls[o] == s.calls[o])
    && s.accepted <= s'.accepted
  }

  lemma RunForeign(s: State, u: nat, t: nat, serves: (string, string) -> bool)
    requires Enabled(s, Run(u), serves) && HeldOk(s, u) && u != t
    ensures Untouched(s, RunThread(s, u), t)
  {
  }

  lemma AllocForeign(s: State, u: nat, tag: Tag, t: nat, serves: (string, string) -> bool)
    requires Enabled(s, Alloc(u, tag), serves) && u != t && (s.threads[u].Spawning? ==> HeldOk(s, u))
    ensures Untouched(s, Apply(s, Alloc(u, tag), serves), t)
  {
  }

  lemma HandleForeign(s: State, u: nat, reply: string, t: nat, serves: (string, string) -> bool)
    requires Enabled(s, Handle(u, reply), serves) && HeldOk(s, u) && u != t
    ensures Untouched(s, Apply(s, Handle(u, reply), serves), t)
  {
  }

  lemma RuntimeForeign(s: State, step: Step, t: nat, serves: (string, string) -> bool)
    requires Enabled(s, step, serves) && Foreign(step, t) && (step.Next? || step.Arrive? || step.Deliver?)
    requires step.Next? ==> Placed(s.calls, step.event.tag, Queued(step.event.kind))
    requires step.Arrive? ==> Placed(s.calls, step.tag, Armed)
    requires step.Deliver? ==> Placed(s.calls, step.tag, Sending)
    ensures Untouched(s, Apply(s, step, serves), t)
  {
  }

  lemma ForeignKeeps(s: State, step: Step, t: nat, serves: (string, string) -> bool)
    requires Good(s, serves) && Enabled(s, step, serves) && Foreign(step, t)
    ensures Untouched(s, Apply(s, step, serves), t)
  {
    match step
    case Run(u) =>
      HeldTag(s, u);
      RunForeign(s, u, t, serves);
    case Alloc(u, tag) =>
      if s.threads[u].Spawning? { HeldTag(s, u); }
      AllocForeign(s, u, tag, t, serves);
    case Handle(u, reply) =>
      HeldTag(s, u);
      HandleForeign(s, u, reply, t, serves);
    case Next(_, event) =>
      assert Placed(s.calls, event.tag, Queued(event.kind));
      RuntimeForeign(s, step, t, serves);
    case Arrive(tag, _) =>
      assert Placed(s.calls, tag, Armed);
      RuntimeForeign(s, step, t, serves);
    case Deliver(tag) =>
      assert Placed(s.calls, tag, Sending);
      RuntimeForeign(s, step, t, serves);
  }

  function OtherStep(s: State, step: Step, t: nat, serves: (string, string) -> bool): State {
    if Foreign(step, t) && Enabled(s, step, serves) then Apply(s, step, serves) else s
  }

  lemma OtherStepKeeps(s0: State, s: State, step: Step, t: nat, serves: (string, string) -> bool)
    requires Good(s, serves) && Untouched(s0, s, t)
    ensures Good(OtherStep(s, step, t, serves), serves) && Untouched(s0, OtherStep(s, step, t, serves), t)
  {
    if Foreign(step, t) && Enabled(s, step, serves) {
      StepGood(s, step, serves);
      ForeignKeeps(s, step, t, serves);
      UntouchedTwice(s0, s, Apply(s, step, serves), t);
    }
  }

  lemma UntouchedTwice(s0: State, s1: State, s2: State, t: nat)
    requires Untouched(s0, s1, t) && Untouched(s1, s2, t)
    ensures Untouched(s0, s2, t)
  {
  }

  // Thread t stands at pc, and the objects it works on are as its program point says.
  predicate Stand(s: State, t: nat, pc: Pc)
    requires pc !in {Boot, Poll, Crashed}
  {
    t < |s.threads| && s.threads[t] == pc && HeldOk(s, t)
  }

  // The request in the object that thread t works on, or will return to.
  predicate Carries(s: State, t: nat, tag: Tag, r: nat) {
    tag in s.calls && s.calls[tag].place == AtThread(t) && s.calls[tag].rid == Some(r)
  }

  lemma CarriesOn(s: State, s': State, t: nat, tag: Tag, r: nat)
    requires Untouched(s, s', t) && Carries(s, t, tag, r)
    ensures Carries(s', t, tag, r)
  {
  }

  // What thread t's own steps do to it.
  lemma ConstructedStep(s: State, t: nat, tag: Tag, cont: Cont, parent: Tag, r: nat)
    requires Stand(s, t, Constructed(tag, cont)) || Stand(s, t, Marked(tag, cont))
    requires cont == ToServe(parent) ==> parent != tag && Carries(s, t, parent, r)
    ensures |RunThread(s, t).threads| == |s.threads|
    ensures RunThread(s, t).threads[t] == if s.threads[t].Constructed? then Marked(tag, cont) else Return(cont)
    ensures cont == ToServe(parent) ==> Carries(RunThread(s, t), t, parent, r)
    ensures RunThread(s, t).accepted == s.accepted
  {
  }

  lemma SpawnStep(s: State, t: nat, parent: Tag, tag: Tag, r: nat, serves: (string, string) -> bool)
    requires Stand(s, t, Spawning(parent)) && Carries(s, t, parent, r) && Enabled(s, Alloc(t, tag), serves)
    ensures
      var s' := Apply(s, Alloc(t, tag), serves);
      && |s'.threads| == |s.threads| && s'.threads[t] == Constructed(tag, ToServe(parent))
      && Carries(s', t, parent, r) && s'.accepted == s.accepted
  {
  }

  lemma HandleStep(s: State, t: nat, tag: Tag, r: nat, reply: string, serves: (string, string) -> bool)
    requires Stand(s, t, Serving(tag)) && Carries(s, t, tag, r) && Enabled(s, Handle(t, reply), serves)
    ensures
      var s' := Apply(s, Handle(t, reply), serves);
      && |s'.threads| == |s.threads| && s'.threads[t] == Served(tag)
      && Carries(s', t, tag, r) && s'.accepted == s.accepted
  {
  }

  lemma ServedStep(s: State, t: nat, tag: Tag, r: nat)
    requires Stand(s, t, Served(tag)) && Carries(s, t, tag, r)
    ensures
      var s' := RunThread(s, t);
      && |s'.threads| == |s.threads| && s'.threads[t] == Finishing(tag)
      && Carries(s', t, tag, r) && s'.accepted == s.accepted
  {
  }

  lemma FinishStep(s: State, t: nat, tag: Tag, r: nat, serves: (string, string) -> bool)
    requires Stand(s, t, Finishing(tag)) && Carries(s, t, tag, r) && RequestsOk(RunThread(s, t), serves)
    ensures
      var s' := RunThread(s, t);
      && |s'.threads| == |s.threads| && s'.threads[t] == Poll && s'.finished[r] == 1 && s'.accepted == s.accepted
      && r in s'.answers && r < |s'.accepted| && serves(s'.accepted[r].body, s'.answers[r])
  {
    assert RunThread(s, t).finished[r] >= 1;
  }

  lemma DeleteStep(s: State, t: nat, tag: Tag, r: nat, serves: (string, string) -> bool)
    requires Stand(s, t, Deleting(tag)) && Carries(s, t, tag, r) && RequestsOk(RunThread(s, t), serves)
    ensures
      var s' := RunThread(s, t);
      |s'.threads| == |s.threads| && s'.threads[t] == Poll && s'.retired[r] == 1 && tag !in s'.calls
  {
    assert RunThread(s, t).retired[r] >= 1;
    assert RunThread(s, t).finished[r] <= 1;
  }

  lemma WaitsApart(s: State, t: nat, tag: Tag, parent: Tag)
    requires Owned(s) && t < |s.threads|
    requires s.threads[t] in {Constructed(tag, ToServe(parent)), Marked(tag, ToServe(parent))}
    ensures parent != tag
  {
    assert ThreadOk(t, s.threads[t], s.calls);
  }

  class Server {
    var state: State
    const serves: (string, string) -> bool

    constructor (serves: (string, string) -> bool)
      ensures Init(state) && Good(state, serves) && this.serves == serves
    {
      state := State(seq(THREADS, _ => Boot), map[], multiset{}, multiset{}, multiset{}, [], multiset{}, map[],
                     multiset{}, 0);
      this.serves := serves;
      new;
      InitGood(state, serves);
    }

    // The rest of the server runs: those of the given steps that are possible and not thread t's.
    method Others(t: nat, steps: seq<Step>)
      requires Good(state, serves)
      modifies this
      ensures Good(state, serves) && Untouched(old(state), state, t)
    {
      for k := 0 to |steps|
        invariant Good(state, serves) && Untouched(old(state), state, t)
      {
        OtherStepKeeps(old(state), state, steps[k], t, serves);
        state := OtherStep(state, steps[k], t, serves);
      }
    }

    // One step of thread t.
    method Do(step: Step)
      requires Good(state, serves) && Enabled(state, step, serves)
      modifies this
      ensures Good(state, serves) && state == Apply(old(state), step, serves)
    {
      StepGood(state, step, serves);
      state := Apply(state, step, serves);
    }

    // One step of the constructor, after the others have run.
    method ConstructStep(t: nat, tag: Tag, cont: Cont, ghost parent: Tag, ghost r: nat, steps: seq<Step>)
      requires Good(state, serves) && t < |state.threads|
      requires state.threads[t] in {Constructed(tag, cont), Marked(tag, cont)}
      requires cont == ToServe(parent) ==> Carries(state, t, parent, r)
      modifies this
      ensures Good(state, serves) && t < |state.threads| && old(state).accepted <= state.accepted
      ensures state.threads[t] == if old(state).threads[t].Constructed? then Marked(tag, cont) else Return(cont)
      ensures cont == ToServe(parent) ==> Carries(state, t, parent, r)
    {
      Others(t, steps);
      if cont == ToServe(parent) {
        CarriesOn(old(state), state, t, parent, r);
        WaitsApart(state, t, tag, parent);
      }
      HeldTag(state, t);
      ConstructedStep(state, t, tag, cont, parent, r);
      Do(Run(t));
    }

    // The constructor: Proceed on the new object marks it and arms it, and spawns nothing.
    method Construct(t: nat, tag: Tag, cont: Cont, ghost parent: Tag, ghost r: nat,
                     before: seq<Step>, between: seq<Step>)
      requires Good(state, serves) && t < |state.threads| && state.threads[t] == Constructed(tag, cont)
      requires cont == ToServe(parent) ==> Carries(state, t, parent, r)
      modifies this
      ensures Good(state, serves) && t < |state.threads| && old(state).accepted <= state.accepted
      ensures state.threads[t] == Return(cont)
      ensures cont == ToServe(parent) ==> Carries(state, t, parent, r)
    {
      ConstructStep(t, tag, cont, parent, r, before);      // the object is marked
      ConstructStep(t, tag, cont, parent, r, between);     // and registered with the runtime
    }

    // The others run; then thread t, which carries request r, still stands where it stood.
    method Resume(t: nat, pc: Pc, tag: Tag, ghost r: nat, steps: seq<Step>)
      requires Good(state, serves) && t < |state.threads| && state.threads[t] == pc && Carries(state, t, tag, r)
      requires pc !in {Boot, Poll, Crashed}
      modifies this
      ensures Good(state, serves) && Stand(state, t, pc) && Carries(state, t, tag, r)
      ensures old(state).accepted <= state.accepted
    {
      Others(t, steps);
      CarriesOn(old(state), state, t, tag, r);
      HeldTag(state, t);
    }

    // Thread t is at pc with request r in object tag.
    ghost predicate Holding(t: nat, pc: Pc, tag: Tag, r: nat)
      reads this
    {
      Good(state, serves) && t < |state.threads| && state.threads[t] == pc && Carries(state, t, tag, r)
    }

    // Request r has been answered, with a response to its own body.
    ghost predicate AnsweredWell(r: nat)
      reads this
    {
      state.finished[r] == 1 && r in state.answers && r < |state.accepted| &&
      serves(state.accepted[r].body, state.answers[r])
    }

    ghost predicate Waiting(t: nat)
      reads this
    {
      Good(state, serves) && t < |state.threads| && state.threads[t] == Poll
    }

    // The successor is allocated; its constructor's body is still to run.
    method Spawn(t: nat, tag: Tag, ghost r: nat, steps: seq<Step>) returns (address: Tag)
      requires Holding(t, Spawning(tag), tag, r)
      modifies this
      ensures Holding(t, Constructed(address, ToServe(tag)), tag, r)
    {
      Resume(t, Spawning(tag), tag, r, steps);
      ghost var free := AllocEnabled(state, t, serves);
      address :| Enabled(state, Alloc(t, address), serves);
      SpawnStep(state, t, tag, address, r, serves);
      Do(Alloc(t, address));
    }

    // The handler answers the request, and the reply is set.
    method Handle(t: nat, tag: Tag, ghost r: nat, steps: seq<Step>)
      requires Holding(t, Serving(tag), tag, r) && forall body :: CanServe(serves, body)
      modifies this
      ensures Holding(t, Served(tag), tag, r)
    {
      Resume(t, Serving(tag), tag, r, steps);
      ghost var some := HandleEnabled(state, t, serves);
      var reply: string :| Enabled(state, Step.Handle(t, reply), serves);
      HandleStep(state, t, tag, r, reply, serves);
      Do(Step.Handle(t, reply));
    }

    // The object is marked as finished.
    method MarkFinish(t: nat, tag: Tag, ghost r: nat, steps: seq<Step>)
      requires Holding(t, Served(tag), tag, r)
      modifies this
      ensures Holding(t, Finishing(tag), tag, r)
    {
      Resume(t, Served(tag), tag, r, steps);
      ServedStep(state, t, tag, r);
      Do(Run(t));
    }

    // The reply is handed to the runtime.
    method Finish(t: nat, tag: Tag, ghost r: nat, steps: seq<Step>)
      requires Holding(t, Finishing(tag), tag, r)
      modifies this
      ensures Waiting(t) && AnsweredWell(r)
    {
      Resume(t, Finishing(tag), tag, r, steps);
      StepGood(state, Run(t), serves);
      FinishStep(state, t, tag, r, serves);
      Do(Run(t));
    }

    // The object is deleted.
    method Delete(t: nat, tag: Tag, ghost r: nat, steps: seq<Step>)
      requires Holding(t, Deleting(tag), tag, r)
      modifies this
      ensures Waiting(t) && state.retired[r] == 1 && tag !in state.calls
    {
      Resume(t, Deleting(tag), tag, r, steps);
      StepGood(state, Run(t), serves);
      DeleteStep(state, t, tag, r, serves);
      Do(Run(t));
    }

    // The tests of the status with which Proceed begins.
    method TestStatus(t: nat, tag: Tag, kind: Kind, ghost r: nat, steps: seq<Step>) returns (status: Status)
      requires Holding(t, Popped(tag, kind), tag, r)
      modifies this
      ensures status == Expected(kind)
      ensures Holding(t, if kind == Request then Spawning(tag) else Deleting(tag), tag, r)
    {
      Resume(t, Popped(tag, kind), tag, r, steps);
      status := state.calls[tag].status;
      PoppedStep(state, t, tag, kind, r);
      Do(Run(t));
    }

    /** Proceed, called by the event loop for a tag it has just popped: a request is answered with a
        response to its own body, a completion deletes its object, and the thread is free again. */
    method Proceed(t: nat, tag: Tag, kind: Kind, ghost r: nat, others: nat -> seq<Step>)
      requires Holding(t, Popped(tag, kind), tag, r) && forall body :: CanServe(serves, body)
      modifies this
      ensures Waiting(t)
      ensures kind == Request ==> AnsweredWell(r)
      ensures kind == Completion ==> state.retired[r] == 1 && tag !in state.calls
    {
      var status := TestStatus(t, tag, kind, r, others(0));
      if status == PROCESS {
        var address := Spawn(t, tag, r, others(1));
        Construct(t, address, ToServe(tag), tag, r, others(2), others(3));
        Handle(t, tag, r, others(4));
        MarkFinish(t, tag, r, others(5));
        Finish(t, tag, r, others(6));
      } else {
        assert status == FINISH;                             // the assertion before deletion
        Delete(t, tag, r, others(1));
      }
    }

    // The thread's first object is allocated; its constructor's body is still to run.
    method First(t: nat, steps: seq<Step>) returns (address: Tag)
      requires Good(state, serves) && t < |state.threads| && state.threads[t] == Boot
      modifies this
      ensures Good(state, serves) && t < |state.threads| && state.threads[t] == Constructed(address, ToLoop)
    {
      Others(t, steps);
      ghost var free := AllocEnabled(state, t, serves);
      address :| Enabled(state, Alloc(t, address), serves);
      FirstStep(state, t, address, serves);
      Do(Alloc(t, address));
    }

    // The next event of the queue, if there is one.
    method Pop(t: nat, steps: seq<Step>) returns (event: Option<Event>, ghost r: nat)
      requires Waiting(t)
      modifies this
      ensures event.None? ==> Waiting(t)
      ensures event.Some? ==> Holding(t, Popped(event.value.tag, event.value.kind), event.value.tag, r)
    {
      Others(t, steps);
      event, r := None, 0;
      if state.queue != multiset{} {
        var e :| e in state.queue;
        r := NextStep(state, t, e, serves);
        Do(Next(t, e));
        event := Some(e);
      }
    }

    /** The worker thread: its first object, then `rounds` turns of the event loop. A turn in which
        the queue is empty leaves the thread waiting in Next. */
    method HandleRpcs(t: nat, rounds: nat, others: nat -> seq<Step>)
      requires Good(state, serves) && forall body :: CanServe(serves, body)
      requires t < |state.threads| && state.threads[t] == Boot
      modifies this
      ensures Waiting(t)
    {
      var address := First(t, others(0));
      Construct(t, address, ToLoop, address, 0, others(1), others(2));
      for n := 0 to rounds
        invariant Waiting(t)
      {
        var event, r := Pop(t, others(10 * n + 3));
        if event.Some? {
          Proceed(t, event.value.tag, event.value.kind, r, (k: nat) => others(10 * n + 4 + k));
        }
      }
    }
  }

  lemma FirstStep(s: State, t: nat, tag: Tag, serves: (string, string) -> bool)
    requires Enabled(s, Alloc(t, tag), serves) && s.threads[t] == Boot
    ensures Apply(s, Alloc(t, tag), serves).threads == s.threads[t := Constructed(tag, ToLoop)]
  {
  }

  lemma PoppedStep(s: State, t: nat, tag: Tag, kind: Kind, r: nat)
    requires Stand(s, t, Popped(tag, kind)) && Carries(s, t, tag, r)
    ensures s.calls[tag].status == Expected(kind)
    ensures RunThread(s, t) == At(s, t, if kind == Request then Spawning(tag) else Deleting(tag))
  {
  }

  // The event a thread pops belongs to an object that carries a request.
  lemma NextStep(s: State, t: nat, event: Event, serves: (string, string) -> bool) returns (r: nat)
    requires Good(s, serves) && Enabled(s, Next(t, event), serves)
    ensures
      var s' := Apply(s, Next(t, event), serves);
      |s'.threads| == |s.threads| && s'.threads[t] == Popped(event.tag, event.kind) && Carries(s', t, event.tag, r)
  {
    assert Placed(s.calls, event.tag, Queued(event.kind));
    assert Stands(s.calls[event.tag]);
    r := s.calls[event.tag].rid.value;
  }
}
