/** The forwarder's socket pool: a semaphore, pooled sockets, and a creation step that awaits. */
module SocketPool {
  import opened Bytes

  type Task = nat
  type Socket = nat

  /**
    * Where a forward is. `Creating` is between seeing the pool empty and owning a
    * connected socket; `Leaving` has no socket any more but still holds its permit.
    */
  datatype Phase =
    | Waiting
    | Permitted
    | Creating
    | Using(socket: Socket)
    | Leaving
    | Done

  datatype State = State(permits: nat, pool: seq<Socket>, tasks: map<Task, Phase>, nextSocket: nat)

  /** `with_concurrency`. */
  function Init(maxConcurrent: nat): State {
    State(Max(maxConcurrent, 1), [], map[], 0)
  }

  datatype Step =
    | Arrive(task: Task)
    | Acquire(task: Task)
    | CheckoutPooled(task: Task)
    | CheckoutEmpty(task: Task)
    | Created(task: Task)
    | CreationEnds(task: Task)
    | QueryOk(task: Task)
    | QueryEnds(task: Task)
    | AbandonWait(task: Task)
    | Release(task: Task)

  predicate In(s: State, t: Task, p: Phase) { t in s.tasks && s.tasks[t] == p }

  /**
    * `CreationEnds` and `QueryEnds` cover both an error and a cancellation at that
    * await: the socket, if any, is dropped and only then the permit.
    */
  ghost predicate Next(s: State, step: Step, s': State) {
    match step
    case Arrive(t) =>
      t !in s.tasks && s' == s.(tasks := s.tasks[t := Waiting])
    case AbandonWait(t) =>
      In(s, t, Waiting) && s' == s.(tasks := s.tasks[t := Done])
    case Acquire(t) =>
      In(s, t, Waiting) && s.permits > 0 && s' == s.(permits := s.permits - 1, tasks := s.tasks[t := Permitted])
    case CheckoutPooled(t) =>
      && In(s, t, Permitted) && s.pool != []
      && s' == s.(pool := s.pool[..|s.pool| - 1], tasks := s.tasks[t := Using(s.pool[|s.pool| - 1])])
    case CheckoutEmpty(t) =>
      In(s, t, Permitted) && s.pool == [] && s' == s.(tasks := s.tasks[t := Creating])
    case Created(t) =>
      In(s, t, Creating) && s' == s.(tasks := s.tasks[t := Using(s.nextSocket)], nextSocket := s.nextSocket + 1)
    case CreationEnds(t) =>
      In(s, t, Creating) && s' == s.(tasks := s.tasks[t := Leaving])
    case QueryOk(t) =>
      && t in s.tasks && s.tasks[t].Using?
      && s' == s.(pool := s.pool + [s.tasks[t].socket], tasks := s.tasks[t := Leaving])
    case QueryEnds(t) =>
      t in s.tasks && s.tasks[t].Using? && s' == s.(tasks := s.tasks[t := Leaving])
    case Release(t) =>
      In(s, t, Leaving) && s' == s.(permits := s.permits + 1, tasks := s.tasks[t := Done])
  }

  function Holders(s: State): set<Task> {
    set t | t in s.tasks && !s.tasks[t].Waiting? && !s.tasks[t].Done?
  }

  /** The tasks that own a socket or are creating one. */
  function Busy(s: State): set<Task> {
    set t | t in s.tasks && (s.tasks[t].Creating? || s.tasks[t].Using?)
  }

  /** Pooled, checked-out and being-created sockets. */
  function Sockets(s: State): nat { |s.pool| + |Busy(s)| }

  /** A socket is in one place only: once in the pool, or with one task. */
  ghost predicate Exclusive(s: State) {
    && (forall i :: 0 <= i < |s.pool| ==> s.pool[i] < s.nextSocket)
    && (forall i, j :: 0 <= i < j < |s.pool| ==> s.pool[i] != s.pool[j])
    && (forall t :: t in s.tasks && s.tasks[t].Using? ==>
                      s.tasks[t].socket < s.nextSocket && s.tasks[t].socket !in s.pool)
    && (forall t, u :: t in s.tasks && u in s.tasks && t != u && s.tasks[t].Using? && s.tasks[u].Using?
                       ==> s.tasks[t].socket != s.tasks[u].socket)
  }

  ghost predicate Inv(capacity: nat, s: State) {
    && s.permits + |Holders(s)| == capacity
    && Sockets(s) <= capacity
    && Exclusive(s)
  }

  lemma InitInv(maxConcurrent: nat)
    ensures Inv(Max(maxConcurrent, 1), Init(maxConcurrent))
  {
    assert Holders(Init(maxConcurrent)) == {} && Busy(Init(maxConcurrent)) == {};
  }

  lemma StepExclusive(s: State, step: Step, s': State)
    requires Exclusive(s) && Next(s, step, s')
    ensures Exclusive(s')
  {
    match step
    case CheckoutPooled(t) => CheckoutExclusive(s, t, s');
    case Created(t) => CreatedExclusive(s, t, s');
    case QueryOk(t) => ReturnExclusive(s, t, s');
    case _ => DropExclusive(s, step.task, s'.tasks[step.task], s');
  }

  lemma CheckoutExclusive(s: State, t: Task, s': State)
    requires Exclusive(s) && Next(s, CheckoutPooled(t), s')
    ensures Exclusive(s')
  {}

  lemma CreatedExclusive(s: State, t: Task, s': State)
    requires Exclusive(s) && Next(s, Created(t), s')
    ensures Exclusive(s')
  {}

  lemma ReturnExclusive(s: State, t: Task, s': State)
    requires Exclusive(s) && Next(s, QueryOk(t), s')
    ensures Exclusive(s')
  {}

  lemma DropExclusive(s: State, t: Task, p: Phase, s': State)
    requires Exclusive(s) && !p.Using?
    requires s'.tasks == s.tasks[t := p] && s'.pool == s.pool && s'.nextSocket == s.nextSocket
    ensures Exclusive(s')
  {}

  /** How a step changes who holds a permit. */
  lemma StepHolders(s: State, step: Step, s': State)
    requires Next(s, step, s')
    ensures s'.permits + |Holders(s')| == s.permits + |Holders(s)|
  {
    var t := step.task;
    match step
    case Acquire(_) => assert Holders(s') == Holders(s) + {t};
    case Release(_) => assert Holders(s') == Holders(s) - {t};
    case _ => SameHolders(s, t, s');
  }

  lemma SameHolders(s: State, t: Task, s': State)
    requires t in s'.tasks && s'.tasks == s.tasks[t := s'.tasks[t]]
    requires t in Holders(s) <==> t in Holders(s')
    ensures Holders(s') == Holders(s)
  {}

  /** Only starting to create adds a socket, and then the pool is empty and the creator holds none. */
  lemma StepSockets(capacity: nat, s: State, step: Step, s': State)
    requires Next(s, step, s') && s.permits + |Holders(s)| == capacity && Sockets(s) <= capacity
    ensures Sockets(s') <= capacity
  {
    var t := step.task;
    match step
    case CheckoutPooled(_) => assert Busy(s') == Busy(s) + {t};
    case CheckoutEmpty(_) =>
      assert Busy(s') == Busy(s) + {t};
      assert Busy(s') <= Holders(s);
      SubsetSize(Busy(s'), Holders(s));
    case CreationEnds(_) => assert Busy(s') == Busy(s) - {t};
    case QueryOk(_) => assert Busy(s') == Busy(s) - {t};
    case QueryEnds(_) => assert Busy(s') == Busy(s) - {t};
    case _ => assert Busy(s') == Busy(s);
  }

  ghost predicate IsRun(maxConcurrent: nat, states: seq<State>, steps: seq<Step>) {
    && |states| == |steps| + 1 && states[0] == Init(maxConcurrent)
    && (forall i :: 0 <= i < |steps| ==> Next(states[i], steps[i], states[i + 1]))
  }

  /**
    * In every interleaving of forwards, failures and cancellations, the sockets in
    * the pool, in use and being created never exceed the configured concurrency,
    * and no socket is ever in two places.
    */
  lemma {:induction false} PoolIsBounded(maxConcurrent: nat, states: seq<State>, steps: seq<Step>, i: nat)
    requires IsRun(maxConcurrent, states, steps) && i < |states|
    ensures Inv(Max(maxConcurrent, 1), states[i])
  {
    if i == 0 {
      InitInv(maxConcurrent);
    } else {
      hide Exclusive, Sockets, Holders;
      PoolIsBounded(maxConcurrent, states, steps, i - 1);
      assert Next(states[i - 1], steps[i - 1], states[i]);
      hide Next;
      StepExclusive(states[i - 1], steps[i - 1], states[i]);
      StepHolders(states[i - 1], steps[i - 1], states[i]);
      StepSockets(Max(maxConcurrent, 1), states[i - 1], steps[i - 1], states[i]);
    }
  }

  /** Once no forward is under way, every permit is back. */
  lemma PermitsReturn(maxConcurrent: nat, states: seq<State>, steps: seq<Step>, i: nat)
    requires IsRun(maxConcurrent, states, steps) && i < |states|
    requires forall t :: t in states[i].tasks ==> states[i].tasks[t].Done?
    ensures states[i].permits == Max(maxConcurrent, 1)
  {
    PoolIsBounded(maxConcurrent, states, steps, i);
    assert Holders(states[i]) == {};
  }

  /** The tasks that own a socket. */
  function Owners(s: State): set<Task> {
    set t | t in s.tasks && s.tasks[t].Using?
  }

  /** The sockets lost in a run: those whose query failed or was cancelled. */
  function Lost(steps: seq<Step>): nat {
    if steps == [] then 0
    else Lost(steps[..|steps| - 1]) + if steps[|steps| - 1].QueryEnds? then 1 else 0
  }

  lemma StepConserves(s: State, step: Step, s': State)
    requires Next(s, step, s')
    ensures s'.nextSocket - |s'.pool| - |Owners(s')|
         == s.nextSocket - |s.pool| - |Owners(s)| + if step.QueryEnds? then 1 else 0
  {
    var t := step.task;
    match step
    case CheckoutPooled(_) => assert Owners(s') == Owners(s) + {t};
    case Created(_) => assert Owners(s') == Owners(s) + {t};
    case QueryOk(_) => assert Owners(s') == Owners(s) - {t};
    case QueryEnds(_) => assert Owners(s') == Owners(s) - {t};
    case _ => assert Owners(s') == Owners(s);
  }

  /** Every socket ever made is in the pool, in use, or lost to a query that failed or was cancelled. */
  lemma {:induction false} SocketsAreConserved(maxConcurrent: nat, states: seq<State>, steps: seq<Step>, i: nat)
    requires IsRun(maxConcurrent, states, steps) && i < |states|
    ensures states[i].nextSocket == |states[i].pool| + |Owners(states[i])| + Lost(steps[..i])
  {
    if i == 0 {
      assert Owners(states[0]) == {};
    } else {
      hide Owners, Next;
      SocketsAreConserved(maxConcurrent, states, steps, i - 1);
      assert Next(states[i - 1], steps[i - 1], states[i]);
      StepConserves(states[i - 1], steps[i - 1], states[i]);
      assert steps[..i][..i - 1] == steps[..i - 1];
    }
  }
}
