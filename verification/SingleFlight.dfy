/**
  * Single-flight forwarding as an interleaving of atomic steps: the first task for
  * a key leads, later ones follow its channel; a guard removes the key when the
  * leader leaves, whether it answered or was cancelled while awaiting upstream.
  */
module SingleFlight {
  import opened Bytes
  import opened Metrics

  type Task = nat
  type Chan = nat
  type Key = (Text, u16)
  type Reply = seq<byte>

  /** A watch channel: the value sent, if any, and whether its sender still exists. */
  datatype Channel = Channel(value: Option<Reply>, open: bool)

  datatype Phase =
    | Local                                        // answered or dropped without forwarding
    | Pending                                      // to be forwarded, not yet entered
    | Querying(chan: Chan)                         // leader, upstream query outstanding
    | Cancelled(chan: Chan)                        // leader dropped at that await, guard still held
    | Answered(chan: Chan, raw: Reply)             // leader, has bytes to publish
    | Published(chan: Chan, raw: Reply)            // leader, value sent, guard still held
    | Closing(chan: Chan, sent: Option<Reply>)     // guard dropped, sender not yet
    | Led(chan: Chan, sent: Option<Reply>)         // leader finished
    | Checking(chan: Chan)                         // follower about to read the value
    | Waiting(chan: Chan)                          // follower awaiting a change
    | Draining(chan: Chan)                         // follower saw the sender gone
    | Followed(chan: Chan, got: Option<Reply>)     // follower finished; None is SERVFAIL
    | Left                                         // follower dropped while waiting

  datatype Record = Record(key: Key, phase: Phase)

  /**
    * `owner` records which task created a channel; `failures` counts failed upstream queries and
    * `crashes` the queries whose parsing panicked.
    */
  datatype State = State(
    inflight: map<Key, Chan>,
    chans: map<Chan, Channel>,
    owner: map<Chan, Task>,
    nextChan: Chan,
    tasks: map<Task, Record>,
    shards: seq<Counters>,
    failures: nat,
    crashes: nat)

  function Init(): State {
    State(map[], map[], map[], 0, map[], Fresh(SHARDS), 0, 0)
  }

  /** How the synchronous first pass ends; `Crashed` is a panic of the parser. */
  datatype Outcome = Limited | Unparsed | Crashed | Listed | Cached | Answer | Forward

  /** A forwarded query is counted later, and one that crashes the parser never. */
  predicate Counted(o: Outcome) { !o.Forward? && !o.Crashed? }

  function CounterOf(o: Outcome): Counter
    requires Counted(o)
  {
    match o
    case Limited => RateLimited
    case Unparsed => Errors
    case Listed => Blocked
    case Cached => CacheHits
    case Answer => Authoritative
  }

  datatype Step =
    | Arrive(task: Task, key: Key, outcome: Outcome, shard: nat)
    | Enter(task: Task, shard: nat)
    | UpstreamReturns(task: Task, raw: Reply, failed: bool, shard: nat)
    | Cancel(task: Task, unwound: bool)  // dropped while awaiting, or unwound by a reply that crashes the parser
    | Publish(task: Task)
    | DropGuard(task: Task)
    | DropSender(task: Task)
    | Check(task: Task)
    | Wake(task: Task)
    | SenderGone(task: Task)
    | Drain(task: Task)
    | Leave(task: Task)

  function PhaseOf(s: State, t: Task): Phase { if t in s.tasks then s.tasks[t].phase else Local }

  function Move(s: State, t: Task, p: Phase): State
    requires t in s.tasks
  {
    s.(tasks := s.tasks[t := Record(s.tasks[t].key, p)])
  }

  function ArriveShards(shards: seq<Counters>, o: Outcome, shard: nat): seq<Counters>
    requires shard < |shards|
  {
    var counted := Bumped(shards, shard, Total);
    if Counted(o) then Bumped(counted, shard, CounterOf(o)) else counted
  }

  /** Looking up the key and taking a role is one atomic map operation. */
  function EnterTo(s: State, t: Task, shard: nat): State
    requires t in s.tasks && shard < |s.shards|
  {
    var key := s.tasks[t].key;
    if key in s.inflight then
      Move(s, t, Checking(s.inflight[key])).(shards := Bumped(s.shards, shard, Coalesced))
    else
      Move(s, t, Querying(s.nextChan)).(
      inflight := s.inflight[key := s.nextChan],
      chans := s.chans[s.nextChan := Channel(None, true)],
      owner := s.owner[s.nextChan := t],
      nextChan := s.nextChan + 1,
      shards := Bumped(s.shards, shard, Forwarded))
  }

  predicate Enabled(s: State, step: Step) {
    var t := step.task;
    var p := PhaseOf(s, t);
    match step
    case Arrive(_, _, _, shard) => t !in s.tasks && shard < |s.shards|
    case Enter(_, shard) => t in s.tasks && p.Pending? && shard < |s.shards|
    case UpstreamReturns(_, _, _, shard) => p.Querying? && shard < |s.shards|
    case Cancel(_, _) => p.Querying?
    case Publish(_) => p.Answered? && p.chan in s.chans
    case DropGuard(_) => p.Published? || p.Cancelled?
    case DropSender(_) => p.Closing? && p.chan in s.chans
    case Check(_) => p.Checking? && p.chan in s.chans
    case Wake(_) => p.Waiting? && p.chan in s.chans && s.chans[p.chan].value.Some?
    case SenderGone(_) => p.Waiting? && p.chan in s.chans && s.chans[p.chan].value.None? && !s.chans[p.chan].open
    case Drain(_) => p.Draining? && p.chan in s.chans
    case Leave(_) => p.Waiting?
  }

  function Next(s: State, step: Step): State
    requires Enabled(s, step)
  {
    var t := step.task;
    var p := PhaseOf(s, t);
    match step
    case Arrive(_, key, o, shard) =>
      s.(tasks := s.tasks[t := Record(key, if o.Forward? then Pending else Local)],
      shards := ArriveShards(s.shards, o, shard), crashes := s.crashes + if o.Crashed? then 1 else 0)
    case Enter(_, shard) => EnterTo(s, t, shard)
    case UpstreamReturns(_, raw, failed, shard) =>
      if failed then
        Move(s, t, Answered(p.chan, raw)).(shards := Bumped(s.shards, shard, Errors), failures := s.failures + 1)
      else Move(s, t, Answered(p.chan, raw))
    case Cancel(_, _) => Move(s, t, Cancelled(p.chan))
    case Publish(_) =>
      Move(s, t, Published(p.chan, p.raw)).(chans := s.chans[p.chan := s.chans[p.chan].(value := Some(p.raw))])
    case DropGuard(_) =>
      var sent := if p.Published? then Some(p.raw) else None;
      Move(s, t, Closing(p.chan, sent)).(inflight := s.inflight - {s.tasks[t].key})
    case DropSender(_) =>
      Move(s, t, Led(p.chan, p.sent)).(chans := s.chans[p.chan := s.chans[p.chan].(open := false)])
    case Check(_) =>
      var value := s.chans[p.chan].value;
      Move(s, t, if value.Some? then Followed(p.chan, value) else Waiting(p.chan))
    case Wake(_) => Move(s, t, Checking(p.chan))
    case SenderGone(_) => Move(s, t, Draining(p.chan))
    case Drain(_) => Move(s, t, Followed(p.chan, s.chans[p.chan].value))
    case Leave(_) => Move(s, t, Left)
  }

  // ----- The invariant -----

  predicate HoldsGuard(p: Phase) { p.Querying? || p.Cancelled? || p.Answered? || p.Published? }

  predicate Leads(p: Phase) { HoldsGuard(p) || p.Closing? || p.Led? }

  predicate Follows(p: Phase) { p.Checking? || p.Waiting? || p.Draining? || p.Followed? }

  /** The channel a leader in this phase has. */
  function ChannelOf(p: Phase): Channel
    requires Leads(p)
  {
    match p
    case Published(_, raw) => Channel(Some(raw), true)
    case Closing(_, sent) => Channel(sent, true)
    case Led(_, sent) => Channel(sent, false)
    case _ => Channel(None, true)
  }

  ghost predicate LeaderOk(s: State, t: Task)
    requires t in s.tasks
  {
    var p, key := s.tasks[t].phase, s.tasks[t].key;
    Leads(p) ==>
      && p.chan in s.chans && p.chan in s.owner && s.owner[p.chan] == t
      && s.chans[p.chan] == ChannelOf(p)
      && (HoldsGuard(p) ==> key in s.inflight && s.inflight[key] == p.chan)
  }

  /** A follower's channel belongs to a leader of the same key, and what it got is what that channel holds. */
  ghost predicate FollowerOk(s: State, t: Task)
    requires t in s.tasks
  {
    var p := s.tasks[t].phase;
    Follows(p) ==>
      && p.chan in s.chans && p.chan in s.owner && s.owner[p.chan] in s.tasks
      && s.tasks[s.owner[p.chan]].key == s.tasks[t].key
      && (p.Draining? || (p.Followed? && p.got.None?) ==> s.chans[p.chan] == Channel(None, false))
      && (p.Followed? && p.got.Some? ==> s.chans[p.chan].value == p.got)
  }

  ghost predicate ChannelOk(s: State, c: Chan)
    requires c in s.chans
  {
    && c < s.nextChan && c in s.owner && s.owner[c] in s.tasks
    && Leads(s.tasks[s.owner[c]].phase) && s.tasks[s.owner[c]].phase.chan == c
  }

  ghost predicate KeyOk(s: State, k: Key)
    requires k in s.inflight
  {
    var c := s.inflight[k];
    && c in s.chans && c in s.owner && s.owner[c] in s.tasks
    && s.tasks[s.owner[c]].key == k && HoldsGuard(s.tasks[s.owner[c]].phase)
  }

  ghost predicate Inv(s: State) {
    && |s.shards| == SHARDS
    && (forall t :: t in s.tasks ==> LeaderOk(s, t))
    && (forall t :: t in s.tasks ==> FollowerOk(s, t))
    && (forall c :: c in s.chans ==> ChannelOk(s, c))
    && (forall k :: k in s.inflight ==> KeyOk(s, k))
  }

  /** A channel's value, once sent, stays; a closed channel does not change. */
  predicate Evolves(before: Channel, after: Channel) {
    && (before.value.Some? ==> after.value == before.value)
    && (!before.open ==> after == before)
  }

  /** A leader goes on to its next phase: its channel follows, and its key goes with its guard. */
  lemma LeaderMoves(s: State, t: Task, p: Phase, s': State)
    requires Inv(s) && t in s.tasks && Leads(s.tasks[t].phase) && Leads(p) && p.chan == s.tasks[t].phase.chan
    requires Evolves(ChannelOf(s.tasks[t].phase), ChannelOf(p))
    requires HoldsGuard(p) ==> HoldsGuard(s.tasks[t].phase)
    requires s'.tasks == s.tasks[t := Record(s.tasks[t].key, p)] && |s'.shards| == SHARDS
    requires s'.chans == s.chans[p.chan := ChannelOf(p)] && s'.owner == s.owner && s'.nextChan == s.nextChan
    requires var freed := HoldsGuard(s.tasks[t].phase) && !HoldsGuard(p);
             s'.inflight == if freed then s.inflight - {s.tasks[t].key} else s.inflight
    ensures Inv(s')
  {
    assert LeaderOk(s, t);
    forall u | u in s'.tasks
      ensures LeaderOk(s', u) && FollowerOk(s', u)
    {
      assert LeaderOk(s, u) && FollowerOk(s, u);
    }
    forall c | c in s'.chans
      ensures ChannelOk(s', c)
    {
      assert ChannelOk(s, c);
    }
    forall k | k in s'.inflight
      ensures KeyOk(s', k)
    {
      assert KeyOk(s, k);
    }
  }

  /** A task that is no leader takes a phase that is no leader's, and nothing else changes. */
  lemma OtherMoves(s: State, t: Task, p: Phase, s': State)
    requires Inv(s) && t in s.tasks && !Leads(s.tasks[t].phase) && !Leads(p)
    requires s'.tasks == s.tasks[t := Record(s.tasks[t].key, p)] && |s'.shards| == SHARDS
    requires s'.chans == s.chans && s'.owner == s.owner && s'.nextChan == s.nextChan && s'.inflight == s.inflight
    requires FollowerOk(s', t)
    ensures Inv(s')
  {
    forall u | u in s'.tasks
      ensures LeaderOk(s', u) && FollowerOk(s', u)
    {
      assert LeaderOk(s, u) && FollowerOk(s, u);
    }
    forall c | c in s'.chans
      ensures ChannelOk(s', c)
    {
      assert ChannelOk(s, c);
    }
    forall k | k in s'.inflight
      ensures KeyOk(s', k)
    {
      assert KeyOk(s, k);
    }
  }

  lemma ArriveKeeps(s: State, t: Task, r: Record, s': State)
    requires Inv(s) && t !in s.tasks && !Leads(r.phase) && !Follows(r.phase)
    requires s'.tasks == s.tasks[t := r] && |s'.shards| == SHARDS
    requires s'.chans == s.chans && s'.owner == s.owner && s'.nextChan == s.nextChan && s'.inflight == s.inflight
    ensures Inv(s')
  {
    forall u | u in s'.tasks
      ensures LeaderOk(s', u) && FollowerOk(s', u)
    {
      assert u != t ==> LeaderOk(s, u) && FollowerOk(s, u);
    }
    forall c | c in s'.chans
      ensures ChannelOk(s', c)
    {
      assert ChannelOk(s, c);
    }
    forall k | k in s'.inflight
      ensures KeyOk(s', k)
    {
      assert KeyOk(s, k);
    }
  }

  /** A new leader takes a fresh channel for a key nobody holds. */
  lemma LeaderEnters(s: State, t: Task, s': State)
    requires Inv(s) && t in s.tasks && s.tasks[t].phase.Pending? && s.tasks[t].key !in s.inflight
    requires s'.tasks == s.tasks[t := Record(s.tasks[t].key, Querying(s.nextChan))] && |s'.shards| == SHARDS
    requires s'.inflight == s.inflight[s.tasks[t].key := s.nextChan]
    requires s'.chans == s.chans[s.nextChan := Channel(None, true)] && s'.owner == s.owner[s.nextChan := t]
    requires s'.nextChan == s.nextChan + 1
    ensures Inv(s')
  {
    assert s.nextChan !in s.chans by {
      assert s.nextChan in s.chans ==> ChannelOk(s, s.nextChan);
    }
    forall u | u in s'.tasks
      ensures LeaderOk(s', u) && FollowerOk(s', u)
    {
      assert LeaderOk(s, u) && FollowerOk(s, u);
    }
    forall c | c in s'.chans
      ensures ChannelOk(s', c)
    {
      assert c != s.nextChan ==> ChannelOk(s, c);
    }
    forall k | k in s'.inflight
      ensures KeyOk(s', k)
    {
      assert k != s.tasks[t].key ==> KeyOk(s, k);
    }
  }

  lemma EnterKeeps(s: State, t: Task, shard: nat)
    requires Inv(s) && Enabled(s, Enter(t, shard))
    ensures Inv(Next(s, Enter(t, shard)))
  {
    var s', key := Next(s, Enter(t, shard)), s.tasks[t].key;
    if key in s.inflight {
      assert KeyOk(s, key);
      OtherMoves(s, t, Checking(s.inflight[key]), s');
    } else {
      LeaderEnters(s, t, s');
    }
  }

  lemma LeaderStepKeeps(s: State, step: Step)
    requires Inv(s) && Enabled(s, step)
    requires step.UpstreamReturns? || step.Cancel? || step.Publish? || step.DropGuard? || step.DropSender?
    ensures Inv(Next(s, step))
  {
    hide Inv;
    var t, s' := step.task, Next(s, step);
    InvTask(s, t);
    LeaderMoves(s, t, s'.tasks[t].phase, s');
  }

  lemma InvShards(s: State)
    requires Inv(s)
    ensures |s.shards| == SHARDS
  {}

  lemma InvTask(s: State, t: Task)
    requires Inv(s) && t in s.tasks
    ensures LeaderOk(s, t) && FollowerOk(s, t) && |s.shards| == SHARDS
  {}

  lemma FollowerStepKeeps(s: State, step: Step)
    requires Inv(s) && Enabled(s, step)
    requires step.Check? || step.Wake? || step.SenderGone? || step.Drain? || step.Leave?
    ensures Inv(Next(s, step))
  {
    hide Inv;
    var t, s' := step.task, Next(s, step);
    InvTask(s, t);
    OtherMoves(s, t, s'.tasks[t].phase, s');
  }

  /** Every step keeps the invariant. */
  lemma StepKeeps(s: State, step: Step)
    requires Inv(s) && Enabled(s, step)
    ensures Inv(Next(s, step))
  {
    hide Inv;
    match step
    case Arrive(t, _, _, _) =>
      InvShards(s);
      ArriveKeeps(s, t, Next(s, step).tasks[t], Next(s, step));
    case Enter(t, shard) => EnterKeeps(s, t, shard);
    case UpstreamReturns(_, _, _, _) => LeaderStepKeeps(s, step);
    case Cancel(_, _) => LeaderStepKeeps(s, step);
    case Publish(_) => LeaderStepKeeps(s, step);
    case DropGuard(_) => LeaderStepKeeps(s, step);
    case DropSender(_) => LeaderStepKeeps(s, step);
    case _ => FollowerStepKeeps(s, step);
  }

  // ----- Runs -----

  ghost predicate IsRun(states: seq<State>, steps: seq<Step>) {
    && |states| == |steps| + 1 && states[0] == Init()
    && (forall i :: 0 <= i < |steps| ==> Enabled(states[i], steps[i]) && states[i + 1] == Next(states[i], steps[i]))
  }

  lemma {:induction false} RunKeeps(states: seq<State>, steps: seq<Step>, i: nat)
    requires IsRun(states, steps) && i < |states|
    ensures Inv(states[i])
  {
    if i > 0 {
      hide Inv;
      RunKeeps(states, steps, i - 1);
      hide Next, Enabled;
      assert Enabled(states[i - 1], steps[i - 1]) && states[i] == Next(states[i - 1], steps[i - 1]);
      StepKeeps(states[i - 1], steps[i - 1]);
    }
  }

  // ----- Safety -----

  /** `t` holds the guard of `k`, and the table has its channel. */
  predicate LeadsFor(s: State, t: Task, k: Key)
    requires t in s.tasks && k in s.inflight
  {
    s.tasks[t].key == k && HoldsGuard(s.tasks[t].phase) && s.tasks[t].phase.chan == s.inflight[k]
  }

  /**
    * In every reachable state the table maps exactly the keys of live leaders, each
    * to that leader's channel, and no two live leaders share a key; so no two
    * upstream queries for one key are outstanding together.
    */
  lemma OneLeaderPerKey(states: seq<State>, steps: seq<Step>, i: nat)
    requires IsRun(states, steps) && i < |states|
    ensures var s := states[i];
            && (forall t :: t in s.tasks && HoldsGuard(s.tasks[t].phase) ==>
                              s.tasks[t].key in s.inflight && s.inflight[s.tasks[t].key] == s.tasks[t].phase.chan)
            && (forall k :: k in s.inflight ==>
                              exists t :: t in s.tasks && LeadsFor(s, t, k))
            && (forall t, u :: t in s.tasks && u in s.tasks && s.tasks[t].key == s.tasks[u].key ==>
                                 HoldsGuard(s.tasks[t].phase) && HoldsGuard(s.tasks[u].phase) ==> t == u)
  {
    RunKeeps(states, steps, i);
    var s := states[i];
    forall t | t in s.tasks && HoldsGuard(s.tasks[t].phase)
      ensures s.tasks[t].key in s.inflight && s.inflight[s.tasks[t].key] == s.tasks[t].phase.chan
      ensures s.owner[s.tasks[t].phase.chan] == t
    {
      assert LeaderOk(s, t);
    }
    forall k | k in s.inflight
      ensures exists t :: t in s.tasks && LeadsFor(s, t, k)
    {
      assert KeyOk(s, k) && ChannelOk(s, s.inflight[k]);
      assert s.owner[s.inflight[k]] in s.tasks;
    }
  }

  /** A guard removes its own leader's entry and no other. */
  lemma GuardRemovesOwnEntry(states: seq<State>, steps: seq<Step>, i: nat)
    requires IsRun(states, steps) && i < |steps| && steps[i].DropGuard?
    ensures var s, t := states[i], steps[i].task;
            && t in s.tasks && HoldsGuard(s.tasks[t].phase)
            && s.tasks[t].key in s.inflight && s.inflight[s.tasks[t].key] == s.tasks[t].phase.chan
            && states[i + 1].inflight == s.inflight - {s.tasks[t].key}
  {
    RunKeeps(states, steps, i);
    assert Enabled(states[i], steps[i]) && states[i + 1] == Next(states[i], steps[i]);
    assert LeaderOk(states[i], steps[i].task);
  }

  // ----- What followers get -----

  /** What a leader's phase says about its past. */
  predicate WasCancelled(p: Phase) { p.Cancelled? || ((p.Closing? || p.Led?) && p.sent.None?) }

  predicate HasReply(p: Phase, raw: Reply) {
    ((p.Answered? || p.Published?) && p.raw == raw) || ((p.Closing? || p.Led?) && p.sent == Some(raw))
  }

  /** Where these phases come from: the step that brings them about, or the phase before. */
  lemma LeaderPast(s: State, step: Step, t: Task, raw: Reply)
    requires Enabled(s, step)
    ensures WasCancelled(PhaseOf(Next(s, step), t)) ==>
              (step.Cancel? && step.task == t) || WasCancelled(PhaseOf(s, t))
    ensures HasReply(PhaseOf(Next(s, step), t), raw) ==>
              (step.UpstreamReturns? && step.task == t && step.raw == raw) || HasReply(PhaseOf(s, t), raw)
  {
    if step.task != t {
      StepTouchesOne(s, step, t);
    }
  }

  lemma {:induction false} CancelledBefore(states: seq<State>, steps: seq<Step>, i: nat, t: Task) returns (j: nat)
    requires IsRun(states, steps) && i < |states| && WasCancelled(PhaseOf(states[i], t))
    ensures j < i && steps[j].Cancel? && steps[j].task == t
  {
    hide Next, Enabled;
    assert i > 0;
    LeaderPast(states[i - 1], steps[i - 1], t, []);
    if steps[i - 1].Cancel? && steps[i - 1].task == t {
      j := i - 1;
    } else {
      j := CancelledBefore(states, steps, i - 1, t);
    }
  }

  lemma {:induction false} RepliedBefore(states: seq<State>, steps: seq<Step>, i: nat, t: Task,
                                         raw: Reply) returns (j: nat)
    requires IsRun(states, steps) && i < |states| && HasReply(PhaseOf(states[i], t), raw)
    ensures j < i && steps[j].UpstreamReturns? && steps[j].task == t && steps[j].raw == raw
  {
    hide Next, Enabled;
    assert i > 0;
    LeaderPast(states[i - 1], steps[i - 1], t, raw);
    if HasReply(PhaseOf(states[i - 1], t), raw) {
      j := RepliedBefore(states, steps, i - 1, t, raw);
    } else {
      j := i - 1;
    }
  }

  /**
    * A finished follower followed a leader of its own key. It has exactly the bytes
    * that leader got from upstream, or it failed and that leader was cancelled or unwound.
    */
  lemma FollowerOutcome(states: seq<State>, steps: seq<Step>, i: nat, t: Task) returns (leader: Task, j: nat)
    requires IsRun(states, steps) && i < |states| && PhaseOf(states[i], t).Followed?
    ensures leader in states[i].tasks && t in states[i].tasks && states[i].tasks[leader].key == states[i].tasks[t].key
    ensures j < i
    ensures match PhaseOf(states[i], t).got
            case Some(raw) => steps[j].UpstreamReturns? && steps[j].task == leader && steps[j].raw == raw
            case None => steps[j].Cancel? && steps[j].task == leader && states[i].tasks[leader].phase.Led?
  {
    RunKeeps(states, steps, i);
    var s, p := states[i], PhaseOf(states[i], t);
    assert FollowerOk(s, t) && ChannelOk(s, p.chan);
    leader := s.owner[p.chan];
    assert LeaderOk(s, leader);
    if p.got.Some? {
      j := RepliedBefore(states, steps, i, leader, p.got.value);
    } else {
      j := CancelledBefore(states, steps, i, leader);
    }
  }

  /** A channel that exists stays, and evolves. */
  lemma StepEvolves(s: State, step: Step, c: Chan)
    requires Inv(s) && Enabled(s, step) && c in s.chans
    ensures c in Next(s, step).chans && Evolves(s.chans[c], Next(s, step).chans[c])
  {
    var t := step.task;
    if step.Enter? {
      assert ChannelOk(s, c);
    } else if step.Publish? || step.DropSender? {
      assert LeaderOk(s, t);
    }
  }

  predicate HasValue(s: State, c: Chan, value: Option<Reply>) {
    c in s.chans && s.chans[c].value == value
  }

  lemma ValueStep(states: seq<State>, steps: seq<Step>, i: nat, c: Chan, value: Option<Reply>)
    requires IsRun(states, steps) && i < |steps| && HasValue(states[i], c, value) && value.Some?
    ensures HasValue(states[i + 1], c, value)
  {
    hide Inv, Next, Enabled;
    RunKeeps(states, steps, i);
    assert Enabled(states[i], steps[i]) && states[i + 1] == Next(states[i], steps[i]);
    StepEvolves(states[i], steps[i], c);
  }

  lemma {:induction false} ValueStays(states: seq<State>, steps: seq<Step>, i: nat, j: nat, c: Chan)
    requires IsRun(states, steps) && i <= j < |states| && c in states[i].chans && states[i].chans[c].value.Some?
    ensures HasValue(states[j], c, states[i].chans[c].value)
    decreases j
  {
    if i < j {
      hide Next, Enabled;
      ValueStays(states, steps, i, j - 1, c);
      ValueStep(states, steps, j - 1, c, states[i].chans[c].value);
    }
  }

  /** No published value is missed: whoever finishes on the channel later has it. */
  lemma NoMissedValue(states: seq<State>, steps: seq<Step>, i: nat, j: nat, c: Chan, t: Task)
    requires IsRun(states, steps) && i <= j < |states| && c in states[i].chans && states[i].chans[c].value.Some?
    requires PhaseOf(states[j], t).Followed? && PhaseOf(states[j], t).chan == c
    ensures PhaseOf(states[j], t).got == states[i].chans[c].value
  {
    ValueStays(states, steps, i, j, c);
    RunKeeps(states, steps, j);
    assert FollowerOk(states[j], t);
  }

  // ----- Progress -----

  predicate Unfinished(p: Phase) {
    p.Pending? || (Leads(p) && !p.Led?) || (Follows(p) && !p.Followed?)
  }

  /** A step a task takes by itself, or that its upstream query takes for it. */
  function OwnStep(s: State, t: Task, raw: Reply): Step {
    match PhaseOf(s, t)
    case Pending => Enter(t, 0)
    case Querying(_) => UpstreamReturns(t, raw, false, 0)
    case Answered(_, _) => Publish(t)
    case Published(_, _) => DropGuard(t)
    case Cancelled(_) => DropGuard(t)
    case Closing(_, _) => DropSender(t)
    case Checking(_) => Check(t)
    case Waiting(c) => if c in s.chans && s.chans[c].value.Some? then Wake(t) else SenderGone(t)
    case Draining(_) => Drain(t)
    case _ => Leave(t)
  }

  /**
    * Nobody is stuck: an unfinished task can take its own next step, or it is a
    * follower waiting on an unpublished channel whose leader is live and can.
    */
  lemma NobodyIsStuck(states: seq<State>, steps: seq<Step>, i: nat, t: Task, raw: Reply)
    requires IsRun(states, steps) && i < |states|
    requires t in states[i].tasks && Unfinished(states[i].tasks[t].phase)
    ensures var s := states[i];
            || Enabled(s, OwnStep(s, t, raw))
            || (s.tasks[t].phase.Waiting?
                && s.tasks[t].phase.chan in s.owner
                && var leader := s.owner[s.tasks[t].phase.chan];
                && leader in s.tasks && Leads(s.tasks[leader].phase) && !s.tasks[leader].phase.Led?
                && s.tasks[leader].key == s.tasks[t].key
                && Enabled(s, OwnStep(s, leader, raw)))
  {
    RunKeeps(states, steps, i);
    var s := states[i];
    assert LeaderOk(s, t) && FollowerOk(s, t);
    var p := s.tasks[t].phase;
    if p.Waiting? {
      assert ChannelOk(s, p.chan);
      var leader := s.owner[p.chan];
      assert LeaderOk(s, leader);
    }
  }

  /** An upper bound on the steps a task still takes. */
  function StepsLeft(s: State, t: Task): nat {
    var p := PhaseOf(s, t);
    match p
    case Pending => 7
    case Querying(_) => 6
    case Answered(_, _) => 5
    case Published(_, _) => 4
    case Cancelled(_) => 4
    case Closing(_, _) => 2
    case Checking(c) => if c in s.chans && s.chans[c].value.Some? then 1 else 5
    case Waiting(_) => 4
    case Draining(_) => 1
    case _ => 0
  }

  function StepsOf(steps: seq<Step>, t: Task): nat {
    if steps == [] then 0
    else
      var last := steps[|steps| - 1];
      StepsOf(steps[..|steps| - 1], t) + if last.task == t && !last.Arrive? then 1 else 0
  }

  /** A task's own step leaves it fewer; its arrival starts it at no more than seven. */
  lemma OwnStepUsesOne(s: State, step: Step)
    requires Enabled(s, step)
    ensures step.task in Next(s, step).tasks
    ensures step.Arrive? ==> step.task !in s.tasks && StepsLeft(Next(s, step), step.task) <= 7
    ensures !step.Arrive? ==> step.task in s.tasks && StepsLeft(Next(s, step), step.task) < StepsLeft(s, step.task)
  {}

  lemma OtherStepUsesNone(s: State, step: Step, t: Task)
    requires Inv(s) && Enabled(s, step) && step.task != t
    ensures StepsLeft(Next(s, step), t) <= StepsLeft(s, t)
    ensures t in s.tasks <==> t in Next(s, step).tasks
  {
    StepTouchesOne(s, step, t);
    hide Next, Enabled;
    var p := PhaseOf(s, t);
    if p.Checking? {
      assert FollowerOk(s, t);
      StepEvolves(s, step, p.chan);
    }
  }

  lemma StepTouchesOne(s: State, step: Step, t: Task)
    requires Enabled(s, step) && step.task != t
    ensures t in s.tasks <==> t in Next(s, step).tasks
    ensures PhaseOf(Next(s, step), t) == PhaseOf(s, t)
  {}

  /** Every task is done after at most seven steps of its own, however the tasks interleave. */
  lemma {:induction false} EveryTaskIsBounded(states: seq<State>, steps: seq<Step>, i: nat, t: Task)
    requires IsRun(states, steps) && i < |states|
    ensures StepsOf(steps[..i], t) + StepsLeft(states[i], t) <= 7
    ensures t !in states[i].tasks ==> StepsOf(steps[..i], t) == 0
  {
    if i > 0 {
      hide Inv, Next, Enabled, StepsLeft;
      EveryTaskIsBounded(states, steps, i - 1, t);
      RunKeeps(states, steps, i - 1);
      var s, step := states[i - 1], steps[i - 1];
      assert Enabled(s, step) && states[i] == Next(s, step);
      if step.task == t {
        OwnStepUsesOne(s, step);
      } else {
        OtherStepUsesNone(s, step, t);
      }
      assert steps[..i][..i - 1] == steps[..i - 1];
    }
  }

  // ----- Accounting -----

  function Outcomes(shards: seq<Counters>): nat {
    Sum(shards, RateLimited) + Sum(shards, Blocked) + Sum(shards, Authoritative) + Sum(shards, CacheHits)
    + Sum(shards, Errors) + Sum(shards, Forwarded) + Sum(shards, Coalesced)
  }

  lemma BumpOutcomes(shards: seq<Counters>, shard: nat, k: Counter)
    requires shard < |shards|
    ensures Sum(Bumped(shards, shard, k), Total) == Sum(shards, Total) + if k.Total? then 1 else 0
    ensures Outcomes(Bumped(shards, shard, k)) == Outcomes(shards) + if k.Total? then 0 else 1
  {
    hide Sum, Bumped;
    BumpSum(shards, shard, k, Total);
    BumpSum(shards, shard, k, RateLimited);
    BumpSum(shards, shard, k, Blocked);
    BumpSum(shards, shard, k, Authoritative);
    BumpSum(shards, shard, k, CacheHits);
    BumpSum(shards, shard, k, Errors);
    BumpSum(shards, shard, k, Forwarded);
    BumpSum(shards, shard, k, Coalesced);
  }

  function PendingTasks(s: State): set<Task> {
    set t | t in s.tasks && s.tasks[t].phase.Pending?
  }

  ghost predicate Balanced(s: State) {
    Sum(s.shards, Total) + s.failures == Outcomes(s.shards) + |PendingTasks(s)| + s.crashes
  }

  lemma ArriveBalances(s: State, step: Step)
    requires Balanced(s) && Enabled(s, step) && step.Arrive?
    ensures Balanced(Next(s, step))
  {
    hide Sum, Outcomes, Bumped, CounterOf;
    var s', t := Next(s, step), step.task;
    BumpOutcomes(s.shards, step.shard, Total);
    ArrivePending(s, step);
    hide PendingTasks;
    if Counted(step.outcome) {
      NeverTotal(step.outcome);
      BumpOutcomes(Bumped(s.shards, step.shard, Total), step.shard, CounterOf(step.outcome));
    }
  }

  lemma ArrivePending(s: State, step: Step)
    requires Enabled(s, step) && step.Arrive?
    ensures |PendingTasks(Next(s, step))| == |PendingTasks(s)| + if step.outcome.Forward? then 1 else 0
  {
    hide ArriveShards, PendingTasks;
    var s', t := Next(s, step), step.task;
    NewTaskPending(s, t, s'.tasks[t], s');
  }

  lemma NewTaskPending(s: State, t: Task, r: Record, s': State)
    requires t !in s.tasks && s'.tasks == s.tasks[t := r]
    ensures t !in PendingTasks(s)
    ensures PendingTasks(s') == if r.phase.Pending? then PendingTasks(s) + {t} else PendingTasks(s)
  {}

  lemma NeverTotal(o: Outcome)
    requires Counted(o)
    ensures !CounterOf(o).Total?
  {}

  lemma EnterBalances(s: State, step: Step)
    requires Balanced(s) && Enabled(s, step) && step.Enter?
    ensures Balanced(Next(s, step))
  {
    hide Sum, Outcomes, Bumped;
    BumpOutcomes(s.shards, step.shard, Coalesced);
    BumpOutcomes(s.shards, step.shard, Forwarded);
    assert PendingTasks(Next(s, step)) == PendingTasks(s) - {step.task};
  }

  lemma StepBalances(s: State, step: Step)
    requires Balanced(s) && Enabled(s, step)
    ensures Balanced(Next(s, step))
  {
    hide Sum, Outcomes, Bumped;
    if step.Arrive? {
      hide Next, Enabled, Balanced;
      ArriveBalances(s, step);
    } else if step.Enter? {
      hide Next, Enabled, Balanced;
      EnterBalances(s, step);
    } else {
      hide PendingTasks;
      if step.UpstreamReturns? {
        BumpOutcomes(s.shards, step.shard, Errors);
      }
      SamePending(s, step.task, Next(s, step));
    }
  }

  lemma SamePending(s: State, t: Task, s': State)
    requires t in s.tasks && t in s'.tasks && s'.tasks == s.tasks[t := s'.tasks[t]]
    requires !s.tasks[t].phase.Pending? && !s'.tasks[t].phase.Pending?
    ensures PendingTasks(s') == PendingTasks(s)
  {}

  /**
    * Every query is counted under exactly one outcome, except those that crash the parser: over
    * every run, total plus failed upstream queries is the sum of the outcome counters plus the
    * forwards still pending plus the crashes, each counter read as a sum over its shards. The runs
    * are those without zone transfers, which count an allowed request in the total before they
    * know whether its zone is served.
    */
  lemma {:induction false} QueriesBalance(states: seq<State>, steps: seq<Step>, i: nat)
    requires IsRun(states, steps) && i < |states|
    ensures Balanced(states[i])
  {
    if i == 0 {
      FreshSum(SHARDS, Total);
      FreshSum(SHARDS, RateLimited);
      FreshSum(SHARDS, Blocked);
      FreshSum(SHARDS, Authoritative);
      FreshSum(SHARDS, CacheHits);
      FreshSum(SHARDS, Errors);
      FreshSum(SHARDS, Forwarded);
      FreshSum(SHARDS, Coalesced);
      assert PendingTasks(Init()) == {};
    } else {
      QueriesBalance(states, steps, i - 1);
      hide Balanced, Next, Enabled;
      assert Enabled(states[i - 1], steps[i - 1]) && states[i] == Next(states[i - 1], steps[i - 1]);
      StepBalances(states[i - 1], steps[i - 1]);
    }
  }

  /** What a step counts: an arrival its outcome, a task that enters its role, a failed upstream query an error. */
  predicate Counts(s: State, step: Step, k: Counter) {
    match k
    case Total => step.Arrive?
    case RateLimited => step.Arrive? && step.outcome.Limited?
    case Blocked => step.Arrive? && step.outcome.Listed?
    case Authoritative => step.Arrive? && step.outcome.Answer?
    case CacheHits => step.Arrive? && step.outcome.Cached?
    case Errors => (step.Arrive? && step.outcome.Unparsed?) || (step.UpstreamReturns? && step.failed)
    case Forwarded => step.Enter? && step.task in s.tasks && s.tasks[step.task].key !in s.inflight
    case Coalesced => step.Enter? && step.task in s.tasks && s.tasks[step.task].key in s.inflight
  }

  function Times(states: seq<State>, steps: seq<Step>, i: nat, k: Counter): nat
    requires i <= |steps| <= |states|
  {
    if i == 0 then 0
    else Times(states, steps, i - 1, k) + if Counts(states[i - 1], steps[i - 1], k) then 1 else 0
  }

  lemma StepCounts(s: State, step: Step, k: Counter)
    requires Enabled(s, step)
    ensures Sum(Next(s, step).shards, k) == Sum(s.shards, k) + if Counts(s, step, k) then 1 else 0
  {
    hide Sum, Bumped;
    match step
    case Arrive(_, _, o, shard) =>
      BumpSum(s.shards, shard, Total, k);
      if Counted(o) {
        BumpSum(Bumped(s.shards, shard, Total), shard, CounterOf(o), k);
      }
    case Enter(_, shard) =>
      BumpSum(s.shards, shard, Coalesced, k);
      BumpSum(s.shards, shard, Forwarded, k);
    case UpstreamReturns(_, _, _, shard) => BumpSum(s.shards, shard, Errors, k);
    case _ =>
  }

  /** Over every run each counter, summed over its shards, is the number of steps that it counts. */
  lemma {:induction false} EachCounterIsExact(states: seq<State>, steps: seq<Step>, i: nat, k: Counter)
    requires IsRun(states, steps) && i < |states|
    ensures Sum(states[i].shards, k) == Times(states, steps, i, k)
  {
    if i == 0 {
      FreshSum(SHARDS, k);
    } else {
      EachCounterIsExact(states, steps, i - 1, k);
      hide Sum, Counts, Next, Enabled;
      assert Enabled(states[i - 1], steps[i - 1]) && states[i] == Next(states[i - 1], steps[i - 1]);
      StepCounts(states[i - 1], steps[i - 1], k);
    }
  }

  /** The number of queries in a run whose parsing panicked. */
  function CrashesIn(steps: seq<Step>): nat {
    if steps == [] then 0
    else
      var last := steps[|steps| - 1];
      CrashesIn(steps[..|steps| - 1]) + if last.Arrive? && last.outcome.Crashed? then 1 else 0
  }

  lemma {:induction false} CrashesAreCounted(states: seq<State>, steps: seq<Step>, i: nat)
    requires IsRun(states, steps) && i < |states|
    ensures states[i].crashes == CrashesIn(steps[..i])
  {
    if i > 0 {
      CrashesAreCounted(states, steps, i - 1);
      assert Enabled(states[i - 1], steps[i - 1]) && states[i] == Next(states[i - 1], steps[i - 1]);
      assert steps[..i][..i - 1] == steps[..i - 1];
      StepCrashes(states[i - 1], steps[i - 1]);
    }
  }

  lemma StepCrashes(s: State, step: Step)
    requires Enabled(s, step)
    ensures Next(s, step).crashes == s.crashes + if step.Arrive? && step.outcome.Crashed? then 1 else 0
  {}

  /** With no forward pending, the counters add up exactly when no query has crashed the parser. */
  lemma CountersAddUpExactly(states: seq<State>, steps: seq<Step>, i: nat)
    requires IsRun(states, steps) && i < |states| && PendingTasks(states[i]) == {}
    ensures Sum(states[i].shards, Total) + states[i].failures == Outcomes(states[i].shards) <==>
            CrashesIn(steps[..i]) == 0
  {
    hide Sum, Outcomes, IsRun;
    QueriesBalance(states, steps, i);
    CrashesAreCounted(states, steps, i);
  }
}
