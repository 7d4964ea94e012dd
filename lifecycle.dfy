/**
 * The lifecycle state machine of HazelcastClusterManager as values: the
 * manager's fields, the slice of the Hazelcast engine it drives, and the
 * calls its registered NodeListener has received. Every synchronized
 * method is one atomic step; `Run` applies a sequence of them.
 */
module Lifecycle {
  import opened Wrappers
  import opened ClusterConfig

  type Uuid = string

  /** Identity of a NodeListener object supplied by the caller. */
  datatype ListenerRef = ListenerRef(id: nat)

  /** A Hazelcast cluster member, seen only through its uuid. */
  datatype Member = Member(uuid: Uuid)

  /** A raw Hazelcast membership event. */
  datatype MembershipEvent = MembershipEvent(member: Member)

  /** Which NodeListener callback an event turns into: nodeAdded or nodeLeft. */
  datatype EventKind = Added | Removed

  /** A call made on a NodeListener. */
  datatype Notification = NodeAdded(to: ListenerRef, nodeID: Uuid) | NodeLeft(to: ListenerRef, nodeID: Uuid)

  /** How a listener call ended: it returned, or it threw. */
  datatype CallOutcome = Returned | Threw

  /**
   * The part of one HazelcastInstance the manager drives: which instance it
   * is (the number of instances created before it), the configuration it
   * was started with, its local member's uuid, whether the manager is its
   * membership listener, and whether its lifecycle is still running.
   */
  datatype Instance = Instance(serial: nat, config: EngineConfig, localUuid: Uuid,
                               sinkRegistered: bool, running: bool)

  /**
   * The manager's fields (`active`, `nodeID`, `nodeListener`, `hazelcast`),
   * together with how many engine instances it has created and the calls
   * delivered to listeners, oldest first.
   */
  datatype State = State(active: bool, nodeID: Option<Uuid>, nodeListener: Option<ListenerRef>,
                         hazelcast: Option<Instance>, instancesCreated: nat,
                         delivered: seq<Notification>)

  /** A freshly constructed manager: every field at its Java default. */
  const Initial: State := State(false, None, None, None, 0, [])

  /** What every reachable state satisfies. */
  ghost predicate Consistent(s: State) {
    // an engine exists exactly when one was created, and it is the latest one
    (s.hazelcast.Some? <==> s.instancesCreated > 0) &&
    (s.hazelcast.Some? ==> s.hazelcast.value.serial == s.instancesCreated - 1) &&
    // nodeID is set by the first join and always names the latest instance's local member
    (s.nodeID.Some? <==> s.instancesCreated > 0) &&
    (s.hazelcast.Some? ==> s.nodeID == Some(s.hazelcast.value.localUuid)) &&
    // the manager listens to a running engine exactly while active
    (s.active ==> s.hazelcast.Some?) &&
    (s.hazelcast.Some? ==> s.hazelcast.value.sinkRegistered == s.active && s.hazelcast.value.running == s.active)
  }

  // ---------------------------------------------------------------------
  // Steps

  /**
   * join(): nothing when already active; otherwise start a new instance with
   * the resolved configuration (engine defaults when none is found), take
   * nodeID from its local member, register as its membership listener.
   * `localUuid` is the uuid the engine gives the new local member.
   */
  function Join(s: State, env: Environment, localUuid: Uuid): (t: State)
    ensures s.active ==> t == s
    ensures !s.active ==> (t.instancesCreated == s.instancesCreated + 1 && t.nodeID == Some(localUuid) &&
      t.hazelcast.Some? && t.hazelcast.value.serial == s.instancesCreated &&
      t.hazelcast.value.config == GetConfig(env) && t.hazelcast.value.localUuid == localUuid &&
      t.hazelcast.value.sinkRegistered && t.hazelcast.value.running)
    ensures t.active
    ensures t.nodeListener == s.nodeListener && t.delivered == s.delivered
    ensures Consistent(s) ==> Consistent(t)
  {
    if s.active then s
    else
      var instance := Instance(s.instancesCreated, GetConfig(env), localUuid, true, true);
      s.(hazelcast := Some(instance), instancesCreated := s.instancesCreated + 1,
         nodeID := Some(instance.localUuid), active := true)
  }

  /**
   * leave(): nothing when inactive; otherwise deregister from the engine,
   * shut it down and become inactive. nodeID is kept. With no engine the
   * first call on it throws before any field changes.
   */
  function Leave(s: State): (t: State)
    ensures !s.active ==> t == s
    ensures s.active && s.hazelcast.Some? ==>
      !t.active && t.hazelcast == Some(s.hazelcast.value.(sinkRegistered := false, running := false))
    ensures t.nodeID == s.nodeID && t.nodeListener == s.nodeListener &&
      t.instancesCreated == s.instancesCreated && t.delivered == s.delivered
    ensures Consistent(s) ==> Consistent(t) && !t.active
  {
    if !s.active then s
    else if s.hazelcast.None? then s
    else
      var h := s.hazelcast.value;
      s.(hazelcast := Some(h.(sinkRegistered := false, running := false)), active := false)
  }

  /** nodeListener(l): replace the one listener slot, whatever the lifecycle state. */
  function SetListener(s: State, l: Option<ListenerRef>): (t: State)
    ensures t.nodeListener == l
    ensures t.active == s.active && t.nodeID == s.nodeID && t.hazelcast == s.hazelcast &&
      t.instancesCreated == s.instancesCreated && t.delivered == s.delivered
  {
    s.(nodeListener := l)
  }

  function Notify(kind: EventKind, l: ListenerRef, uuid: Uuid): Notification {
    match kind
    case Added => NodeAdded(l, uuid)
    case Removed => NodeLeft(l, uuid)
  }

  /**
   * memberAdded / memberRemoved: dropped while inactive; otherwise the member's
   * uuid goes to the registered listener, if any. The handler catches and
   * logs whatever the listener throws, so the call's outcome changes nothing.
   */
  function HandleEvent(s: State, kind: EventKind, e: MembershipEvent, outcome: CallOutcome): (t: State)
    ensures t.active == s.active && t.nodeID == s.nodeID && t.nodeListener == s.nodeListener &&
      t.hazelcast == s.hazelcast && t.instancesCreated == s.instancesCreated
    ensures t.delivered == if s.active && s.nodeListener.Some? then s.delivered + [Notify(kind, s.nodeListener.value, e.member.uuid)]
                           else s.delivered
  {
    if !s.active then s
    else
      match s.nodeListener
      case None => s
      case Some(l) => s.(delivered := s.delivered + [Notify(kind, l, e.member.uuid)])
  }

  function MemberAdded(s: State, e: MembershipEvent, outcome: CallOutcome): (t: State)
    ensures !s.active || s.nodeListener.None? ==> t == s
    ensures s.active && s.nodeListener.Some? ==>
      t == s.(delivered := s.delivered + [NodeAdded(s.nodeListener.value, e.member.uuid)])
  {
    HandleEvent(s, Added, e, outcome)
  }

  function MemberRemoved(s: State, e: MembershipEvent, outcome: CallOutcome): (t: State)
    ensures !s.active || s.nodeListener.None? ==> t == s
    ensures s.active && s.nodeListener.Some? ==>
      t == s.(delivered := s.delivered + [NodeLeft(s.nodeListener.value, e.member.uuid)])
  {
    HandleEvent(s, Removed, e, outcome)
  }

  // ---------------------------------------------------------------------
  // Sequences of steps

  datatype Op =
    | JoinOp(env: Environment, localUuid: Uuid)
    | LeaveOp
    | ListenerOp(listener: Option<ListenerRef>)
    | EventOp(kind: EventKind, event: MembershipEvent, outcome: CallOutcome)

  function Step(s: State, op: Op): State {
    match op
    case JoinOp(env, u) => Join(s, env, u)
    case LeaveOp => Leave(s)
    case ListenerOp(l) => SetListener(s, l)
    case EventOp(Added, e, o) => MemberAdded(s, e, o)
    case EventOp(Removed, e, o) => MemberRemoved(s, e, o)
  }

  function Run(s: State, ops: seq<Op>): State
    decreases |ops|
  {
    if ops == [] then s else Run(Step(s, ops[0]), ops[1..])
  }

  /** Every state reachable from a consistent one is consistent. */
  lemma {:induction false} RunPreservesConsistent(s: State, ops: seq<Op>)
    requires Consistent(s)
    ensures Consistent(Run(s, ops))
    decreases |ops|
  {
    if ops != [] {
      assert Consistent(Step(s, ops[0]));
      RunPreservesConsistent(Step(s, ops[0]), ops[1..]);
    }
  }

  lemma InitialConsistent()
    ensures Consistent(Initial) && !Initial.active && Initial.nodeID.None?
  {
  }

  predicate AllJoins(ops: seq<Op>) {
    forall i :: 0 <= i < |ops| ==> ops[i].JoinOp?
  }

  /**
   * In a run of join() calls with no leave() between them only the first
   * can create an engine and set nodeID; the rest change nothing.
   */
  lemma {:induction false} RepeatedJoinsAreOneJoin(s: State, ops: seq<Op>)
    requires ops != [] && AllJoins(ops)
    ensures Run(s, ops) == Join(s, ops[0].env, ops[0].localUuid)
    ensures Run(s, ops).instancesCreated <= s.instancesCreated + 1
    decreases |ops|
  {
    var t := Join(s, ops[0].env, ops[0].localUuid);
    if |ops| > 1 {
      assert AllJoins(ops[1..]) by {
        forall i | 0 <= i < |ops[1..]| ensures ops[1..][i].JoinOp? { assert ops[1..][i] == ops[i + 1]; }
      }
      RepeatedJoinsAreOneJoin(t, ops[1..]);
      assert Run(t, ops[1..]) == Join(t, ops[1].env, ops[1].localUuid);
    } else {
      assert Run(t, ops[1..]) == t;
    }
  }

  /** In a run of leave() calls with no join() between them only the first tears anything down. */
  lemma {:induction false} RepeatedLeavesAreOneLeave(s: State, n: nat)
    requires n > 0
    ensures Run(s, seq(n, _ => LeaveOp)) == Leave(s)
    decreases n
  {
    var ops := seq(n, _ => LeaveOp);
    if n > 1 {
      assert ops[1..] == seq(n - 1, _ => LeaveOp);
      RepeatedLeavesAreOneLeave(Leave(s), n - 1);
      assert Leave(Leave(s)) == Leave(s);
    } else {
      assert ops[1..] == [];
    }
  }

  predicate NoJoin(ops: seq<Op>) {
    forall i :: 0 <= i < |ops| ==> !ops[i].JoinOp?
  }

  /**
   * Once inactive, and until the next join(), no membership event reaches any
   * listener: the delivered calls, the node id and the engine stay as they were.
   */
  lemma {:induction false} InactiveDeliversNothing(s: State, ops: seq<Op>)
    requires !s.active && NoJoin(ops)
    ensures var t := Run(s, ops);
      !t.active && t.delivered == s.delivered && t.nodeID == s.nodeID && t.hazelcast == s.hazelcast &&
      t.instancesCreated == s.instancesCreated
    decreases |ops|
  {
    if ops != [] {
      var u := Step(s, ops[0]);
      assert NoJoin(ops[1..]) by {
        forall i | 0 <= i < |ops[1..]| ensures !ops[1..][i].JoinOp? { assert ops[1..][i] == ops[i + 1]; }
      }
      InactiveDeliversNothing(u, ops[1..]);
    }
  }

  predicate AllEvents(ops: seq<Op>) {
    forall i :: 0 <= i < |ops| ==> ops[i].EventOp?
  }

  /** The calls a listener `l` should receive for the events of `ops`: one per event, in order. */
  function Expected(l: ListenerRef, ops: seq<Op>): seq<Notification>
  {
    if ops == [] then []
    else if ops[0].EventOp? then [Notify(ops[0].kind, l, ops[0].event.member.uuid)] + Expected(l, ops[1..])
    else Expected(l, ops[1..])
  }

  lemma AllEventsTail(ops: seq<Op>)
    requires ops != [] && AllEvents(ops)
    ensures ops[0].EventOp? && AllEvents(ops[1..])
  {
  }

  /** One event step while active with a listener: `Run` takes it and appends its call. */
  lemma EventStep(s: State, ops: seq<Op>)
    requires s.active && s.nodeListener.Some? && ops != [] && ops[0].EventOp?
    ensures Run(s, ops) ==
      Run(s.(delivered := s.delivered + [Notify(ops[0].kind, s.nodeListener.value, ops[0].event.member.uuid)]), ops[1..])
  {
  }

  /**
   * While active with a listener set, every membership event is delivered,
   * in order, one call per event, also after earlier calls threw.
   */
  lemma {:induction false} ActiveDeliversEveryEvent(s: State, ops: seq<Op>)
    requires s.active && s.nodeListener.Some? && AllEvents(ops)
    ensures Run(s, ops) == s.(delivered := s.delivered + Expected(s.nodeListener.value, ops))
    ensures |Expected(s.nodeListener.value, ops)| == |ops|
    decreases |ops|
  {
    var l := s.nodeListener.value;
    if ops == [] {
      assert s.delivered + [] == s.delivered;
    } else {
      AllEventsTail(ops);
      var n := Notify(ops[0].kind, l, ops[0].event.member.uuid);
      var u := s.(delivered := s.delivered + [n]);
      EventStep(s, ops);
      ActiveDeliversEveryEvent(u, ops[1..]);
      assert Expected(l, ops) == [n] + Expected(l, ops[1..]);
      assert (s.delivered + [n]) + Expected(l, ops[1..]) == s.delivered + Expected(l, ops);
    }
  }

  /** Leaving and joining again starts a new engine instance whose member uuid becomes the node id. */
  lemma RejoinStartsNewInstance(s: State, env: Environment, localUuid: Uuid)
    requires Consistent(s) && s.active
    ensures var t := Join(Leave(s), env, localUuid);
      t.active && t.nodeID == Some(localUuid) && t.instancesCreated == s.instancesCreated + 1 &&
      t.hazelcast.value.serial != s.hazelcast.value.serial
  {
  }
}
