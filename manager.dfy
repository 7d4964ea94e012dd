/**
 * HazelcastClusterManager as a class whose synchronized methods update its
 * fields in place. Each method is one atomic step of the Lifecycle state
 * machine: its postcondition ties the new Abstract() value to the Lifecycle step
 * applied to the old one, and Valid() (Lifecycle.Consistent) is kept.
 */
module ClusterManagerImpl {
  import opened Wrappers
  import opened ClusterConfig
  import opened Lifecycle

  class HazelcastClusterManager {
    var active: bool
    var nodeID: Option<Uuid>
    var nodeListener: Option<ListenerRef>
    /** The engine handle; None is Java's null before the first join. */
    var hazelcast: Option<Instance>
    /**
     * Engine side: how many instances this manager has started. It is also
     * the serial of the next instance, which stands for the identity of the
     * object `hazelcast` refers to.
     */
    var instancesCreated: nat
    /** Listener side: the nodeAdded / nodeLeft calls made so far, oldest first. */
    ghost var delivered: seq<Notification>

    ghost function Abstract(): State
      reads this
    {
      State(active, nodeID, nodeListener, hazelcast, instancesCreated, delivered)
    }

    ghost predicate Valid()
      reads this
    {
      Consistent(Abstract())
    }

    constructor ()
      ensures Valid() && Abstract() == Initial
    {
      active := false;
      nodeID := None;
      nodeListener := None;
      hazelcast := None;
      instancesCreated := 0;
      delivered := [];
    }

    /** join(); `localUuid` is the uuid the engine assigns to the new local member. */
    method Join(env: Environment, localUuid: Uuid)
      requires Valid()
      modifies this
      ensures Valid() && active
      ensures Abstract() == Lifecycle.Join(old(Abstract()), env, localUuid)
    {
      if active {
        return;
      }
      var cfg := GetConfig(env);
      // start a new engine instance with that configuration
      hazelcast := Some(Instance(instancesCreated, cfg, localUuid, false, true));
      instancesCreated := instancesCreated + 1;
      nodeID := Some(hazelcast.value.localUuid);
      // register as the instance's membership listener
      hazelcast := Some(hazelcast.value.(sinkRegistered := true));
      active := true;
    }

    method Leave()
      requires Valid()
      modifies this
      ensures Valid() && !active
      ensures Abstract() == Lifecycle.Leave(old(Abstract()))
    {
      if !active {
        return;
      }
      // deregister from the instance's membership events
      hazelcast := Some(hazelcast.value.(sinkRegistered := false));
      // shut the instance down
      hazelcast := Some(hazelcast.value.(running := false));
      active := false;
    }

    method SetNodeListener(listener: Option<ListenerRef>)
      requires Valid()
      modifies this
      ensures Valid()
      ensures Abstract() == SetListener(old(Abstract()), listener)
    {
      nodeListener := listener;
    }

    method MemberAdded(e: MembershipEvent, outcome: CallOutcome)
      requires Valid()
      modifies this
      ensures Valid()
      ensures Abstract() == Lifecycle.MemberAdded(old(Abstract()), e, outcome)
    {
      if !active {
        return;
      }
      if nodeListener.Some? {
        delivered := delivered + [NodeAdded(nodeListener.value, e.member.uuid)];
        // whatever the listener throws is caught and logged here
      }
    }

    method MemberRemoved(e: MembershipEvent, outcome: CallOutcome)
      requires Valid()
      modifies this
      ensures Valid()
      ensures Abstract() == Lifecycle.MemberRemoved(old(Abstract()), e, outcome)
    {
      if !active {
        return;
      }
      if nodeListener.Some? {
        delivered := delivered + [NodeLeft(nodeListener.value, e.member.uuid)];
      }
    }

    /** getNodeID(): null until the first join, then the latest instance's local member uuid. */
    method GetNodeID() returns (id: Option<Uuid>)
      requires Valid()
      ensures id.Some? <==> instancesCreated > 0
      ensures hazelcast.Some? ==> id == Some(hazelcast.value.localUuid)
    {
      id := nodeID;
    }

    /**
     * getNodes(): `members` is what hazelcast.getCluster().getMembers() answers,
     * in iteration order. None stands for the NullPointerException thrown
     * when no engine was ever started.
     */
    method GetNodes(members: seq<Member>) returns (nodes: Option<seq<Uuid>>)
      ensures nodes.None? <==> hazelcast.None?
      ensures nodes.Some? ==> |nodes.value| == |members|
      ensures nodes.Some? ==> forall i :: 0 <= i < |members| ==> nodes.value[i] == members[i].uuid
    {
      if hazelcast.None? {
        return None;
      }
      var lMembers: seq<Uuid> := [];
      for i := 0 to |members|
        invariant |lMembers| == i
        invariant forall k :: 0 <= k < i ==> lMembers[k] == members[k].uuid
      {
        lMembers := lMembers + [members[i].uuid];
      }
      return Some(lMembers);
    }
  }
}
