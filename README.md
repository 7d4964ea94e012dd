# HazelcastClusterManager lifecycle, in Dafny

A model of the cluster manager that the vert.x resource adapter builds on
Hazelcast (`HazelcastClusterManager`). The model covers three things:

* the **lifecycle state machine**: `join()` and `leave()`, both guarded by
  `active`; the single `nodeListener` slot; `getNodeID()` and `getNodes()`;
* **membership-event translation**: `memberAdded` and `memberRemoved` are
  dropped while inactive. Otherwise they become `nodeAdded(uuid)` or
  `nodeLeft(uuid)` on the registered listener. Whatever the listener throws
  is swallowed;
* **configuration-source selection**: the `vertx.ra.cluster.file` system
  property is tried first, as a class-path resource and then as a file.
  Then the `cluster.xml` resource, then the `default-cluster.xml` resource,
  and otherwise Hazelcast's built-in defaults.

Files:

* `wrappers.dfy`: `Option`, for Java references that may be null.
* `config.dfy` (module `ClusterConfig`): the selection chain as pure
  functions over an `Environment` value (system properties, openable
  resources, openable files). It includes `String.trim` exactly as Java
  defines it: strip characters `<= ' '` at both ends. Beside the chain is an
  independent reference definition: an ordered candidate list where the
  first source that opens wins. The two are proved equal.
* `lifecycle.dfy` (module `Lifecycle`): the manager's fields as a `State`
  value. Each synchronized method is one step function. `Run` applies a
  sequence of steps. The lemmas cover such runs: repeated joins, repeated
  leaves, no delivery while inactive, delivery of every event while active,
  and the `Consistent` invariant.
* `manager.dfy` (module `ClusterManagerImpl`): the class
  `HazelcastClusterManager`. Its mutating members (the constructor, `Join`,
  `Leave`, `SetNodeListener`, `MemberAdded`, `MemberRemoved`) update the
  fields in place. Each is proved to perform exactly the corresponding
  `Lifecycle` step (its `Abstract()` value) and to keep `Valid()`. The
  queries `GetNodeID` and `GetNodes` change nothing; `GetNodes` builds the
  uuid list with a loop, as the Java does.

Abstractions:

* The Hazelcast engine is represented only by what the manager drives. That
  is an `Instance` value: its serial number, the configuration it was
  started with, its local member's uuid, whether the manager is registered
  as its membership listener, and whether it is still running.
  `instancesCreated` counts the calls to `Hazelcast.newHazelcastInstance`.
* The uuid Hazelcast gives a new local member is a parameter of `Join`.
* The member set that `getCluster().getMembers()` answers is a parameter of
  `GetNodes`.
* A listener is a `ListenerRef` value. The calls listeners received are the
  log `delivered`, a ghost field of the class. Whether a call returned or threw is the `CallOutcome`
  parameter of the event handlers. Because the handlers catch every
  `Throwable`, the outcome changes nothing.
* The Java method `nodeListener(listener)` shares its name with the field,
  so the class method is called `SetNodeListener`.
* A Java `null` result becomes `None`. `GetNodes` answers `None` where the
  Java throws `NullPointerException`: that happens when `getNodes()` is
  called before the first `join()`.

Three behaviours of the code that the model keeps:

* **New engine on every rejoin.** `join()` after `leave()` starts a new
  engine instance (`RejoinStartsNewInstance`).
* **`nodeID` is never cleared.** `leave()` keeps it. `Consistent` states
  that it always names the latest instance's local member.
* **Only `IOException` is caught.** `getConfig` catches nothing else, so a
  parser exception would escape from `join()`. Parsing is not modelled
  (see below).

## Model

| member | source | states |
|---|---|---|
| `ClusterConfig.TrimStart` | src/main/java/org/vertx/java/resourceadapter/cluster/HazelcastClusterManager.java:224 | the result is a suffix of the input; everything dropped is `<= ' '`; a non-empty result starts with a character `> ' '` |
| `ClusterConfig.TrimEnd` | src/main/java/org/vertx/java/resourceadapter/cluster/HazelcastClusterManager.java:224 | the result is a prefix of the input; everything dropped is `<= ' '`; a non-empty result ends with a character `> ' '` |
| `ClusterConfig.TrimEmptyIffBlank` | src/main/java/org/vertx/java/resourceadapter/cluster/HazelcastClusterManager.java:224 | `trim().length() == 0` holds exactly when every character is `<= ' '` (both directions) |
| `ClusterConfig.BlankPropertyIsSkipped` | src/main/java/org/vertx/java/resourceadapter/cluster/HazelcastClusterManager.java:221-227 | a missing or blank property selects nothing of its own; the result is then `cluster.xml`, else `default-cluster.xml`, else none |
| `ClusterConfig.PropertyWinsWhenItOpens` | src/main/java/org/vertx/java/resourceadapter/cluster/HazelcastClusterManager.java:228-241 | a set property naming a resource gives that resource; one naming only a file gives that file; both win over `cluster.xml` |
| `ClusterConfig.FallsBackToBundledDefault` | src/main/java/org/vertx/java/resourceadapter/cluster/HazelcastClusterManager.java:207-219 | no property and no `cluster.xml`, but `default-cluster.xml` present: the engine is configured from `default-cluster.xml` |
| `ClusterConfig.ReadFromClusterFile` | src/main/java/org/vertx/java/resourceadapter/cluster/HazelcastClusterManager.java:221-242 | an unset or blank property selects nothing; a set one selects the resource of that name if there is one, else the file of that name if there is one, else nothing |
| `ClusterConfig.GetConfigStream` | src/main/java/org/vertx/java/resourceadapter/cluster/HazelcastClusterManager.java:207-219 | the selected source always opens; nothing is selected exactly when the property selects nothing and neither `cluster.xml` nor `default-cluster.xml` exists; a source selected by the property wins; without one, `cluster.xml` is selected if present, else `default-cluster.xml` if present |
| `ClusterConfig.GetConfig` | src/main/java/org/vertx/java/resourceadapter/cluster/HazelcastClusterManager.java:248-263 | engine defaults (null config, which `join` passes to the engine) exactly when no candidate source opens; otherwise a configuration built from the first candidate that opens |
| `ClusterConfig.FirstOpening` | src/main/java/org/vertx/java/resourceadapter/cluster/HazelcastClusterManager.java:207-219 | reference definition of first match wins: none exactly when no candidate opens; otherwise a candidate that opens, and every earlier candidate does not open |
| `ClusterConfig.GetConfigStreamIsFirstMatch` | src/main/java/org/vertx/java/resourceadapter/cluster/HazelcastClusterManager.java:207-242 | `getConfigStream` equals first match wins over the candidates [property as resource, property as file, `cluster.xml`, `default-cluster.xml`]; the property candidates are present only when it is set and not blank |
| `Lifecycle.Join` | src/main/java/org/vertx/java/resourceadapter/cluster/HazelcastClusterManager.java:82-98 | while active: nothing changes. While inactive: exactly one new instance, started with the resolved configuration; `nodeID` is its local member's uuid; it is running with the manager registered. Always ends active. Listener and deliveries are untouched. Keeps `Consistent` |
| `Lifecycle.Leave` | src/main/java/org/vertx/java/resourceadapter/cluster/HazelcastClusterManager.java:154-163 | while inactive: nothing changes. While active: the listener is deregistered, the instance is shut down, and the manager becomes inactive. `nodeID`, listener, instance count and deliveries are kept. Keeps `Consistent` |
| `Lifecycle.SetListener` | src/main/java/org/vertx/java/resourceadapter/cluster/HazelcastClusterManager.java:135-138 | the single slot now holds the new listener (or null); nothing else changes, active or not |
| `Lifecycle.HandleEvent` | src/main/java/org/vertx/java/resourceadapter/cluster/HazelcastClusterManager.java:166-205 | `active`, `nodeID`, listener and engine never change, whatever the call's outcome; exactly one call is appended when active with a listener set, and none otherwise |
| `Lifecycle.MemberAdded` | src/main/java/org/vertx/java/resourceadapter/cluster/HazelcastClusterManager.java:166-184 | inactive or no listener: the state is unchanged; otherwise the only change is one `nodeAdded(member uuid)` delivered to the registered listener |
| `Lifecycle.MemberRemoved` | src/main/java/org/vertx/java/resourceadapter/cluster/HazelcastClusterManager.java:187-205 | inactive or no listener: the state is unchanged; otherwise the only change is one `nodeLeft(member uuid)` delivered to the registered listener |
| `Lifecycle.InitialConsistent` | src/main/java/org/vertx/java/resourceadapter/cluster/HazelcastClusterManager.java:64-80 | a new manager is inactive, has no node id, and satisfies `Consistent` |
| `Lifecycle.RunPreservesConsistent` | src/main/java/org/vertx/java/resourceadapter/cluster/HazelcastClusterManager.java:82-205 | after any sequence of operations: the engine exists and `nodeID` is set exactly once a join happened; `nodeID` names the latest instance's member; that instance is registered and running exactly while active |
| `Lifecycle.RepeatedJoinsAreOneJoin` | src/main/java/org/vertx/java/resourceadapter/cluster/HazelcastClusterManager.java:82-98 | any run of `join()` calls ends in the same state as its first call alone, and creates at most one instance |
| `Lifecycle.RepeatedLeavesAreOneLeave` | src/main/java/org/vertx/java/resourceadapter/cluster/HazelcastClusterManager.java:154-163 | any run of `leave()` calls ends in the same state as one `leave()` |
| `Lifecycle.InactiveDeliversNothing` | src/main/java/org/vertx/java/resourceadapter/cluster/HazelcastClusterManager.java:166-192 | from an inactive state, before the next `join()`, no event reaches any listener; the manager stays inactive and keeps its node id and engine |
| `Lifecycle.ActiveDeliversEveryEvent` | src/main/java/org/vertx/java/resourceadapter/cluster/HazelcastClusterManager.java:172-204 | while active with a listener, a run of events delivers exactly one call per event, in order, with the member's uuid and the right kind, even when earlier calls threw |
| `Lifecycle.RejoinStartsNewInstance` | src/main/java/org/vertx/java/resourceadapter/cluster/HazelcastClusterManager.java:88-97 | `leave()` then `join()` starts a different instance, and the node id becomes the new local member's uuid |
| `ClusterManagerImpl.HazelcastClusterManager.constructor` | src/main/java/org/vertx/java/resourceadapter/cluster/HazelcastClusterManager.java:75-80 | every field starts at its Java default (`Lifecycle.Initial`), and `Valid()` holds |
| `ClusterManagerImpl.HazelcastClusterManager.Join` | src/main/java/org/vertx/java/resourceadapter/cluster/HazelcastClusterManager.java:82-98 | the in-place updates make exactly the `Lifecycle.Join` step; the manager ends active; `Valid()` is kept |
| `ClusterManagerImpl.HazelcastClusterManager.Leave` | src/main/java/org/vertx/java/resourceadapter/cluster/HazelcastClusterManager.java:154-163 | the in-place updates make exactly the `Lifecycle.Leave` step; the manager ends inactive; `Valid()` is kept |
| `ClusterManagerImpl.HazelcastClusterManager.SetNodeListener` | src/main/java/org/vertx/java/resourceadapter/cluster/HazelcastClusterManager.java:135-138 | the update makes exactly the `Lifecycle.SetListener` step; `Valid()` is kept |
| `ClusterManagerImpl.HazelcastClusterManager.MemberAdded` | src/main/java/org/vertx/java/resourceadapter/cluster/HazelcastClusterManager.java:166-184 | the handler makes exactly the `Lifecycle.MemberAdded` step, whatever the call's outcome (returned or threw) |
| `ClusterManagerImpl.HazelcastClusterManager.MemberRemoved` | src/main/java/org/vertx/java/resourceadapter/cluster/HazelcastClusterManager.java:187-205 | the handler makes exactly the `Lifecycle.MemberRemoved` step, whatever the call's outcome (returned or threw) |
| `ClusterManagerImpl.HazelcastClusterManager.GetNodeID` | src/main/java/org/vertx/java/resourceadapter/cluster/HazelcastClusterManager.java:117-120 | null exactly before the first join; afterwards the local member uuid of the latest instance, also after `leave()` |
| `ClusterManagerImpl.HazelcastClusterManager.GetNodes` | src/main/java/org/vertx/java/resourceadapter/cluster/HazelcastClusterManager.java:123-132 | null dereference (None) exactly when no engine was ever started; otherwise one uuid per member, in iteration order, entry i being member i's uuid |

## Left out

- `getAsyncMap`, `getAsyncMultiMap`, `getSyncMap`: they only pass a name through to Hazelcast and wrap the result in `HazelcastAsyncMap` or `HazelcastAsyncMultiMap`. Those classes and Hazelcast's map storage are not part of this model.
- Hazelcast itself is a foreign library doing network I/O: instance start-up, the cluster's member set, listener registration and lifecycle shutdown. It appears only as the abstract `Instance` value and as parameters. An exception thrown by Hazelcast inside `join()` or `leave()` is not modelled.
- Opening, buffering and closing the configuration streams, and XML parsing by `XmlConfigBuilder`, are I/O and a foreign parser. Only the choice of source is modelled. `ClusterConfig.GetConfig` assumes a selected stream always parses. The `IOException` branch of `getConfig`, and a parser exception escaping from `join()`, are not modelled.
- The constructor's `System.setProperty("hazelcast.shutdownhook.enabled", "false")` is a global JVM side effect and is not modelled. The `vertx` reference it stores is used only by the map factories.
- `synchronized`: each method is one atomic step; threads and interleavings are not modelled. `nodeListener`, `getNodeID` and `getNodes` are not synchronized in the source. They are modelled as atomic steps too.
- Logging (the warnings for a missing configuration and a missing cluster file, the error for a throwing listener) is not modelled.
- `ClusterManagerImpl.HazelcastClusterManager.GetNodes`: Hazelcast's answer for an instance that was shut down is whatever `members` it is given; the model does not say whether the engine throws there.
- `Lifecycle.HandleEvent`: the listener is an opaque sink that does not call back into the manager. Java monitors are reentrant, so a listener that calls `leave()` or `nodeListener(...)` from `nodeAdded`/`nodeLeft` would change `active` or the listener slot during the handler. The model does not capture that.
- `Lifecycle.MemberAdded`: the same opaque-sink assumption; a listener calling back into the manager is not modelled.
- `Lifecycle.MemberRemoved`: the same opaque-sink assumption; a listener calling back into the manager is not modelled.
- `ClusterManagerImpl.HazelcastClusterManager.MemberAdded`: the same opaque-sink assumption; a listener calling back into the manager is not modelled.
- `ClusterManagerImpl.HazelcastClusterManager.MemberRemoved`: the same opaque-sink assumption; a listener calling back into the manager is not modelled.
