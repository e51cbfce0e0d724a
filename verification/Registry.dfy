/** The control plane's pod registry and its health sweep. */
module Registry {
  import opened Seqs
  import opened Wrappers
  import opened Sorting
  import opened Redis

  const HEARTBEAT_TTL_SECS: nat := 45
  const HEALTH_CHECK_INTERVAL_SECS: nat := 15

  datatype PodStatus = Warm | Active | Idle | Draining

  datatype PodInfo = PodInfo(
    podId: string, podIp: string, nodeName: string, hbmUtil: real, dramUtil: real,
    kvBlockCount: nat, inferenceEngine: string, lastHeartbeat: int, status: PodStatus)

  type Pods = map<string, PodInfo>

  /** `now - last_heartbeat > 45`, in whole seconds */
  predicate Dead(info: PodInfo, nowSecs: int) { nowSecs - info.lastHeartbeat > HEARTBEAT_TTL_SECS }

  function DeadPods(pods: Pods, nowSecs: int): set<string> {
    set id | id in pods && Dead(pods[id], nowSecs)
  }

  /** HGETALL: every field once, in any order. */
  ghost predicate IsListing(pods: Pods, all: seq<(string, PodInfo)>) {
    && (forall i :: 0 <= i < |all| ==> all[i].0 in pods && pods[all[i].0] == all[i].1)
    && (forall id :: id in pods ==> (id, pods[id]) in all)
    && (forall i, j :: 0 <= i < j < |all| ==> all[i].0 != all[j].0)
  }

  lemma EmptyListing(pods: Pods, all: seq<(string, PodInfo)>)
    requires IsListing(pods, all)
    ensures all == [] <==> pods == map[]
  {
    HeadListed(pods, all);
    if pods != map[] {
      var id :| id in pods;
      assert (id, pods[id]) in all;
    }
  }

  lemma HeadListed(pods: Pods, all: seq<(string, PodInfo)>)
    requires IsListing(pods, all)
    ensures all != [] ==> all[0].0 in pods
  {}

  predicate ByUtil(a: PodInfo, b: PodInfo) { a.hbmUtil <= b.hbmUtil }

  class PodRegistry {
    var registry: Pods
    var loads: Keyspace<real>
    var heartbeats: Keyspace<int>
    var clock: nat   // the server's clock, ms

    constructor ()
      ensures registry == map[] && loads == map[] && heartbeats == map[]
    {
      registry, loads, heartbeats, clock := map[], map[], map[], 0;
    }

    method UpsertPod(info: PodInfo)
      modifies this`registry, this`loads, this`heartbeats
      ensures registry == old(registry)[info.podId := info]
      ensures loads == old(loads)[info.podId := Timed(info.hbmUtil, Some(clock + 45_000))]
      ensures heartbeats == old(heartbeats)[info.podId := Timed(clock / 1000, Some(clock + 45_000))]
      ensures Get(loads, info.podId, clock) == Some(info.hbmUtil)
    {
      registry := registry[info.podId := info];
      loads := SetEx(loads, info.podId, info.hbmUtil, HEARTBEAT_TTL_SECS, clock);
      heartbeats := SetEx(heartbeats, info.podId, clock / 1000, HEARTBEAT_TTL_SECS, clock);
    }

    method RemovePod(podId: string)
      modifies this`registry, this`loads, this`heartbeats
      ensures registry == old(registry) - {podId}
      ensures loads == old(loads) - {podId}
      ensures heartbeats == old(heartbeats) - {podId}
    {
      registry := registry - {podId};
      loads := Del(loads, podId);
      heartbeats := Del(heartbeats, podId);
    }

    /** Given the listing HGETALL returned: exactly the dead pods go, from all three places. */
    method EvictDeadPods(all: seq<(string, PodInfo)>)
      requires IsListing(registry, all)
      modifies this`registry, this`loads, this`heartbeats
      ensures var dead := set id | id in old(registry) && clock / 1000 - old(registry)[id].lastHeartbeat > 45;
        registry == old(registry) - dead && loads == old(loads) - dead && heartbeats == old(heartbeats) - dead
    {
      var now: int := clock / 1000;
      ghost var gone: set<string> := {};
      for i := 0 to |all|
        invariant gone == set k | 0 <= k < i && Dead(all[k].1, now) :: all[k].0
        invariant registry == old(registry) - gone && loads == old(loads) - gone && heartbeats == old(heartbeats) - gone
      {
        var (podId, info) := all[i];
        var ageSecs := now - info.lastHeartbeat;
        if ageSecs > HEARTBEAT_TTL_SECS {
          RemovePod(podId);
          gone := gone + {podId};
        }
      }
      assert gone == DeadPods(old(registry), now);
    }

    /** All pods, least loaded first. */
    method ListPods(all: seq<(string, PodInfo)>) returns (pods: seq<PodInfo>)
      requires IsListing(registry, all)
      ensures Sorted(pods, ByUtil)
      ensures |pods| == |all|
      ensures forall p :: p in pods <==> p in registry.Values
    {
      var read := Map((x: (string, PodInfo)) => x.1, all);
      pods := SortBy(read, ByUtil);
      assert TotalPreorder(ByUtil);
      SortSorts(read, ByUtil);
      forall p ensures p in pods <==> p in registry.Values {
        assert p in multiset(pods) <==> p in multiset(read);
        if p in read {
          var k :| 0 <= k < |read| && read[k] == p;
          assert registry[all[k].0] == p;
        }
        if p in registry.Values {
          var id :| id in registry && registry[id] == p;
          var k :| 0 <= k < |all| && all[k] == (id, p);
          assert read[k] == p;
        }
      }
    }

    method LeastLoadedPod(all: seq<(string, PodInfo)>) returns (pod: Option<PodInfo>)
      requires IsListing(registry, all)
      ensures pod.None? <==> registry == map[]
      ensures pod.Some? ==> pod.value in registry.Values
      ensures pod.Some? ==> forall p :: p in registry.Values ==> pod.value.hbmUtil <= p.hbmUtil
    {
      var pods := ListPods(all);
      pod := if pods == [] then None else Some(pods[0]);
      EmptyListing(registry, all);
      if pods != [] {
        assert pods[0] in pods;
        forall p | p in registry.Values ensures pods[0].hbmUtil <= p.hbmUtil {
          var k :| 0 <= k < |pods| && pods[k] == p;
          assert k > 0 ==> ByUtil(pods[0], pods[k]);
        }
      }
    }
  }

  // ---- Heartbeats, sweeps and time ----

  /** The registry as the health loop sees it, in seconds; `seen` is when the server received
      each pod's last heartbeat, whatever timestamp the pod put in it. */
  datatype Fleet = Fleet(pods: Pods, seen: map<string, int>, clock: int, lastSweep: int)

  datatype FleetAction = Beat(info: PodInfo) | Sweep | Second

  /** Pods' clocks are within `skew` of the server's; sweeps come every 15 s. */
  predicate FleetEnabled(f: Fleet, a: FleetAction, skew: nat) {
    match a
    case Beat(info) => f.clock - skew <= info.lastHeartbeat <= f.clock + skew
    case Sweep => true
    case Second => f.clock + 1 <= f.lastSweep + HEALTH_CHECK_INTERVAL_SECS
  }

  function FleetNext(f: Fleet, a: FleetAction): Fleet {
    match a
    case Beat(info) => f.(pods := f.pods[info.podId := info], seen := f.seen[info.podId := f.clock])
    case Sweep => f.(pods := f.pods - DeadPods(f.pods, f.clock), lastSweep := f.clock)
    case Second => f.(clock := f.clock + 1)
  }

  /** States reached from an empty registry swept at time zero. */
  ghost predicate Reached(f: Fleet, actions: seq<FleetAction>, skew: nat)
    decreases |actions|
  {
    if actions == [] then f == Fleet(map[], map[], 0, 0)
    else
      var last := actions[|actions| - 1];
      exists g :: Reached(g, actions[..|actions| - 1], skew) && FleetEnabled(g, last, skew) && f == FleetNext(g, last)
  }

  ghost predicate FleetInv(f: Fleet, skew: nat) {
    && f.lastSweep <= f.clock <= f.lastSweep + HEALTH_CHECK_INTERVAL_SECS
    && forall id :: id in f.pods ==>
         && id in f.seen && f.seen[id] <= f.clock
         && f.seen[id] - skew <= f.pods[id].lastHeartbeat <= f.seen[id] + skew
         && (f.lastSweep <= f.seen[id] || f.lastSweep - f.pods[id].lastHeartbeat <= HEARTBEAT_TTL_SECS)
  }

  lemma FleetStep(f: Fleet, a: FleetAction, skew: nat)
    requires FleetInv(f, skew) && FleetEnabled(f, a, skew)
    ensures FleetInv(FleetNext(f, a), skew)
  {}

  lemma {:induction false} FleetAlways(f: Fleet, actions: seq<FleetAction>, skew: nat)
    requires Reached(f, actions, skew)
    ensures FleetInv(f, skew)
    decreases |actions|
  {
    if actions != [] {
      var last := actions[|actions| - 1];
      var g :| Reached(g, actions[..|actions| - 1], skew) && FleetEnabled(g, last, skew) && f == FleetNext(g, last);
      FleetAlways(g, actions[..|actions| - 1], skew);
      FleetStep(g, last, skew);
    }
  }

  /** A silent pod is gone within a minute, give or take the clock skew. */
  lemma SilentPodLeaves(f: Fleet, actions: seq<FleetAction>, skew: nat, id: string)
    requires Reached(f, actions, skew) && id in f.pods
    ensures id in f.seen && f.clock <= f.seen[id] + 60 + skew
  {
    FleetAlways(f, actions, skew);
  }

  /** A sweep removes a pod only when it has been silent for more than 45 s, less the skew. */
  lemma LivePodStays(f: Fleet, actions: seq<FleetAction>, skew: nat, id: string)
    requires Reached(f, actions, skew) && id in f.pods && id !in FleetNext(f, Sweep).pods
    ensures id in f.seen && f.clock > f.seen[id] + 45 - skew
  {
    FleetAlways(f, actions, skew);
  }
}
