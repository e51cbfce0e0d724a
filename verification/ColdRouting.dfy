/** Cold routing: which pod id `cold_miss_target` records for a request. */
module ColdRouting {
  import opened Seqs
  import opened Wrappers
  import opened Sorting
  import opened Redis
  import opened Protocol
  import opened Affinity

  /** The pod sent a heartbeat before step i, less than 45 s earlier. */
  ghost predicate FreshAt(run: Run, i: nat, pod: string) {
    exists b, load :: 0 <= b < i && i < |run.states| && b < |run.actions|
      && run.actions[b] == Heartbeat(pod, load)
      && run.states[i].clock < run.states[b].clock + 45_000
  }

  ghost predicate LoadFrom(run: Run, i: nat, pod: string, v: Timed<real>) {
    exists b :: 0 <= b < i && b < |run.states| && b < |run.actions|
      && run.actions[b] == Heartbeat(pod, v.value)
      && v.deadline == Some(run.states[b].clock + 45_000)
  }

  lemma {:induction false} LoadProvenance(run: Run, i: nat, pod: string)
    requires IsRun(run) && i < |run.states| && pod in run.states[i].store.loads
    ensures LoadFrom(run, i, pod, run.states[i].store.loads[pod])
  {
    var s, a, s' := run.states[i - 1], run.actions[i - 1], run.states[i];
    assert IsStep(s, a, s');
    if a.Heartbeat? && a.pod == pod {
    } else {
      LoadProvenance(run, i - 1, pod);
      var v := s.store.loads[pod];
      var b :| 0 <= b < i - 1 && run.actions[b] == Heartbeat(pod, v.value)
        && v.deadline == Some(run.states[b].clock + 45_000);
    }
  }

  /** A load key that KEYS returns belongs to a pod that reported within 45 s. */
  lemma LiveLoadIsFresh(run: Run, i: nat, pod: string)
    requires IsRun(run) && i < |run.states| && Exists(run.states[i].store.loads, pod, run.states[i].clock)
    ensures FreshAt(run, i, pod)
  {
    LoadProvenance(run, i, pod);
    var v := run.states[i].store.loads[pod];
    var b :| 0 <= b < i && run.actions[b] == Heartbeat(pod, v.value)
      && v.deadline == Some(run.states[b].clock + 45_000);
  }

  function Pods(got: seq<PodLoad>): seq<string> { Map((p: PodLoad) => p.pod, got) }

  /** What a read of a pod's load yields: the load stored, or the default if the key has gone or the
      command reports an error. */
  function ReadLoad(s: State, fault: Fault, pod: string): real {
    if fault == NoFault then Get(s.store.loads, pod, s.clock).GetOr(0.5) else 0.5
  }

  /** At this step request r reads the pod's load, with this outcome. */
  ghost predicate Reads(s: State, a: Action, r: nat, p: PodLoad) {
    && StepsAt(s, a, r) && s.clients[r].pc.Reading?
    && s.clients[r].pc.todo != [] && s.clients[r].pc.todo[0] == p.pod
    && p.load == ReadLoad(s, a.fault, p.pod)
  }

  /** The load is what request r's own read between the two steps yielded. */
  ghost predicate TrueLoad(run: Run, i: nat, j: nat, r: nat, p: PodLoad) {
    exists m :: i < m < j && m < |run.states| && m < |run.actions| && Reads(run.states[m], run.actions[m], r, p)
  }

  /** Request r scanned the pods at step i; by state j it has read `got` and has `todo` left. */
  ghost predicate ScannedAt(run: Run, i: nat, j: nat, r: nat, todo: seq<string>, got: seq<PodLoad>) {
    && i < j && i < |run.actions| && i < |run.states|
    && run.actions[i] == Scan(r, Pods(got) + todo, NoFault)
    && IsKeyScan(run.states[i].store.loads, Pods(got) + todo, run.states[i].clock)
    && forall k :: 0 <= k < |got| ==> TrueLoad(run, i, j, r, got[k])
  }

  lemma PodsSnoc(got: seq<PodLoad>, p: PodLoad, todo: seq<string>)
    requires todo != [] && p.pod == todo[0]
    ensures Pods(got + [p]) + todo[1..] == Pods(got) + todo
  {
    assert Pods(got + [p]) == Pods(got) + [p.pod];
  }

  lemma TrueLater(run: Run, i: nat, j: nat, r: nat, p: PodLoad)
    requires TrueLoad(run, i, j, r, p)
    ensures TrueLoad(run, i, j + 1, r, p)
  {
    var m :| i < m < j && m < |run.states| && m < |run.actions| && Reads(run.states[m], run.actions[m], r, p);
  }

  lemma ReadMore(run: Run, i: nat, j: nat, r: nat, todo: seq<string>, got: seq<PodLoad>, p: PodLoad)
    requires ScannedAt(run, i, j, r, todo, got) && todo != [] && p.pod == todo[0]
    requires j < |run.states| && j < |run.actions| && Reads(run.states[j], run.actions[j], r, p)
    ensures ScannedAt(run, i, j + 1, r, todo[1..], got + [p])
  {
    PodsSnoc(got, p, todo);
    forall k | 0 <= k < |got + [p]| ensures TrueLoad(run, i, j + 1, r, (got + [p])[k]) {
      if k < |got| { TrueLater(run, i, j, r, got[k]); }
    }
  }

  lemma ScannedLater(run: Run, i: nat, j: nat, r: nat, todo: seq<string>, got: seq<PodLoad>)
    requires ScannedAt(run, i, j, r, todo, got)
    ensures ScannedAt(run, i, j + 1, r, todo, got)
  {
    forall k | 0 <= k < |got| ensures TrueLoad(run, i, j + 1, r, got[k]) { TrueLater(run, i, j, r, got[k]); }
  }

  /** What one step does to a request that is reading loads afterwards. */
  lemma ReadingStep(s: State, a: Action, s': State, r: nat)
    requires IsStep(s, a, s') && Inv(s) && r in s'.clients && s'.clients[r].pc.Reading?
    ensures var pc' := s'.clients[r].pc;
      || (a == Scan(r, pc'.todo, NoFault) && IsKeyScan(s.store.loads, pc'.todo, s.clock) && pc'.got == [])
      || (r in s.clients && s.clients[r].pc == pc')
      || (r in s.clients && s.clients[r].pc.Reading? && s.clients[r].pc.todo != []
          && pc'.todo == s.clients[r].pc.todo[1..] && pc'.got != []
          && var p := pc'.got[|pc'.got| - 1]; pc'.got == s.clients[r].pc.got + [p] && Reads(s, a, r, p))
  {
    if a.Step? && a.r == r {
      var pc := s.clients[r].pc;
      var p := PodLoad(pc.todo[0], ReadLoad(s, a.fault, pc.todo[0]));
      assert s'.clients[r].pc.got == pc.got + [p];
    }
  }

  lemma {:induction false} ReadingProvenance(run: Run, j: nat, r: nat) returns (i: nat)
    requires IsRun(run) && j < |run.states|
    requires r in run.states[j].clients && run.states[j].clients[r].pc.Reading?
    ensures var pc := run.states[j].clients[r].pc; ScannedAt(run, i, j, r, pc.todo, pc.got)
  {
    var s, a, s' := run.states[j - 1], run.actions[j - 1], run.states[j];
    assert IsStep(s, a, s');
    InvAlways(run, j - 1);
    ReadingStep(s, a, s', r);
    var pc' := s'.clients[r].pc;
    if r in s.clients && s.clients[r].pc.Reading? {
      var pc := s.clients[r].pc;
      i := ReadingProvenance(run, j - 1, r);
      if pc == pc' {
        ScannedLater(run, i, j - 1, r, pc.todo, pc.got);
      } else {
        ReadMore(run, i, j - 1, r, pc.todo, pc.got, pc'.got[|pc'.got| - 1]);
      }
    } else {
      i := j - 1;
      assert Pods([]) + pc'.todo == pc'.todo;
    }
  }

  lemma ByLoadOrder()
    ensures TotalPreorder(ByLoad)
  {}

  /** No load is smaller, and every one read before it is larger. */
  ghost predicate FirstLeast(p: PodLoad, got: seq<PodLoad>) {
    exists k :: 0 <= k < |got| && got[k] == p
      && (forall m :: 0 <= m < |got| ==> p.load <= got[m].load)
      && (forall m :: 0 <= m < k ==> p.load < got[m].load)
  }

  lemma LeastIsFirst(got: seq<PodLoad>) returns (p: PodLoad)
    requires got != []
    ensures FirstLeast(p, got) && p.pod == LeastLoaded(got)
  {
    ByLoadOrder();
    var k := FirstOfLeast(got, ByLoad);
    p := got[k];
    forall m | 0 <= m < |got| ensures p.load <= got[m].load { assert ByLoad(got[k], got[m]); }
    forall m | 0 <= m < k ensures p.load < got[m].load { assert !ByLoad(got[m], got[k]); }
  }

  /** The request settles on a pod id after reading every load of its scan at step i. */
  ghost predicate Settles(run: Run, i: nat, j: nat, r: nat, p: PodLoad, got: seq<PodLoad>) {
    ScannedAt(run, i, j + 1, r, [], got) && FirstLeast(p, got)
  }

  lemma SettledPod(run: Run, i: nat, j: nat, r: nat, p: PodLoad, got: seq<PodLoad>)
    requires IsRun(run) && j < |run.actions| && Settles(run, i, j, r, p, got)
    ensures FreshAt(run, i, p.pod)
  {
    var k :| 0 <= k < |got| && got[k] == p;
    assert (Pods(got) + [])[k] == p.pod;
    assert p.pod in Pods(got) + [];
    LiveLoadIsFresh(run, i, p.pod);
  }

  lemma LastRead(run: Run, j: nat, r: nat, pod: string) returns (i: nat, p: PodLoad, got: seq<PodLoad>)
    requires IsRun(run) && j < |run.actions| && Routes(run.states[j], run.actions[j], r, pod) && run.actions[j].Step?
    ensures i < j && Settles(run, i, j, r, p, got) && p.pod == pod
  {
    var s, a := run.states[j], run.actions[j];
    var pc := s.clients[r].pc;
    InvAlways(run, j);
    i := ReadingProvenance(run, j, r);
    assert |pc.todo| == 1;
    var last := PodLoad(pc.todo[0], ReadLoad(s, a.fault, pc.todo[0]));
    ReadMore(run, i, j, r, pc.todo, pc.got, last);
    got := pc.got + [last];
    p := LeastIsFirst(got);
  }

  /** The cold-routing theorem. In every run, a request that misses records "default" when the scan
      fails or finds nobody; otherwise the id of a pod that reported within the 45 s before the
      scan and whose load is the least the request read for any pod of the scan, the first read of
      several. Either way its warm write is due 200 ms later and it is forwarded to its sidecar's
      configured address. */
  lemma ColdRouteFreshAndMinimal(run: Run, j: nat, r: nat, pod: string) returns (i: nat, p: PodLoad, got: seq<PodLoad>)
    requires IsRun(run) && j < |run.actions| && Routes(run.states[j], run.actions[j], r, pod)
    ensures var a := run.actions[j];
      if a.Scan? then pod == "default" && (a.fault != NoFault || a.keys == [])
      else i < j && Settles(run, i, j, r, p, got) && p.pod == pod && FreshAt(run, i, pod)
    ensures var s := run.states[j];
      && Next(s, run.actions[j]).clients[r].pc == Warming(pod, s.clock + 200)
      && Destination(Next(s, run.actions[j]).clients[r]) == Some(s.clients[r].req.podIp)
  {
    i, p, got := 0, PodLoad(pod, 0.5), [];
    if run.actions[j].Step? {
      i, p, got := LastRead(run, j, r, pod);
      SettledPod(run, i, j, r, p, got);
    }
  }
}
