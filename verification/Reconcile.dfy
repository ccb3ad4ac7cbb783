/** One reconcile of an Application (controllers/application_controller.go). */
module Reconcile {
  import opened Text
  import opened Conditions
  import opened Ordering
  import Readiness

  datatype AppStatus = AppStatus(observedGeneration: int, conditions: seq<Condition>,
                                 components: seq<ObjectStatus>, componentsReady: string)

  const EMPTY := AppStatus(0, [], [], "")

  /** time.Duration counts nanoseconds. */
  const SECOND: int := 1_000_000_000
  const ERROR_REQUEUE: int := 30 * SECOND

  /** What one reconcile sees: the sorted component list, the collected errors, the generation. */
  datatype View = View(objects: seq<ObjectStatus>, errs: seq<string>, generation: int)

  /** The clock reads of one reconcile, in program order: both setCondition calls, the elapsed-time
      check, and the moment the write lands. */
  datatype Clock = Clock(ready: int, error: int, check: int, write: int)

  ghost predicate Ticks(c: Clock) {
    c.ready <= c.error <= c.check <= c.write
  }

  const WORKLOAD_KINDS: set<string> :=
    {"Deployment", "StatefulSet", "DaemonSet", "ReplicaSet", "ReplicationController", "Job", "CronJob", "Rollout",
     "Gateway", "HTTPRoute", "Agent", "ModelConfig"}

  predicate Workload(o: ObjectStatus) {
    o.kind in WORKLOAD_KINDS
  }

  // ----- counting -----

  function CountReady(os: seq<ObjectStatus>): (n: nat)
    ensures n <= |os|
  {
    if os == [] then 0 else CountReady(os[..|os| - 1]) + if os[|os| - 1].status == Readiness.Ready then 1 else 0
  }

  function Workloads(os: seq<ObjectStatus>): (ws: seq<ObjectStatus>)
    ensures forall w :: w in ws <==> w in os && Workload(w)
  {
    if os == [] then []
    else
      var o := os[|os| - 1];
      assert os == os[..|os| - 1] + [o];
      Workloads(os[..|os| - 1]) + if Workload(o) then [o] else []
  }

  predicate AllWorkloadsReady(os: seq<ObjectStatus>) {
    forall o :: o in os && Workload(o) ==> o.status == Readiness.Ready
  }

  lemma CountReadySnoc(os: seq<ObjectStatus>, o: ObjectStatus)
    ensures CountReady(os + [o]) == CountReady(os) + if o.status == Readiness.Ready then 1 else 0
  {
    assert (os + [o])[..|os|] == os;
  }

  lemma {:induction false} CountReadyFull(os: seq<ObjectStatus>)
    ensures CountReady(os) == |os| <==> forall o :: o in os ==> o.status == Readiness.Ready
  {
    if os != [] {
      CountReadyFull(os[..|os| - 1]);
      assert os == os[..|os| - 1] + [os[|os| - 1]];
    }
  }

  /** The components of a list that a count is about, by position. */
  function ReadyAt(os: seq<ObjectStatus>): set<int> {
    set i | 0 <= i < |os| && os[i].status == Readiness.Ready
  }

  function WorkloadsAt(os: seq<ObjectStatus>): set<int> {
    set i | 0 <= i < |os| && Workload(os[i])
  }

  /** The ready count is the number of positions that hold a Ready entry. */
  lemma {:induction false} CountReadyIs(os: seq<ObjectStatus>)
    ensures CountReady(os) == |ReadyAt(os)|
  {
    if os != [] {
      var n := |os| - 1;
      CountReadyIs(os[..n]);
      assert ReadyAt(os) == ReadyAt(os[..n]) + (if os[n].status == Readiness.Ready then {n} else {});
    } else {
      assert ReadyAt(os) == {};
    }
  }

  function ReadyWorkloadsAt(os: seq<ObjectStatus>): set<int> {
    set i | 0 <= i < |os| && Workload(os[i]) && os[i].status == Readiness.Ready
  }

  lemma PositionsSnoc(os: seq<ObjectStatus>, o: ObjectStatus)
    ensures WorkloadsAt(os + [o]) == WorkloadsAt(os) + if Workload(o) then {|os|} else {}
    ensures ReadyWorkloadsAt(os + [o]) ==
            ReadyWorkloadsAt(os) + if Workload(o) && o.status == Readiness.Ready then {|os|} else {}
  {
    hide Workload;
  }

  /** The workload counts: one for each position that holds a workload, ready ones among them. */
  lemma {:induction false} WorkloadCounts(os: seq<ObjectStatus>)
    ensures |Workloads(os)| == |WorkloadsAt(os)| && CountReady(Workloads(os)) == |ReadyWorkloadsAt(os)|
  {
    if os != [] {
      var pre, o := os[..|os| - 1], os[|os| - 1];
      assert os == pre + [o];
      WorkloadCounts(pre);
      CountReadySnoc(Workloads(pre), o);
      assert Workloads(os) == if Workload(o) then Workloads(pre) + [o] else Workloads(pre);
      PositionsSnoc(pre, o);
      assert |pre| !in WorkloadsAt(pre) && |pre| !in ReadyWorkloadsAt(pre);
      hide Workload, Workloads, CountReady, WorkloadsAt, ReadyWorkloadsAt;
    } else {
      assert WorkloadsAt(os) == {} && ReadyWorkloadsAt(os) == {};
    }
  }

  /** The kinds that decide, by name. */
  lemma WorkloadKinds(o: ObjectStatus)
    ensures Workload(o) <==>
            || o.kind == "Deployment" || o.kind == "StatefulSet" || o.kind == "DaemonSet" || o.kind == "ReplicaSet"
            || o.kind == "ReplicationController" || o.kind == "Job" || o.kind == "CronJob" || o.kind == "Rollout"
            || o.kind == "Gateway" || o.kind == "HTTPRoute" || o.kind == "Agent" || o.kind == "ModelConfig"
  {
  }

  method AggregateReady(os: seq<ObjectStatus>) returns (ready: bool, count: nat, total: nat)
    ensures ready == AllWorkloadsReady(os)
    ensures count == CountReady(Workloads(os)) && total == |Workloads(os)|
  {
    total, count := 0, 0;
    for i := 0 to |os|
      invariant count == CountReady(Workloads(os[..i])) && total == |Workloads(os[..i])|
    {
      assert os[..i + 1][..i] == os[..i];
      CountReadySnoc(Workloads(os[..i]), os[i]);
      assert Workloads(os[..i + 1]) == if Workload(os[i]) then Workloads(os[..i]) + [os[i]] else Workloads(os[..i]);
      if !Workload(os[i]) {
        continue;
      }
      total := total + 1;
      if os[i].status == Readiness.Ready {
        count := count + 1;
      }
    }
    assert os[..|os|] == os;
    CountReadyFull(Workloads(os));
    ready := total == 0 || count == total;
  }

  // ----- the new status -----

  /** The text of an aggregated error list: one message alone, several distinct ones in brackets. */
  function Distinct(errs: seq<string>): seq<string> {
    if errs == [] then []
    else
      var d := Distinct(errs[..|errs| - 1]);
      if errs[|errs| - 1] in d then d else d + [errs[|errs| - 1]]
  }

  function CommaList(ms: seq<string>): string {
    if ms == [] then "" else if |ms| == 1 then ms[0] else ms[0] + ", " + CommaList(ms[1..])
  }

  function AggregateText(errs: seq<string>): string {
    var d := Distinct(errs);
    if |d| == 1 then d[0] else "[" + CommaList(d) + "]"
  }

  /** The distinct messages: those of the list, none twice, in order of first occurrence. */
  lemma {:induction false} DistinctMeaning(errs: seq<string>)
    ensures forall e :: e in Distinct(errs) <==> e in errs
    ensures forall i, j :: 0 <= i < j < |Distinct(errs)| ==> Distinct(errs)[i] != Distinct(errs)[j]
    ensures errs != [] ==> Distinct(errs) != [] && Distinct(errs)[0] == errs[0]
  {
    if errs != [] {
      var n := |errs| - 1;
      DistinctMeaning(errs[..n]);
      assert errs == errs[..n] + [errs[n]];
    }
  }

  lemma {:induction false} ListShows(ms: seq<string>, k: nat) returns (i: nat, j: nat)
    requires k < |ms|
    ensures i <= j <= |CommaList(ms)| && CommaList(ms)[i..j] == ms[k]
  {
    if |ms| == 1 || k == 0 {
      i, j := 0, |ms[0]|;
    } else {
      var a, b := ListShows(ms[1..], k - 1);
      var off := |ms[0]| + 2;
      i, j := a + off, b + off;
      assert CommaList(ms) == (ms[0] + ", ") + CommaList(ms[1..]);
      assert CommaList(ms)[i..j] == CommaList(ms[1..])[a..b];
    }
  }

  /** The text of the Error condition shows every message, and is the message itself when there is one. */
  lemma AggregateShows(errs: seq<string>, e: string) returns (i: nat, j: nat)
    requires e in errs
    ensures i <= j <= |AggregateText(errs)| && AggregateText(errs)[i..j] == e
    ensures (forall f :: f in errs ==> f == e) ==> AggregateText(errs) == e
  {
    DistinctMeaning(errs);
    var d := Distinct(errs);
    var k :| 0 <= k < |d| && d[k] == e;
    if |d| == 1 {
      i, j := 0, |e|;
    } else {
      var a, b := ListShows(d, k);
      i, j := a + 1, b + 1;
      assert AggregateText(errs) == "[" + CommaList(d) + "]";
      assert AggregateText(errs)[i..j] == CommaList(d)[a..b];
      assert d[0] in errs && d[1] in errs;
    }
  }

  const READY_UNKNOWN := Request(Unknown, "ComponentsReadyUnknown",
                                 "failed to aggregate all components' statuses, check the Error condition for details")
  const ALL_READY := Request(True, "ComponentsReady", "all components ready")
  const NO_ERROR := Request(False, "NoError", "No error seen")

  function NotReadyRequest(ready: nat, total: nat): Request {
    Request(False, "ComponentsNotReady", Ratio(ready, total) + " workloads not ready")
  }

  function ReadyRequest(v: View): Request {
    if v.errs != [] then READY_UNKNOWN
    else if AllWorkloadsReady(v.objects) then ALL_READY
    else NotReadyRequest(CountReady(Workloads(v.objects)), |Workloads(v.objects)|)
  }

  function ErrorRequest(v: View): Request {
    if v.errs != [] then Request(True, "ErrorSeen", AggregateText(v.errs)) else NO_ERROR
  }

  function NewConditions(cs: seq<Condition>, v: View, c: Clock): seq<Condition> {
    SetCondition(SetCondition(cs, READY, ReadyRequest(v), c.ready), ERROR, ErrorRequest(v), c.error)
  }

  function NewStatus(stored: AppStatus, v: View, c: Clock): AppStatus {
    AppStatus(
      v.generation, NewConditions(stored.conditions, v, c), v.objects, Ratio(CountReady(v.objects), |v.objects|))
  }

  // ----- stabilization -----

  predicate SaysReady(cs: seq<Condition>) {
    exists i :: 0 <= i < |cs| && cs[i].ctype == READY && cs[i].status == True
  }

  function FirstNotReady(cs: seq<Condition>): (r: Option<Condition>)
    ensures r.Some? ==> r.value in cs && r.value.ctype == READY && r.value.status != True
    ensures r.None? ==> forall i :: 0 <= i < |cs| ==> !(cs[i].ctype == READY && cs[i].status != True)
  {
    if cs == [] then None
    else if cs[0].ctype == READY && cs[0].status != True then Some(cs[0])
    else FirstNotReady(cs[1..])
  }

  method IsTransitioningToReady(newer: seq<Condition>, current: seq<Condition>) returns (r: bool)
    ensures r == (SaysReady(newer) && FirstNotReady(current).Some?)
  {
    var newReady := false;
    for i := 0 to |newer|
      invariant !newReady && forall k :: 0 <= k < i ==> !(newer[k].ctype == READY && newer[k].status == True)
    {
      if newer[i].ctype == READY && newer[i].status == True {
        newReady := true;
        break;
      }
    }
    if !newReady {
      return false;
    }
    var c := NotReady(current);
    return c.Some?;
  }

  /** The scan shared by isTransitioningToReady and notReadySince. */
  method NotReady(current: seq<Condition>) returns (r: Option<Condition>)
    ensures r == FirstNotReady(current)
  {
    for i := 0 to |current|
      invariant FirstNotReady(current) == FirstNotReady(current[i..])
    {
      assert current[i..][1..] == current[i + 1..];
      if current[i].ctype == READY && current[i].status != True {
        return Some(current[i]);
      }
    }
    return None;
  }

  datatype Decision =
    | Unchanged(requeue: int)      // nothing to write
    | Hold(requeue: int)           // wait for the stabilization period to elapse
    | Write(status: AppStatus)

  function Decide(period: int, stored: AppStatus, v: View, c: Clock): Decision {
    var newer := NewStatus(stored, v, c);
    if newer == stored then Unchanged(if v.errs != [] then ERROR_REQUEUE else 0)
    else if period > 0 && SaysReady(newer.conditions) && FirstNotReady(stored.conditions).Some? then
      var waited := c.check - FirstNotReady(stored.conditions).value.lastTransition;
      if waited < period then Hold(period - waited) else Write(newer)
    else Write(newer)
  }

  method Stabilize(period: int, stored: AppStatus, v: View, c: Clock) returns (d: Decision)
    ensures d == Decide(period, stored, v, c)
  {
    var newer := NewApplicationStatus(stored, v, c);
    if newer == stored {
      return Unchanged(if |v.errs| > 0 then ERROR_REQUEUE else 0);
    }
    if period > 0 {
      var transitioning := IsTransitioningToReady(newer.conditions, stored.conditions);
      if transitioning {
        var since := NotReady(stored.conditions);
        var waited := c.check - since.value.lastTransition;
        if waited < period {
          return Hold(period - waited);
        }
      }
    }
    return Write(newer);
  }

  // ----- the method -----

  /** The Application object of the API server, as far as a reconcile changes it. */
  class StoredApplication {
    var status: AppStatus
    constructor ()
      ensures status == EMPTY
    {
      status := EMPTY;
    }
  }

  function StatusOf(r: Readiness.Resource): ObjectStatus {
    ObjectStatus(r.group, r.kind, r.name, Readiness.Status(r).verdict)
  }

  function StatusesOf(rs: seq<Readiness.Resource>): (os: seq<ObjectStatus>)
    ensures |os| == |rs| && forall i :: 0 <= i < |rs| ==> os[i] == StatusOf(rs[i])
  {
    seq(|rs|, i requires 0 <= i < |rs| => StatusOf(rs[i]))
  }

  function ErrorsOf(rs: seq<Readiness.Resource>): seq<string> {
    if rs == [] then []
    else
      var e := Readiness.Status(rs[|rs| - 1]).error;
      ErrorsOf(rs[..|rs| - 1]) + if e.Some? then [e.value] else []
  }

  method ObjectStatuses(rs: seq<Readiness.Resource>, fetchErrs: seq<string>)
    returns (objects: seq<ObjectStatus>, errs: seq<string>)
    ensures SortOf(StatusesOf(rs), objects) && errs == fetchErrs + ErrorsOf(rs)
  {
    hide Readiness.Status;
    errs := fetchErrs;
    var listed: seq<ObjectStatus> := [];
    for i := 0 to |rs|
      invariant listed == StatusesOf(rs[..i]) && errs == fetchErrs + ErrorsOf(rs[..i])
    {
      assert rs[..i + 1][..i] == rs[..i];
      var s := Readiness.Status(rs[i]);
      if s.error.Some? {
        errs := errs + [s.error.value];
      }
      listed := listed + [ObjectStatus(rs[i].group, rs[i].kind, rs[i].name, s.verdict)];
    }
    assert rs[..|rs|] == rs;
    objects := SortStatuses(listed);
  }

  method CountAllReady(os: seq<ObjectStatus>) returns (n: nat)
    ensures n == CountReady(os)
  {
    n := 0;
    for i := 0 to |os|
      invariant n == CountReady(os[..i])
    {
      assert os[..i + 1] == os[..i] + [os[i]];
      CountReadySnoc(os[..i], os[i]);
      if os[i].status == Readiness.Ready {
        n := n + 1;
      }
    }
    assert os[..|os|] == os;
  }

  method NewApplicationStatus(stored: AppStatus, v: View, c: Clock) returns (newer: AppStatus)
    ensures newer == NewStatus(stored, v, c)
  {
    var aggReady, countReady, total := AggregateReady(v.objects);
    var countAllReady := CountAllReady(v.objects);
    var editor := new StatusEditor(stored.conditions);
    if v.errs != [] {
      editor.Set(READY, READY_UNKNOWN, c.ready);
    } else if aggReady {
      editor.Set(READY, ALL_READY, c.ready);
    } else {
      editor.Set(READY, NotReadyRequest(countReady, total), c.ready);
    }
    if v.errs != [] {
      editor.Set(ERROR, Request(True, "ErrorSeen", AggregateText(v.errs)), c.error);
    } else {
      editor.Set(ERROR, NO_ERROR, c.error);
    }
    newer := AppStatus(v.generation, editor.conditions, v.objects, Ratio(countAllReady, |v.objects|));
  }

  /** The state after one reconcile; a failed write leaves the stored status as it was. */
  function Next(period: int, stored: AppStatus, v: View, c: Clock, writeOk: bool): AppStatus {
    var d := Decide(period, stored, v, c);
    if d.Write? && writeOk then d.status else stored
  }

  /** Reconcile of an existing Application that is not being deleted. The sorted order is the sort's
      choice; everything else is determined. */
  method ReconcileOnce(app: StoredApplication, rs: seq<Readiness.Resource>, fetchErrs: seq<string>, generation: int,
                       period: int, c: Clock, writeOk: bool)
    returns (requeue: int, failed: bool, v: View)
    modifies app`status
    ensures SortOf(StatusesOf(rs), v.objects) && v.errs == fetchErrs + ErrorsOf(rs) && v.generation == generation
    ensures app.status == Next(period, old(app.status), v, c, writeOk)
    ensures var d := Decide(period, old(app.status), v, c);
            requeue == (if d.Write? then 0 else d.requeue) && failed == (d.Write? && !writeOk)
  {
    var objects, errs := ObjectStatuses(rs, fetchErrs);
    v := View(objects, errs, generation);
    var d := Stabilize(period, app.status, v, c);
    requeue, failed := 0, false;
    match d
    case Unchanged(r) => requeue := r;
    case Hold(r) => requeue := r;
    case Write(s) =>
      if writeOk {
        app.status := s;
      } else {
        failed := true;
      }
  }
}
