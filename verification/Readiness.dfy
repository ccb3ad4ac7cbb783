/** Per-kind readiness verdicts of component objects (controllers/status.go). */
module Readiness {
  import opened Text

  datatype Verdict = Ready | InProgress | Unknown

  /** A verdict and the error returned beside it. */
  datatype Outcome = Outcome(verdict: Verdict, error: Option<string>)

  /** A nested field of an unstructured object: absent, present, or of the wrong shape. */
  datatype Nested<+T> = Missing | Found(value: T) | Malformed(error: string)

  /** One element of a conditions list; fields that are absent or not strings read as "". */
  datatype Entry = NotAnObject | Entry(ctype: string, status: string, reason: string)

  datatype ParentEntry = ParentNotAnObject | Parent(conditions: Nested<seq<Entry>>)

  datatype Ingress = Ingress(ip: string, hostname: string)

  /** The fields of a component object that status.go reads. `conversion` is the error of turning
      the unstructured object into its typed form, for the kinds that do so. */
  datatype Body = Body(
    conversion: Option<string>,
    generation: int,
    observedGeneration: int,
    specReplicas: Nested<int>,
    statusReplicas: int,
    readyReplicas: int,
    currentReplicas: int,
    availableReplicas: Nested<int>,
    numberUnavailable: int,
    currentHealthy: int,
    desiredHealthy: int,
    suspend: bool,
    phase: Nested<string>,
    serviceType: string,
    clusterIP: string,
    ingress: seq<Ingress>,
    conditions: Nested<seq<Entry>>,
    parents: Nested<seq<ParentEntry>>)

  datatype Resource = Resource(group: string, version: string, kind: string, namespace: string, name: string,
                               labels: map<string, string>, body: Body)

  // ----- lookups -----

  predicate Matches(e: Entry, name: string) {
    e.Entry? && e.ctype == name
  }

  /** Entry i is the first of that type. */
  predicate FirstMatch(es: seq<Entry>, i: nat, name: string)
    requires i < |es|
  {
    Matches(es[i], name) && forall j :: 0 <= j < i ==> !Matches(es[j], name)
  }

  /** Status of the first condition of that type. */
  function FirstStatus(es: seq<Entry>, name: string): (r: Option<string>)
    ensures r.None? <==> forall i :: 0 <= i < |es| ==> !Matches(es[i], name)
    ensures r.Some? ==> exists i :: 0 <= i < |es| && FirstMatch(es, i, name) && es[i].status == r.value
  {
    if es == [] then None
    else if Matches(es[0], name) then assert FirstMatch(es, 0, name); Some(es[0].status)
    else
      var r := FirstStatus(es[1..], name);
      assert forall i :: 0 < i < |es| ==> es[i] == es[1..][i - 1];
      assert forall i :: 0 <= i < |es[1..]| && FirstMatch(es[1..], i, name) ==> FirstMatch(es, i + 1, name);
      r
  }

  predicate HasStatus(es: seq<Entry>, name: string, status: string) {
    FirstStatus(es, name) == Some(status)
  }

  /** The first-match lookup loop. It can never report True and False for one name. */
  method ConditionHasStatus(es: seq<Entry>, name: string, status: string) returns (r: bool)
    ensures r == HasStatus(es, name, status)
  {
    var i := 0;
    while i < |es|
      invariant 0 <= i <= |es|
      invariant FirstStatus(es, name) == FirstStatus(es[i..], name)
    {
      if Matches(es[i], name) {
        return es[i].status == status;
      }
      assert es[i..][1..] == es[i + 1..];
      i := i + 1;
    }
    return false;
  }

  predicate AnyTrue(es: seq<Entry>, name: string) {
    exists i :: 0 <= i < |es| && Matches(es[i], name) && es[i].status == "True"
  }

  function Conditions(b: Body): seq<Entry> {
    if b.conditions.Found? then b.conditions.value else []
  }

  /** spec.replicas with its default of one. */
  function Desired(b: Body): int {
    if b.specReplicas.Found? then b.specReplicas.value else 1
  }

  predicate ScaledToZero(b: Body) {
    Desired(b) == 0 && b.statusReplicas == 0
  }

  function Available(b: Body): int {
    if b.availableReplicas.Found? then b.availableReplicas.value else 0
  }

  function Typed(b: Body, ready: bool): (o: Outcome) {
    if b.conversion.Some? then Outcome(Unknown, b.conversion)
    else Outcome(if ready then Ready else InProgress, None)
  }

  // ----- one verdict per kind -----

  function StatefulSetVerdict(b: Body): Outcome {
    Typed(b, ScaledToZero(b) || (b.currentReplicas > 0 && b.readyReplicas == b.currentReplicas))
  }

  function DeploymentVerdict(b: Body): Outcome {
    Typed(b, !AnyTrue(Conditions(b), "ReplicaFailure") && (ScaledToZero(b) || AnyTrue(Conditions(b), "Available")))
  }

  /** The two flags of the condition loop are "some entry says so", whatever the order of entries. */
  method DeploymentStatus(b: Body) returns (o: Outcome)
    ensures o == DeploymentVerdict(b)
  {
    if b.conversion.Some? {
      return Outcome(Unknown, b.conversion);
    }
    var es := Conditions(b);
    var replicaFailure, available := false, false;
    for i := 0 to |es|
      invariant replicaFailure == AnyTrue(es[..i], "ReplicaFailure")
      invariant available == AnyTrue(es[..i], "Available")
    {
      AnyTrueSnoc(es, i, "ReplicaFailure");
      AnyTrueSnoc(es, i, "Available");
      if es[i].Entry? && es[i].status == "True" {
        if es[i].ctype == "Available" {
          available := true;
        } else if es[i].ctype == "ReplicaFailure" {
          replicaFailure := true;
        }
      }
    }
    assert es[..|es|] == es;
    if !replicaFailure && (ScaledToZero(b) || available) {
      o := Outcome(Ready, None);
    } else {
      o := Outcome(InProgress, None);
    }
  }

  lemma AnyTrueSnoc(es: seq<Entry>, i: nat, name: string)
    requires i < |es|
    ensures AnyTrue(es[..i + 1], name) == (AnyTrue(es[..i], name) || (Matches(es[i], name) && es[i].status == "True"))
  {
    assert es[..i + 1][i] == es[i];
    if AnyTrue(es[..i], name) {
      var k :| 0 <= k < i && Matches(es[..i][k], name) && es[..i][k].status == "True";
      assert es[..i + 1][k] == es[..i][k];
    }
    if AnyTrue(es[..i + 1], name) {
      var k :| 0 <= k < i + 1 && Matches(es[..i + 1][k], name) && es[..i + 1][k].status == "True";
      assert k < i ==> es[..i][k] == es[..i + 1][k];
    }
  }

  function ReplicaSetVerdict(b: Body): Outcome {
    Typed(b, !AnyTrue(Conditions(b), "ReplicaFailure") && (ScaledToZero(b) || Available(b) > 0))
  }

  method ReplicaSetStatus(b: Body) returns (o: Outcome)
    ensures o == ReplicaSetVerdict(b)
  {
    if b.conversion.Some? {
      return Outcome(Unknown, b.conversion);
    }
    var es := Conditions(b);
    var replicaFailure := false;
    for i := 0 to |es|
      invariant replicaFailure == AnyTrue(es[..i], "ReplicaFailure")
    {
      AnyTrueSnoc(es, i, "ReplicaFailure");
      if Matches(es[i], "ReplicaFailure") && es[i].status == "True" {
        replicaFailure := true;
      }
    }
    assert es[..|es|] == es;
    if !replicaFailure && (ScaledToZero(b) || Available(b) > 0) {
      o := Outcome(Ready, None);
    } else {
      o := Outcome(InProgress, None);
    }
  }

  function DaemonSetVerdict(b: Body): Outcome {
    Typed(b, b.numberUnavailable == 0)
  }

  function ReplicationControllerVerdict(b: Body): Outcome {
    Typed(b, ScaledToZero(b) || Available(b) > 0)
  }

  function ServiceVerdict(b: Body): Outcome {
    Typed(b,
          || b.serviceType in {"ClusterIP", "NodePort", "ExternalName"}
          || (&& b.serviceType == "LoadBalancer" && TrimSpace(b.clusterIP) != "" && |b.ingress| > 0
              && forall i :: 0 <= i < |b.ingress| ==>
                   TrimSpace(b.ingress[i].ip) != "" || TrimSpace(b.ingress[i].hostname) != ""))
  }

  function PodVerdict(b: Body): Outcome {
    var es := Conditions(b);
    Typed(b, exists i :: && 0 <= i < |es| && Matches(es[i], "Ready")
                         && (es[i].reason == "PodCompleted" || es[i].status == "True"))
  }

  /** The first True condition that is Complete or Failed decides. */
  predicate JobComplete(es: seq<Entry>) {
    if es == [] then false
    else if es[0].Entry? && es[0].status == "True" && es[0].ctype in {"Complete", "Failed"}
    then es[0].ctype == "Complete"
    else JobComplete(es[1..])
  }

  function RolloutVerdict(b: Body): Outcome {
    if b.specReplicas.Malformed? then Outcome(Unknown, Some(b.specReplicas.error))
    else if Desired(b) == 0 then Outcome(Ready, None)
    else if b.phase.Malformed? then Outcome(Unknown, Some(b.phase.error))
    else
      var phase := if b.phase.Found? then b.phase.value else "";
      if phase in {"Degraded", "Error"} then Outcome(InProgress, None)
      else if HasStatus(Conditions(b), "Available", "False") then Outcome(InProgress, None)
      else if b.availableReplicas.Malformed? then Outcome(Unknown, Some(b.availableReplicas.error))
      else if Available(b) >= Desired(b) then Outcome(Ready, None)
      else if phase in {"", "Healthy", "Inactive", "Progressing", "Paused"} then Outcome(InProgress, None)
      else Outcome(Unknown, None)
  }

  function PositiveVerdict(b: Body, required: set<string>): Outcome {
    if b.conditions.Malformed? then Outcome(Unknown, Some(b.conditions.error))
    else if b.conditions.Missing? then Outcome(InProgress, None)
    else if forall n :: n in required ==> HasStatus(b.conditions.value, n, "True") then Outcome(Ready, None)
    else Outcome(InProgress, None)
  }

  function StandardVerdict(b: Body): Outcome {
    if b.conditions.Malformed? then Outcome(Unknown, Some(b.conditions.error))
    else if HasStatus(Conditions(b), "Ready", "False") || HasStatus(Conditions(b), "InProgress", "True")
    then Outcome(InProgress, None)
    else Outcome(Ready, None)
  }

  /** schema.GroupKind.String. */
  function GroupKindText(group: string, kind: string): string {
    if group == "" then kind else kind + "." + group
  }

  /** The dispatch of status(). */
  function Status(r: Resource): Outcome {
    var gk, b := GroupKindText(r.group, r.kind), r.body;
    if gk == "StatefulSet.apps" then StatefulSetVerdict(b)
    else if gk == "Deployment.apps" then DeploymentVerdict(b)
    else if gk == "ReplicaSet.apps" then ReplicaSetVerdict(b)
    else if gk == "DaemonSet.apps" then DaemonSetVerdict(b)
    else if gk == "PersistentVolumeClaim" then Typed(b, b.phase == Found("Bound"))
    else if gk == "Service" then ServiceVerdict(b)
    else if gk == "Pod" then PodVerdict(b)
    else if gk == "PodDisruptionBudget.policy" then
      Typed(b, b.observedGeneration == b.generation && b.currentHealthy >= b.desiredHealthy)
    else if gk == "ReplicationController" then ReplicationControllerVerdict(b)
    else if gk == "Job.batch" then Typed(b, JobComplete(Conditions(b)))
    else if gk == "CronJob.batch" then Typed(b, !b.suspend)
    else if gk == "Rollout.argoproj.io" then RolloutVerdict(b)
    else if gk == "Gateway.gateway.networking.k8s.io" then PositiveVerdict(b, {"Accepted", "Programmed"})
    else if gk == "HTTPRoute.gateway.networking.k8s.io" then RouteVerdict(b)
    else if gk == "Agent.kagent.dev" || gk == "ModelConfig.kagent.dev" then PositiveVerdict(b, {"Accepted"})
    else StandardVerdict(b)
  }

  // ----- what the verdicts say across kinds -----

  /** A Rollout whose phase Argo did not document, with too few replicas available. */
  predicate UnrecognisedPhase(r: Resource) {
    var b := r.body;
    && GroupKindText(r.group, r.kind) == "Rollout.argoproj.io"
    && !b.specReplicas.Malformed? && Desired(b) != 0
    && b.phase.Found? && b.phase.value !in {"", "Healthy", "Inactive", "Progressing", "Paused", "Degraded", "Error"}
    && !HasStatus(Conditions(b), "Available", "False")
    && !b.availableReplicas.Malformed? && Available(b) < Desired(b)
  }

  /** An outcome is an error exactly when it is Unknown. */
  predicate Sound(o: Outcome) {
    o.error.Some? <==> o.verdict == Unknown
  }

  lemma SoundTyped(b: Body)
    ensures forall ready :: Sound(Typed(b, ready))
    ensures Sound(StatefulSetVerdict(b)) && Sound(DeploymentVerdict(b)) && Sound(ReplicaSetVerdict(b))
    ensures Sound(DaemonSetVerdict(b)) && Sound(ServiceVerdict(b)) && Sound(PodVerdict(b))
            && Sound(ReplicationControllerVerdict(b))
  {
    hide AnyTrue, TrimSpace, ScaledToZero;
  }

  lemma SoundConditions(b: Body)
    ensures forall required :: Sound(PositiveVerdict(b, required))
    ensures Sound(StandardVerdict(b))
  {
    hide HasStatus;
  }

  lemma SoundRoute(b: Body)
    ensures Sound(RouteVerdict(b))
  {
    if b.parents.Found? {
      FirstDecidedMeaning(b.parents.value);
      hide FirstDecided, Rejects, Healthy;
    }
  }

  lemma RolloutUnknown(r: Resource)
    requires GroupKindText(r.group, r.kind) == "Rollout.argoproj.io"
    ensures UnrecognisedPhase(r) <==> !Sound(RolloutVerdict(r.body))
    ensures RolloutVerdict(r.body).error.Some? ==> RolloutVerdict(r.body).verdict == Unknown
  {
    hide HasStatus, GroupKindText;
  }

  lemma SoundElse(r: Resource)
    requires GroupKindText(r.group, r.kind) != "Rollout.argoproj.io"
    ensures Sound(Status(r))
  {
    SoundTyped(r.body);
    SoundConditions(r.body);
    SoundRoute(r.body);
    hide StatefulSetVerdict, DeploymentVerdict, ReplicaSetVerdict, DaemonSetVerdict, ServiceVerdict, PodVerdict,
         ReplicationControllerVerdict, RolloutVerdict, PositiveVerdict, StandardVerdict, RouteVerdict, Typed,
         JobComplete, GroupKindText, Sound;
  }

  /** Over all kinds: an error always comes with Unknown, and Unknown always with an error, except for a
      Rollout in an unrecognised phase. That one is reported as not ready rather than as an error. */
  lemma UnknownIff(r: Resource)
    ensures Status(r).error.Some? ==> Status(r).verdict == Unknown
    ensures Status(r).verdict == Unknown && Status(r).error.None? <==> UnrecognisedPhase(r)
  {
    if GroupKindText(r.group, r.kind) == "Rollout.argoproj.io" {
      RolloutUnknown(r);
      hide StatefulSetVerdict, DeploymentVerdict, ReplicaSetVerdict, DaemonSetVerdict, ServiceVerdict, PodVerdict,
         ReplicationControllerVerdict, RolloutVerdict, PositiveVerdict, StandardVerdict, RouteVerdict, Typed,
         JobComplete;
      hide UnrecognisedPhase, GroupKindText;
    } else {
      SoundElse(r);
      hide Status, GroupKindText;
    }
  }

  // ----- HTTPRoute -----

  predicate Rejects(p: ParentEntry) {
    && p.Parent? && p.conditions.Found?
    && (HasStatus(p.conditions.value, "Accepted", "False") || HasStatus(p.conditions.value, "ResolvedRefs", "False"))
  }

  predicate Healthy(p: ParentEntry) {
    && p.Parent? && p.conditions.Found?
    && HasStatus(p.conditions.value, "Accepted", "True") && HasStatus(p.conditions.value, "ResolvedRefs", "True")
  }

  /** What a parent returns from the loop, if it makes the loop return. */
  function Decides(p: ParentEntry): Option<Outcome> {
    if p.Parent? && p.conditions.Malformed? then Some(Outcome(Unknown, Some(p.conditions.error)))
    else if Rejects(p) then Some(Outcome(InProgress, None))
    else None
  }

  function FirstDecided(ps: seq<ParentEntry>): Option<Outcome> {
    if ps == [] then None
    else if Decides(ps[0]).Some? then Decides(ps[0])
    else FirstDecided(ps[1..])
  }

  lemma {:induction false} FirstDecidedMeaning(ps: seq<ParentEntry>)
    ensures FirstDecided(ps).None? <==> forall i :: 0 <= i < |ps| ==> Decides(ps[i]).None?
    ensures FirstDecided(ps).Some? ==> exists i :: 0 <= i < |ps| && Decides(ps[i]) == FirstDecided(ps)
  {
    hide Decides;
    if ps != [] && Decides(ps[0]).None? {
      FirstDecidedMeaning(ps[1..]);
      assert forall i :: 0 < i < |ps| ==> ps[i] == ps[1..][i - 1];
      if FirstDecided(ps).Some? {
        var i :| 0 <= i < |ps[1..]| && Decides(ps[1..][i]) == FirstDecided(ps[1..]);
        assert Decides(ps[i + 1]) == FirstDecided(ps);
      }
    }
  }

  function RouteVerdict(b: Body): Outcome {
    if b.parents.Malformed? then Outcome(Unknown, Some(b.parents.error))
    else if b.parents.Missing? || b.parents.value == [] then Outcome(InProgress, None)
    else
      var ps := b.parents.value;
      var d := FirstDecided(ps);
      if d.Some? then d.value
      else if exists i :: 0 <= i < |ps| && Healthy(ps[i]) then Outcome(Ready, None)
      else Outcome(InProgress, None)
  }

  /** One pass of the parent loop: an early return, or whether the parent is healthy. */
  method VisitParent(p: ParentEntry) returns (out: Option<Outcome>, healthy: bool)
    ensures out == Decides(p) && healthy == (out.None? && Healthy(p))
  {
    if p.ParentNotAnObject? || p.conditions.Missing? {
      return None, false;
    }
    if p.conditions.Malformed? {
      return Some(Outcome(Unknown, Some(p.conditions.error))), false;
    }
    var cs := p.conditions.value;
    var accepted := ConditionHasStatus(cs, "Accepted", "True");
    var resolved := ConditionHasStatus(cs, "ResolvedRefs", "True");
    var notAccepted := ConditionHasStatus(cs, "Accepted", "False");
    var notResolved := ConditionHasStatus(cs, "ResolvedRefs", "False");
    if notAccepted || notResolved {
      return Some(Outcome(InProgress, None)), false;
    }
    return None, accepted && resolved;
  }

  /** The parent loop with its early returns. */
  method RouteStatus(b: Body) returns (o: Outcome)
    ensures o == RouteVerdict(b)
  {
    if b.parents.Malformed? {
      return Outcome(Unknown, Some(b.parents.error));
    }
    if b.parents.Missing? || b.parents.value == [] {
      return Outcome(InProgress, None);
    }
    hide Healthy, Decides, FirstDecided;
    var ps := b.parents.value;
    var sawHealthyParent := false;
    assert ps[0..] == ps;
    for k := 0 to |ps|
      invariant FirstDecided(ps) == FirstDecided(ps[k..])
      invariant sawHealthyParent == exists i :: 0 <= i < k && Healthy(ps[i])
    {
      DecideOne(ps, k);
      var out, healthy := VisitParent(ps[k]);
      if out.Some? {
        return out.value;
      }
      if healthy {
        sawHealthyParent := true;
      }
    }
    DecideNone(ps[|ps|..]);
    if sawHealthyParent {
      o := Outcome(Ready, None);
    } else {
      o := Outcome(InProgress, None);
    }
  }

  lemma DecideOne(ps: seq<ParentEntry>, k: nat)
    requires k < |ps|
    ensures FirstDecided(ps[k..]) == if Decides(ps[k]).Some? then Decides(ps[k]) else FirstDecided(ps[k + 1..])
  {
    assert ps[k..][1..] == ps[k + 1..] && ps[k..][0] == ps[k];
  }

  lemma DecideNone(ps: seq<ParentEntry>)
    requires ps == []
    ensures FirstDecided(ps) == None
  {
  }

  /** A route is Ready exactly when some parent is healthy and no parent rejects it or is malformed. */
  lemma RouteReadyIff(b: Body)
    ensures RouteVerdict(b).verdict == Ready <==>
            && b.parents.Found?
            && (exists i :: 0 <= i < |b.parents.value| && Healthy(b.parents.value[i]))
            && (forall i :: 0 <= i < |b.parents.value| ==>
                  && !Rejects(b.parents.value[i])
                  && !(b.parents.value[i].Parent? && b.parents.value[i].conditions.Malformed?))
  {
    if b.parents.Found? {
      var ps := b.parents.value;
      FirstDecidedMeaning(ps);
      assert forall i :: 0 <= i < |ps| ==> (Decides(ps[i]).None? <==>
        !Rejects(ps[i]) && !(ps[i].Parent? && ps[i].conditions.Malformed?));
    }
  }

  /** All parents that end the loop end it the same way. */
  predicate DecidersAgree(ps: seq<ParentEntry>) {
    forall i, j :: 0 <= i < |ps| && 0 <= j < |ps| && Decides(ps[i]).Some? && Decides(ps[j]).Some? ==>
      Decides(ps[i]) == Decides(ps[j])
  }

  lemma SameElements<T>(a: seq<T>, b: seq<T>, i: nat) returns (j: nat)
    requires multiset(a) == multiset(b) && i < |a|
    ensures j < |b| && b[j] == a[i]
  {
    assert a[i] in multiset(a);
    j :| 0 <= j < |b| && b[j] == a[i];
  }

  lemma SwapKeepsElements<T>(a: seq<T>, i: nat, j: nat)
    requires i < |a| && j < |a|
    ensures multiset(a[i := a[j]][j := a[i]]) == multiset(a)
  {
  }

  lemma AgreeingPermuted(ps: seq<ParentEntry>, qs: seq<ParentEntry>)
    requires DecidersAgree(ps) && multiset(qs) == multiset(ps)
    ensures FirstDecided(qs) == FirstDecided(ps)
  {
    hide Decides, FirstDecided;
    FirstDecidedMeaning(ps);
    FirstDecidedMeaning(qs);
    if FirstDecided(qs).Some? {
      var i :| 0 <= i < |qs| && Decides(qs[i]) == FirstDecided(qs);
      var j := SameElements(qs, ps, i);
    }
    if FirstDecided(ps).Some? {
      var i :| 0 <= i < |ps| && Decides(ps[i]) == FirstDecided(ps);
      var j := SameElements(ps, qs, i);
    }
  }

  /** Two parents that decide differently: bring the one that does not come first to the front. */
  lemma DisagreeingPermuted(ps: seq<ParentEntry>) returns (qs: seq<ParentEntry>)
    requires !DecidersAgree(ps)
    ensures multiset(qs) == multiset(ps) && FirstDecided(qs) != FirstDecided(ps)
  {
    hide Decides;
    var i, j :| 0 <= i < |ps| && 0 <= j < |ps| && Decides(ps[i]).Some? && Decides(ps[j]).Some?
        && Decides(ps[i]) != Decides(ps[j]);
    var k := if Decides(ps[i]) == FirstDecided(ps) then j else i;
    qs := ps[0 := ps[k]][k := ps[0]];
    SwapKeepsElements(ps, 0, k);
    assert qs[0] == ps[k];
  }

  ghost predicate OrderIrrelevant(ps: seq<ParentEntry>) {
    forall qs: seq<ParentEntry> :: multiset(qs) == multiset(ps) ==> FirstDecided(qs) == FirstDecided(ps)
  }

  /** The listing order of parents is irrelevant exactly when the deciding parents agree; in particular
      whenever no parent is malformed, since rejecting parents all return InProgress. */
  lemma RouteOrderIrrelevantIff(ps: seq<ParentEntry>)
    ensures DecidersAgree(ps) <==> OrderIrrelevant(ps)
  {
    hide FirstDecided;
    if DecidersAgree(ps) {
      forall qs: seq<ParentEntry> | multiset(qs) == multiset(ps) ensures FirstDecided(qs) == FirstDecided(ps) {
        AgreeingPermuted(ps, qs);
      }
    } else {
      var qs := DisagreeingPermuted(ps);
      hide DecidersAgree;
    }
  }

  /** Permuting the parents of a route without malformed parents keeps its verdict. */
  lemma RoutePermutation(b: Body, qs: seq<ParentEntry>)
    requires b.parents.Found? && multiset(qs) == multiset(b.parents.value)
    requires forall i :: 0 <= i < |qs| ==> !(qs[i].Parent? && qs[i].conditions.Malformed?)
    ensures RouteVerdict(b.(parents := Found(qs))) == RouteVerdict(b)
  {
    var ps := b.parents.value;
    forall i | 0 <= i < |ps|
      ensures Decides(ps[i]).Some? ==> Decides(ps[i]) == Some(Outcome(InProgress, None))
    {
      var j := SameElements(ps, qs, i);
    }
    assert DecidersAgree(ps);
    AgreeingPermuted(ps, qs);
    hide FirstDecided, DecidersAgree, Decides;
    if i :| 0 <= i < |ps| && Healthy(ps[i]) { var j := SameElements(ps, qs, i); }
    if i :| 0 <= i < |qs| && Healthy(qs[i]) { var j := SameElements(qs, ps, i); }
    assert |ps| == |multiset(ps)| == |multiset(qs)| == |qs|;
  }

  predicate UniqueTypes(es: seq<Entry>) {
    forall i, j :: 0 <= i < j < |es| && es[i].Entry? && es[j].Entry? ==> es[i].ctype != es[j].ctype
  }

  /** With unique condition types, the first-match lookup does not depend on the order of the list. */
  lemma LookupPermutation(es: seq<Entry>, fs: seq<Entry>, name: string)
    requires UniqueTypes(es) && multiset(es) == multiset(fs)
    ensures FirstStatus(es, name) == FirstStatus(fs, name)
  {
    if FirstStatus(es, name).Some? {
      var i :| 0 <= i < |es| && Matches(es[i], name) && es[i].status == FirstStatus(es, name).value;
      var j := SameElements(es, fs, i);
    }
    if FirstStatus(fs, name).Some? {
      var i :| 0 <= i < |fs| && Matches(fs[i], name) && fs[i].status == FirstStatus(fs, name).value;
      var j := SameElements(fs, es, i);
    }
  }

  /** The same parent with its conditions in another order. */
  predicate Reordered(p: ParentEntry, q: ParentEntry) {
    || p == q
    || (&& p.Parent? && q.Parent? && p.conditions.Found? && q.conditions.Found?
        && UniqueTypes(p.conditions.value) && multiset(p.conditions.value) == multiset(q.conditions.value))
  }

  lemma ReorderedParent(p: ParentEntry, q: ParentEntry)
    requires Reordered(p, q)
    ensures Decides(q) == Decides(p) && Healthy(q) == Healthy(p)
  {
    if p != q {
      LookupPermutation(p.conditions.value, q.conditions.value, "Accepted");
      LookupPermutation(p.conditions.value, q.conditions.value, "ResolvedRefs");
      hide FirstStatus;
    }
  }

  lemma {:induction false} ReorderedDecided(ps: seq<ParentEntry>, qs: seq<ParentEntry>)
    requires |qs| == |ps| && forall i :: 0 <= i < |ps| ==> Decides(qs[i]) == Decides(ps[i])
    ensures FirstDecided(qs) == FirstDecided(ps)
  {
    hide Decides;
    if ps != [] {
      ReorderedDecided(ps[1..], qs[1..]);
    }
  }

  /** Permuting the conditions of any parents of a route keeps its verdict, if their types are unique. */
  lemma RouteConditionsPermuted(b: Body, qs: seq<ParentEntry>)
    requires b.parents.Found? && |qs| == |b.parents.value|
    requires forall i :: 0 <= i < |qs| ==> Reordered(b.parents.value[i], qs[i])
    ensures RouteVerdict(b.(parents := Found(qs))) == RouteVerdict(b)
  {
    var ps := b.parents.value;
    forall i | 0 <= i < |ps| ensures Decides(qs[i]) == Decides(ps[i]) && Healthy(qs[i]) == Healthy(ps[i]) {
      ReorderedParent(ps[i], qs[i]);
    }
    hide Decides, Healthy, FirstDecided;
    ReorderedDecided(ps, qs);
  }

  // ----- scaling -----

  /** The four kinds whose verdict must survive a scale-up. */
  predicate ScalableKind(r: Resource) {
    GroupKindText(r.group, r.kind) in
      {"StatefulSet.apps", "Deployment.apps", "ReplicaSet.apps", "ReplicationController"}
  }

  /** The same object after a change of spec.replicas: new generation, status untouched. */
  function Rescaled(r: Resource, replicas: Nested<int>, generation: int): (r': Resource) {
    r.(body := r.body.(specReplicas := replicas, generation := generation))
  }

  /** Ready (or not) whatever spec.replicas says: serving, failing, unconvertible, or still holding pods. */
  predicate Insensitive(r: Resource) {
    var gk, b := GroupKindText(r.group, r.kind), r.body;
    || b.conversion.Some?
    || b.statusReplicas != 0
    || (gk in {"Deployment.apps", "ReplicaSet.apps"} && AnyTrue(Conditions(b), "ReplicaFailure"))
    || (gk == "StatefulSet.apps" && b.currentReplicas > 0 && b.readyReplicas == b.currentReplicas)
    || (gk == "Deployment.apps" && AnyTrue(Conditions(b), "Available"))
    || (gk in {"ReplicaSet.apps", "ReplicationController"} && Available(b) > 0)
  }

  /** A rescale is invisible exactly when it does not cross zero or the object is insensitive to crossing it. */
  lemma RescaleInvisibleIff(r: Resource, replicas: Nested<int>, generation: int)
    requires ScalableKind(r)
    ensures var r' := Rescaled(r, replicas, generation);
            Status(r') == Status(r) <==> ((Desired(r.body) == 0) == (Desired(r'.body) == 0) || Insensitive(r))
  {
    var r' := Rescaled(r, replicas, generation);
    assert Conditions(r'.body) == Conditions(r.body);
  }

  /** A Rollout is different: a healthy one that is scaled up stays Ready exactly when the replicas
      already available cover the new count, so an ordinary scale-up shows. */
  lemma RolloutRescaleIff(r: Resource, n: int, generation: int)
    requires GroupKindText(r.group, r.kind) == "Rollout.argoproj.io" && n != 0
    requires Desired(r.body) != 0 && Status(r).verdict == Ready
    ensures Status(Rescaled(r, Found(n), generation)).verdict == Ready <==> Available(r.body) >= n
  {
    var r' := Rescaled(r, Found(n), generation);
    assert Conditions(r'.body) == Conditions(r.body);
  }
}
