/** What the verdict of each kind means, over the raw fields of an object of that group and kind. */
module Kinds {
  import opened Text
  import opened Readiness

  predicate Is(r: Resource, group: string, kind: string) {
    r.group == group && r.kind == kind
  }

  function EntriesOf(r: Resource): seq<Entry> {
    if r.body.conditions.Found? then r.body.conditions.value else []
  }

  /** Entry i of a conditions list has that type and that status. */
  predicate Says(es: seq<Entry>, i: int, ctype: string, status: string) {
    0 <= i < |es| && es[i].Entry? && es[i].ctype == ctype && es[i].status == status
  }

  /** The first entry of that type has that status. */
  ghost predicate FirstSays(es: seq<Entry>, ctype: string, status: string) {
    exists i :: Says(es, i, ctype, status) && forall j :: 0 <= j < i ==> !(es[j].Entry? && es[j].ctype == ctype)
  }

  lemma FirstSaysIff(es: seq<Entry>, ctype: string, status: string)
    ensures HasStatus(es, ctype, status) <==> FirstSays(es, ctype, status)
  {
    hide FirstStatus;
    if HasStatus(es, ctype, status) {
      var i :| 0 <= i < |es| && FirstMatch(es, i, ctype) && es[i].status == status;
      assert Says(es, i, ctype, status);
    }
    if FirstSays(es, ctype, status) {
      var i :| Says(es, i, ctype, status) && forall j :: 0 <= j < i ==> !(es[j].Entry? && es[j].ctype == ctype);
      var k :| 0 <= k < |es| && FirstMatch(es, k, ctype) && Some(es[k].status) == FirstStatus(es, ctype);
      assert Matches(es[i], ctype) && Matches(es[k], ctype);
      assert k == i;
    }
  }

  /** The object asks for no replicas, and none are left. */
  predicate Parked(r: Resource) {
    r.body.specReplicas == Found(0) && r.body.statusReplicas == 0
  }

  // ----- the dispatch -----

  lemma TextDeployment()
    ensures "Deployment" + "." + "apps" == "Deployment.apps"
  {
  }

  lemma DispatchDeployment(r: Resource)
    requires Is(r, "apps", "Deployment")
    ensures Status(r) == DeploymentVerdict(r.body)
  {
    TextDeployment();
    hide StatefulSetVerdict, DeploymentVerdict, ReplicaSetVerdict, DaemonSetVerdict, ServiceVerdict, PodVerdict;
    hide ReplicationControllerVerdict, RolloutVerdict, PositiveVerdict, StandardVerdict, RouteVerdict, Typed;
    hide JobComplete;
    assert GroupKindText(r.group, r.kind) == "Deployment.apps";
    hide GroupKindText, Is;
  }

  lemma TextReplicaSet()
    ensures "ReplicaSet" + "." + "apps" == "ReplicaSet.apps"
  {
  }

  lemma DispatchReplicaSet(r: Resource)
    requires Is(r, "apps", "ReplicaSet")
    ensures Status(r) == ReplicaSetVerdict(r.body)
  {
    TextReplicaSet();
    hide StatefulSetVerdict, DeploymentVerdict, ReplicaSetVerdict, DaemonSetVerdict, ServiceVerdict, PodVerdict;
    hide ReplicationControllerVerdict, RolloutVerdict, PositiveVerdict, StandardVerdict, RouteVerdict, Typed;
    hide JobComplete;
    assert GroupKindText(r.group, r.kind) == "ReplicaSet.apps";
    hide GroupKindText, Is;
  }

  lemma TextStatefulSet()
    ensures "StatefulSet" + "." + "apps" == "StatefulSet.apps"
  {
  }

  lemma DispatchStatefulSet(r: Resource)
    requires Is(r, "apps", "StatefulSet")
    ensures Status(r) == StatefulSetVerdict(r.body)
  {
    TextStatefulSet();
    hide StatefulSetVerdict, DeploymentVerdict, ReplicaSetVerdict, DaemonSetVerdict, ServiceVerdict, PodVerdict;
    hide ReplicationControllerVerdict, RolloutVerdict, PositiveVerdict, StandardVerdict, RouteVerdict, Typed;
    hide JobComplete;
    assert GroupKindText(r.group, r.kind) == "StatefulSet.apps";
    hide GroupKindText, Is;
  }

  lemma TextDaemonSet()
    ensures "DaemonSet" + "." + "apps" == "DaemonSet.apps"
  {
  }

  lemma DispatchDaemonSet(r: Resource)
    requires Is(r, "apps", "DaemonSet")
    ensures Status(r) == DaemonSetVerdict(r.body)
  {
    TextDaemonSet();
    hide StatefulSetVerdict, DeploymentVerdict, ReplicaSetVerdict, DaemonSetVerdict, ServiceVerdict, PodVerdict;
    hide ReplicationControllerVerdict, RolloutVerdict, PositiveVerdict, StandardVerdict, RouteVerdict, Typed;
    hide JobComplete;
    assert GroupKindText(r.group, r.kind) == "DaemonSet.apps";
    hide GroupKindText, Is;
  }

  lemma TextJob()
    ensures "Job" + "." + "batch" == "Job.batch"
  {
  }

  lemma DispatchJob(r: Resource)
    requires Is(r, "batch", "Job")
    ensures Status(r) == Typed(r.body, JobComplete(Conditions(r.body)))
  {
    TextJob();
    hide StatefulSetVerdict, DeploymentVerdict, ReplicaSetVerdict, DaemonSetVerdict, ServiceVerdict, PodVerdict;
    hide ReplicationControllerVerdict, RolloutVerdict, PositiveVerdict, StandardVerdict, RouteVerdict, Typed;
    hide JobComplete;
    assert GroupKindText(r.group, r.kind) == "Job.batch";
    hide GroupKindText, Is;
  }

  lemma TextCronJob()
    ensures "CronJob" + "." + "batch" == "CronJob.batch"
  {
  }

  lemma DispatchCronJob(r: Resource)
    requires Is(r, "batch", "CronJob")
    ensures Status(r) == Typed(r.body, !r.body.suspend)
  {
    TextCronJob();
    hide StatefulSetVerdict, DeploymentVerdict, ReplicaSetVerdict, DaemonSetVerdict, ServiceVerdict, PodVerdict;
    hide ReplicationControllerVerdict, RolloutVerdict, PositiveVerdict, StandardVerdict, RouteVerdict, Typed;
    hide JobComplete;
    assert GroupKindText(r.group, r.kind) == "CronJob.batch";
    hide GroupKindText, Is;
  }

  lemma TextPodDisruptionBudget()
    ensures "PodDisruptionBudget" + "." + "policy" == "PodDisruptionBudget.policy"
  {
  }

  lemma DispatchPodDisruptionBudget(r: Resource)
    requires Is(r, "policy", "PodDisruptionBudget")
    ensures Status(r) == Typed(r.body, r.body.observedGeneration == r.body.generation
                                 && r.body.currentHealthy >= r.body.desiredHealthy)
  {
    TextPodDisruptionBudget();
    hide StatefulSetVerdict, DeploymentVerdict, ReplicaSetVerdict, DaemonSetVerdict, ServiceVerdict, PodVerdict;
    hide ReplicationControllerVerdict, RolloutVerdict, PositiveVerdict, StandardVerdict, RouteVerdict, Typed;
    hide JobComplete;
    assert GroupKindText(r.group, r.kind) == "PodDisruptionBudget.policy";
    hide GroupKindText, Is;
  }

  lemma TextRollout()
    ensures "Rollout" + "." + "argoproj.io" == "Rollout.argoproj.io"
  {
  }

  lemma DispatchRollout(r: Resource)
    requires Is(r, "argoproj.io", "Rollout")
    ensures Status(r) == RolloutVerdict(r.body)
  {
    TextRollout();
    hide StatefulSetVerdict, DeploymentVerdict, ReplicaSetVerdict, DaemonSetVerdict, ServiceVerdict, PodVerdict;
    hide ReplicationControllerVerdict, RolloutVerdict, PositiveVerdict, StandardVerdict, RouteVerdict, Typed;
    hide JobComplete;
    assert GroupKindText(r.group, r.kind) == "Rollout.argoproj.io";
    hide GroupKindText, Is;
  }

  lemma TextGateway()
    ensures "Gateway" + "." + "gateway.networking.k8s.io" == "Gateway.gateway.networking.k8s.io"
  {
  }

  lemma DispatchGateway(r: Resource)
    requires Is(r, "gateway.networking.k8s.io", "Gateway")
    ensures Status(r) == PositiveVerdict(r.body, {"Accepted", "Programmed"})
  {
    TextGateway();
    hide StatefulSetVerdict, DeploymentVerdict, ReplicaSetVerdict, DaemonSetVerdict, ServiceVerdict, PodVerdict;
    hide ReplicationControllerVerdict, RolloutVerdict, PositiveVerdict, StandardVerdict, RouteVerdict, Typed;
    hide JobComplete;
    assert GroupKindText(r.group, r.kind) == "Gateway.gateway.networking.k8s.io";
    hide GroupKindText, Is;
  }

  lemma TextHTTPRoute()
    ensures "HTTPRoute" + "." + "gateway.networking.k8s.io" == "HTTPRoute.gateway.networking.k8s.io"
  {
  }

  lemma DispatchHTTPRoute(r: Resource)
    requires Is(r, "gateway.networking.k8s.io", "HTTPRoute")
    ensures Status(r) == RouteVerdict(r.body)
  {
    TextHTTPRoute();
    hide StatefulSetVerdict, DeploymentVerdict, ReplicaSetVerdict, DaemonSetVerdict, ServiceVerdict, PodVerdict;
    hide ReplicationControllerVerdict, RolloutVerdict, PositiveVerdict, StandardVerdict, RouteVerdict, Typed;
    hide JobComplete;
    assert GroupKindText(r.group, r.kind) == "HTTPRoute.gateway.networking.k8s.io";
    hide GroupKindText, Is;
  }

  lemma TextAgent()
    ensures "Agent" + "." + "kagent.dev" == "Agent.kagent.dev"
  {
  }

  lemma DispatchAgent(r: Resource)
    requires Is(r, "kagent.dev", "Agent")
    ensures Status(r) == PositiveVerdict(r.body, {"Accepted"})
  {
    TextAgent();
    hide StatefulSetVerdict, DeploymentVerdict, ReplicaSetVerdict, DaemonSetVerdict, ServiceVerdict, PodVerdict;
    hide ReplicationControllerVerdict, RolloutVerdict, PositiveVerdict, StandardVerdict, RouteVerdict, Typed;
    hide JobComplete;
    assert GroupKindText(r.group, r.kind) == "Agent.kagent.dev";
    hide GroupKindText, Is;
  }

  lemma TextModelConfig()
    ensures "ModelConfig" + "." + "kagent.dev" == "ModelConfig.kagent.dev"
  {
  }

  lemma DispatchModelConfig(r: Resource)
    requires Is(r, "kagent.dev", "ModelConfig")
    ensures Status(r) == PositiveVerdict(r.body, {"Accepted"})
  {
    TextModelConfig();
    hide StatefulSetVerdict, DeploymentVerdict, ReplicaSetVerdict, DaemonSetVerdict, ServiceVerdict, PodVerdict;
    hide ReplicationControllerVerdict, RolloutVerdict, PositiveVerdict, StandardVerdict, RouteVerdict, Typed;
    hide JobComplete;
    assert GroupKindText(r.group, r.kind) == "ModelConfig.kagent.dev";
    hide GroupKindText, Is;
  }

  lemma DispatchReplicationController(r: Resource)
    requires Is(r, "", "ReplicationController")
    ensures Status(r) == ReplicationControllerVerdict(r.body)
  {
    hide StatefulSetVerdict, DeploymentVerdict, ReplicaSetVerdict, DaemonSetVerdict, ServiceVerdict, PodVerdict;
    hide ReplicationControllerVerdict, RolloutVerdict, PositiveVerdict, StandardVerdict, RouteVerdict, Typed;
    hide JobComplete;
    assert GroupKindText(r.group, r.kind) == "ReplicationController";
    hide GroupKindText, Is;
  }

  lemma DispatchPersistentVolumeClaim(r: Resource)
    requires Is(r, "", "PersistentVolumeClaim")
    ensures Status(r) == Typed(r.body, r.body.phase == Found("Bound"))
  {
    hide StatefulSetVerdict, DeploymentVerdict, ReplicaSetVerdict, DaemonSetVerdict, ServiceVerdict, PodVerdict;
    hide ReplicationControllerVerdict, RolloutVerdict, PositiveVerdict, StandardVerdict, RouteVerdict, Typed;
    hide JobComplete;
    assert GroupKindText(r.group, r.kind) == "PersistentVolumeClaim";
    hide GroupKindText, Is;
  }

  lemma DispatchService(r: Resource)
    requires Is(r, "", "Service")
    ensures Status(r) == ServiceVerdict(r.body)
  {
    hide StatefulSetVerdict, DeploymentVerdict, ReplicaSetVerdict, DaemonSetVerdict, ServiceVerdict, PodVerdict;
    hide ReplicationControllerVerdict, RolloutVerdict, PositiveVerdict, StandardVerdict, RouteVerdict, Typed;
    hide JobComplete;
    assert GroupKindText(r.group, r.kind) == "Service";
    hide GroupKindText, Is;
  }

  lemma DispatchPod(r: Resource)
    requires Is(r, "", "Pod")
    ensures Status(r) == PodVerdict(r.body)
  {
    hide StatefulSetVerdict, DeploymentVerdict, ReplicaSetVerdict, DaemonSetVerdict, ServiceVerdict, PodVerdict;
    hide ReplicationControllerVerdict, RolloutVerdict, PositiveVerdict, StandardVerdict, RouteVerdict, Typed;
    hide JobComplete;
    assert GroupKindText(r.group, r.kind) == "Pod";
    hide GroupKindText, Is;
  }

  // ----- workloads -----

  /** A Deployment is Ready exactly when it has no ReplicaFailure=True entry and is available or parked. Its
      desired count beyond zero, ready count and generations do not matter. */
  lemma DeploymentReadyIff(r: Resource)
    requires Is(r, "apps", "Deployment")
    ensures Status(r).verdict == Ready <==>
            && r.body.conversion.None?
            && (forall i :: !Says(EntriesOf(r), i, "ReplicaFailure", "True"))
            && (Parked(r) || exists i :: Says(EntriesOf(r), i, "Available", "True"))
  {
    DispatchDeployment(r);
    AnyTrueIff(EntriesOf(r), "ReplicaFailure");
    AnyTrueIff(EntriesOf(r), "Available");
    hide Status, AnyTrue;
  }

  lemma AnyTrueIff(es: seq<Entry>, name: string)
    ensures AnyTrue(es, name) <==> exists i :: Says(es, i, name, "True")
  {
    if AnyTrue(es, name) {
      var i :| 0 <= i < |es| && Matches(es[i], name) && es[i].status == "True";
      assert Says(es, i, name, "True");
    }
    if i :| Says(es, i, name, "True") {
      assert Matches(es[i], name);
    }
  }

  /** A ReplicaSet is Ready exactly when it has no ReplicaFailure=True entry and has a replica available or is
      parked. */
  lemma ReplicaSetReadyIff(r: Resource)
    requires Is(r, "apps", "ReplicaSet")
    ensures Status(r).verdict == Ready <==>
            && r.body.conversion.None?
            && (forall i :: !Says(EntriesOf(r), i, "ReplicaFailure", "True"))
            && (Parked(r) || (r.body.availableReplicas.Found? && r.body.availableReplicas.value > 0))
  {
    DispatchReplicaSet(r);
    AnyTrueIff(EntriesOf(r), "ReplicaFailure");
    hide Status, AnyTrue;
  }

  /** A failing Deployment or ReplicaSet is never Ready, whatever else it says. */
  lemma ReplicaFailureBlocks(r: Resource, i: int)
    requires Is(r, "apps", "Deployment") || Is(r, "apps", "ReplicaSet")
    requires Says(EntriesOf(r), i, "ReplicaFailure", "True")
    ensures Status(r).verdict != Ready
  {
    if Is(r, "apps", "Deployment") { DeploymentReadyIff(r); } else { ReplicaSetReadyIff(r); }
    hide Status;
  }

  /** Every managed pod ready, however many are desired; or parked. */
  lemma StatefulSetReadyIff(r: Resource)
    requires Is(r, "apps", "StatefulSet")
    ensures Status(r).verdict == Ready <==>
            && r.body.conversion.None?
            && (Parked(r) || (r.body.currentReplicas > 0 && r.body.readyReplicas == r.body.currentReplicas))
  {
    DispatchStatefulSet(r);
    hide Status;
  }

  /** No scheduled pod unavailable, also when none is scheduled; one replica available, or parked. */
  lemma DaemonSetReadyIff(r: Resource)
    ensures Is(r, "apps", "DaemonSet") ==>
              (Status(r).verdict == Ready <==> r.body.conversion.None? && r.body.numberUnavailable == 0)
    ensures Is(r, "", "ReplicationController") ==>
              (Status(r).verdict == Ready <==>
               && r.body.conversion.None?
               && (Parked(r) || (r.body.availableReplicas.Found? && r.body.availableReplicas.value > 0)))
  {
    if Is(r, "apps", "DaemonSet") { DispatchDaemonSet(r); }
    if Is(r, "", "ReplicationController") { DispatchReplicationController(r); }
    hide Status;
  }

  lemma {:induction false} JobCompleteIff(es: seq<Entry>)
    ensures JobComplete(es) <==>
            exists i :: Says(es, i, "Complete", "True") && forall j :: 0 <= j < i ==> !Says(es, j, "Failed", "True")
  {
    if es != [] {
      JobCompleteIff(es[1..]);
      assert forall i :: 0 < i < |es| ==> es[i] == es[1..][i - 1];
      if JobComplete(es) {
        if Says(es, 0, "Complete", "True") {
          assert Says(es, 0, "Complete", "True");
        } else {
          var i :| && Says(es[1..], i, "Complete", "True")
                   && forall j :: 0 <= j < i ==> !Says(es[1..], j, "Failed", "True");
          assert Says(es, i + 1, "Complete", "True");
          assert forall j :: 0 < j < i + 1 ==> Says(es, j, "Failed", "True") ==> Says(es[1..], j - 1, "Failed", "True");
        }
      }
      if i :| Says(es, i, "Complete", "True") && forall j :: 0 <= j < i ==> !Says(es, j, "Failed", "True") {
        if i > 0 {
          assert Says(es[1..], i - 1, "Complete", "True");
          assert forall j :: 0 <= j < i - 1 ==>
              Says(es[1..], j, "Failed", "True") ==> Says(es, j + 1, "Failed", "True");
          assert !Says(es, 0, "Failed", "True");
        }
      }
    }
  }

  /** A Job is Ready exactly when it completed and did not fail before; having started is not enough. */
  lemma JobReadyIff(r: Resource)
    requires Is(r, "batch", "Job")
    ensures Status(r).verdict == Ready <==>
            && r.body.conversion.None?
            && exists i :: && Says(EntriesOf(r), i, "Complete", "True")
                           && forall j :: 0 <= j < i ==> !Says(EntriesOf(r), j, "Failed", "True")
  {
    DispatchJob(r);
    JobCompleteIff(EntriesOf(r));
    hide Status, JobComplete;
  }

  /** The first entry of each named condition is True; nothing else counts, and no conditions are not enough. */
  lemma GatewayReadyIff(r: Resource)
    requires Is(r, "gateway.networking.k8s.io", "Gateway")
    ensures Status(r).verdict == Ready <==>
            FirstSays(EntriesOf(r), "Accepted", "True") && FirstSays(EntriesOf(r), "Programmed", "True")
    ensures Status(r).verdict == Unknown <==> r.body.conditions.Malformed?
  {
    DispatchGateway(r);
    FirstSaysIff(EntriesOf(r), "Accepted", "True");
    FirstSaysIff(EntriesOf(r), "Programmed", "True");
    hide Status, HasStatus, FirstSays;
    assert EntriesOf(r) == [] ==> !HasStatus(EntriesOf(r), "Accepted", "True") by { NoEntries("Accepted", "True"); }
  }

  lemma NoEntries(name: string, status: string)
    ensures !HasStatus([], name, status)
  {
  }

  lemma AgentReadyIff(r: Resource)
    requires Is(r, "kagent.dev", "Agent") || Is(r, "kagent.dev", "ModelConfig")
    ensures Status(r).verdict == Ready <==> FirstSays(EntriesOf(r), "Accepted", "True")
    ensures Status(r).verdict == Unknown <==> r.body.conditions.Malformed?
  {
    if Is(r, "kagent.dev", "Agent") { DispatchAgent(r); } else { DispatchModelConfig(r); }
    FirstSaysIff(EntriesOf(r), "Accepted", "True");
    hide Status, HasStatus, FirstSays;
    assert EntriesOf(r) == [] ==> !HasStatus(EntriesOf(r), "Accepted", "True") by { NoEntries("Accepted", "True"); }
  }

  // ----- routes -----

  ghost predicate Serving(p: ParentEntry) {
    && p.Parent? && p.conditions.Found?
    && FirstSays(p.conditions.value, "Accepted", "True") && FirstSays(p.conditions.value, "ResolvedRefs", "True")
  }

  ghost predicate Refusing(p: ParentEntry) {
    && p.Parent? && p.conditions.Found?
    && (FirstSays(p.conditions.value, "Accepted", "False") || FirstSays(p.conditions.value, "ResolvedRefs", "False"))
  }

  predicate Broken(p: ParentEntry) {
    p.Parent? && p.conditions.Malformed?
  }

  lemma ParentIff(p: ParentEntry)
    ensures Healthy(p) == Serving(p) && Rejects(p) == Refusing(p)
  {
    if p.Parent? && p.conditions.Found? {
      var es := p.conditions.value;
      FirstSaysIff(es, "Accepted", "True");
      FirstSaysIff(es, "ResolvedRefs", "True");
      FirstSaysIff(es, "Accepted", "False");
      FirstSaysIff(es, "ResolvedRefs", "False");
    }
    hide HasStatus, FirstSays;
  }

  /** A route is Ready exactly when some parent has accepted it and resolved its references, none refuses
      either, and none is malformed; it is an error exactly when its parents cannot be read, or some
      malformed parent comes before every refusing one. */
  lemma HTTPRouteIff(r: Resource)
    requires Is(r, "gateway.networking.k8s.io", "HTTPRoute")
    ensures var ps := if r.body.parents.Found? then r.body.parents.value else [];
            && (Status(r).verdict == Ready <==>
                && (exists i :: 0 <= i < |ps| && Serving(ps[i]))
                && (forall i :: 0 <= i < |ps| ==> !Refusing(ps[i]) && !Broken(ps[i])))
            && (Status(r).verdict == Unknown <==>
                || r.body.parents.Malformed?
                || exists i :: 0 <= i < |ps| && Broken(ps[i]) && forall j :: 0 <= j < i ==> !Refusing(ps[j]))
  {
    DispatchHTTPRoute(r);
    var ps := if r.body.parents.Found? then r.body.parents.value else [];
    forall i | 0 <= i < |ps| ensures Healthy(ps[i]) == Serving(ps[i]) && Rejects(ps[i]) == Refusing(ps[i]) {
      ParentIff(ps[i]);
    }
    hide Status, Healthy, Rejects, Serving, Refusing;
    FirstDecidedMeaning(ps);
    BrokenFirst(ps);
    hide FirstDecided;
  }

  lemma {:induction false} BrokenFirst(ps: seq<ParentEntry>)
    ensures (FirstDecided(ps).Some? && FirstDecided(ps).value.verdict == Unknown) <==>
            exists i :: 0 <= i < |ps| && Broken(ps[i]) && forall j :: 0 <= j < i ==> !Rejects(ps[j])
    ensures FirstDecided(ps).Some? ==> FirstDecided(ps).value.verdict != Ready
  {
    hide Rejects;
    if ps != [] {
      BrokenFirst(ps[1..]);
      assert forall i :: 0 < i < |ps| ==> ps[i] == ps[1..][i - 1];
      if i :| 0 <= i < |ps[1..]| && Broken(ps[1..][i]) && forall j :: 0 <= j < i ==> !Rejects(ps[1..][j]) {
        assert Broken(ps[i + 1]);
      }
      if i :| 0 < i < |ps| && Broken(ps[i]) && forall j :: 0 <= j < i ==> !Rejects(ps[j]) {
        assert Broken(ps[1..][i - 1]) && forall j :: 0 <= j < i - 1 ==> ps[1..][j] == ps[j + 1];
      }
    }
  }

  // ----- the rest of the table -----

  /** The kinds that do not count as workloads, and CronJob: bound; in place; completed or ready; covered at the
      observed generation; not suspended. */
  lemma CoreReadyIff(r: Resource)
    ensures Is(r, "", "PersistentVolumeClaim") ==>
              (Status(r).verdict == Ready <==> r.body.conversion.None? && r.body.phase == Found("Bound"))
    ensures Is(r, "", "Pod") ==>
              (Status(r).verdict == Ready <==>
               && r.body.conversion.None?
               && exists i :: && 0 <= i < |EntriesOf(r)| && EntriesOf(r)[i].Entry? && EntriesOf(r)[i].ctype == "Ready"
                              && (EntriesOf(r)[i].reason == "PodCompleted" || EntriesOf(r)[i].status == "True"))
    ensures Is(r, "policy", "PodDisruptionBudget") ==>
              (Status(r).verdict == Ready <==>
               && r.body.conversion.None? && r.body.observedGeneration == r.body.generation
               && r.body.currentHealthy >= r.body.desiredHealthy)
    ensures Is(r, "batch", "CronJob") ==>
              (Status(r).verdict == Ready <==> r.body.conversion.None? && !r.body.suspend)
  {
    if Is(r, "", "PersistentVolumeClaim") { DispatchPersistentVolumeClaim(r); }
    if Is(r, "", "Pod") { DispatchPod(r); }
    if Is(r, "policy", "PodDisruptionBudget") { DispatchPodDisruptionBudget(r); }
    if Is(r, "batch", "CronJob") { DispatchCronJob(r); }
    var es := EntriesOf(r);
    assert es == Conditions(r.body);
    hide Status, ServiceVerdict;
    if i :| && 0 <= i < |es| && es[i].Entry? && es[i].ctype == "Ready"
            && (es[i].reason == "PodCompleted" || es[i].status == "True") {
      assert Matches(es[i], "Ready");
    }
  }

  predicate AllSpaces(s: string) {
    forall i :: 0 <= i < |s| ==> IsSpace(s[i])
  }

  lemma TrimmedAway(s: string)
    ensures TrimSpace(s) == "" <==> AllSpaces(s)
  {
    var i, j := TrimSpaceCuts(s);
    hide IsSpace;
    if AllSpaces(s) { assert "" + "" + s == s; TrimSpacePadded("", "", s); }
    hide TrimSpace;
  }

  /** A load balancer needs a cluster address and at least one ingress entry, each with an address or a host
      name; any other known type of Service is Ready as soon as it exists. */
  lemma ServiceReadyIff(r: Resource)
    requires Is(r, "", "Service")
    ensures var b := r.body;
            Status(r).verdict == Ready <==>
            && b.conversion.None?
            && (|| b.serviceType == "ClusterIP" || b.serviceType == "NodePort" || b.serviceType == "ExternalName"
                || (&& b.serviceType == "LoadBalancer" && !AllSpaces(b.clusterIP) && b.ingress != []
                    && forall g :: g in b.ingress ==> !AllSpaces(g.ip) || !AllSpaces(g.hostname)))
  {
    DispatchService(r);
    TrimmedAway(r.body.clusterIP);
    IngressTrimmed(r.body.ingress);
    hide Status, TrimSpace, AllSpaces;
  }

  lemma IngressTrimmed(ingress: seq<Ingress>)
    ensures (forall i :: 0 <= i < |ingress| ==>
               TrimSpace(ingress[i].ip) != "" || TrimSpace(ingress[i].hostname) != "") <==>
            (forall g :: g in ingress ==> !AllSpaces(g.ip) || !AllSpaces(g.hostname))
  {
    forall i | 0 <= i < |ingress|
      ensures TrimSpace(ingress[i].ip) == "" <==> AllSpaces(ingress[i].ip)
      ensures TrimSpace(ingress[i].hostname) == "" <==> AllSpaces(ingress[i].hostname)
    {
      TrimmedAway(ingress[i].ip);
      TrimmedAway(ingress[i].hostname);
    }
    hide TrimSpace, AllSpaces;
  }

  /** A Rollout is Ready exactly when it is scaled to zero, or its phase is no failure, nothing says that it is
      unavailable, and the available replicas cover the desired count; it is an error exactly when a field it
      has to read is malformed. */
  lemma RolloutIff(r: Resource)
    requires Is(r, "argoproj.io", "Rollout")
    ensures var b := r.body;
            var desired := if b.specReplicas.Found? then b.specReplicas.value else 1;
            var available := if b.availableReplicas.Found? then b.availableReplicas.value else 0;
            var failed := b.phase == Found("Degraded") || b.phase == Found("Error");
            && (Status(r).verdict == Ready <==>
                && !b.specReplicas.Malformed?
                && (|| desired == 0
                    || (&& !b.phase.Malformed? && !failed && !FirstSays(EntriesOf(r), "Available", "False")
                        && !b.availableReplicas.Malformed? && available >= desired)))
            && (Status(r).error.Some? <==>
                || b.specReplicas.Malformed?
                || (desired != 0 && b.phase.Malformed?)
                || (&& desired != 0 && !failed && !FirstSays(EntriesOf(r), "Available", "False")
                    && b.availableReplicas.Malformed?))
  {
    DispatchRollout(r);
    FirstSaysIff(EntriesOf(r), "Available", "False");
    hide Status, HasStatus, FirstSays;
  }

  /** A typed kind that does not convert is Unknown, with the error of the conversion. */
  lemma ConversionError(r: Resource)
    requires r.body.conversion.Some?
    requires || Is(r, "apps", "Deployment") || Is(r, "apps", "ReplicaSet") || Is(r, "apps", "StatefulSet")
             || Is(r, "apps", "DaemonSet") || Is(r, "", "ReplicationController") || Is(r, "batch", "Job")
             || Is(r, "batch", "CronJob") || Is(r, "", "PersistentVolumeClaim") || Is(r, "", "Service")
             || Is(r, "", "Pod") || Is(r, "policy", "PodDisruptionBudget")
    ensures Status(r) == Outcome(Unknown, r.body.conversion)
  {
    hide Status, Is;
    if Is(r, "apps", "Deployment") { DispatchDeployment(r); }
    if Is(r, "apps", "ReplicaSet") { DispatchReplicaSet(r); }
    if Is(r, "apps", "StatefulSet") { DispatchStatefulSet(r); }
    if Is(r, "apps", "DaemonSet") { DispatchDaemonSet(r); }
    if Is(r, "", "ReplicationController") { DispatchReplicationController(r); }
    if Is(r, "batch", "Job") { DispatchJob(r); }
    if Is(r, "batch", "CronJob") { DispatchCronJob(r); }
    if Is(r, "", "PersistentVolumeClaim") { DispatchPersistentVolumeClaim(r); }
    if Is(r, "", "Service") { DispatchService(r); }
    if Is(r, "", "Pod") { DispatchPod(r); }
    if Is(r, "policy", "PodDisruptionBudget") { DispatchPodDisruptionBudget(r); }
    hide AnyTrue, TrimSpace, JobComplete;
  }

  predicate Plain(r: Resource) {
    GroupKindText(r.group, r.kind) !in
      {"StatefulSet.apps", "Deployment.apps", "ReplicaSet.apps", "DaemonSet.apps", "PersistentVolumeClaim", "Service",
       "Pod", "PodDisruptionBudget.policy", "ReplicationController", "Job.batch", "CronJob.batch",
       "Rollout.argoproj.io", "Gateway.gateway.networking.k8s.io", "HTTPRoute.gateway.networking.k8s.io", "Agent.kagent.dev",
       "ModelConfig.kagent.dev"}
  }

  /** Any other kind is Ready unless its conditions cannot be read, or say Ready=False or InProgress=True. */
  lemma OtherReadyIff(r: Resource)
    requires Plain(r)
    ensures Status(r).verdict == Ready <==>
            && !r.body.conditions.Malformed?
            && !FirstSays(EntriesOf(r), "Ready", "False") && !FirstSays(EntriesOf(r), "InProgress", "True")
    ensures Status(r).verdict == Unknown <==> r.body.conditions.Malformed?
  {
    FirstSaysIff(EntriesOf(r), "Ready", "False");
    FirstSaysIff(EntriesOf(r), "InProgress", "True");
    hide HasStatus, FirstSays, GroupKindText;
  }
}
