/** Dynamic component watches: which kinds are watched, by whom, and whom an event reaches
    (ensureComponentWatches, fetchComponentListResources and applicationsForComponent in
    controllers/application_controller.go). */
module Watches {
  import opened Text
  import opened Readiness
  import Reconcile

  datatype GroupKind = GroupKind(group: string, kind: string)
  datatype GVK = GVK(group: string, version: string, kind: string)

  /** A label selector: whether it converts, and what it then accepts. */
  datatype Selector = Selector(valid: bool, accepts: map<string, string> -> bool)

  datatype Application = Application(namespace: string, name: string, kinds: seq<GroupKind>, selector: Option<Selector>)

  predicate StartsWithVersion(gv: string) {
    |gv| >= 2 && (gv[0] == 'v' || gv[0] == 'V') && '0' <= gv[1] <= '9'
  }

  /** A group with an optional version suffix, or a bare version for the core group. */
  function StripVersion(gv: string): string {
    if gv == "" || StartsWithVersion(gv) then "" else Split(gv, '/')[0]
  }

  /** A group is kept, with or without a version behind it; a bare version, v or V and a digit, is the core
      group. */
  lemma StripVersionGroup(g: string, version: string)
    requires Without(g, '/') && !(|g| >= 2 && (g[0] == 'v' || g[0] == 'V') && '0' <= g[1] <= '9')
    ensures StripVersion(g) == g && StripVersion(g + "/" + version) == g
    ensures |version| >= 2 && (version[0] == 'v' || version[0] == 'V') && '0' <= version[1] <= '9' ==>
              StripVersion(version) == ""
  {
    assert FirstIndex(g, '/') == |g|;
    var gv := g + "/" + version;
    assert gv[..|g|] == g && gv[|g|] == '/';
    FirstIndexIs(gv, '/', |g|);
  }

  /** The result is a bare group, so stripping again changes nothing. */
  lemma StripVersionStable(gv: string)
    ensures Without(StripVersion(gv), '/') && !StartsWithVersion(StripVersion(gv))
    ensures StripVersion(StripVersion(gv)) == StripVersion(gv)
  {
    StripVersionGroup(StripVersion(gv), "");
  }

  type Mapper = map<GroupKind, GVK>

  /** A REST mapping answers with the kind it was asked for. */
  ghost predicate KeepsKind(m: Mapper) {
    forall gk :: gk in m ==> m[gk].kind == gk.kind
  }

  function Stripped(gk: GroupKind): GroupKind {
    GroupKind(StripVersion(gk.group), gk.kind)
  }

  function KindOf(r: Resource): GVK {
    GVK(r.group, r.version, r.kind)
  }

  predicate Selects(app: Application, r: Resource) {
    && app.namespace == r.namespace
    && app.selector.Some? && app.selector.value.valid && app.selector.value.accepts(r.labels)
  }

  /** The kinds that ensureComponentWatches goes through, in order. */
  function Targets(kinds: seq<GroupKind>, m: Mapper): (ts: seq<GVK>)
    ensures forall t :: t in ts <==>
              exists i :: && 0 <= i < |kinds| && kinds[i].kind in Reconcile.WORKLOAD_KINDS && Stripped(kinds[i]) in m
                          && m[Stripped(kinds[i])] == t
  {
    if kinds == [] then []
    else
      var n := |kinds| - 1;
      var ts := Targets(kinds[..n], m);
      var gk := Stripped(kinds[n]);
      assert forall i :: 0 <= i < n ==> kinds[..n][i] == kinds[i];
      if kinds[n].kind in Reconcile.WORKLOAD_KINDS && gk in m then ts + [m[gk]] else ts
  }

  // ----- what an Application lists -----

  ghost predicate Lists(app: Application, m: Mapper, failing: set<GVK>, k: nat, r: Resource) {
    && Selects(app, r)
    && KindOf(r) !in failing
    && exists i :: 0 <= i < k <= |app.kinds| && Stripped(app.kinds[i]) in m && m[Stripped(app.kinds[i])] == KindOf(r)
  }

  method ListKind(cluster: seq<Resource>, gvk: GVK, app: Application) returns (items: seq<Resource>)
    ensures forall r :: r in items <==> r in cluster && KindOf(r) == gvk && Selects(app, r)
  {
    items := [];
    for i := 0 to |cluster|
      invariant forall r :: r in items <==> r in cluster[..i] && KindOf(r) == gvk && Selects(app, r)
    {
      assert cluster[..i + 1] == cluster[..i] + [cluster[i]];
      if KindOf(cluster[i]) == gvk && Selects(app, cluster[i]) {
        items := items + [cluster[i]];
      }
    }
    assert cluster[..|cluster|] == cluster;
  }

  /** The listed components: those of the namespace that the full selector accepts, of a mapped declared
      kind whose List call succeeds. An unmapped kind is skipped without an error. */
  method FetchComponents(app: Application, m: Mapper, cluster: seq<Resource>, failing: set<GVK>)
    returns (rs: seq<Resource>, errors: nat)
    ensures forall r :: r in rs <==> r in cluster && Lists(app, m, failing, |app.kinds|, r)
    ensures forall r :: r in rs ==>
              && r.namespace == app.namespace
              && app.selector.Some? && app.selector.value.valid && app.selector.value.accepts(r.labels)
    ensures app.selector.Some? && !app.selector.value.valid ==> rs == [] && errors == 1
    ensures app.selector.None? ==> rs == [] && errors == 0
    ensures app.selector.Some? && app.selector.value.valid ==>
              (errors == 0 <==>
               forall gk :: gk in app.kinds && Stripped(gk) in m ==> m[Stripped(gk)] !in failing)
  {
    rs, errors := [], 0;
    if app.selector.None? {
      return;
    }
    if !app.selector.value.valid {
      errors := 1;
      return;
    }
    for k := 0 to |app.kinds|
      invariant forall r :: r in rs <==> r in cluster && Lists(app, m, failing, k, r)
      invariant errors == 0 <==>
                forall i :: 0 <= i < k && Stripped(app.kinds[i]) in m ==> m[Stripped(app.kinds[i])] !in failing
    {
      ghost var before := rs;
      var gk := Stripped(app.kinds[k]);
      assert forall r :: Lists(app, m, failing, k + 1, r) <==>
          Lists(app, m, failing, k, r) || (Selects(app, r) && gk in m && m[gk] == KindOf(r) && KindOf(r) !in failing);
      if gk !in m {
        continue;
      }
      if m[gk] in failing {
        errors := errors + 1;
        continue;
      }
      var items := ListKind(cluster, m[gk], app);
      rs := rs + items;
    }
  }

  /** The same kind, with or without a version behind its group. */
  ghost predicate Versioned(gk: GroupKind, versioned: GroupKind) {
    && versioned.kind == gk.kind && Without(gk.group, '/')
    && !(|gk.group| >= 2 && (gk.group[0] == 'v' || gk.group[0] == 'V') && '0' <= gk.group[1] <= '9')
    && exists v: string :: versioned.group == gk.group || versioned.group == gk.group + "/" + v
  }

  lemma VersionedSame(gk: GroupKind, versioned: GroupKind)
    requires Versioned(gk, versioned)
    ensures Stripped(versioned) == gk == Stripped(gk)
  {
    var v: string :| versioned.group == gk.group || versioned.group == gk.group + "/" + v;
    StripVersionGroup(gk.group, v);
    hide StripVersion;
  }

  /** A version in a declared kind's group changes neither what is listed nor what is watched: both go by the
      plain group and kind. */
  lemma VersionIgnored(app: Application, kinds: seq<GroupKind>, m: Mapper, failing: set<GVK>, r: Resource, t: GVK)
    requires |kinds| == |app.kinds| && forall i :: 0 <= i < |kinds| ==> Versioned(kinds[i], app.kinds[i])
    ensures Lists(app, m, failing, |app.kinds|, r) <==>
            && Selects(app, r) && KindOf(r) !in failing
            && exists gk :: gk in kinds && gk in m && m[gk] == KindOf(r)
    ensures t in Targets(app.kinds, m) <==>
            exists gk :: gk in kinds && gk.kind in Reconcile.WORKLOAD_KINDS && gk in m && m[gk] == t
  {
    forall i | 0 <= i < |kinds| ensures Stripped(app.kinds[i]) == kinds[i] && app.kinds[i].kind == kinds[i].kind {
      VersionedSame(kinds[i], app.kinds[i]);
    }
    hide Versioned, Stripped, Selects, KindOf;
    forall gk | gk in kinds ensures exists i :: 0 <= i < |kinds| && kinds[i] == gk && Stripped(app.kinds[i]) == gk {}
  }

  // ----- whom an event reaches -----

  datatype Request = Request(namespace: string, name: string)

  /** A request for an Application of the component's namespace whose selector is valid and accepts its
      labels. */
  predicate Requested(apps: seq<Application>, r: Resource, q: Request) {
    exists i :: && 0 <= i < |apps| && q == Request(apps[i].namespace, apps[i].name)
                && apps[i].namespace == r.namespace
                && apps[i].selector.Some? && apps[i].selector.value.valid && apps[i].selector.value.accepts(r.labels)
  }

  method ApplicationsForComponent(apps: seq<Application>, r: Resource) returns (reqs: seq<Request>)
    ensures forall q :: q in reqs <==> Requested(apps, r, q)
  {
    reqs := [];
    for k := 0 to |apps|
      invariant forall q :: q in reqs <==>
                exists i :: 0 <= i < k && Selects(apps[i], r) && q == Request(apps[i].namespace, apps[i].name)
    {
      ghost var before := reqs;
      if apps[k].namespace == r.namespace {
        if apps[k].selector.None? || !apps[k].selector.value.valid {
          continue;
        }
        if apps[k].selector.value.accepts(r.labels) {
          reqs := reqs + [Request(apps[k].namespace, apps[k].name)];
        }
      }
    }
  }

  /** Every workload component that an Application lists is of a kind it makes sure is watched, and an
      event on it requests the Application from whatever list holds it. */
  lemma ListedIsTriggered(app: Application, m: Mapper, failing: set<GVK>, r: Resource)
    requires KeepsKind(m) && Lists(app, m, failing, |app.kinds|, r) && r.kind in Reconcile.WORKLOAD_KINDS
    ensures KindOf(r) in Targets(app.kinds, m)
    ensures forall apps :: app in apps ==> Requested(apps, r, Request(app.namespace, app.name))
  {
    var i :| 0 <= i < |app.kinds| && Stripped(app.kinds[i]) in m && m[Stripped(app.kinds[i])] == KindOf(r);
    assert app.kinds[i].kind == r.kind;
  }

  // ----- the claim protocol -----

  /** Where a reconciler is: looking at targets[next], holding the claim on it, or about to roll it back. */
  datatype Phase = Scan | Claimed | Failed

  datatype Thread = Thread(targets: seq<GVK>, next: nat, phase: Phase)

  /** The shared map, the reconcilers, and the history of successful Watch calls. */
  datatype State = State(kinds: set<GVK>, threads: map<nat, Thread>, watched: multiset<GVK>)

  predicate Holds(s: State, t: nat, g: GVK) {
    && t in s.threads && s.threads[t].phase != Scan && s.threads[t].next < |s.threads[t].targets|
    && s.threads[t].targets[s.threads[t].next] == g
  }

  datatype Step =
    | Begin(t: nat, targets: seq<GVK>)   // a reconciler enters the loop; t is fresh or done
    | LoadOrStore(t: nat)                // the atomic claim
    | WatchOk(t: nat)
    | WatchFails(t: nat)
    | RollBack(t: nat)                   // Delete, a separate step after the failure

  predicate AtTarget(s: State, t: nat, ph: Phase) {
    t in s.threads && s.threads[t].phase == ph && s.threads[t].next < |s.threads[t].targets|
  }

  predicate Enabled(s: State, a: Step) {
    match a
    case Begin(t, _) => t in s.threads ==> s.threads[t].phase == Scan && s.threads[t].next >= |s.threads[t].targets|
    case LoadOrStore(t) => AtTarget(s, t, Scan)
    case WatchOk(t) => AtTarget(s, t, Claimed)
    case WatchFails(t) => AtTarget(s, t, Claimed)
    case RollBack(t) => AtTarget(s, t, Failed)
  }

  function Apply(s: State, a: Step): State
    requires Enabled(s, a)
  {
    match a
    case Begin(t, targets) => s.(threads := s.threads[t := Thread(targets, 0, Scan)])
    case LoadOrStore(t) =>
      var th := s.threads[t];
      var g := th.targets[th.next];
      if g in s.kinds then s.(threads := s.threads[t := th.(next := th.next + 1)])
      else s.(kinds := s.kinds + {g}, threads := s.threads[t := th.(phase := Claimed)])
    case WatchOk(t) =>
      var th := s.threads[t];
      s.(watched := s.watched + multiset{th.targets[th.next]},
         threads := s.threads[t := th.(next := th.next + 1, phase := Scan)])
    case WatchFails(t) =>
      var th := s.threads[t];
      s.(threads := s.threads[t := th.(phase := Failed)])
    case RollBack(t) =>
      var th := s.threads[t];
      s.(kinds := s.kinds - {th.targets[th.next]}, threads := s.threads[t := th.(next := th.next + 1, phase := Scan)])
  }

  const START := State({}, map[], multiset{})

  /** Any interleaving of any number of reconcilers. */
  ghost predicate Execution(tr: seq<State>, steps: seq<Step>) {
    && |tr| == |steps| + 1 && tr[0] == START
    && forall i :: 0 <= i < |steps| ==> Enabled(tr[i], steps[i]) && tr[i + 1] == Apply(tr[i], steps[i])
  }

  /** The claim on an entry is exclusive, entries are claimed or watched but not both, and nothing is
      watched twice. */
  ghost predicate Exclusive(s: State) {
    && (forall g :: s.watched[g] <= 1)
    && (forall g :: g in s.watched ==> g in s.kinds)
    && (forall t, g :: Holds(s, t, g) ==> g in s.kinds && g !in s.watched)
    && (forall t, u, g :: Holds(s, t, g) && Holds(s, u, g) ==> t == u)
    && (forall g :: g in s.kinds && g !in s.watched ==> exists t :: Holds(s, t, g))
  }

  /** The target an enabled step of a running reconciler works on. */
  function Target(s: State, a: Step): GVK
    requires Enabled(s, a) && !a.Begin?
  {
    s.threads[a.t].targets[s.threads[a.t].next]
  }

  /** How a step moves the claims. */
  lemma ClaimsAfter(s: State, a: Step)
    requires Enabled(s, a)
    ensures a.Begin? || a.WatchFails? ==> forall u, g :: Holds(Apply(s, a), u, g) == Holds(s, u, g)
    ensures a.LoadOrStore? ==> forall u, g ::
            Holds(Apply(s, a), u, g) == (Holds(s, u, g) || (u == a.t && g == Target(s, a) && g !in s.kinds))
    ensures a.WatchOk? || a.RollBack? ==> forall u, g :: Holds(Apply(s, a), u, g) == (Holds(s, u, g) && u != a.t)
    ensures a.WatchOk? || a.WatchFails? || a.RollBack? ==>
            Holds(s, a.t, Target(s, a)) && forall g :: Holds(s, a.t, g) ==> g == Target(s, a)
  {
  }

  lemma ExclusiveStep(s: State, a: Step)
    requires Exclusive(s) && Enabled(s, a)
    ensures Exclusive(Apply(s, a))
  {
    ClaimsAfter(s, a);
    hide Holds;
    var s' := Apply(s, a);
    forall g | g in s'.kinds && g !in s'.watched ensures exists u :: Holds(s', u, g) {
      if g in s.kinds {
        var u :| Holds(s, u, g);
        assert Holds(s', u, g);
      } else {
        assert Holds(s', a.t, g);
      }
    }
  }

  lemma {:induction false} InvAlways(tr: seq<State>, steps: seq<Step>, i: nat)
    requires Execution(tr, steps) && i < |tr|
    ensures Exclusive(tr[i])
  {
    if i > 0 {
      InvAlways(tr, steps, i - 1);
      ExclusiveStep(tr[i - 1], steps[i - 1]);
    }
  }

  /** At most one watch per kind, under every interleaving and every pattern of failures; a kind in the
      map that is not watched yet is claimed by exactly one reconciler. */
  lemma OneWatchPerKind(tr: seq<State>, steps: seq<Step>, i: nat, g: GVK)
    requires Execution(tr, steps) && i < |tr|
    ensures tr[i].watched[g] <= 1
    ensures g in tr[i].kinds <==> (g in tr[i].watched || exists t :: Holds(tr[i], t, g))
    ensures g in tr[i].watched ==> forall t :: !Holds(tr[i], t, g)
    ensures forall t, u :: Holds(tr[i], t, g) && Holds(tr[i], u, g) ==> t == u
  {
    InvAlways(tr, steps, i);
  }

  /** A watched kind stays watched and stays in the map. */
  lemma {:induction false} WatchedForever(tr: seq<State>, steps: seq<Step>, i: nat, j: nat, g: GVK)
    requires Execution(tr, steps) && i <= j < |tr| && g in tr[i].watched
    ensures g in tr[j].watched && g in tr[j].kinds
    decreases j
  {
    InvAlways(tr, steps, j);
    if i < j {
      WatchedForever(tr, steps, i, j - 1, g);
      assert tr[j] == Apply(tr[j - 1], steps[j - 1]);
    }
  }

  // ----- trigger completeness -----

  /** The step takes reconciler t past its target j. */
  predicate Passes(s: State, a: Step, t: nat, j: nat) {
    && Enabled(s, a) && !a.Begin? && a.t == t && s.threads[t].next == j
    && t in Apply(s, a).threads && Apply(s, a).threads[t].next == j + 1
  }

  predicate RollsBack(s: State, a: Step, g: GVK) {
    Enabled(s, a) && a.RollBack? && Target(s, a) == g
  }

  predicate Claims(s: State, a: Step, g: GVK) {
    Enabled(s, a) && a.LoadOrStore? && Target(s, a) == g
  }

  /** Some roll-back of the kind at or after step p was not followed by a claim. */
  ghost predicate Abandoned(tr: seq<State>, steps: seq<Step>, p: nat, i: nat, g: GVK)
    requires i <= |steps| < |tr|
  {
    exists k :: p <= k < i && RollsBack(tr[k], steps[k], g) && forall l :: k < l < i ==> !Claims(tr[l], steps[l], g)
  }

  lemma PassStep(s: State, a: Step, t: nat, j: nat)
    requires Enabled(s, a) && t in Apply(s, a).threads && j < Apply(s, a).threads[t].next
    ensures t in s.threads && s.threads[t].targets == Apply(s, a).threads[t].targets && !(a.Begin? && a.t == t)
    ensures !Passes(s, a, t, j) ==> j < s.threads[t].next
  {
  }

  /** A target that a reconciler is past was passed in the same round of its loop. */
  lemma {:induction false} PassedAt(tr: seq<State>, steps: seq<Step>, i: nat, t: nat, j: nat) returns (p: nat)
    requires Execution(tr, steps) && i < |tr| && t in tr[i].threads && j < tr[i].threads[t].next
    ensures p < i && Passes(tr[p], steps[p], t, j) && tr[p].threads[t].targets == tr[i].threads[t].targets
    ensures forall l :: p < l < i ==> !(steps[l].Begin? && steps[l].t == t)
  {
    assert Enabled(tr[i - 1], steps[i - 1]) && tr[i] == Apply(tr[i - 1], steps[i - 1]);
    PassStep(tr[i - 1], steps[i - 1], t, j);
    hide Passes, Apply, Enabled;
    if Passes(tr[i - 1], steps[i - 1], t, j) {
      p := i - 1;
    } else {
      p := PassedAt(tr, steps, i - 1, t, j);
    }
  }

  /** Right after a pass the kind is in the map, unless the pass was the reconciler's own roll-back. */
  lemma PassLeaves(s: State, a: Step, t: nat, j: nat)
    requires Exclusive(s) && Passes(s, a, t, j)
    ensures RollsBack(s, a, Target(s, a)) <==> Target(s, a) !in Apply(s, a).kinds
  {
    assert a.WatchOk? ==> Holds(s, t, Target(s, a));
  }

  lemma AbandonedStep(tr: seq<State>, steps: seq<Step>, p: nat, i: nat, g: GVK)
    requires p < i <= |steps| < |tr|
    ensures Abandoned(tr, steps, p, i, g) <==>
            || RollsBack(tr[i - 1], steps[i - 1], g)
            || (Abandoned(tr, steps, p, i - 1, g) && !Claims(tr[i - 1], steps[i - 1], g))
  {
    hide RollsBack, Claims;
    if Abandoned(tr, steps, p, i - 1, g) && !Claims(tr[i - 1], steps[i - 1], g) {
      var k :| && p <= k < i - 1 && RollsBack(tr[k], steps[k], g)
               && forall l :: k < l < i - 1 ==> !Claims(tr[l], steps[l], g);
      assert forall l :: k < l < i ==> !Claims(tr[l], steps[l], g);
    }
  }

  lemma {:induction false} InMapIff(tr: seq<State>, steps: seq<Step>, p: nat, i: nat, g: GVK)
    requires Execution(tr, steps) && p < i < |tr|
    requires RollsBack(tr[p], steps[p], g) <==> g !in tr[p + 1].kinds
    ensures g !in tr[i].kinds <==> Abandoned(tr, steps, p, i, g)
    decreases i
  {
    AbandonedStep(tr, steps, p, i, g);
    assert tr[i] == Apply(tr[i - 1], steps[i - 1]);
    hide Abandoned, RollsBack, Claims, Apply;
    if i > p + 1 {
      InMapIff(tr, steps, p, i - 1, g);
      InMapStep(tr[i - 1], steps[i - 1], g);
    } else {
      assert !Abandoned(tr, steps, p, p, g) by { NeverAbandoned(tr, steps, p, g); }
    }
  }

  lemma NeverAbandoned(tr: seq<State>, steps: seq<Step>, p: nat, g: GVK)
    requires p <= |steps| < |tr|
    ensures !Abandoned(tr, steps, p, p, g)
  {
  }

  lemma InMapStep(s: State, a: Step, g: GVK)
    requires Enabled(s, a)
    ensures g !in Apply(s, a).kinds <==> RollsBack(s, a, g) || (g !in s.kinds && !Claims(s, a, g))
  {
  }

  /** Trigger completeness: once a reconciler has gone through an Application's kinds, every workload
      component the Application lists was passed at some step of that round, and its kind is claimed or
      watched exactly when no claim on it was rolled back at or after that step without a later claim. An
      event on the component requests the Application. */
  lemma TriggerComplete(tr: seq<State>, steps: seq<Step>, i: nat, t: nat, app: Application, m: Mapper,
                        failing: set<GVK>, r: Resource)
    returns (p: nat)
    requires Execution(tr, steps) && i < |tr|
    requires t in tr[i].threads && tr[i].threads[t].targets == Targets(app.kinds, m)
    requires tr[i].threads[t].next == |tr[i].threads[t].targets|
    requires KeepsKind(m) && Lists(app, m, failing, |app.kinds|, r) && r.kind in Reconcile.WORKLOAD_KINDS
    ensures p < i && !steps[p].Begin? && steps[p].t == t && Enabled(tr[p], steps[p])
            && Target(tr[p], steps[p]) == KindOf(r)
    ensures forall l :: p < l < i ==> !(steps[l].Begin? && steps[l].t == t)
    ensures (KindOf(r) in tr[i].watched || exists u :: Holds(tr[i], u, KindOf(r))) <==>
            !Abandoned(tr, steps, p, i, KindOf(r))
    ensures forall apps :: app in apps ==> Requested(apps, r, Request(app.namespace, app.name))
  {
    ListedIsTriggered(app, m, failing, r);
    var j :| 0 <= j < |tr[i].threads[t].targets| && tr[i].threads[t].targets[j] == KindOf(r);
    p := PassedAt(tr, steps, i, t, j);
    InvAlways(tr, steps, p);
    PassLeaves(tr[p], steps[p], t, j);
    InMapIff(tr, steps, p, i, KindOf(r));
    OneWatchPerKind(tr, steps, i, KindOf(r));
    hide Abandoned, Holds, Requested, Lists;
  }

  lemma Extend(tr: seq<State>, steps: seq<Step>, a: Step) returns (tr': seq<State>, steps': seq<Step>)
    requires Execution(tr, steps) && Enabled(tr[|tr| - 1], a)
    ensures Execution(tr', steps') && steps' == steps + [a] && tr'[|tr'| - 1] == Apply(tr[|tr| - 1], a)
  {
    hide Enabled, Apply;
    tr', steps' := tr + [Apply(tr[|tr| - 1], a)], steps + [a];
  }

  /** A failed watch is not the end: after the roll-back the next round claims the kind again and watches it. */
  lemma RetryWatches(g: GVK) returns (tr: seq<State>, steps: seq<Step>)
    ensures Execution(tr, steps) && WatchFails(0) in steps && g in tr[|tr| - 1].watched && g in tr[|tr| - 1].kinds
  {
    hide Execution;
    tr, steps := FailedOnce(g);
    tr, steps := Extend(tr, steps, Begin(0, [g]));
    tr, steps := Extend(tr, steps, LoadOrStore(0));
    tr, steps := Extend(tr, steps, WatchOk(0));
  }

  lemma FailedOnce(g: GVK) returns (tr: seq<State>, steps: seq<Step>)
    ensures Execution(tr, steps) && steps == [Begin(0, [g]), LoadOrStore(0), WatchFails(0), RollBack(0)]
    ensures tr[|tr| - 1] == State({}, map[0 := Thread([g], 1, Scan)], multiset{})
  {
    tr, steps := [START], [];
    assert Execution(tr, steps);
    hide Execution;
    tr, steps := Extend(tr, steps, Begin(0, [g]));
    tr, steps := Extend(tr, steps, LoadOrStore(0));
    tr, steps := Extend(tr, steps, WatchFails(0));
    tr, steps := Extend(tr, steps, RollBack(0));
  }

  /** The exception is real: a reconciler can pass a kind that another one has claimed and then fails to
      watch. Both have finished, and nobody watches the kind until a later reconcile retries. */
  lemma PassedThenRolledBack(g: GVK)
    ensures exists tr: seq<State>, steps: seq<Step> ::
              && Execution(tr, steps)
              && var s: State := tr[|tr| - 1];
                 && s.threads.Keys == {0, 1} && (forall t :: t in s.threads ==> s.threads[t] == Thread([g], 1, Scan))
                 && g !in s.kinds
  {
    var a, b := Thread([g], 0, Scan), Thread([g], 1, Scan);
    var steps := [Begin(0, [g]), Begin(1, [g]), LoadOrStore(0), LoadOrStore(1), WatchFails(0), RollBack(0)];
    var s1 := Apply(START, steps[0]);
    var s2 := Apply(s1, steps[1]);
    var s3 := Apply(s2, steps[2]);
    var s4 := Apply(s3, steps[3]);
    var s5 := Apply(s4, steps[4]);
    var s6 := Apply(s5, steps[5]);
    assert s6.threads == map[0 := b, 1 := b];
    var tr := [START, s1, s2, s3, s4, s5, s6];
    assert Execution(tr, steps);
    assert tr[|tr| - 1] == s6;
  }
}
