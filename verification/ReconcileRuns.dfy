/** Whole runs of reconciles of one Application: stored-status invariant, flap rate, holding, quiescence. */
module ReconcileRuns {
  import opened Text
  import opened Conditions
  import opened Ordering
  import opened Reconcile
  import Kinds
  import Readiness

  /** One reconcile: what it saw, when, and whether a write it attempted succeeded. */
  datatype Event = Event(view: View, clock: Clock, writeOk: bool)

  /** One reconcile at a time, under a clock that never goes back. */
  ghost predicate Run(evs: seq<Event>) {
    && (forall i :: 0 <= i < |evs| ==> Ticks(evs[i].clock))
    && (forall i, j :: 0 <= i < j < |evs| ==> evs[i].clock.write <= evs[j].clock.ready)
  }

  /** The stored status after a run. */
  function After(p: int, s0: AppStatus, evs: seq<Event>): AppStatus {
    if evs == [] then s0
    else
      var e := evs[|evs| - 1];
      Next(p, After(p, s0, evs[..|evs| - 1]), e.view, e.clock, e.writeOk)
  }

  lemma AfterStep(p: int, s0: AppStatus, evs: seq<Event>, i: nat)
    requires i < |evs|
    ensures After(p, s0, evs[..i + 1]) == Next(p, After(p, s0, evs[..i]), evs[i].view, evs[i].clock, evs[i].writeOk)
  {
    assert evs[..i + 1][..i] == evs[..i];
  }

  function ReadyOf(s: AppStatus): Option<Condition> { Find(s.conditions, READY) }
  function ErrorOf(s: AppStatus): Option<Condition> { Find(s.conditions, ERROR) }

  predicate IsReady(s: AppStatus) { ReadyOf(s).Some? && ReadyOf(s).value.status == True }

  // ----- one step -----

  /** The guard of the stabilization, read off the unique Ready condition. */
  lemma GuardMeaning(cs: seq<Condition>)
    requires Unique(cs)
    ensures SaysReady(cs) <==> (Find(cs, READY).Some? && Find(cs, READY).value.status == True)
    ensures FirstNotReady(cs) ==
            (if Find(cs, READY).Some? && Find(cs, READY).value.status != True then Find(cs, READY) else None)
  {
    if FirstNotReady(cs).Some? {
      var i :| 0 <= i < |cs| && cs[i] == FirstNotReady(cs).value;
      FindIs(cs, i);
    }
    if i :| 0 <= i < |cs| && cs[i].ctype == READY && cs[i].status == True {
      FindIs(cs, i);
    }
  }

  /** The conditions a write would store. */
  lemma NewConditionsMeaning(s: AppStatus, v: View, c: Clock)
    requires Unique(s.conditions)
    ensures var n := NewStatus(s, v, c);
            && Unique(n.conditions)
            && ReadyOf(n) == Find(SetCondition(s.conditions, READY, ReadyRequest(v), c.ready), READY)
            && ErrorOf(n).Some? && Same(ErrorOf(n).value, ErrorRequest(v))
            && ReadyOf(n).Some? && Same(ReadyOf(n).value, ReadyRequest(v))
            && Timed(ReadyOf(s), ReadyOf(n).value, c.ready)
            && Timed(ErrorOf(s), ErrorOf(n).value, c.error)
            && (forall t :: t != READY && t != ERROR ==> Find(n.conditions, t) == Find(s.conditions, t))
  {
    var mid := SetCondition(s.conditions, READY, ReadyRequest(v), c.ready);
    SetConditionMeaning(s.conditions, READY, ReadyRequest(v), c.ready);
    SetConditionMeaning(mid, ERROR, ErrorRequest(v), c.error);
  }

  /** Timestamps of a condition after an edit at `now`. */
  ghost predicate Timed(before: Option<Condition>, after: Condition, now: int) {
    && (before.Some? && before.value.status == after.status ==> after.lastTransition == before.value.lastTransition)
    && (before.None? || before.value.status != after.status ==> after.lastTransition == now == after.lastUpdate)
    && (Some(after) != before ==> after.lastUpdate == now)
  }

  /** A decision in terms of the stored Ready condition and the clock alone. */
  lemma DecideMeaning(p: int, s: AppStatus, v: View, c: Clock)
    requires Unique(s.conditions)
    ensures var d := Decide(p, s, v, c);
            && (d.Hold? <==> && p > 0 && ReadyRequest(v).status == True
                             && ReadyOf(s).Some? && ReadyOf(s).value.status != True
                             && c.check < ReadyOf(s).value.lastTransition + p)
            && (d.Hold? ==> c.check + d.requeue == ReadyOf(s).value.lastTransition + p)
            && (d.Write? ==> d.status == NewStatus(s, v, c))
            && (d.Unchanged? <==> NewStatus(s, v, c) == s)
  {
    NewConditionsMeaning(s, v, c);
    GuardMeaning(s.conditions);
    GuardMeaning(NewStatus(s, v, c).conditions);
  }

  /** One event on the stored status: nothing, or a write of the new status; a write that makes Ready true
      has waited out the period. */
  lemma StepMeaning(p: int, s: AppStatus, e: Event)
    requires Unique(s.conditions)
    ensures var s' := Next(p, s, e.view, e.clock, e.writeOk);
            && Unique(s'.conditions)
            && (s' == s || s' == NewStatus(s, e.view, e.clock))
            && (s' != s ==> ReadyOf(s').Some? && Same(ReadyOf(s').value, ReadyRequest(e.view))
                            && Timed(ReadyOf(s), ReadyOf(s').value, e.clock.ready))
            && (p > 0 && IsReady(s') && !IsReady(s) && ReadyOf(s).Some? ==>
                  e.clock.check >= ReadyOf(s).value.lastTransition + p)
  {
    NewConditionsMeaning(s, e.view, e.clock);
    DecideMeaning(p, s, e.view, e.clock);
  }

  /** The readiness a view stands for. */
  predicate Seen(v: View, status: CondStatus) {
    match status
    case Unknown => v.errs != []
    case True => v.errs == [] && forall o :: o in v.objects && o.kind in WORKLOAD_KINDS ==> o.status == Readiness.Ready
    case False => v.errs == [] && exists o :: o in v.objects && o.kind in WORKLOAD_KINDS && o.status != Readiness.Ready
  }

  function ReasonFor(status: CondStatus): string {
    match status
    case True => "ComponentsReady"
    case False => "ComponentsNotReady"
    case Unknown => "ComponentsReadyUnknown"
  }

  /** What is stored after a reconcile whose write, if it makes one, succeeds, whatever was stored before: all
      of what it saw, unless it held a recovery back, and then what was stored. */
  lemma SeenIsStored(p: int, s: AppStatus, v: View, c: Clock)
    requires Unique(s.conditions)
    ensures Next(p, s, v, c, false) == s
    ensures var s', held := Next(p, s, v, c, true), Decide(p, s, v, c).Hold?;
            && (held ==> s' == s && Seen(v, True))
            && (!held ==>
                  && ReadyOf(s').Some? && Seen(v, ReadyOf(s').value.status)
                  && ReadyOf(s').value.reason == ReasonFor(ReadyOf(s').value.status)
                  && ErrorOf(s').Some? && ErrorOf(s').value.status == (if v.errs != [] then True else False)
                  && (v.errs != [] ==> ErrorOf(s').value.message == AggregateText(v.errs))
                  && s'.components == v.objects && s'.observedGeneration == v.generation)
  {
    NewConditionsMeaning(s, v, c);
    DecideMeaning(p, s, v, c);
    hide AggregateText;
  }

  /** A loss of readiness is stored at once, with or without a period, also from Ready=True. */
  lemma LossIsStored(p: int, s: AppStatus, v: View, c: Clock)
    requires Unique(s.conditions) && !Seen(v, True)
    ensures var s' := Next(p, s, v, c, true);
            ReadyOf(s').Some? && ReadyOf(s').value.status == if v.errs != [] then Unknown else False
  {
    SeenIsStored(p, s, v, c);
    hide Next, Decide;
  }

  lemma {:induction false} UniqueAlways(p: int, s0: AppStatus, evs: seq<Event>)
    requires Unique(s0.conditions)
    ensures Unique(After(p, s0, evs).conditions)
  {
    if evs != [] {
      UniqueAlways(p, s0, evs[..|evs| - 1]);
      StepMeaning(p, After(p, s0, evs[..|evs| - 1]), evs[|evs| - 1]);
    }
  }

  /** Over every run: after a reconcile whose write succeeded, the stored Ready status is what it saw, unless
      it held back a recovery. */
  lemma SeenIsStoredAlways(p: int, s0: AppStatus, evs: seq<Event>, e: Event)
    requires Unique(s0.conditions) && e.writeOk
    ensures var s, s' := After(p, s0, evs), After(p, s0, evs + [e]);
            if Decide(p, s, e.view, e.clock).Hold? then s' == s && !IsReady(s) && Seen(e.view, True)
            else ReadyOf(s').Some? && Seen(e.view, ReadyOf(s').value.status) && s'.components == e.view.objects
  {
    assert (evs + [e])[..|evs|] == evs;
    UniqueAlways(p, s0, evs);
    SeenIsStored(p, After(p, s0, evs), e.view, e.clock);
    DecideMeaning(p, After(p, s0, evs), e.view, e.clock);
    hide Next, Decide, Seen;
  }

  /** An errored reconcile that finds nothing to write comes back after thirty seconds; an error-free one asks
      for nothing. */
  lemma RestRequeue(p: int, s: AppStatus, v: View, c: Clock)
    requires Decide(p, s, v, c).Unchanged?
    ensures Decide(p, s, v, c).requeue == if v.errs != [] then 30_000_000_000 else 0
  {
  }

  // ----- the stored-status invariant -----

  /** The coupling of every status a reconcile has written. */
  ghost predicate Coupled(s: AppStatus) {
    && Unique(s.conditions)
    && ReadyOf(s).Some? && ErrorOf(s).Some?
    && (ReadyOf(s).value.status == Unknown <==> ErrorOf(s).value.status == True)
    && (ReadyOf(s).value.status == True <==> ErrorOf(s).value.status == False && AllWorkloadsReady(s.components))
    && s.componentsReady == Ratio(CountReady(s.components), |s.components|)
    && (ReadyOf(s).value.status == False ==>
          var ready, total := CountReady(Workloads(s.components)), |Workloads(s.components)|;
          ready < total && ReadyOf(s).value.message == Ratio(ready, total) + " workloads not ready")
  }

  ghost predicate Stamped(c: Condition) { c.lastTransition <= c.lastUpdate }

  /** The clock read of the last event whose write changed the status of a condition (or created it). */
  function LastChange(p: int, s0: AppStatus, evs: seq<Event>, ctype: string): Option<int> {
    if evs == [] then None
    else
      var e := evs[|evs| - 1];
      var s := After(p, s0, evs[..|evs| - 1]);
      var before, after := Find(s.conditions, ctype), Find(After(p, s0, evs).conditions, ctype);
      if after.Some? && (before.None? || before.value.status != after.value.status)
      then Some(ReadAt(e.clock, ctype))
      else LastChange(p, s0, evs[..|evs| - 1], ctype)
  }

  /** A condition of the stored status and its history. */
  ghost predicate Dated(p: int, evs: seq<Event>, t: string) {
    var s := After(p, EMPTY, evs);
    Find(s.conditions, t).Some? ==>
      var c := Find(s.conditions, t).value;
      && Stamped(c)
      && LastChange(p, EMPTY, evs, t) == Some(c.lastTransition)
      && (evs != [] ==> c.lastUpdate <= evs[|evs| - 1].clock.check)
  }

  ghost predicate OnlyReadyAndError(s: AppStatus) {
    forall c :: c in s.conditions ==> c.ctype in {READY, ERROR}
  }

  lemma InitiallyDated(p: int)
    ensures Dated(p, [], READY) && Dated(p, [], ERROR) && OnlyReadyAndError(EMPTY)
  {
  }

  lemma WriteCoupled(s: AppStatus, v: View, c: Clock)
    requires Unique(s.conditions)
    ensures Coupled(NewStatus(s, v, c))
  {
    NewConditionsMeaning(s, v, c);
    CountReadyFull(Workloads(v.objects));
  }

  lemma WriteOnly(s: AppStatus, v: View, c: Clock)
    requires OnlyReadyAndError(s)
    ensures OnlyReadyAndError(NewStatus(s, v, c))
  {
    SetConditionOnly(s.conditions, READY, ReadyRequest(v), c.ready);
    SetConditionOnly(SetCondition(s.conditions, READY, ReadyRequest(v), c.ready), ERROR, ErrorRequest(v), c.error);
    hide SetCondition;
  }

  lemma SetConditionOnly(cs: seq<Condition>, ctype: string, r: Request, now: int)
    ensures forall c :: c in SetCondition(cs, ctype, r, now) ==> c in cs || c.ctype == ctype
  {
  }

  function ReadAt(c: Clock, t: string): int {
    if t == READY then c.ready else c.error
  }

  lemma StepTimes(p: int, s: AppStatus, e: Event, t: string)
    requires Unique(s.conditions) && t in {READY, ERROR}
    ensures var before, after := Find(s.conditions, t), Find(Next(p, s, e.view, e.clock, e.writeOk).conditions, t);
            after == before || (after.Some? && Timed(before, after.value, ReadAt(e.clock, t)))
  {
    hide Decide;
    StepMeaning(p, s, e);
    NewConditionsMeaning(s, e.view, e.clock);
  }

  lemma DatedStep(p: int, evs: seq<Event>, t: string)
    requires Run(evs) && evs != [] && t in {READY, ERROR}
    requires Unique(After(p, EMPTY, evs[..|evs| - 1]).conditions) && Dated(p, evs[..|evs| - 1], t)
    ensures Dated(p, evs, t)
  {
    hide Next;
    hide Find;
    var pre, e := evs[..|evs| - 1], evs[|evs| - 1];
    StepTimes(p, After(p, EMPTY, pre), e, t);
    assert pre != [] ==> pre[|pre| - 1] == evs[|pre| - 1];
  }

  /** Every stored status of every run from the empty status: either nothing was ever written, or the
      status is coupled, holds just the two conditions, and each transition time is the time of the last
      write that changed that condition's status and is not later than its update time. */
  lemma {:induction false} StoredInvariant(p: int, evs: seq<Event>)
    requires Run(evs)
    ensures var s := After(p, EMPTY, evs);
            && (s == EMPTY || Coupled(s))
            && OnlyReadyAndError(s)
            && Dated(p, evs, READY) && Dated(p, evs, ERROR)
  {
    hide Next;
    hide NewStatus;
    hide Coupled;
    hide Dated;
    hide OnlyReadyAndError;
    if evs == [] {
      InitiallyDated(p);
    } else {
      var pre, e := evs[..|evs| - 1], evs[|evs| - 1];
      StoredInvariant(p, pre);
      UniqueAlways(p, EMPTY, pre);
      DatedStep(p, evs, READY);
      DatedStep(p, evs, ERROR);
      var s := After(p, EMPTY, pre);
      assert After(p, EMPTY, evs) == Next(p, s, e.view, e.clock, e.writeOk);
      StepMeaning(p, s, e);
      WriteCoupled(s, e.view, e.clock);
      WriteOnly(s, e.view, e.clock);
    }
  }

  // ----- flap rate -----

  /** Event i stored a transition of Ready from not-True to True. */
  ghost predicate Rises(p: int, s0: AppStatus, evs: seq<Event>, i: nat)
    requires i < |evs|
  {
    !IsReady(After(p, s0, evs[..i])) && IsReady(After(p, s0, evs[..i + 1]))
  }

  /** After a rise at i, a status that is not Ready lost it no earlier than that write. */
  lemma {:induction false} FellAfter(p: int, s0: AppStatus, evs: seq<Event>, i: nat, n: nat)
    requires Run(evs) && Unique(s0.conditions)
    requires i < n <= |evs| && Rises(p, s0, evs, i)
    ensures var s := After(p, s0, evs[..n]);
            && ReadyOf(s).Some?
            && (ReadyOf(s).value.status != True ==> ReadyOf(s).value.lastTransition >= evs[i].clock.write)
    decreases n
  {
    hide Next;
    hide After;
    if n > i + 1 {
      FellAfter(p, s0, evs, i, n - 1);
      var s, e := After(p, s0, evs[..n - 1]), evs[n - 1];
      AfterStep(p, s0, evs, n - 1);
      UniqueAlways(p, s0, evs[..n - 1]);
      StepMeaning(p, s, e);
      assert evs[i].clock.write <= e.clock.ready;
    }
  }

  /** Two stored rises of Ready are at least the stabilization period apart. */
  lemma RisesApart(p: int, s0: AppStatus, evs: seq<Event>, i: nat, j: nat)
    requires Run(evs) && Unique(s0.conditions) && p > 0
    requires i < j < |evs| && Rises(p, s0, evs, i) && Rises(p, s0, evs, j)
    ensures evs[j].clock.write >= evs[i].clock.write + p
  {
    hide Next;
    hide After;
    FellAfter(p, s0, evs, i, j);
    AfterStep(p, s0, evs, j);
    UniqueAlways(p, s0, evs[..j]);
    StepMeaning(p, After(p, s0, evs[..j]), evs[j]);
  }

  /** How many of the first n events are rises whose write falls in [from, to]. */
  ghost function RisesIn(p: int, s0: AppStatus, evs: seq<Event>, n: nat, from: int, to: int): nat
    requires n <= |evs|
  {
    if n == 0 then 0
    else RisesIn(p, s0, evs, n - 1, from, to)
         + if Rises(p, s0, evs, n - 1) && from <= evs[n - 1].clock.write <= to then 1 else 0
  }

  lemma {:induction false} RisesSpread(p: int, s0: AppStatus, evs: seq<Event>, n: nat, from: int, to: int)
    returns (last: nat)
    requires Run(evs) && Unique(s0.conditions) && p > 0 && n <= |evs|
    requires RisesIn(p, s0, evs, n, from, to) > 0
    ensures last < n && Rises(p, s0, evs, last) && from <= evs[last].clock.write <= to
    ensures (RisesIn(p, s0, evs, n, from, to) - 1) * p <= evs[last].clock.write - from
  {
    hide Rises, After, Unique;
    if Rises(p, s0, evs, n - 1) && from <= evs[n - 1].clock.write <= to {
      last := n - 1;
      if RisesIn(p, s0, evs, n - 1, from, to) > 0 {
        var l := RisesSpread(p, s0, evs, n - 1, from, to);
        RisesApart(p, s0, evs, l, last);
        OneMore(RisesIn(p, s0, evs, n - 1, from, to), p);
      }
    } else {
      last := RisesSpread(p, s0, evs, n - 1, from, to);
    }
  }

  lemma RisesFit(p: int, s0: AppStatus, evs: seq<Event>, from: int, width: nat)
    requires Run(evs) && Unique(s0.conditions) && p > 0
    ensures RisesIn(p, s0, evs, |evs|, from, from + width) > 0 ==>
              (RisesIn(p, s0, evs, |evs|, from, from + width) - 1) * p <= width
  {
    if RisesIn(p, s0, evs, |evs|, from, from + width) > 0 {
      var last := RisesSpread(p, s0, evs, |evs|, from, from + width);
      hide Rises, RisesIn, Run, Unique;
    }
  }

  /** Flap rate: any window of length `width` holds at most width / p + 1 rises of Ready. */
  lemma FlapRate(p: int, s0: AppStatus, evs: seq<Event>, from: int, width: nat)
    requires Run(evs) && Unique(s0.conditions) && p > 0
    ensures RisesIn(p, s0, evs, |evs|, from, from + width) <= width / p + 1
  {
    RisesFit(p, s0, evs, from, width);
    hide Rises, RisesIn, Run, Unique;
    AtMostQuotient(RisesIn(p, s0, evs, |evs|, from, from + width), width, p);
  }

  lemma Monotone(a: int, b: int, p: int)
    requires p > 0
    ensures a >= b ==> a * p >= b * p
  {
    assert a >= b ==> (a - b) * p >= 0;
    assert (a - b) * p == a * p - b * p;
  }

  lemma OneMore(k: int, p: int)
    ensures (k - 1) * p + p == k * p
  {
  }

  lemma AtMostQuotient(k: nat, width: nat, p: int)
    requires p > 0 && (k > 0 ==> (k - 1) * p <= width)
    ensures k <= width / p + 1
  {
    var q := width / p;
    OneMore(q + 1, p);
    assert (q + 1) * p > width;
    Monotone(k - 1, q + 1, p);
  }

  // ----- holding -----

  /** A held reconcile asks to come back exactly when the period since the loss of readiness ends. */
  lemma HoldDeadline(p: int, s: AppStatus, v: View, c: Clock)
    requires Unique(s.conditions) && Decide(p, s, v, c).Hold?
    ensures ReadyOf(s).Some?
    ensures c.check + Decide(p, s, v, c).requeue == ReadyOf(s).value.lastTransition + p
    ensures 0 < Decide(p, s, v, c).requeue
    ensures ReadyOf(s).value.lastTransition <= c.check ==> Decide(p, s, v, c).requeue <= p
  {
    DecideMeaning(p, s, v, c);
  }

  /** Over every run from the empty status the requeue of a hold lies in (0, p] and lands on the deadline. */
  lemma HoldWithinPeriod(p: int, evs: seq<Event>, e: Event)
    requires Run(evs + [e]) && Decide(p, After(p, EMPTY, evs), e.view, e.clock).Hold?
    ensures var s, requeue := After(p, EMPTY, evs), Decide(p, After(p, EMPTY, evs), e.view, e.clock).requeue;
            && ReadyOf(s).Some? && 0 < requeue <= p
            && e.clock.check + requeue == ReadyOf(s).value.lastTransition + p
  {
    var all := evs + [e];
    assert forall i :: 0 <= i < |evs| ==> all[i] == evs[i];
    assert all[|evs|] == e;
    UniqueAlways(p, EMPTY, evs);
    StoredInvariant(p, evs);
    HoldDeadline(p, After(p, EMPTY, evs), e.view, e.clock);
    hide Decide, Next;
    if evs != [] {
      assert evs[|evs| - 1].clock.write <= e.clock.ready;
    }
  }

  /** The deadline moves exactly when the stored Ready status changes. Flipping between False and
      Unknown therefore postpones it. */
  lemma DeadlineMovesIff(p: int, s: AppStatus, e: Event)
    requires Unique(s.conditions) && ReadyOf(s).Some?
    requires ReadyOf(s).value.lastTransition < e.clock.ready
    ensures var s' := Next(p, s, e.view, e.clock, e.writeOk);
            && ReadyOf(s').Some?
            && (ReadyOf(s').value.lastTransition != ReadyOf(s).value.lastTransition <==>
                ReadyOf(s').value.status != ReadyOf(s).value.status)
  {
    DecideMeaning(p, s, e.view, e.clock);
    NewConditionsMeaning(s, e.view, e.clock);
  }

  /** A reconcile that cannot move the deadline `t + p` of a status whose Ready is `st` since t: it sees
      the same verdict again, or it sees recovery before the deadline. */
  ghost predicate Waits(p: int, st: CondStatus, t: int, e: Event) {
    || ReadyRequest(e.view).status == st
    || (ReadyRequest(e.view).status == True && e.clock.check < t + p)
  }

  /** Any number of held or still-not-ready reconciles leave the deadline where it is. */
  lemma {:induction false} DeadlineStable(p: int, s0: AppStatus, evs: seq<Event>)
    requires p > 0 && Unique(s0.conditions) && ReadyOf(s0).Some? && ReadyOf(s0).value.status != True
    requires forall i :: 0 <= i < |evs| ==> Waits(p, ReadyOf(s0).value.status, ReadyOf(s0).value.lastTransition, evs[i])
    ensures var s := After(p, s0, evs);
            && ReadyOf(s).Some? && ReadyOf(s).value.status == ReadyOf(s0).value.status
            && ReadyOf(s).value.lastTransition == ReadyOf(s0).value.lastTransition
  {
    if evs != [] {
      var pre, e := evs[..|evs| - 1], evs[|evs| - 1];
      DeadlineStable(p, s0, pre);
      UniqueAlways(p, s0, pre);
      assert Waits(p, ReadyOf(s0).value.status, ReadyOf(s0).value.lastTransition, e);
      DecideMeaning(p, After(p, s0, pre), e.view, e.clock);
      NewConditionsMeaning(After(p, s0, pre), e.view, e.clock);
    }
  }

  /** No infinite hold: after any number of such reconciles, a healthy one holds before the deadline and
      stores Ready=True at or after it. */
  lemma Released(p: int, s0: AppStatus, evs: seq<Event>, e: Event)
    requires p > 0 && Unique(s0.conditions) && ReadyOf(s0).Some? && ReadyOf(s0).value.status != True
    requires forall i :: 0 <= i < |evs| ==> Waits(p, ReadyOf(s0).value.status, ReadyOf(s0).value.lastTransition, evs[i])
    requires ReadyRequest(e.view).status == True && e.writeOk
    ensures var s, deadline := After(p, s0, evs), ReadyOf(s0).value.lastTransition + p;
            && (e.clock.check < deadline ==>
                  && Decide(p, s, e.view, e.clock) == Hold(deadline - e.clock.check)
                  && After(p, s0, evs + [e]) == s)
            && (e.clock.check >= deadline ==>
                  && IsReady(After(p, s0, evs + [e]))
                  && ReadyOf(After(p, s0, evs + [e])).value.lastTransition == e.clock.ready)
  {
    DeadlineStable(p, s0, evs);
    UniqueAlways(p, s0, evs);
    assert (evs + [e])[..|evs|] == evs;
    RecoveryStep(p, After(p, s0, evs), e);
    hide Decide, Next, Waits, Unique;
  }

  /** A healthy reconcile of a status that is not Ready. */
  lemma RecoveryStep(p: int, s: AppStatus, e: Event)
    requires p > 0 && Unique(s.conditions) && ReadyOf(s).Some? && ReadyOf(s).value.status != True
    requires ReadyRequest(e.view).status == True && e.writeOk
    ensures var s', deadline := Next(p, s, e.view, e.clock, e.writeOk), ReadyOf(s).value.lastTransition + p;
            && (e.clock.check < deadline ==> Decide(p, s, e.view, e.clock) == Hold(deadline - e.clock.check) && s' == s)
            && (e.clock.check >= deadline ==> IsReady(s') && ReadyOf(s').value.lastTransition == e.clock.ready)
  {
    DecideMeaning(p, s, e.view, e.clock);
    NewConditionsMeaning(s, e.view, e.clock);
    hide Decide, NewStatus, Unique;
  }

  // ----- what postpones recovery -----

  /** An errored write on a status that is Ready=False restarts the wait once: from then on any number of
      errors, and of recoveries that come too early, leave the new deadline alone, and the first recovery at
      or after it is stored. */
  lemma {:induction false} ErrorRestartsWait(p: int, s: AppStatus, bad: Event, evs: seq<Event>, good: Event)
    requires p > 0 && Unique(s.conditions) && ReadyOf(s).Some? && ReadyOf(s).value.status == False
    requires bad.view.errs != [] && bad.writeOk
    requires forall i :: 0 <= i < |evs| ==> evs[i].view.errs != [] || Waits(p, Unknown, bad.clock.ready, evs[i])
    requires ReadyRequest(good.view).status == True && good.writeOk
    ensures good.clock.check < bad.clock.ready + p ==>
              Decide(p, After(p, After(p, s, [bad]), evs), good.view, good.clock).Hold?
    ensures IsReady(After(p, After(p, s, [bad]), evs + [good])) <==> good.clock.check >= bad.clock.ready + p
  {
    assert [bad][..0] == [];
    assert After(p, s, [bad]) == Next(p, s, bad.view, bad.clock, bad.writeOk);
    NewConditionsMeaning(s, bad.view, bad.clock);
    DecideMeaning(p, s, bad.view, bad.clock);
    Released(p, After(p, s, [bad]), evs, good);
    DeadlineStable(p, After(p, s, [bad]), evs);
    hide Decide, Next;
  }

  /** The last stored change of a status that is not True: what it changed to and when. */
  datatype Fall = Fall(status: CondStatus, at: int)

  predicate Recovers(e: Event) {
    ReadyRequest(e.view).status == True
  }

  /** A stored verdict other than True moves the fall exactly when it differs: False to Unknown or back. */
  function Fell(f: Fall, e: Event): Fall {
    if e.writeOk && !Recovers(e) && ReadyRequest(e.view).status != f.status
    then Fall(ReadyRequest(e.view).status, e.clock.ready)
    else f
  }

  function LastFall(f: Fall, evs: seq<Event>): Fall {
    if evs == [] then f else Fell(LastFall(f, evs[..|evs| - 1]), evs[|evs| - 1])
  }

  /** No recovery that could be stored comes as late as the period after the last fall before it. */
  ghost predicate AlwaysTooEarly(p: int, f: Fall, evs: seq<Event>) {
    forall j :: 0 <= j < |evs| ==> TooEarly(p, LastFall(f, evs[..j]), evs[j])
  }

  predicate TooEarly(p: int, f: Fall, e: Event) {
    Recovers(e) && e.writeOk ==> e.clock.check < f.at + p
  }

  lemma TooEarlySnoc(p: int, f: Fall, evs: seq<Event>, e: Event)
    ensures AlwaysTooEarly(p, f, evs + [e]) <==> AlwaysTooEarly(p, f, evs) && TooEarly(p, LastFall(f, evs), e)
    ensures LastFall(f, evs + [e]) == Fell(LastFall(f, evs), e)
  {
    hide TooEarly, Fell;
    var all := evs + [e];
    assert forall j :: 0 <= j <= |evs| ==> all[..j] == evs[..j];
    assert evs[..|evs|] == evs && all[|evs|] == e;
    assert forall j :: 0 <= j < |evs| ==> all[j] == evs[j];
  }

  ghost predicate NeverReady(p: int, s0: AppStatus, evs: seq<Event>) {
    forall j :: 0 <= j <= |evs| ==> !IsReady(After(p, s0, evs[..j]))
  }

  lemma NeverReadySnoc(p: int, s0: AppStatus, evs: seq<Event>, e: Event)
    ensures NeverReady(p, s0, evs + [e]) <==> NeverReady(p, s0, evs) && !IsReady(After(p, s0, evs + [e]))
    ensures After(p, s0, evs + [e]) == Next(p, After(p, s0, evs), e.view, e.clock, e.writeOk)
  {
    hide Next, IsReady;
    var all := evs + [e];
    assert forall j :: 0 <= j <= |evs| ==> all[..j] == evs[..j];
    assert all[..|evs|] == evs && all[..|evs| + 1] == all;
  }

  function FallOf(s: AppStatus): Fall
    requires ReadyOf(s).Some?
  {
    Fall(ReadyOf(s).value.status, ReadyOf(s).value.lastTransition)
  }

  /** One event on a status that is not Ready. */
  lemma FallStep(p: int, s: AppStatus, e: Event)
    requires p > 0 && Unique(s.conditions) && ReadyOf(s).Some? && ReadyOf(s).value.status != True
    ensures var s' := Next(p, s, e.view, e.clock, e.writeOk);
            && ReadyOf(s').Some?
            && (IsReady(s') <==> Recovers(e) && e.writeOk && e.clock.check >= FallOf(s).at + p)
            && (!IsReady(s') ==> FallOf(s') == Fell(FallOf(s), e))
  {
    DecideMeaning(p, s, e.view, e.clock);
    NewConditionsMeaning(s, e.view, e.clock);
    hide Decide, NewStatus;
  }

  /** While a status has never been Ready, its Ready condition is dated by the last fall. */
  lemma {:induction false} FallTracks(p: int, s0: AppStatus, evs: seq<Event>)
    requires p > 0 && Unique(s0.conditions) && ReadyOf(s0).Some? && !IsReady(s0)
    requires NeverReady(p, s0, evs)
    ensures ReadyOf(After(p, s0, evs)).Some? && FallOf(After(p, s0, evs)) == LastFall(FallOf(s0), evs)
  {
    hide Next, NeverReady;
    if evs != [] {
      var pre, e := evs[..|evs| - 1], evs[|evs| - 1];
      assert pre + [e] == evs;
      NeverReadySnoc(p, s0, pre, e);
      FallTracks(p, s0, pre);
      UniqueAlways(p, s0, pre);
      NotReadyNow(p, s0, pre);
      FallStep(p, After(p, s0, pre), e);
    }
  }

  lemma NotReadyNow(p: int, s0: AppStatus, evs: seq<Event>)
    requires NeverReady(p, s0, evs)
    ensures !IsReady(After(p, s0, evs))
  {
    assert evs[..|evs|] == evs;
  }

  /** What keeps a recovered Application from being reported, exactly: over every run from a status that is
      not Ready, it is never reported Ready if and only if every recovery comes less than a period after the
      last change between False and Unknown. */
  lemma {:induction false} NeverReadyIff(p: int, s0: AppStatus, evs: seq<Event>)
    requires p > 0 && Unique(s0.conditions) && ReadyOf(s0).Some? && !IsReady(s0)
    ensures NeverReady(p, s0, evs) <==> AlwaysTooEarly(p, FallOf(s0), evs)
  {
    if evs == [] {
      assert evs[..0] == [];
    } else {
      var pre, e := evs[..|evs| - 1], evs[|evs| - 1];
      assert pre + [e] == evs;
      NeverReadyIff(p, s0, pre);
      NeverReadySnoc(p, s0, pre, e);
      TooEarlySnoc(p, FallOf(s0), pre, e);
      hide NeverReady, AlwaysTooEarly, Next, LastFall;
      if NeverReady(p, s0, pre) {
        FallTracks(p, s0, pre);
        UniqueAlways(p, s0, pre);
        NotReadyNow(p, s0, pre);
        FallStep(p, After(p, s0, pre), e);
      }
    }
  }

  const FAILING := View([ObjectStatus("apps", "Deployment", "d", Readiness.InProgress)], [], 1)
  const ERRED := View([], ["list failed"], 1)
  const HEALTHY := View([], [], 1)

  function At(v: View, time: int): Event {
    Event(v, Clock(time, time, time, time), true)
  }

  /** n rounds of not ready, recovered, erred, recovered, each recovery one tick short of the period. */
  function Flips(p: int, n: nat): seq<Event>
    ensures |Flips(p, n)| == 4 * n
  {
    if n == 0 then []
    else
      var t := Start(p, n - 1);
      Flips(p, n - 1) + [At(FAILING, t)] + [At(HEALTHY, t + p - 1)] + [At(ERRED, t + p)] + [At(HEALTHY, t + 2 * p - 1)]
  }

  function Start(p: int, n: nat): int {
    if n == 0 then 0 else Start(p, n - 1) + 2 * p
  }

  lemma RunSnoc(evs: seq<Event>, v: View, last: int, time: int)
    requires Run(evs) && last <= time && forall i :: 0 <= i < |evs| ==> evs[i].clock.write <= last
    ensures Run(evs + [At(v, time)]) && forall i :: 0 <= i <= |evs| ==> (evs + [At(v, time)])[i].clock.write <= time
  {
  }

  lemma RoundRun(p: int, pre: seq<Event>, t: int)
    requires p > 0 && Run(pre) && forall i :: 0 <= i < |pre| ==> pre[i].clock.write <= t
    ensures var half := pre + [At(FAILING, t)] + [At(HEALTHY, t + p - 1)];
            var evs := half + [At(ERRED, t + p)] + [At(HEALTHY, t + 2 * p - 1)];
            Run(evs) && forall i :: 0 <= i < |evs| ==> evs[i].clock.write <= t + 2 * p
  {
    hide Run, At, FAILING, HEALTHY, ERRED;
    var a := pre + [At(FAILING, t)];
    var b := a + [At(HEALTHY, t + p - 1)];
    var c := b + [At(ERRED, t + p)];
    RunSnoc(pre, FAILING, t, t);
    RunSnoc(a, HEALTHY, t, t + p - 1);
    RunSnoc(b, ERRED, t + p - 1, t + p);
    RunSnoc(c, HEALTHY, t + p, t + 2 * p - 1);
  }

  lemma {:induction false} FlipsRun(p: int, n: nat)
    requires p > 0
    ensures Run(Flips(p, n)) && forall i :: 0 <= i < |Flips(p, n)| ==> Flips(p, n)[i].clock.write <= Start(p, n)
  {
    hide At, FAILING, HEALTHY, ERRED;
    if n > 0 {
      FlipsRun(p, n - 1);
      hide Run;
      RoundRun(p, Flips(p, n - 1), Start(p, n - 1));
    }
  }

  lemma Requests()
    ensures ReadyRequest(FAILING).status == False && ReadyRequest(ERRED).status == Unknown
            && ReadyRequest(HEALTHY).status == True
  {
    assert FAILING.objects[0] in FAILING.objects;
  }

  lemma OneFall(p: int, f: Fall, time: int)
    ensures f.status == Unknown ==> Fell(f, At(FAILING, time)) == Fall(False, time) && TooEarly(p, f, At(FAILING, time))
    ensures f.status == False ==> Fell(f, At(ERRED, time)) == Fall(Unknown, time) && TooEarly(p, f, At(ERRED, time))
    ensures Fell(f, At(HEALTHY, time)) == f && (time < f.at + p ==> TooEarly(p, f, At(HEALTHY, time)))
  {
    Requests();
    hide ReadyRequest;
  }

  lemma NothingTooEarly(p: int, f: Fall)
    ensures AlwaysTooEarly(p, f, []) && LastFall(f, []) == f
  {
  }

  lemma RoundTooEarly(p: int, f: Fall, pre: seq<Event>, t: int)
    requires p > 0 && AlwaysTooEarly(p, f, pre) && LastFall(f, pre).status == Unknown
    ensures var half := pre + [At(FAILING, t)] + [At(HEALTHY, t + p - 1)];
            var evs := half + [At(ERRED, t + p)] + [At(HEALTHY, t + 2 * p - 1)];
            AlwaysTooEarly(p, f, evs) && LastFall(f, evs).status == Unknown
  {
    hide AlwaysTooEarly, LastFall, Fell, TooEarly, At, FAILING, HEALTHY, ERRED;
    var a := pre + [At(FAILING, t)];
    var b := a + [At(HEALTHY, t + p - 1)];
    var c := b + [At(ERRED, t + p)];
    TooEarlySnoc(p, f, pre, At(FAILING, t));
    OneFall(p, LastFall(f, pre), t);
    TooEarlySnoc(p, f, a, At(HEALTHY, t + p - 1));
    OneFall(p, Fall(False, t), t + p - 1);
    TooEarlySnoc(p, f, b, At(ERRED, t + p));
    OneFall(p, Fall(False, t), t + p);
    TooEarlySnoc(p, f, c, At(HEALTHY, t + 2 * p - 1));
    OneFall(p, Fall(Unknown, t + p), t + 2 * p - 1);
  }

  lemma {:induction false} FlipsTooEarly(p: int, n: nat, f: Fall)
    requires p > 0 && f.status == Unknown
    ensures AlwaysTooEarly(p, f, Flips(p, n)) && LastFall(f, Flips(p, n)).status == Unknown
  {
    hide AlwaysTooEarly, LastFall, At, FAILING, HEALTHY, ERRED;
    if n == 0 {
      NothingTooEarly(p, f);
    } else {
      FlipsTooEarly(p, n - 1, f);
      RoundTooEarly(p, f, Flips(p, n - 1), Start(p, n - 1));
    }
  }

  /** Postponement without end: for every n, a run of n rounds that alternate between not ready and erred,
      recovered for all but one tick of each half round, never reports Ready, although 2n of its reconciles
      see every component healthy. */
  lemma PostponedForever(p: int, s0: AppStatus, n: nat)
    requires p > 0 && Unique(s0.conditions) && ReadyOf(s0).Some? && ReadyOf(s0).value.status == Unknown
    ensures var evs := Flips(p, n);
            && Run(evs) && NeverReady(p, s0, evs)
            && forall k :: 0 <= k < n ==> Recovers(evs[4 * k + 1]) && Recovers(evs[4 * k + 3])
  {
    FlipsRun(p, n);
    FlipsTooEarly(p, n, FallOf(s0));
    NeverReadyIff(p, s0, Flips(p, n));
    forall k | 0 <= k < n ensures Recovers(Flips(p, n)[4 * k + 1]) && Recovers(Flips(p, n)[4 * k + 3]) {
      FlipsRecover(p, n, k);
    }
  }

  lemma {:induction false} FlipsRecover(p: int, n: nat, k: nat)
    requires k < n
    ensures Recovers(Flips(p, n)[4 * k + 1]) && Recovers(Flips(p, n)[4 * k + 3])
  {
    if k < n - 1 {
      FlipsRecover(p, n - 1, k);
    } else {
      Requests();
    }
  }

  // ----- quiescence -----

  /** A status that was computed from a view is a fixpoint of every later reconcile with that view. */
  lemma Fixpoint(p: int, s: AppStatus, v: View, c: Clock, c': Clock)
    requires Unique(s.conditions)
    ensures Decide(p, NewStatus(s, v, c), v, c') == Unchanged(if v.errs != [] then ERROR_REQUEUE else 0)
  {
    var n := NewStatus(s, v, c);
    NewConditionsMeaning(s, v, c);
    SetConditionFixpoint(n.conditions, READY, ReadyRequest(v));
    SetConditionFixpoint(n.conditions, ERROR, ErrorRequest(v));
  }

  /** Components of one identity have one status: an object listed twice is the same object. */
  ghost predicate Consistent(rs: seq<Readiness.Resource>) {
    && (forall i :: 0 <= i < |rs| ==> Without(rs[i].group, '/') && Without(rs[i].kind, '/'))
    && (forall i, j :: 0 <= i < |rs| && 0 <= j < |rs|
          && rs[i].group == rs[j].group && rs[i].kind == rs[j].kind && rs[i].name == rs[j].name
          ==> StatusOf(rs[i]) == StatusOf(rs[j]))
  }

  lemma ConsistentTieFree(rs: seq<Readiness.Resource>)
    requires Consistent(rs)
    ensures TieFree(StatusesOf(rs))
  {
    hide Readiness.Status;
    var os := StatusesOf(rs);
    forall i, j | 0 <= i < |os| && 0 <= j < |os| && Key(os[i]) == Key(os[j])
      ensures os[i] == os[j]
    {
      KeyInjective(os[i], os[j]);
    }
  }

  lemma {:induction false} NoErrorsIff(rs: seq<Readiness.Resource>)
    ensures ErrorsOf(rs) == [] <==> forall i :: 0 <= i < |rs| ==> Readiness.Status(rs[i]).error.None?
  {
    hide Readiness.Status;
    if rs != [] {
      NoErrorsIff(rs[..|rs| - 1]);
      assert forall i :: 0 <= i < |rs| - 1 ==> rs[i] == rs[..|rs| - 1][i];
    }
  }

  /** The errors of a listing are those of its objects, none lost and none made up. */
  lemma {:induction false} ErrorsMeaning(rs: seq<Readiness.Resource>)
    ensures forall e :: e in ErrorsOf(rs) <==> exists i :: 0 <= i < |rs| && Readiness.Status(rs[i]).error == Some(e)
  {
    hide Readiness.Status;
    if rs != [] {
      var n := |rs| - 1;
      ErrorsMeaning(rs[..n]);
      assert forall i :: 0 <= i < n ==> rs[i] == rs[..n][i];
      forall e ensures e in ErrorsOf(rs) <==> e in ErrorsOf(rs[..n]) || Readiness.Status(rs[n]).error == Some(e) {}
      hide ErrorsOf;
    }
  }

  lemma PermutedErrors(rs: seq<Readiness.Resource>, qs: seq<Readiness.Resource>)
    requires multiset(rs) == multiset(qs) && ErrorsOf(rs) == []
    ensures ErrorsOf(qs) == []
  {
    hide Readiness.Status;
    NoErrorsIff(rs);
    forall i | 0 <= i < |qs| ensures Readiness.Status(qs[i]).error.None? {
      var j := Readiness.SameElements(qs, rs, i);
    }
    NoErrorsIff(qs);
  }

  function Drop<T>(a: seq<T>, k: nat): (d: seq<T>)
    requires k < |a|
    ensures |d| == |a| - 1
    ensures forall i :: 0 <= i < |d| ==> d[i] == a[if i < k then i else i + 1]
  {
    a[..k] + a[k + 1..]
  }

  lemma DropOne<T>(a: seq<T>, k: nat)
    requires k < |a|
    ensures multiset(a) == multiset(Drop(a, k)) + multiset{a[k]}
  {
    assert a == a[..k] + [a[k]] + a[k + 1..];
  }

  /** Mapping a permutation gives a permutation. */
  lemma {:induction false} MapPermutation<T, U>(f: T -> U, a: seq<T>, b: seq<T>, fa: seq<U>, fb: seq<U>)
    requires multiset(a) == multiset(b) && |fa| == |a| && |fb| == |b|
    requires forall i :: 0 <= i < |a| ==> fa[i] == f(a[i])
    requires forall i :: 0 <= i < |b| ==> fb[i] == f(b[i])
    ensures multiset(fa) == multiset(fb)
    decreases |a|
  {
    hide Drop;
    assert |a| == |b| by { assert |multiset(a)| == |multiset(b)|; }
    if a != [] {
      var k := Readiness.SameElements(a, b, 0);
      assert multiset(Drop(a, 0)) == multiset(Drop(b, k)) by {
        DropOne(a, 0);
        DropOne(b, k);
        assert multiset(Drop(a, 0)) == multiset(a) - multiset{a[0]};
        assert multiset(Drop(b, k)) == multiset(b) - multiset{b[k]};
      }
      MapPermutation(f, Drop(a, 0), Drop(b, k), Drop(fa, 0), Drop(fb, k));
      DropOne(fa, 0);
      DropOne(fb, k);
    }
  }

  lemma PermutedStatuses(rs: seq<Readiness.Resource>, qs: seq<Readiness.Resource>)
    requires multiset(rs) == multiset(qs)
    ensures multiset(StatusesOf(rs)) == multiset(StatusesOf(qs))
  {
    hide StatusOf;
    MapPermutation(StatusOf, rs, qs, StatusesOf(rs), StatusesOf(qs));
  }

  /** What a reconcile of these resources may see: any sorted order of the component list. */
  ghost predicate ViewOf(rs: seq<Readiness.Resource>, generation: int, v: View) {
    SortOf(StatusesOf(rs), v.objects) && v.errs == ErrorsOf(rs) && v.generation == generation
  }

  /** Resources of other than workload kinds cannot change the verdict: two error-free listings with the same
      workload objects ask for the same Ready status. */
  lemma UnwatchedIrrelevant(rs: seq<Readiness.Resource>, qs: seq<Readiness.Resource>, g: int, h: int, v: View, w: View)
    requires forall r: Readiness.Resource :: r.kind in WORKLOAD_KINDS ==> (r in rs <==> r in qs)
    requires ViewOf(rs, g, v) && ViewOf(qs, h, w) && v.errs == [] && w.errs == []
    ensures ReadyRequest(v).status == ReadyRequest(w).status
  {
    hide Readiness.Status;
    WorkloadsDecide(rs, v.objects);
    WorkloadsDecide(qs, w.objects);
  }

  lemma WorkloadsDecide(rs: seq<Readiness.Resource>, objects: seq<ObjectStatus>)
    requires SortOf(StatusesOf(rs), objects)
    ensures AllWorkloadsReady(objects) <==>
            forall r :: r in rs && r.kind in WORKLOAD_KINDS ==> Readiness.Status(r).verdict == Readiness.Ready
  {
    hide Readiness.Status, Sorted;
    var os := StatusesOf(rs);
    forall o ensures o in objects <==> o in os {
      assert o in multiset(objects) <==> o in multiset(os);
    }
    forall r | r in rs ensures StatusOf(r) in os {
      var i :| 0 <= i < |rs| && rs[i] == r;
      assert os[i] == StatusOf(r);
    }
    forall o | o in os ensures exists r :: r in rs && StatusOf(r) == o {
      var i :| 0 <= i < |os| && os[i] == o;
      assert rs[i] in rs;
    }
  }

  /** A workload object that is not Ready keeps its Application from asking for Ready=True, whatever else is
      listed, and so does any error. */
  lemma NotReadyBlocks(rs: seq<Readiness.Resource>, r: Readiness.Resource, g: int, v: View)
    requires SortOf(StatusesOf(rs), v.objects) && v.generation == g
    requires r in rs && r.kind in WORKLOAD_KINDS && Readiness.Status(r).verdict != Readiness.Ready
    ensures ReadyRequest(v).status != True
  {
    hide Readiness.Status;
    WorkloadsDecide(rs, v.objects);
  }

  /** In particular a Deployment or ReplicaSet that reports a replica failure. */
  lemma ReplicaFailureBlocksApplication(rs: seq<Readiness.Resource>, r: Readiness.Resource, i: int, g: int, v: View)
    requires SortOf(StatusesOf(rs), v.objects) && v.generation == g && r in rs
    requires Kinds.Is(r, "apps", "Deployment") || Kinds.Is(r, "apps", "ReplicaSet")
    requires Kinds.Says(Kinds.EntriesOf(r), i, "ReplicaFailure", "True")
    ensures ReadyRequest(v).status != True
  {
    hide Readiness.Status;
    Kinds.ReplicaFailureBlocks(r, i);
    NotReadyBlocks(rs, r, g, v);
  }

  /** Quiescence: after a write, any number of later reconciles that see the same error-free resources,
      in whatever listing and sorting order, write nothing and ask for nothing. */
  lemma Quiescent(p: int, s: AppStatus, rs: seq<Readiness.Resource>, qs: seq<Readiness.Resource>, generation: int,
                  v: View, c: Clock)
    requires Unique(s.conditions) && Consistent(rs) && multiset(qs) == multiset(rs)
    requires ViewOf(rs, generation, v) && v.errs == []
    ensures forall w, c' :: ViewOf(qs, generation, w) ==> Decide(p, NewStatus(s, v, c), w, c') == Unchanged(0)
  {
    hide Readiness.Status;
    PermutedStatuses(rs, qs);
    PermutedErrors(rs, qs);
    ConsistentTieFree(rs);
    CanonicalOrderIff(StatusesOf(rs));
    forall w, c' | ViewOf(qs, generation, w) ensures Decide(p, NewStatus(s, v, c), w, c') == Unchanged(0) {
      assert SortOf(StatusesOf(rs), w.objects);
      assert w == v;
      Fixpoint(p, s, v, c, c');
    }
  }

  /** The same for a whole run: no such reconcile ever changes the stored status again. */
  lemma {:induction false} QuiescentRun(p: int, s: AppStatus, rs: seq<Readiness.Resource>, generation: int, v: View,
                                        c: Clock, evs: seq<Event>, listings: seq<seq<Readiness.Resource>>)
    requires Unique(s.conditions) && Consistent(rs) && ViewOf(rs, generation, v) && v.errs == []
    requires |listings| == |evs|
    requires forall i :: 0 <= i < |evs| ==>
             multiset(listings[i]) == multiset(rs) && ViewOf(listings[i], generation, evs[i].view)
    ensures After(p, NewStatus(s, v, c), evs) == NewStatus(s, v, c)
  {
    hide NewStatus;
    hide Consistent;
    if evs != [] {
      var n := |evs| - 1;
      QuiescentRun(p, s, rs, generation, v, c, evs[..n], listings[..n]);
      Quiescent(p, s, rs, listings[n], generation, v, c);
      assert ViewOf(listings[n], generation, evs[n].view);
    }
  }

  // ----- scale-up -----

  /** Every component of qs is the component of rs at its place, possibly rescaled without touching zero. */
  ghost predicate ScaledUp(rs: seq<Readiness.Resource>, qs: seq<Readiness.Resource>) {
    && |rs| == |qs|
    && forall i :: 0 <= i < |rs| ==>
         || qs[i] == rs[i]
         || (&& Readiness.ScalableKind(rs[i])
             && (exists n, g :: qs[i] == Readiness.Rescaled(rs[i], n, g))
             && Readiness.Desired(rs[i].body) != 0 && Readiness.Desired(qs[i].body) != 0)
  }

  lemma {:induction false} ScaledUpSame(rs: seq<Readiness.Resource>, qs: seq<Readiness.Resource>)
    requires ScaledUp(rs, qs)
    ensures StatusesOf(qs) == StatusesOf(rs) && ErrorsOf(qs) == ErrorsOf(rs)
  {
    hide Readiness.Status;
    if rs != [] {
      var k := |rs| - 1;
      ScaledUpSame(rs[..k], qs[..k]);
      if qs[k] != rs[k] {
        var n, g :| qs[k] == Readiness.Rescaled(rs[k], n, g);
        Readiness.RescaleInvisibleIff(rs[k], n, g);
      }
      assert StatusesOf(rs) == StatusesOf(rs[..k]) + [StatusOf(rs[k])];
      assert StatusesOf(qs) == StatusesOf(qs[..k]) + [StatusOf(qs[k])];
    }
  }

  /** Scale-up is invisible end to end: from a status that a reconcile wrote or found at rest, rescaling any
      set of the four workload kinds between nonzero counts, with their status unchanged, makes the next
      reconcile write nothing, in whatever order it lists them. */
  lemma ScaleUpInvisible(p: int, s: AppStatus, rs: seq<Readiness.Resource>, qs: seq<Readiness.Resource>,
                         generation: int, v: View, c: Clock)
    requires Consistent(rs) && ScaledUp(rs, qs) && Unique(s.conditions)
    requires ViewOf(rs, generation, v) && v.errs == []
    ensures forall listed, w, c' :: multiset(listed) == multiset(qs) && ViewOf(listed, generation, w) ==>
              Decide(p, NewStatus(s, v, c), w, c') == Unchanged(0)
    ensures NewStatus(s, v, c) == s ==>
              forall listed, w, c' ::
                multiset(listed) == multiset(qs) && ViewOf(listed, generation, w) ==>
                Decide(p, s, w, c') == Unchanged(0)
  {
    hide Readiness.Status;
    ScaledUpSame(rs, qs);
    ConsistentTieFree(rs);
    CanonicalOrderIff(StatusesOf(rs));
    forall listed, w, c' | multiset(listed) == multiset(qs) && ViewOf(listed, generation, w)
      ensures Decide(p, NewStatus(s, v, c), w, c') == Unchanged(0)
    {
      PermutedStatuses(qs, listed);
      PermutedErrors(qs, listed);
      assert SortOf(StatusesOf(rs), w.objects);
      assert w == v;
      Fixpoint(p, s, v, c, c');
    }
  }
}
