/** Runs of the counter pipeline: log lines, exporter restarts, scrapes that succeed or fail, endpoints that
    come and go. What the collector reports is accounted for against what happened. */
module CounterRuns {
  import opened Counters
  import opened Text
  import Protocol

  datatype Ev =
    | LogLine(addr: string, metric: string, labels: seq<Label>)   // an exporter counts one line
    | Restart(addr: string)                                       // its counters are gone
    | Scrape(addr: string)                                        // a successful scrape
    | Missed(addr: string)                                        // a failed one

  /** The live counters of every exporter and the last successful scrape of every endpoint. */
  datatype World = World(live: map<string, Families>, last: map<string, Families>)

  /** One more line in the series with these labels; a live exporter never drops a series. */
  function Bump(fam: seq<Sample>, labels: seq<Label>): seq<Sample> {
    if fam == [] then [Sample(labels, 1)]
    else
      var n := |fam| - 1;
      if fam[n].labels == labels then fam[..n] + [Sample(labels, fam[n].value + 1)]
      else Bump(fam[..n], labels) + [fam[n]]
  }

  lemma {:induction false} BumpAdds(o: Options, fam: seq<Sample>, labels: seq<Label>, p: Pair)
    ensures SumFor(o, Bump(fam, labels), p) == SumFor(o, fam, p) + if PairOf(o, labels) == p then 1 else 0
  {
    if fam == [] {
      assert [Sample(labels, 1)][..0] == [];
    } else {
      var n := |fam| - 1;
      if fam[n].labels == labels {
        assert (fam[..n] + [Sample(labels, fam[n].value + 1)])[..n] == fam[..n];
      } else {
        BumpAdds(o, fam[..n], labels, p);
        var b := Bump(fam[..n], labels);
        assert (b + [fam[n]])[..|b|] == b;
      }
    }
  }

  function Next(w: World, e: Ev): World {
    match e
    case LogLine(a, metric, labels) =>
      var fams := LastOf(w.live, a);
      w.(live := w.live[a := fams[metric := Bump(Family(fams, metric), labels)]])
    case Restart(a) => w.(live := w.live[a := map[]])
    case Scrape(a) => w.(last := w.last[a := LastOf(w.live, a)])
    case Missed(_) => w
  }

  function After(run: seq<Ev>): World {
    if run == [] then World(map[], map[]) else Next(After(run[..|run| - 1]), run[|run| - 1])
  }

  /** A counter now, and at the endpoint's last successful scrape; an absent series counts as 0. */
  function Now(o: Options, run: seq<Ev>, a: string, metric: string, p: Pair): nat {
    SumFor(o, Family(LastOf(After(run).live, a), metric), p)
  }

  function Base(o: Options, run: seq<Ev>, a: string, metric: string, p: Pair): nat {
    SumFor(o, Family(LastOf(After(run).last, a), metric), p)
  }

  /** What an event does to one endpoint's counter and baseline. */
  lemma CounterAfter(o: Options, pre: seq<Ev>, e: Ev, a: string, metric: string, p: Pair)
    requires p != NOBODY
    ensures Now(o, pre + [e], a, metric, p) ==
            if e.addr == a && e.Restart? then 0
            else Now(o, pre, a, metric, p) + if e.addr == a && Counts(o, e, metric, p) then 1 else 0
    ensures Base(o, pre + [e], a, metric, p) ==
            if e == Scrape(a) then Now(o, pre, a, metric, p) else Base(o, pre, a, metric, p)
    ensures e == Scrape(a) ==>
            Movement(o, pre, e, metric, p) == CounterDelta(Base(o, pre, a, metric, p), Now(o, pre, a, metric, p))
  {
    assert (pre + [e])[..|pre|] == pre;
    if e.LogLine? && e.addr == a {
      BumpAdds(o, Family(LastOf(After(pre).live, a), e.metric), e.labels, p);
    }
    hide SumFor, Bump;
  }

  lemma Initially(o: Options, a: string, metric: string, p: Pair)
    ensures Now(o, [], a, metric, p) == 0 && Base(o, [], a, metric, p) == 0
  {
    assert LastOf(map[], a) == map[];
  }

  /** Lines that happened for a pair, in all and at one endpoint. */
  function Counts(o: Options, e: Ev, metric: string, p: Pair): bool {
    e.LogLine? && e.metric == metric && PairOf(o, e.labels) == p
  }

  /** A line counts for the pair its labels belong to. */
  lemma CountsIff(o: Options, e: Ev, metric: string, p: Pair)
    ensures Counts(o, e, metric, p) <==> e.LogLine? && e.metric == metric && BelongsTo(o, e.labels, p)
  {
    if e.LogLine? { BelongsIff(o, e.labels, p); }
  }

  function Happened(o: Options, run: seq<Ev>, metric: string, p: Pair): nat {
    if run == [] then 0
    else Happened(o, run[..|run| - 1], metric, p) + if Counts(o, run[|run| - 1], metric, p) then 1 else 0
  }

  function HappenedAt(o: Options, run: seq<Ev>, a: string, metric: string, p: Pair): nat {
    if run == [] then 0
    else HappenedAt(o, run[..|run| - 1], a, metric, p)
         + if run[|run| - 1].addr == a && Counts(o, run[|run| - 1], metric, p) then 1 else 0
  }

  /** The computed delta of one event: that of a successful scrape, else nothing. */
  function Movement(o: Options, run: seq<Ev>, e: Ev, metric: string, p: Pair): nat {
    if e.Scrape? then MovedSince(o, After(run).last, e.addr, LastOf(After(run).live, e.addr), metric, p) else 0
  }

  function Reported(o: Options, run: seq<Ev>, metric: string, p: Pair): nat {
    if run == [] then 0
    else Reported(o, run[..|run| - 1], metric, p) + Movement(o, run[..|run| - 1], run[|run| - 1], metric, p)
  }

  function ReportedAt(o: Options, run: seq<Ev>, a: string, metric: string, p: Pair): nat {
    if run == [] then 0
    else ReportedAt(o, run[..|run| - 1], a, metric, p)
         + if run[|run| - 1].addr == a then Movement(o, run[..|run| - 1], run[|run| - 1], metric, p) else 0
  }

  // ----- conservation at one endpoint -----

  /** The endpoint restarted after its last successful scrape. */
  predicate Restarted(run: seq<Ev>, a: string) {
    if run == [] then false
    else
      var e := run[|run| - 1];
      if e.addr == a && e.Restart? then true
      else if e.addr == a && e.Scrape? then false
      else Restarted(run[..|run| - 1], a)
  }

  /** Lines counted by the exporter that the next scrape should add. */
  function Pending(o: Options, run: seq<Ev>, a: string, metric: string, p: Pair): int {
    if Restarted(run, a) then Now(o, run, a, metric, p) else Now(o, run, a, metric, p) - Base(o, run, a, metric, p)
  }

  /** Lines one event loses for good: those pending at a restart, and at the first scrape after one, if the
      new counter has already reached the old baseline, as many as that baseline held. */
  function LostBy(o: Options, pre: seq<Ev>, e: Ev, a: string, metric: string, p: Pair): int {
    if e.addr != a then 0
    else if e.Restart? then Pending(o, pre, a, metric, p)
    else if e.Scrape? && Restarted(pre, a) && Now(o, pre, a, metric, p) >= Base(o, pre, a, metric, p)
    then Base(o, pre, a, metric, p)
    else 0
  }

  function LostAt(o: Options, run: seq<Ev>, a: string, metric: string, p: Pair): int {
    if run == [] then 0
    else LostAt(o, run[..|run| - 1], a, metric, p) + LostBy(o, run[..|run| - 1], run[|run| - 1], a, metric, p)
  }

  /** Conservation: reported + lost + pending is exactly what happened, and nothing is lost or pending in
      the negative. */
  lemma {:induction false} Conservation(o: Options, run: seq<Ev>, a: string, metric: string, p: Pair)
    requires p != NOBODY
    ensures ReportedAt(o, run, a, metric, p) + LostAt(o, run, a, metric, p) + Pending(o, run, a, metric, p)
            == HappenedAt(o, run, a, metric, p)
    ensures Pending(o, run, a, metric, p) >= 0 && LostAt(o, run, a, metric, p) >= 0
  {
    hide Now, Base, Movement;
    if run == [] {
      Initially(o, a, metric, p);
    } else {
      var pre, e := run[..|run| - 1], run[|run| - 1];
      assert pre + [e] == run;
      Conservation(o, pre, a, metric, p);
      CounterAfter(o, pre, e, a, metric, p);
      if !e.Scrape? { NoMovement(o, pre, e, metric, p); }
    }
  }

  /** A scrape right after a restart loses nothing exactly when the old baseline is absent or still above
      the counter: only then is the drop seen. */
  lemma ResetSeenIff(o: Options, run: seq<Ev>, a: string, metric: string, p: Pair)
    requires p != NOBODY && Restarted(run, a)
    ensures LostAt(o, run + [Scrape(a)], a, metric, p) == LostAt(o, run, a, metric, p) <==>
            Base(o, run, a, metric, p) == 0 || Now(o, run, a, metric, p) < Base(o, run, a, metric, p)
  {
    assert (run + [Scrape(a)])[..|run|] == run;
  }

  /** The guards under which an event loses nothing: nothing is pending at a restart, and the first scrape
      after one finds the old baseline zero or still above the counter. */
  predicate Keeps(o: Options, pre: seq<Ev>, e: Ev, a: string, metric: string, p: Pair) {
    && (e == Restart(a) ==> Pending(o, pre, a, metric, p) == 0)
    && (e == Scrape(a) && Restarted(pre, a) ==>
          Base(o, pre, a, metric, p) == 0 || Now(o, pre, a, metric, p) < Base(o, pre, a, metric, p))
  }

  ghost predicate LosesNothing(o: Options, run: seq<Ev>, a: string, metric: string, p: Pair) {
    forall j :: 0 <= j < |run| ==> Keeps(o, run[..j], run[j], a, metric, p)
  }

  lemma LosesNothingSnoc(o: Options, run: seq<Ev>, a: string, metric: string, p: Pair)
    requires run != []
    ensures LosesNothing(o, run, a, metric, p) <==>
            LosesNothing(o, run[..|run| - 1], a, metric, p) && Keeps(o, run[..|run| - 1], run[|run| - 1], a, metric, p)
  {
    hide Keeps;
    var pre := run[..|run| - 1];
    assert forall j :: 0 <= j < |pre| ==> pre[..j] == run[..j] && pre[j] == run[j];
    assert pre == run[..|pre|];
  }

  /** Nothing is lost at an endpoint exactly when every event there meets its guard. */
  lemma {:induction false} NothingLostIff(o: Options, run: seq<Ev>, a: string, metric: string, p: Pair)
    requires p != NOBODY
    ensures LostAt(o, run, a, metric, p) == 0 <==> LosesNothing(o, run, a, metric, p)
  {
    hide Now, Base;
    if run != [] {
      var pre := run[..|run| - 1];
      NothingLostIff(o, pre, a, metric, p);
      Conservation(o, pre, a, metric, p);
      LosesNothingSnoc(o, run, a, metric, p);
      hide LosesNothing, Pending;
    }
  }

  predicate NoRestart(run: seq<Ev>) {
    forall i :: 0 <= i < |run| ==> !run[i].Restart?
  }

  /** A run up to an endpoint's last successful scrape. */
  function UpToScrape(run: seq<Ev>, a: string): seq<Ev> {
    if run == [] || run[|run| - 1] == Scrape(a) then run else UpToScrape(run[..|run| - 1], a)
  }

  /** Lines at an endpoint up to its last successful scrape. */
  function SeenAt(o: Options, run: seq<Ev>, a: string, metric: string, p: Pair): nat {
    HappenedAt(o, UpToScrape(run, a), a, metric, p)
  }

  /** Later events add nothing to what an endpoint reported, and right after its scrape nothing is pending. */
  lemma {:induction false} SinceScrape(o: Options, run: seq<Ev>, a: string, metric: string, p: Pair)
    requires p != NOBODY
    ensures ReportedAt(o, run, a, metric, p) == ReportedAt(o, UpToScrape(run, a), a, metric, p)
    ensures Pending(o, UpToScrape(run, a), a, metric, p) == 0
  {
    hide Now, Base, Movement;
    if run == [] {
      Initially(o, a, metric, p);
    } else {
      var pre, e := run[..|run| - 1], run[|run| - 1];
      assert pre + [e] == run;
      if e == Scrape(a) {
        CounterAfter(o, pre, e, a, metric, p);
      } else {
        SinceScrape(o, pre, a, metric, p);
        if e.addr == a { NoMovement(o, pre, e, metric, p); }
      }
    }
  }

  /** What an endpoint reported is at most what had happened by its last successful scrape, and equals it
      exactly when no event up to that scrape lost anything. */
  lemma SeenIff(o: Options, run: seq<Ev>, a: string, metric: string, p: Pair)
    requires p != NOBODY
    ensures ReportedAt(o, run, a, metric, p) <= SeenAt(o, run, a, metric, p)
    ensures ReportedAt(o, run, a, metric, p) == SeenAt(o, run, a, metric, p) <==>
            LosesNothing(o, UpToScrape(run, a), a, metric, p)
  {
    SinceScrape(o, run, a, metric, p);
    Conservation(o, UpToScrape(run, a), a, metric, p);
    NothingLostIff(o, UpToScrape(run, a), a, metric, p);
    hide LosesNothing;
  }

  lemma {:induction false} NeverRestarted(run: seq<Ev>, a: string)
    requires NoRestart(run)
    ensures !Restarted(run, a) && NoRestart(UpToScrape(run, a))
  {
    if run != [] {
      NeverRestarted(run[..|run| - 1], a);
    }
  }

  /** Without restarts every line up to the last successful scrape is reported, failed scrapes in between
      notwithstanding: the next success recovers them. */
  lemma ExactWithoutRestart(o: Options, run: seq<Ev>, a: string, metric: string, p: Pair)
    requires p != NOBODY && NoRestart(run)
    ensures LosesNothing(o, UpToScrape(run, a), a, metric, p)
    ensures ReportedAt(o, run, a, metric, p) == SeenAt(o, run, a, metric, p)
  {
    NeverRestarted(run, a);
    var seen := UpToScrape(run, a);
    forall j | 0 <= j < |seen| ensures Keeps(o, seen[..j], seen[j], a, metric, p) {
      NeverRestarted(seen[..j], a);
    }
    SeenIff(o, run, a, metric, p);
  }

  // ----- all endpoints -----

  ghost function Sum(s: set<string>, f: string -> int): int {
    if s == {} then 0
    else
      var a :| a in s;
      f(a) + Sum(s - {a}, f)
  }

  lemma {:induction false} SumRemove(s: set<string>, f: string -> int, b: string)
    requires b in s
    ensures Sum(s, f) == f(b) + Sum(s - {b}, f)
    decreases s
  {
    var a :| a in s && Sum(s, f) == f(a) + Sum(s - {a}, f);
    if a != b {
      SumRemove(s - {a}, f, b);
      SumRemove(s - {b}, f, a);
      assert s - {a} - {b} == s - {b} - {a};
    }
  }

  lemma {:induction false} SumSame(s: set<string>, f: string -> int, g: string -> int)
    requires forall a :: a in s ==> f(a) == g(a)
    ensures Sum(s, f) == Sum(s, g)
    decreases s
  {
    if s != {} {
      var a :| a in s && Sum(s, f) == f(a) + Sum(s - {a}, f);
      SumSame(s - {a}, f, g);
      SumRemove(s, g, a);
    }
  }

  /** Changing one summand. */
  lemma SumChange(s: set<string>, f: string -> int, g: string -> int, b: string, d: int)
    requires b in s && g(b) == f(b) + d
    requires forall a :: a in s && a != b ==> f(a) == g(a)
    ensures Sum(s, g) == Sum(s, f) + d
  {
    SumRemove(s, f, b);
    SumRemove(s, g, b);
    SumSame(s - {b}, f, g);
  }

  lemma {:induction false} SumZero(s: set<string>, f: string -> int)
    requires forall a :: a in s ==> f(a) == 0
    ensures Sum(s, f) == 0
    decreases s
  {
    if s != {} {
      var a :| a in s && Sum(s, f) == f(a) + Sum(s - {a}, f);
      SumZero(s - {a}, f);
    }
  }

  lemma {:induction false} SumBounded(s: set<string>, f: string -> int, g: string -> int)
    requires forall a :: a in s ==> f(a) <= g(a)
    ensures Sum(s, f) <= Sum(s, g)
    decreases s
  {
    if s != {} {
      var a :| a in s && Sum(s, f) == f(a) + Sum(s - {a}, f);
      SumBounded(s - {a}, f, g);
      SumRemove(s, g, a);
    }
  }

  lemma {:induction false} SumEqualIff(s: set<string>, f: string -> int, g: string -> int)
    requires forall a :: a in s ==> f(a) <= g(a)
    ensures Sum(s, f) == Sum(s, g) <==> forall a :: a in s ==> f(a) == g(a)
    decreases s
  {
    if s != {} {
      var a :| a in s && Sum(s, f) == f(a) + Sum(s - {a}, f);
      SumEqualIff(s - {a}, f, g);
      SumBounded(s - {a}, f, g);
      SumRemove(s, g, a);
    }
  }

  /** The endpoints that occur in a run. */
  function Endpoints(run: seq<Ev>): set<string> {
    set e | e in run :: e.addr
  }

  /** The totals are the sums over the endpoints. */
  lemma {:induction false} TotalsAreSums(o: Options, run: seq<Ev>, s: set<string>, metric: string, p: Pair)
    requires Endpoints(run) <= s
    ensures Reported(o, run, metric, p) == Sum(s, a => ReportedAt(o, run, a, metric, p))
    ensures Happened(o, run, metric, p) == Sum(s, a => HappenedAt(o, run, a, metric, p))
  {
    var r, h := a => ReportedAt(o, run, a, metric, p), a => HappenedAt(o, run, a, metric, p);
    if run == [] {
      SumZero(s, r);
      SumZero(s, h);
    } else {
      var pre, e := run[..|run| - 1], run[|run| - 1];
      assert forall x :: x in pre ==> x in run;
      assert e in run && e.addr in Endpoints(run);
      TotalsAreSums(o, pre, s, metric, p);
      SumChange(s, a => ReportedAt(o, pre, a, metric, p), r, e.addr, Movement(o, pre, e, metric, p));
      SumChange(s, a => HappenedAt(o, pre, a, metric, p), h, e.addr, if Counts(o, e, metric, p) then 1 else 0);
    }
  }

  /** Never over-reports: over every run, the deltas computed for a pair are at most its lines. They are
      exactly the lines up to each endpoint's last successful scrape if and only if every restart before
      that scrape found nothing pending and was seen; in particular without restarts. */
  lemma NeverOverReports(o: Options, run: seq<Ev>, metric: string, p: Pair)
    requires p != NOBODY
    ensures Reported(o, run, metric, p) <= Happened(o, run, metric, p)
    ensures Reported(o, run, metric, p) == Sum(Endpoints(run), a => SeenAt(o, run, a, metric, p)) <==>
            forall a :: a in Endpoints(run) ==> LosesNothing(o, UpToScrape(run, a), a, metric, p)
    ensures NoRestart(run) ==> Reported(o, run, metric, p) == Sum(Endpoints(run), a => SeenAt(o, run, a, metric, p))
  {
    var s := Endpoints(run);
    TotalsAreSums(o, run, s, metric, p);
    var reported, happened, seen :=
      a => ReportedAt(o, run, a, metric, p), a => HappenedAt(o, run, a, metric, p), a => SeenAt(o, run, a, metric, p);
    forall a | a in s
      ensures reported(a) <= happened(a) && reported(a) <= seen(a)
      ensures reported(a) == seen(a) <==> LosesNothing(o, UpToScrape(run, a), a, metric, p)
      ensures NoRestart(run) ==> LosesNothing(o, UpToScrape(run, a), a, metric, p)
    {
      Conservation(o, run, a, metric, p);
      SeenIff(o, run, a, metric, p);
      if NoRestart(run) { ExactWithoutRestart(o, run, a, metric, p); }
      hide LosesNothing;
    }
    hide LosesNothing;
    SumBounded(s, reported, happened);
    SumEqualIff(s, reported, seen);
  }

  // ----- ticks -----

  /** The scrapes of a stretch of a run, as the tick that makes them sees them. */
  function TargetsOf(before: seq<Ev>, tick: seq<Ev>): seq<Target> {
    if tick == [] then []
    else
      var pre, e := tick[..|tick| - 1], tick[|tick| - 1];
      TargetsOf(before, pre) + TargetOf(After(before + pre), e)
  }

  /** A tick adds up exactly the scrapes it makes, log lines and restarts going on between them. */
  lemma {:induction false} TickAddsUp(o: Options, before: seq<Ev>, tick: seq<Ev>, metric: string, p: Pair)
    ensures LastAfter(After(before).last, TargetsOf(before, tick)) == After(before + tick).last
    ensures Reported(o, before + tick, metric, p) ==
            Reported(o, before, metric, p) + TickTotal(o, After(before).last, TargetsOf(before, tick), metric, p)
  {
    hide After, Reported, Next, LastAfter, TickTotal, MovedSince, Movement;
    if tick == [] {
      assert before + tick == before;
      NoTargets(o, After(before).last, metric, p);
    } else {
      var pre, e := tick[..|tick| - 1], tick[|tick| - 1];
      TickAddsUp(o, before, pre, metric, p);
      assert before + tick == before + pre + [e];
      LastEvent(o, before + pre, e, metric, p);
      TargetAdds(o, After(before).last, TargetsOf(before, pre), After(before + pre), e, metric, p);
    }
  }

  lemma NoTargets(o: Options, last: map<string, Families>, metric: string, p: Pair)
    ensures LastAfter(last, []) == last && TickTotal(o, last, [], metric, p) == 0
  {
  }

  lemma LastEvent(o: Options, pre: seq<Ev>, e: Ev, metric: string, p: Pair)
    ensures After(pre + [e]) == Next(After(pre), e)
    ensures Reported(o, pre + [e], metric, p) == Reported(o, pre, metric, p)
            + if !e.Scrape? then 0
              else MovedSince(o, After(pre).last, e.addr, LastOf(After(pre).live, e.addr), metric, p)
  {
    assert (pre + [e])[..|pre|] == pre;
  }

  /** The targets an event contributes to a tick. */
  function TargetOf(w: World, e: Ev): seq<Target> {
    match e
    case Scrape(a) => [Target(a, Some(LastOf(w.live, a)))]
    case Missed(a) => [Target(a, None)]
    case _ => []
  }

  lemma TargetAdds(o: Options, last: map<string, Families>, ts: seq<Target>, w: World, e: Ev, metric: string, p: Pair)
    requires LastAfter(last, ts) == w.last
    ensures LastAfter(last, ts + TargetOf(w, e)) == Next(w, e).last
    ensures TickTotal(o, last, ts + TargetOf(w, e), metric, p) ==
            TickTotal(o, last, ts, metric, p)
            + if e.Scrape? then MovedSince(o, w.last, e.addr, LastOf(w.live, e.addr), metric, p) else 0
  {
    hide MovedSince, Bump;
    assert ts + [] == ts;
    if e.Scrape? || e.Missed? {
      var t := TargetOf(w, e)[0];
      assert (ts + [t])[..|ts|] == ts;
    }
  }

  function Flat(ticks: seq<seq<Ev>>): seq<Ev> {
    if ticks == [] then [] else Flat(ticks[..|ticks| - 1]) + ticks[|ticks| - 1]
  }

  /** The sum of a pair's totals over all ticks of a run. */
  function AllTicks(o: Options, ticks: seq<seq<Ev>>, metric: string, p: Pair): nat {
    if ticks == [] then 0
    else
      var before := Flat(ticks[..|ticks| - 1]);
      AllTicks(o, ticks[..|ticks| - 1], metric, p)
      + TickTotal(o, After(before).last, TargetsOf(before, ticks[|ticks| - 1]), metric, p)
  }

  /** However a run is cut into ticks, the totals the collector computes for a pair never exceed its lines. */
  lemma {:induction false} TicksNeverOverReport(o: Options, ticks: seq<seq<Ev>>, metric: string, p: Pair)
    requires p != NOBODY
    ensures AllTicks(o, ticks, metric, p) == Reported(o, Flat(ticks), metric, p) <= Happened(o, Flat(ticks), metric, p)
  {
    if ticks != [] {
      TicksNeverOverReport(o, ticks[..|ticks| - 1], metric, p);
      TickAddsUp(o, Flat(ticks[..|ticks| - 1]), ticks[|ticks| - 1], metric, p);
    }
    NeverOverReports(o, Flat(ticks), metric, p);
  }

  // ----- frames -----

  /** How the enqueue of a tick's frame went, for the frame that holds the pair's entry: whether there had
      been a connection yet, and whether the queue had room. */
  datatype Link = Link(connected: bool, room: bool)

  /** What a receiver adds up for a pair from a list of entries. */
  function Entries(ms: seq<Protocol.ServiceLogMetrics>, f: Field, p: Pair): nat {
    if ms == [] then 0
    else
      var m := ms[|ms| - 1];
      Entries(ms[..|ms| - 1], f, p) + if Pair(m.namespace, m.service) == p then Amount(m, f) else 0
  }

  function InFrame(frame: Option<seq<Protocol.ServiceLogMetrics>>, f: Field, p: Pair): nat {
    if frame.Some? then Entries(frame.value, f, p) else 0
  }

  lemma {:induction false} EntriesOnce(ms: seq<Protocol.ServiceLogMetrics>, f: Field, p: Pair)
    requires forall i, j :: 0 <= i < j < |ms| ==> PairsOf(ms)[i] != PairsOf(ms)[j]
    ensures p !in PairsOf(ms) ==> Entries(ms, f, p) == 0
    ensures forall m :: m in ms && Pair(m.namespace, m.service) == p ==> Entries(ms, f, p) == Amount(m, f)
  {
    hide Amount;
    if ms != [] {
      var n := |ms| - 1;
      assert forall i :: 0 <= i < n ==> PairsOf(ms[..n])[i] == PairsOf(ms)[i];
      EntriesOnce(ms[..n], f, p);
      assert ms == ms[..n] + [ms[n]];
      assert PairsOf(ms)[n] == Pair(ms[n].namespace, ms[n].service);
      assert PairsOf(ms) == PairsOf(ms[..n]) + [PairsOf(ms)[n]];
    }
  }

  /** A frame carries a pair's movements of its tick if the pair crossed the gate, and nothing otherwise. */
  lemma FrameAmount(o: Options, last: map<string, Families>, ts: seq<Target>,
                    frame: Option<seq<Protocol.ServiceLogMetrics>>, f: Field, p: Pair)
    requires FrameOf(o, last, ts, frame)
    ensures InFrame(frame, f, p) ==
            if p.service != "" && Reaches(o, last, ts, p) then TickTotal(o, last, ts, MetricOf(o, f), p) else 0
  {
    hide Reaches, TickTotal, TickSample;
    if frame.Some? {
      EntriesOnce(frame.value, f, p);
      hide Entries;
      if p in PairsOf(frame.value) {
        var i :| 0 <= i < |frame.value| && PairsOf(frame.value)[i] == p;
        assert frame.value[i] in frame.value;
        assert IsTick(o, last, ts, frame.value[i]);
      }
    }
  }

  /** The collector's memory before tick n, and the targets of that tick. */
  function LastBefore(ticks: seq<seq<Ev>>, n: nat): map<string, Families>
    requires n < |ticks|
  {
    After(Flat(ticks[..n])).last
  }

  function TargetsAt(ticks: seq<seq<Ev>>, n: nat): seq<Target>
    requires n < |ticks|
  {
    TargetsOf(Flat(ticks[..n]), ticks[n])
  }

  function TotalAt(o: Options, ticks: seq<seq<Ev>>, n: nat, metric: string, p: Pair): nat
    requires n < |ticks|
  {
    TickTotal(o, LastBefore(ticks, n), TargetsAt(ticks, n), metric, p)
  }

  /** The frames of a run's ticks, each as the collector makes it. */
  ghost predicate Framed(o: Options, ticks: seq<seq<Ev>>, frames: seq<Option<seq<Protocol.ServiceLogMetrics>>>) {
    && |frames| == |ticks|
    && forall n :: 0 <= n < |ticks| ==> FrameOf(o, LastBefore(ticks, n), TargetsAt(ticks, n), frames[n])
  }

  /** What the accepted frames add up to for a pair. */
  function Delivered(frames: seq<Option<seq<Protocol.ServiceLogMetrics>>>, links: seq<Link>, f: Field, p: Pair): nat
    requires |links| == |frames|
  {
    if frames == [] then 0
    else
      var n := |frames| - 1;
      Delivered(frames[..n], links[..n], f, p)
      + if links[n].connected && links[n].room then InFrame(frames[n], f, p) else 0
  }

  /** The pair's counts of a tick are sent: it has a service name and crosses the gate, a connection has been
      made, and its frame finds room. */
  ghost predicate GoesOut(o: Options, ticks: seq<seq<Ev>>, n: nat, l: Link, p: Pair)
    requires n < |ticks|
  {
    p.service != "" && Reaches(o, LastBefore(ticks, n), TargetsAt(ticks, n), p) && l.connected && l.room
  }

  lemma EarlierTick(o: Options, ticks: seq<seq<Ev>>, k: nat, l: Link, metric: string, p: Pair)
    requires k < |ticks| - 1
    ensures var front := ticks[..|ticks| - 1];
            && TotalAt(o, front, k, metric, p) == TotalAt(o, ticks, k, metric, p)
            && (GoesOut(o, front, k, l, p) <==> GoesOut(o, ticks, k, l, p))
  {
    hide TickTotal, After, TargetsOf, Flat, Reaches;
    assert ticks[..|ticks| - 1][..k] == ticks[..k];
  }

  lemma LastTick(o: Options, ticks: seq<seq<Ev>>, frames: seq<Option<seq<Protocol.ServiceLogMetrics>>>,
                 links: seq<Link>, f: Field, p: Pair)
    requires ticks != [] && Framed(o, ticks, frames) && |links| == |ticks|
    ensures var n := |ticks| - 1;
            && Framed(o, ticks[..n], frames[..n])
            && AllTicks(o, ticks, MetricOf(o, f), p) ==
                 AllTicks(o, ticks[..n], MetricOf(o, f), p) + TotalAt(o, ticks, n, MetricOf(o, f), p)
            && Delivered(frames, links, f, p) == Delivered(frames[..n], links[..n], f, p)
                 + if GoesOut(o, ticks, n, links[n], p) then TotalAt(o, ticks, n, MetricOf(o, f), p) else 0
  {
    hide TickTotal, After, TargetsOf, Flat, FrameOf, Reaches, InFrame, MetricOf;
    var n := |ticks| - 1;
    assert forall k :: 0 <= k < n ==> ticks[..n][..k] == ticks[..k];
    FrameAmount(o, LastBefore(ticks, n), TargetsAt(ticks, n), frames[n], f, p);
  }

  // ----- sums over ticks, item by item -----

  function Total(xs: seq<nat>): nat {
    if xs == [] then 0 else Total(xs[..|xs| - 1]) + xs[|xs| - 1]
  }

  function Kept(xs: seq<nat>, keep: seq<bool>): nat
    requires |keep| == |xs|
  {
    if xs == [] then 0
    else
      var n := |xs| - 1;
      Kept(xs[..n], keep[..n]) + if keep[n] then xs[n] else 0
  }

  lemma {:induction false} KeptIff(xs: seq<nat>, keep: seq<bool>)
    requires |keep| == |xs|
    ensures Kept(xs, keep) <= Total(xs)
    ensures Kept(xs, keep) == Total(xs) <==> forall n :: 0 <= n < |xs| && xs[n] != 0 ==> keep[n]
    ensures forall n :: 0 <= n < |xs| && !keep[n] ==> Kept(xs, keep) + xs[n] <= Total(xs)
  {
    if xs != [] {
      KeptIff(xs[..|xs| - 1], keep[..|xs| - 1]);
    }
  }

  function TotalsOf(o: Options, ticks: seq<seq<Ev>>, metric: string, p: Pair): (xs: seq<nat>)
    ensures |xs| == |ticks| && forall n :: 0 <= n < |ticks| ==> xs[n] == TotalAt(o, ticks, n, metric, p)
  {
    seq(|ticks|, n requires 0 <= n < |ticks| => TotalAt(o, ticks, n, metric, p))
  }

  ghost function SentOf(o: Options, ticks: seq<seq<Ev>>, links: seq<Link>, p: Pair): (sent: seq<bool>)
    requires |links| == |ticks|
    ensures |sent| == |ticks| && forall n :: 0 <= n < |ticks| ==> (sent[n] <==> GoesOut(o, ticks, n, links[n], p))
  {
    seq(|ticks|, n requires 0 <= n < |ticks| => GoesOut(o, ticks, n, links[n], p))
  }

  lemma Fronts(o: Options, ticks: seq<seq<Ev>>, links: seq<Link>, metric: string, p: Pair)
    requires ticks != [] && |links| == |ticks|
    ensures var n := |ticks| - 1;
            && TotalsOf(o, ticks[..n], metric, p) == TotalsOf(o, ticks, metric, p)[..n]
            && SentOf(o, ticks[..n], links[..n], p) == SentOf(o, ticks, links, p)[..n]
  {
    hide TotalAt, GoesOut, SentOf, TotalsOf;
    var n := |ticks| - 1;
    forall k | 0 <= k < n
      ensures TotalsOf(o, ticks[..n], metric, p)[k] == TotalsOf(o, ticks, metric, p)[k]
      ensures SentOf(o, ticks[..n], links[..n], p)[k] == SentOf(o, ticks, links, p)[k]
    {
      EarlierTick(o, ticks, k, links[k], metric, p);
    }
  }

  lemma {:induction false} Itemised(o: Options, ticks: seq<seq<Ev>>,
                                    frames: seq<Option<seq<Protocol.ServiceLogMetrics>>>, links: seq<Link>,
                                    f: Field, p: Pair)
    requires Framed(o, ticks, frames) && |links| == |ticks|
    ensures AllTicks(o, ticks, MetricOf(o, f), p) == Total(TotalsOf(o, ticks, MetricOf(o, f), p))
    ensures Delivered(frames, links, f, p) == Kept(TotalsOf(o, ticks, MetricOf(o, f), p), SentOf(o, ticks, links, p))
  {
    hide TotalAt, GoesOut, SentOf, TotalsOf, Flat, MetricOf;
    if ticks != [] {
      var n := |ticks| - 1;
      LastTick(o, ticks, frames, links, f, p);
      hide Framed, AllTicks, Delivered;
      Itemised(o, ticks[..n], frames[..n], links[..n], f, p);
      Fronts(o, ticks, links, MetricOf(o, f), p);
    }
  }

  /** What reaches the queue never exceeds what happened, and it is all that the collector computed if and
      only if every tick with a movement of the pair crossed the gate, was connected and found room. */
  lemma DeliveredIff(o: Options, ticks: seq<seq<Ev>>, frames: seq<Option<seq<Protocol.ServiceLogMetrics>>>,
                     links: seq<Link>, f: Field, p: Pair)
    requires p != NOBODY && Framed(o, ticks, frames) && |links| == |ticks|
    ensures Delivered(frames, links, f, p) <= AllTicks(o, ticks, MetricOf(o, f), p) <=
            Happened(o, Flat(ticks), MetricOf(o, f), p)
    ensures Delivered(frames, links, f, p) == AllTicks(o, ticks, MetricOf(o, f), p) <==>
            forall n :: 0 <= n < |ticks| && TotalAt(o, ticks, n, MetricOf(o, f), p) != 0 ==>
                GoesOut(o, ticks, n, links[n], p)
  {
    hide TotalAt, GoesOut, Flat, MetricOf, Happened, AllTicks, TotalsOf, SentOf, Kept, Total;
    TicksNeverOverReport(o, ticks, MetricOf(o, f), p);
    Itemised(o, ticks, frames, links, f, p);
    hide Framed, Delivered;
    KeptIff(TotalsOf(o, ticks, MetricOf(o, f), p), SentOf(o, ticks, links, p));
  }

  /** The counts of a tick that is not sent are gone: whatever ticks come before and after it, what reaches
      the queue falls short of what was computed by at least them. */
  lemma DroppedIsGone(o: Options, ticks: seq<seq<Ev>>, frames: seq<Option<seq<Protocol.ServiceLogMetrics>>>,
                      links: seq<Link>, n: nat, f: Field, p: Pair)
    requires Framed(o, ticks, frames) && |links| == |ticks|
    requires n < |ticks| && !GoesOut(o, ticks, n, links[n], p)
    ensures Delivered(frames, links, f, p) + TotalAt(o, ticks, n, MetricOf(o, f), p) <=
            AllTicks(o, ticks, MetricOf(o, f), p)
  {
    hide TotalAt, GoesOut, Flat, MetricOf, AllTicks, TotalsOf, SentOf, Kept, Total;
    Itemised(o, ticks, frames, links, f, p);
    hide Framed, Delivered;
    KeptIff(TotalsOf(o, ticks, MetricOf(o, f), p), SentOf(o, ticks, links, p));
    assert !SentOf(o, ticks, links, p)[n];
  }

  const CART := Pair("shop", "cart")
  const SMALL := Options("errors", "warns", "lines", "namespace", "service", "fallback", "", 1)
  const LABELS := [Label("namespace", "shop"), Label("service", "cart")]
  const LINE_AND_SCRAPE := [LogLine("pod", "errors", LABELS), Scrape("pod")]

  lemma LineThenScrape(run: seq<Ev>)
    requires Base(SMALL, run, "pod", "errors", CART) == Now(SMALL, run, "pod", "errors", CART)
    ensures var run', p := run + LINE_AND_SCRAPE, CART;
            && Reported(SMALL, run', "errors", p) == Reported(SMALL, run, "errors", p) + 1
            && Happened(SMALL, run', "errors", p) == Happened(SMALL, run, "errors", p) + 1
            && Base(SMALL, run', "pod", "errors", p) == Now(SMALL, run', "pod", "errors", p)
  {
    var line, p := LogLine("pod", "errors", LABELS), CART;
    assert PairOf(SMALL, LABELS) == p;
    var mid := run + [line];
    assert run + LINE_AND_SCRAPE == mid + [Scrape("pod")];
    assert mid[..|run|] == run && (mid + [Scrape("pod")])[..|mid|] == mid;
    CounterAfter(SMALL, run, line, "pod", "errors", p);
    CounterAfter(SMALL, mid, Scrape("pod"), "pod", "errors", p);
    hide Now, Base, PairOf;
  }

  const TWO_TICKS := [LINE_AND_SCRAPE, LINE_AND_SCRAPE]

  lemma TwoFlat()
    ensures Flat(TWO_TICKS[..1]) == LINE_AND_SCRAPE && Flat(TWO_TICKS) == LINE_AND_SCRAPE + LINE_AND_SCRAPE
  {
    hide LINE_AND_SCRAPE;
    assert TWO_TICKS[..1] == [LINE_AND_SCRAPE] && [LINE_AND_SCRAPE][..0] == [];
    assert Flat([]) == [] && Flat([LINE_AND_SCRAPE]) == [] + LINE_AND_SCRAPE == LINE_AND_SCRAPE;
  }

  lemma TwoTicks()
    ensures TotalAt(SMALL, TWO_TICKS, 1, "errors", CART) == 1
    ensures Happened(SMALL, Flat(TWO_TICKS), "errors", CART) == 2
  {
    TwoFlat();
    Initially(SMALL, "pod", "errors", CART);
    assert Happened(SMALL, [], "errors", CART) == 0;
    hide TickTotal, After, TargetsOf, Flat, Now, Base, LINE_AND_SCRAPE, SMALL, CART, Happened, Reported;
    assert [] + LINE_AND_SCRAPE == LINE_AND_SCRAPE;
    LineThenScrape([]);
    LineThenScrape(LINE_AND_SCRAPE);
    TickAddsUp(SMALL, LINE_AND_SCRAPE, LINE_AND_SCRAPE, "errors", CART);
  }

  /** The next scrape does not recover a dropped frame: two errors are logged, one before each of two ticks;
      the first tick's frame finds the queue full, the second is sent; one error is delivered. */
  lemma DroppedNotRecovered(frames: seq<Option<seq<Protocol.ServiceLogMetrics>>>)
    requires Framed(SMALL, TWO_TICKS, frames)
    ensures Delivered(frames, [Link(true, false), Link(true, true)], Errors, CART) == 1
    ensures Happened(SMALL, Flat(TWO_TICKS), "errors", CART) == 2
  {
    var links := [Link(true, false), Link(true, true)];
    TwoTicks();
    hide TotalAt, Flat, Happened, LINE_AND_SCRAPE, LastBefore, TargetsAt;
    LastTick(SMALL, TWO_TICKS, frames, links, Errors, CART);
    LastTick(SMALL, TWO_TICKS[..1], frames[..1], links[..1], Errors, CART);
    assert GoesOut(SMALL, TWO_TICKS, 1, links[1], CART) by { TotalReaches(TWO_TICKS, 1); }
    hide AllTicks, Framed, Reaches;
  }

  lemma TotalReaches(ticks: seq<seq<Ev>>, n: nat)
    requires n < |ticks| && TotalAt(SMALL, ticks, n, "errors", CART) >= 1
    ensures GoesOut(SMALL, ticks, n, Link(true, true), CART)
  {
    hide TickTotal, LastBefore, TargetsAt;
  }

  // ----- telescoping -----

  /** A counter's value at each successful scrape of an endpoint. */
  function Values(o: Options, run: seq<Ev>, a: string, metric: string, p: Pair): seq<nat> {
    if run == [] then []
    else
      var pre := run[..|run| - 1];
      Values(o, pre, a, metric, p) + if run[|run| - 1] == Scrape(a) then [Now(o, pre, a, metric, p)] else []
  }

  function LastValue(vs: seq<nat>): nat {
    if vs == [] then 0 else vs[|vs| - 1]
  }

  /** The values held just before each drop. */
  function HeldBeforeDrops(vs: seq<nat>): nat {
    if vs == [] then 0
    else
      var pre := vs[..|vs| - 1];
      HeldBeforeDrops(pre) + if vs[|vs| - 1] < LastValue(pre) then LastValue(pre) else 0
  }

  /** Telescoping: the deltas of an endpoint sum to its last scraped value plus the values it held just
      before each drop; scrapes of other endpoints and failed scrapes do not matter. */
  lemma {:induction false} Telescoping(o: Options, run: seq<Ev>, a: string, metric: string, p: Pair)
    requires p != NOBODY
    ensures var vs := Values(o, run, a, metric, p);
            && ReportedAt(o, run, a, metric, p) == LastValue(vs) + HeldBeforeDrops(vs)
            && Base(o, run, a, metric, p) == LastValue(vs)
  {
    hide Now, Base, Movement;
    if run == [] {
      Initially(o, a, metric, p);
    } else {
      var pre, e := run[..|run| - 1], run[|run| - 1];
      assert pre + [e] == run;
      Telescoping(o, pre, a, metric, p);
      CounterAfter(o, pre, e, a, metric, p);
      var vs := Values(o, pre, a, metric, p);
      if e == Scrape(a) {
        assert (vs + [Now(o, pre, a, metric, p)])[..|vs|] == vs;
      } else {
        assert Values(o, run, a, metric, p) == vs;
      }
      if e.addr == a && !e.Scrape? { NoMovement(o, pre, e, metric, p); }
    }
  }

  lemma NoMovement(o: Options, pre: seq<Ev>, e: Ev, metric: string, p: Pair)
    requires !e.Scrape?
    ensures Movement(o, pre, e, metric, p) == 0
  {
  }
}
