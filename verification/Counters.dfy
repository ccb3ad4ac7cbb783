/** Per-endpoint counter deltas (logmetrics/deltas.go) and the collector's tick (logmetrics/collector.go).
    Counter values are natural numbers. */
module Counters {
  import opened Text
  import Protocol

  datatype Label = Label(name: string, value: string)
  datatype Sample = Sample(labels: seq<Label>, value: nat)

  /** A parsed scrape: the samples of each metric family; an absent family has no entry. */
  type Families = map<string, seq<Sample>>

  datatype Pair = Pair(namespace: string, service: string)

  const NOBODY := Pair("", "")

  datatype Options = Options(errorMetric: string, warnMetric: string, totalMetric: string,
                             namespaceLabel: string, serviceLabel: string, serviceLabelFallback: string,
                             sampleLabel: string, threshold: int)

  function Or(s: string, default: string): string {
    if s == "" then default else s
  }

  /** Defaults replace every empty name, so no metric and no fallback label can be switched off. */
  function WithDefaults(o: Options): (r: Options)
    ensures Usable(r)
    ensures o.errorMetric != "" ==> r.errorMetric == o.errorMetric
    ensures o.warnMetric != "" ==> r.warnMetric == o.warnMetric
    ensures o.totalMetric != "" ==> r.totalMetric == o.totalMetric
    ensures o.namespaceLabel != "" ==> r.namespaceLabel == o.namespaceLabel
    ensures o.serviceLabel != "" ==> r.serviceLabel == o.serviceLabel
    ensures o.serviceLabelFallback != "" ==> r.serviceLabelFallback == o.serviceLabelFallback
    ensures r.serviceLabelFallback != "" && r.sampleLabel == o.sampleLabel
    ensures o.threshold > 0 ==> r.threshold == o.threshold
    ensures o.threshold <= 0 ==> r.threshold == 10
  {
    Options(
      Or(o.errorMetric, "log_metric_counter_log_errors_total"),
      Or(o.warnMetric, "log_metric_counter_log_warns_total"),
      Or(o.totalMetric, "log_metric_counter_log_lines_total"),
      Or(o.namespaceLabel, "namespace"), Or(o.serviceLabel, "service"), Or(o.serviceLabelFallback, "service_fallback"),
      o.sampleLabel,
      if o.threshold <= 0 then 10 else o.threshold)
  }

  predicate Usable(o: Options) {
    o.errorMetric != "" && o.warnMetric != "" && o.totalMetric != "" && o.threshold > 0
  }

  // ----- attribution -----

  /** The first label of that name, or "". */
  function LabelValue(ls: seq<Label>, name: string): string {
    if ls == [] then "" else if ls[0].name == name then ls[0].value else LabelValue(ls[1..], name)
  }

  function ServiceOf(o: Options, ls: seq<Label>): string {
    var v := LabelValue(ls, o.serviceLabel);
    if v != "" then v
    else if o.serviceLabelFallback != "" then LabelValue(ls, o.serviceLabelFallback)
    else ""
  }

  function PairOf(o: Options, ls: seq<Label>): Pair {
    Pair(LabelValue(ls, o.namespaceLabel), ServiceOf(o, ls))
  }

  /** The value of a label: that of the first one of the name, "" if there is none. */
  ghost predicate HasValue(ls: seq<Label>, name: string, v: string) {
    || (v == "" && forall i :: 0 <= i < |ls| ==> ls[i].name != name)
    || exists i :: && 0 <= i < |ls| && ls[i].name == name && ls[i].value == v
                   && forall j :: 0 <= j < i ==> ls[j].name != name
  }

  lemma {:induction false} LabelValueIff(ls: seq<Label>, name: string, v: string)
    ensures HasValue(ls, name, v) <==> LabelValue(ls, name) == v
  {
    if ls != [] {
      assert forall i :: 0 < i < |ls| ==> ls[i] == ls[1..][i - 1];
      if ls[0].name != name {
        LabelValueIff(ls[1..], name, v);
        if i :| && 0 <= i < |ls| - 1 && ls[1..][i].name == name && ls[1..][i].value == v
                && forall j :: 0 <= j < i ==> ls[1..][j].name != name {
          assert ls[i + 1].name == name && forall j :: 0 <= j < i + 1 ==> ls[j].name != name;
        }
        if i :| && 0 <= i < |ls| && ls[i].name == name && ls[i].value == v
                && forall j :: 0 <= j < i ==> ls[j].name != name {
          assert ls[1..][i - 1].name == name && forall j :: 0 <= j < i - 1 ==> ls[1..][j].name != name;
        }
      }
    }
  }

  /** Whom a sample belongs to: the namespace its namespace label names; the service its service label names
      and, only when that is absent or empty, the one its fallback label names, if there is such a label. */
  ghost predicate BelongsTo(o: Options, ls: seq<Label>, p: Pair) {
    && HasValue(ls, o.namespaceLabel, p.namespace)
    && (if !HasValue(ls, o.serviceLabel, "") then HasValue(ls, o.serviceLabel, p.service)
        else if o.serviceLabelFallback != "" then HasValue(ls, o.serviceLabelFallback, p.service)
        else p.service == "")
  }

  /** Every sample belongs to exactly one pair, the one it is attributed to. */
  lemma BelongsIff(o: Options, ls: seq<Label>, p: Pair)
    ensures BelongsTo(o, ls, p) <==> PairOf(o, ls) == p
  {
    LabelValueIff(ls, o.namespaceLabel, p.namespace);
    LabelValueIff(ls, o.serviceLabel, p.service);
    LabelValueIff(ls, o.serviceLabel, "");
    LabelValueIff(ls, o.serviceLabelFallback, p.service);
    hide HasValue, LabelValue;
  }

  /** A service label wins, whatever the other labels say. */
  lemma ServiceLabelWins(o: Options, ls: seq<Label>, i: nat, p: Pair)
    requires i < |ls| && ls[i].name == o.serviceLabel && ls[i].value != ""
    requires forall j :: 0 <= j < i ==> ls[j].name != o.serviceLabel
    requires PairOf(o, ls) == p
    ensures p.service == ls[i].value
  {
    BelongsIff(o, ls, p);
    LabelValueIff(ls, o.serviceLabel, "");
    LabelValueIff(ls, o.serviceLabel, ls[i].value);
    LabelValueIff(ls, o.serviceLabel, p.service);
    assert HasValue(ls, o.serviceLabel, ls[i].value);
    hide HasValue, LabelValue;
  }

  /** The sum of the samples attributed to a pair. */
  function SumFor(o: Options, fam: seq<Sample>, p: Pair): nat {
    if fam == [] then 0
    else SumFor(o, fam[..|fam| - 1], p) + if PairOf(o, fam[|fam| - 1].labels) == p then fam[|fam| - 1].value else 0
  }

  /** A sample adds its value to the pair it belongs to and to no other. */
  lemma SumAdds(o: Options, fam: seq<Sample>, s: Sample, p: Pair)
    ensures SumFor(o, [], p) == 0
    ensures SumFor(o, fam + [s], p) == SumFor(o, fam, p) + if BelongsTo(o, s.labels, p) then s.value else 0
  {
    BelongsIff(o, s.labels, p);
    assert (fam + [s])[..|fam|] == fam;
    hide BelongsTo, PairOf;
  }

  predicate Attributed(o: Options, fam: seq<Sample>, p: Pair) {
    exists i :: 0 <= i < |fam| && PairOf(o, fam[i].labels) == p
  }

  lemma {:induction false} SumOfStrangers(o: Options, fam: seq<Sample>, p: Pair)
    requires !Attributed(o, fam, p)
    ensures SumFor(o, fam, p) == 0
  {
    if fam != [] {
      var n := |fam| - 1;
      assert forall i :: 0 <= i < n ==> fam[..n][i] == fam[i];
      SumOfStrangers(o, fam[..n], p);
    }
  }

  function Family(fams: Families, metric: string): seq<Sample> {
    if metric in fams then fams[metric] else []
  }

  type PairCounts = map<Pair, nat>

  function At(m: PairCounts, p: Pair): nat {
    if p in m then m[p] else 0
  }

  /** sumByServicePair: every attributable pair of the family with its sum. */
  method SumByServicePair(o: Options, fam: seq<Sample>) returns (out: PairCounts)
    ensures forall p :: p in out <==> p != NOBODY && Attributed(o, fam, p)
    ensures forall p :: p in out ==> out[p] == SumFor(o, fam, p)
    ensures forall p :: p != NOBODY ==> At(out, p) == SumFor(o, fam, p)
    ensures forall p :: p in out <==> p != NOBODY && exists i :: 0 <= i < |fam| && BelongsTo(o, fam[i].labels, p)
  {
    out := map[];
    for i := 0 to |fam|
      invariant forall p :: p in out <==> p != NOBODY && Attributed(o, fam[..i], p)
      invariant forall p :: p in out ==> out[p] == SumFor(o, fam[..i], p)
    {
      var pair := PairOf(o, fam[i].labels);
      OneMoreSample(o, fam, i);
      hide Attributed, SumFor, PairOf;
      if pair.namespace == "" && pair.service == "" {
        continue;
      }
      if pair !in out {
        SumOfStrangers(o, fam[..i], pair);
      }
      out := out[pair := At(out, pair) + fam[i].value];
    }
    assert fam[..|fam|] == fam;
    forall p | p != NOBODY && p !in out ensures SumFor(o, fam, p) == 0 {
      SumOfStrangers(o, fam, p);
    }
    forall p { AttributedIff(o, fam, p); }
    hide Attributed, BelongsTo, SumFor;
  }

  lemma AttributedIff(o: Options, fam: seq<Sample>, p: Pair)
    ensures Attributed(o, fam, p) <==> exists i :: 0 <= i < |fam| && BelongsTo(o, fam[i].labels, p)
  {
    forall i | 0 <= i < |fam| ensures BelongsTo(o, fam[i].labels, p) <==> PairOf(o, fam[i].labels) == p {
      BelongsIff(o, fam[i].labels, p);
    }
    hide BelongsTo, PairOf;
  }

  lemma OneMoreSample(o: Options, fam: seq<Sample>, i: nat)
    requires i < |fam|
    ensures var pair := PairOf(o, fam[i].labels);
            forall p ::
              && Attributed(o, fam[..i + 1], p) == (Attributed(o, fam[..i], p) || p == pair)
              && SumFor(o, fam[..i + 1], p) == SumFor(o, fam[..i], p) + if p == pair then fam[i].value else 0
  {
    assert fam[..i + 1][..i] == fam[..i];
    forall p { AttributedSnoc(o, fam, i, p); }
    hide Attributed, PairOf;
  }

  lemma AttributedSnoc(o: Options, fam: seq<Sample>, i: nat, p: Pair)
    requires i < |fam|
    ensures Attributed(o, fam[..i + 1], p) == (Attributed(o, fam[..i], p) || p == PairOf(o, fam[i].labels))
  {
    if Attributed(o, fam[..i], p) {
      var k :| 0 <= k < i && PairOf(o, fam[..i][k].labels) == p;
      assert fam[..i + 1][k] == fam[..i][k];
    }
    if Attributed(o, fam[..i + 1], p) {
      var k :| 0 <= k < i + 1 && PairOf(o, fam[..i + 1][k].labels) == p;
      assert k < i ==> fam[..i][k] == fam[..i + 1][k];
    }
    assert fam[..i + 1][i] == fam[i];
  }

  /** The first non-empty sample text of a pair. */
  function SampleFor(o: Options, fam: seq<Sample>, p: Pair): string {
    if fam == [] then ""
    else if PairOf(o, fam[0].labels) == p && LabelValue(fam[0].labels, o.sampleLabel) != ""
    then LabelValue(fam[0].labels, o.sampleLabel)
    else SampleFor(o, fam[1..], p)
  }

  lemma {:induction false} SampleForSnoc(o: Options, fam: seq<Sample>, s: Sample, p: Pair)
    ensures SampleFor(o, fam + [s], p) ==
            if SampleFor(o, fam, p) != "" then SampleFor(o, fam, p)
            else if PairOf(o, s.labels) == p then LabelValue(s.labels, o.sampleLabel) else ""
  {
    if fam == [] {
      assert fam + [s] == [s];
      assert SampleFor(o, [s][1..], p) == "";
    } else {
      assert (fam + [s])[1..] == fam[1..] + [s];
      SampleForSnoc(o, fam[1..], s, p);
    }
  }

  method SampleByServicePair(o: Options, fam: seq<Sample>) returns (out: map<Pair, string>)
    ensures forall p :: p in out <==> SampleFor(o, fam, p) != ""
    ensures forall p :: p in out ==> out[p] == SampleFor(o, fam, p)
  {
    out := map[];
    for i := 0 to |fam|
      invariant forall p :: p in out <==> SampleFor(o, fam[..i], p) != ""
      invariant forall p :: p in out ==> out[p] == SampleFor(o, fam[..i], p)
    {
      var pair := PairOf(o, fam[i].labels);
      assert fam[..i + 1] == fam[..i] + [fam[i]];
      forall p { SampleForSnoc(o, fam[..i], fam[i], p); }
      if pair in out {
        continue;
      }
      var v := LabelValue(fam[i].labels, o.sampleLabel);
      if v != "" {
        out := out[pair := v];
      }
    }
    assert fam[..|fam|] == fam;
  }

  // ----- deltas -----

  /** Movement of a cumulative counter; a drop is read as a reset. */
  function CounterDelta(prev: nat, cur: nat): nat {
    if cur < prev then cur else cur - prev
  }

  datatype Delta = Delta(errors: nat, warns: nat, total: nat, sample: string)

  const ZERO := Delta(0, 0, 0, "")

  function DeltaOf(out: map<Pair, Delta>, p: Pair): Delta {
    if p in out then out[p] else ZERO
  }

  /** One endpoint's last scrape, by metric name. */
  type EndpointCounters = map<string, PairCounts>

  function Count(e: EndpointCounters, metric: string, p: Pair): nat {
    if metric in e then At(e[metric], p) else 0
  }

  predicate Scraped(o: Options, metric: string) {
    metric in {o.errorMetric, o.warnMetric, o.totalMetric}
  }

  /** The stored counters mirror a scrape. */
  ghost predicate Mirrors(o: Options, e: EndpointCounters, fams: Families) {
    forall metric, p :: Scraped(o, metric) && p != NOBODY ==> Count(e, metric, p) == SumFor(o, Family(fams, metric), p)
  }

  /** An endpoint's baseline, empty before its first successful scrape. */
  function Baseline(prev: map<string, EndpointCounters>, addr: string): EndpointCounters {
    if addr in prev then prev[addr] else map[]
  }

  /** The movement of one counter between a baseline and a scrape. */
  function Moved(o: Options, base: EndpointCounters, fams: Families, metric: string, p: Pair): nat {
    if p == NOBODY then 0 else CounterDelta(Count(base, metric, p), SumFor(o, Family(fams, metric), p))
  }

  datatype Field = Errors | Warns | Total

  function Get(d: Delta, f: Field): nat {
    match f case Errors => d.errors case Warns => d.warns case Total => d.total
  }

  function Put(d: Delta, f: Field, n: nat): Delta {
    match f case Errors => d.(errors := n) case Warns => d.(warns := n) case Total => d.(total := n)
  }

  function MetricOf(o: Options, f: Field): string {
    match f case Errors => o.errorMetric case Warns => o.warnMetric case Total => o.totalMetric
  }

  function Series(e: EndpointCounters, metric: string): PairCounts {
    if metric in e then e[metric] else map[]
  }

  /** One pair's movement within a metric; a pair that is no longer exported does not move. */
  function Movement(prev: PairCounts, cur: PairCounts, p: Pair): nat {
    if p in cur then CounterDelta(At(prev, p), cur[p]) else 0
  }

  /** Merging one metric's movements into the result, one pair at a time in any order. */
  method MergeMetric(before: map<Pair, Delta>, f: Field, prev: PairCounts, cur: PairCounts)
    returns (out: map<Pair, Delta>)
    requires forall p :: Get(DeltaOf(before, p), f) == 0
    ensures forall p :: DeltaOf(out, p) == Put(DeltaOf(before, p), f, Movement(prev, cur, p))
  {
    out := before;
    var left := cur.Keys;
    while left != {}
      invariant left <= cur.Keys
      invariant forall p ::
                  DeltaOf(out, p) == Put(DeltaOf(before, p), f, if p in left then 0 else Movement(prev, cur, p))
      decreases left
    {
      var p :| p in left;
      out := out[p := Put(DeltaOf(out, p), f, CounterDelta(At(prev, p), cur[p]))];
      left := left - {p};
    }
  }

  method MergeSamples(before: map<Pair, Delta>, samples: map<Pair, string>) returns (out: map<Pair, Delta>)
    ensures forall p ::
              DeltaOf(out, p) == if p in samples then DeltaOf(before, p).(sample := samples[p]) else DeltaOf(before, p)
  {
    out := before;
    var left := samples.Keys;
    while left != {}
      invariant left <= samples.Keys
      invariant forall p :: DeltaOf(out, p) ==
                  if p in samples.Keys - left then DeltaOf(before, p).(sample := samples[p]) else DeltaOf(before, p)
      decreases left
    {
      var p :| p in left;
      out := out[p := DeltaOf(out, p).(sample := samples[p])];
      left := left - {p};
    }
  }

  /** Every scraped metric is present, without the unattributable pair. */
  ghost predicate Complete(o: Options, e: EndpointCounters) {
    forall metric :: Scraped(o, metric) ==> metric in e && NOBODY !in e[metric]
  }

  method CurrentCounters(o: Options, fams: Families) returns (cur: EndpointCounters)
    ensures Complete(o, cur) && Mirrors(o, cur, fams)
  {
    hide BelongsTo, Attributed, SumFor;
    var errors := SumByServicePair(o, Family(fams, o.errorMetric));
    var warns := SumByServicePair(o, Family(fams, o.warnMetric));
    var totals := SumByServicePair(o, Family(fams, o.totalMetric));
    cur := map[o.errorMetric := errors];
    cur := cur[o.warnMetric := warns];
    cur := cur[o.totalMetric := totals];
  }

  /** What a merged metric says, in terms of the scrape. */
  lemma MovedIs(o: Options, base: EndpointCounters, cur: EndpointCounters, fams: Families, f: Field, p: Pair)
    requires Complete(o, cur) && Mirrors(o, cur, fams)
    ensures var m := MetricOf(o, f);
            Moved(o, base, fams, m, p) == Movement(Series(base, m), Series(cur, m), p)
  {
    assert Scraped(o, MetricOf(o, f));
    assert p != NOBODY ==> Count(cur, MetricOf(o, f), p) == SumFor(o, Family(fams, MetricOf(o, f)), p);
  }

  /** The result map of a scrape: three merges and the sample texts. */
  method Diff(o: Options, base: EndpointCounters, cur: EndpointCounters, fams: Families) returns (out: map<Pair, Delta>)
    requires Complete(o, cur) && Mirrors(o, cur, fams)
    ensures forall p, f :: Get(DeltaOf(out, p), f) == Moved(o, base, fams, MetricOf(o, f), p)
    ensures forall p ::
              DeltaOf(out, p).sample == if o.sampleLabel == "" then "" else SampleFor(o, Family(fams, o.errorMetric), p)
  {
    hide Moved, CounterDelta, Mirrors, SumFor, SampleFor, Complete, Movement;
    var a := MergeMetric(map[], Errors, Series(base, o.errorMetric), Series(cur, o.errorMetric));
    var b := MergeMetric(a, Warns, Series(base, o.warnMetric), Series(cur, o.warnMetric));
    var c := MergeMetric(b, Total, Series(base, o.totalMetric), Series(cur, o.totalMetric));
    forall p
      ensures forall f :: Get(DeltaOf(c, p), f) == Moved(o, base, fams, MetricOf(o, f), p)
      ensures DeltaOf(c, p).sample == ""
    {
      MovedIs(o, base, cur, fams, Errors, p);
      MovedIs(o, base, cur, fams, Warns, p);
      MovedIs(o, base, cur, fams, Total, p);
      assert DeltaOf(c, p) == Delta(Movement(Series(base, o.errorMetric), Series(cur, o.errorMetric), p),
                                    Movement(Series(base, o.warnMetric), Series(cur, o.warnMetric), p),
                                    Movement(Series(base, o.totalMetric), Series(cur, o.totalMetric), p), "");
      hide Series, DeltaOf;
    }
    if o.sampleLabel == "" {
      return c;
    }
    var samples := SampleByServicePair(o, Family(fams, o.errorMetric));
    out := MergeSamples(c, samples);
  }

  // ----- what a tick adds up to, in terms of scrapes -----

  /** The last successful scrape of an endpoint. */
  function LastOf(last: map<string, Families>, addr: string): Families {
    if addr in last then last[addr] else map[]
  }

  /** The movement of one counter between an endpoint's last scrape and this one. */
  function MovedSince(o: Options, last: map<string, Families>, addr: string, fams: Families, metric: string,
                      p: Pair): nat {
    if p == NOBODY then 0
    else CounterDelta(SumFor(o, Family(LastOf(last, addr), metric), p), SumFor(o, Family(fams, metric), p))
  }

  /** One endpoint of a tick and what its scrape returned, None if it failed. */
  datatype Target = Target(addr: string, scrape: Option<Families>)

  function LastAfter(last: map<string, Families>, ts: seq<Target>): map<string, Families> {
    if ts == [] then last
    else
      var t, l := ts[|ts| - 1], LastAfter(last, ts[..|ts| - 1]);
      if t.scrape.Some? then l[t.addr := t.scrape.value] else l
  }

  /** A pair's movement over all endpoints of a tick. */
  function TickTotal(o: Options, last: map<string, Families>, ts: seq<Target>, metric: string, p: Pair): nat {
    if ts == [] then 0
    else
      var t, front := ts[|ts| - 1], ts[..|ts| - 1];
      TickTotal(o, last, front, metric, p)
      + if t.scrape.Some? then MovedSince(o, LastAfter(last, front), t.addr, t.scrape.value, metric, p) else 0
  }

  function ScrapeSample(o: Options, fams: Families, p: Pair): string {
    if o.sampleLabel == "" then "" else SampleFor(o, Family(fams, o.errorMetric), p)
  }

  /** The first sample text of a pair among the endpoints of a tick, truncated. */
  function TickSample(o: Options, ts: seq<Target>, p: Pair): string {
    if ts == [] then ""
    else
      var t, s := ts[|ts| - 1], TickSample(o, ts[..|ts| - 1], p);
      if s == "" && t.scrape.Some? then Protocol.TruncateSample(ScrapeSample(o, t.scrape.value, p)) else s
  }

  lemma SampleSnoc(o: Options, ts: seq<Target>, t: Target, p: Pair)
    ensures TickSample(o, ts + [t], p) ==
            if TickSample(o, ts, p) != "" then TickSample(o, ts, p)
            else if t.scrape.Some? then Protocol.TruncateSample(ScrapeSample(o, t.scrape.value, p)) else ""
  {
    assert (ts + [t])[..|ts|] == ts;
  }

  /** Sample i of a family belongs to the pair and carries that text. */
  ghost predicate Carries(o: Options, fam: seq<Sample>, i: int, p: Pair, v: string) {
    0 <= i < |fam| && BelongsTo(o, fam[i].labels, p) && HasValue(fam[i].labels, o.sampleLabel, v)
  }

  lemma {:induction false} SampleForIff(o: Options, fam: seq<Sample>, p: Pair, v: string)
    requires v != ""
    ensures SampleFor(o, fam, p) == v <==>
            exists i :: Carries(o, fam, i, p, v) && forall j, w :: 0 <= j < i && w != "" ==> !Carries(o, fam, j, p, w)
  {
    if fam != [] {
      var n := |fam| - 1;
      var front, s := fam[..n], fam[n];
      assert fam == front + [s];
      SampleForIff(o, front, p, v);
      SampleForSnoc(o, front, s, p);
      CarriesIff(o, fam, n, p);
      FrontCarries(o, front, s, p);
      var last := LabelValue(s.labels, o.sampleLabel);
      assert Carries(o, fam, n, p, last) <==> PairOf(o, s.labels) == p;
      SampleForNone(o, front, p);
      hide SampleFor, Carries, PairOf, LabelValue;
      if i :| Carries(o, fam, i, p, v) && forall j, w :: 0 <= j < i && w != "" ==> !Carries(o, fam, j, p, w) {
        if i < n { assert Carries(o, front, i, p, v); }
      }
      if i :| Carries(o, front, i, p, v) && forall j, w :: 0 <= j < i && w != "" ==> !Carries(o, front, j, p, w) {
        assert Carries(o, fam, i, p, v);
      }
    }
  }

  lemma FrontCarries(o: Options, front: seq<Sample>, s: Sample, p: Pair)
    ensures forall i, v :: i < |front| && Carries(o, front + [s], i, p, v) ==> Carries(o, front, i, p, v)
    ensures forall i, v :: Carries(o, front, i, p, v) ==> i < |front| && Carries(o, front + [s], i, p, v)
    ensures forall i, v :: Carries(o, front + [s], i, p, v) ==> i <= |front|
  {
    hide BelongsTo, HasValue;
  }

  lemma CarriesIff(o: Options, fam: seq<Sample>, i: nat, p: Pair)
    requires i < |fam|
    ensures forall v :: Carries(o, fam, i, p, v) <==>
              PairOf(o, fam[i].labels) == p && LabelValue(fam[i].labels, o.sampleLabel) == v
  {
    BelongsIff(o, fam[i].labels, p);
    forall v { LabelValueIff(fam[i].labels, o.sampleLabel, v); }
    hide BelongsTo, HasValue, PairOf, LabelValue;
  }

  lemma {:induction false} SampleForNone(o: Options, fam: seq<Sample>, p: Pair)
    ensures SampleFor(o, fam, p) == "" <==> forall i, v :: v != "" ==> !Carries(o, fam, i, p, v)
  {
    if fam != [] {
      var n := |fam| - 1;
      var front, s := fam[..n], fam[n];
      assert fam == front + [s];
      SampleForNone(o, front, p);
      SampleForSnoc(o, front, s, p);
      CarriesIff(o, fam, n, p);
      FrontCarries(o, front, s, p);
      var last := LabelValue(s.labels, o.sampleLabel);
      assert Carries(o, fam, n, p, last) <==> PairOf(o, s.labels) == p;
      hide SampleFor, Carries, PairOf, LabelValue;
    }
  }

  /** A scrape's sample text of a pair: the first non-empty one in the error family, if a sample label is
      configured. */
  lemma ScrapeSampleIff(o: Options, fams: Families, p: Pair, v: string)
    requires v != ""
    ensures ScrapeSample(o, fams, p) == v <==>
            && o.sampleLabel != "" && o.errorMetric in fams
            && exists i :: && Carries(o, fams[o.errorMetric], i, p, v)
                           && forall j, w :: 0 <= j < i && w != "" ==> !Carries(o, fams[o.errorMetric], j, p, w)
  {
    SampleForIff(o, Family(fams, o.errorMetric), p, v);
    hide SampleFor, Carries;
    assert SampleFor(o, [], p) == "" by { NoSample(o, p); }
  }

  lemma NoSample(o: Options, p: Pair)
    ensures SampleFor(o, [], p) == ""
  {
  }

  /** A tick's sample text of a pair is that of the first endpoint whose scrape has one, cut to its limit. */
  lemma {:induction false} TickSampleMeaning(o: Options, ts: seq<Target>, p: Pair)
    ensures TickSample(o, ts, p) == "" <==> forall i :: 0 <= i < |ts| ==> !Shows(o, ts[i], p)
    ensures forall i :: 0 <= i < |ts| && Shows(o, ts[i], p) && (forall j :: 0 <= j < i ==> !Shows(o, ts[j], p)) ==>
              TickSample(o, ts, p) == Protocol.TruncateSample(ScrapeSample(o, ts[i].scrape.value, p))
  {
    hide ScrapeSample;
    if ts != [] {
      var n := |ts| - 1;
      TickSampleMeaning(o, ts[..n], p);
      assert ts == ts[..n] + [ts[n]];
      SampleSnoc(o, ts[..n], ts[n], p);
      assert forall i :: 0 <= i < n ==> ts[..n][i] == ts[i];
      assert Shows(o, ts[n], p) ==> Protocol.TruncateSample(ScrapeSample(o, ts[n].scrape.value, p)) != "";
      hide TickSample;
    }
  }

  predicate Shows(o: Options, t: Target, p: Pair) {
    t.scrape.Some? && ScrapeSample(o, t.scrape.value, p) != ""
  }

  type Totals = map<Pair, Protocol.ServiceLogMetrics>

  function TotalOf(totals: Totals, p: Pair): Protocol.ServiceLogMetrics {
    if p in totals then totals[p] else Protocol.ServiceLogMetrics(p.namespace, p.service, 0, 0, 0, "")
  }

  function Amount(m: Protocol.ServiceLogMetrics, f: Field): nat {
    match f case Errors => m.errorCount case Warns => m.warnCount case Total => m.totalCount
  }

  predicate Labelled(totals: Totals) {
    forall p :: p in totals ==> totals[p].namespace == p.namespace && totals[p].service == p.service
  }

  /** Of two sample texts the first that is not empty, truncated when it is taken over. */
  function FirstText(held: string, next: string): string {
    if held == "" then Protocol.TruncateSample(next) else held
  }

  /** Counts add up field by field; a sample text that is already held stays. */
  method Accumulate(m: Protocol.ServiceLogMetrics, d: Delta) returns (agg: Protocol.ServiceLogMetrics)
    ensures agg.namespace == m.namespace && agg.service == m.service
    ensures forall f :: Amount(agg, f) == Amount(m, f) + Get(d, f)
    ensures agg.sample == FirstText(m.sample, d.sample)
    ensures m.sample != "" ==> agg.sample == m.sample
  {
    agg := m.(errorCount := m.errorCount + d.errors, warnCount := m.warnCount + d.warns,
              totalCount := m.totalCount + d.total);
    if d.sample != "" && agg.sample == "" {
      agg := agg.(sample := Protocol.TruncateSample(d.sample));
    }
  }

  /** One pair's totals with one endpoint's delta added. */
  ghost predicate AddedTo(before: Protocol.ServiceLogMetrics, d: Delta, after: Protocol.ServiceLogMetrics) {
    && (forall f :: Amount(after, f) == Amount(before, f) + Get(d, f))
    && after.sample == FirstText(before.sample, d.sample)
  }

  lemma NothingAdded(m: Protocol.ServiceLogMetrics)
    ensures AddedTo(m, ZERO, m)
  {
  }

  /** Adding one endpoint's deltas to the running totals, in any order. */
  method AddDeltas(before: Totals, deltas: map<Pair, Delta>) returns (totals: Totals)
    requires Labelled(before)
    ensures Labelled(totals)
    ensures forall p :: AddedTo(TotalOf(before, p), DeltaOf(deltas, p), TotalOf(totals, p))
  {
    hide Amount, Get, FirstText;
    totals := before;
    var left := deltas.Keys;
    forall p | p !in deltas { NothingAdded(TotalOf(before, p)); }
    hide AddedTo;
    while left != {}
      invariant left <= deltas.Keys && Labelled(totals)
      invariant forall p :: p in left ==> TotalOf(totals, p) == TotalOf(before, p)
      invariant forall p :: p !in left ==> AddedTo(TotalOf(before, p), DeltaOf(deltas, p), TotalOf(totals, p))
      decreases left
    {
      var p :| p in left;
      var agg := Accumulate(TotalOf(totals, p), deltas[p]);
      AddedIs(TotalOf(totals, p), deltas[p], agg);
      totals := totals[p := agg];
      left := left - {p};
    }
  }

  lemma AddedIs(m: Protocol.ServiceLogMetrics, d: Delta, agg: Protocol.ServiceLogMetrics)
    requires (forall f :: Amount(agg, f) == Amount(m, f) + Get(d, f)) && agg.sample == FirstText(m.sample, d.sample)
    ensures AddedTo(m, d, agg)
  {
  }

  // ----- the gate -----

  predicate Crosses(m: Protocol.ServiceLogMetrics, threshold: int) {
    m.errorCount >= threshold || m.warnCount >= threshold
  }

  function Weigh(m: Protocol.ServiceLogMetrics): nat {
    m.errorCount + m.warnCount
  }

  /** Error and warn counts of a set of pairs. */
  ghost function Weight(totals: Totals, ps: set<Pair>): nat
    requires ps <= totals.Keys
  {
    if ps == {} then 0
    else
      var p :| p in ps;
      Weigh(totals[p]) + Weight(totals, ps - {p})
  }

  lemma {:induction false} WeightRemove(totals: Totals, ps: set<Pair>, q: Pair)
    requires ps <= totals.Keys && q in ps
    ensures Weight(totals, ps) == Weigh(totals[q]) + Weight(totals, ps - {q})
    decreases |ps|
  {
    var p :| p in ps && Weight(totals, ps) == Weigh(totals[p]) + Weight(totals, ps - {p});
    if p != q {
      WeightRemove(totals, ps - {p}, q);
      WeightRemove(totals, ps - {q}, p);
      assert ps - {p} - {q} == ps - {q} - {p};
    }
  }

  /** The weight of a set is the sum of its pairs' error and warn counts. */
  lemma WeightIs(totals: Totals, ps: set<Pair>, q: Pair)
    requires ps <= totals.Keys && q !in ps && q in totals
    ensures Weight(totals, {}) == 0
    ensures Weight(totals, ps + {q}) == Weight(totals, ps) + totals[q].errorCount + totals[q].warnCount
  {
    assert ps + {q} - {q} == ps;
    WeightRemove(totals, ps + {q}, q);
  }

  lemma {:induction false} WeightSplit(totals: Totals, a: set<Pair>, b: set<Pair>)
    requires a <= totals.Keys && b <= totals.Keys && a !! b
    ensures Weight(totals, a + b) == Weight(totals, a) + Weight(totals, b)
    decreases |a|
  {
    if a == {} {
      assert a + b == b;
    } else {
      var q :| q in a;
      WeightRemove(totals, a, q);
      WeightRemove(totals, a + b, q);
      assert a + b - {q} == (a - {q}) + b;
      WeightSplit(totals, a - {q}, b);
    }
  }

  ghost function Sent(totals: Totals, threshold: int): set<Pair> {
    set p | p in totals && Crosses(totals[p], threshold) && p.service != ""
  }

  ghost function Unattributed(totals: Totals, threshold: int): set<Pair> {
    set p | p in totals && Crosses(totals[p], threshold) && p.service == ""
  }

  ghost function Below(totals: Totals, threshold: int): set<Pair> {
    set p | p in totals && !Crosses(totals[p], threshold)
  }

  function PairsOf(ms: seq<Protocol.ServiceLogMetrics>): (ps: seq<Pair>)
    ensures |ps| == |ms| && forall i :: 0 <= i < |ms| ==> ps[i] == Pair(ms[i].namespace, ms[i].service)
  {
    seq(|ms|, i requires 0 <= i < |ms| => Pair(ms[i].namespace, ms[i].service))
  }

  /** The list holds the sent pairs among `done`, once each, with their totals. */
  ghost predicate Selected(totals: Totals, threshold: int, done: set<Pair>, ms: seq<Protocol.ServiceLogMetrics>) {
    && (forall i, j :: 0 <= i < j < |ms| ==> PairsOf(ms)[i] != PairsOf(ms)[j])
    && (forall m :: m in ms ==> Pair(m.namespace, m.service) in totals && m == totals[Pair(m.namespace, m.service)])
    && (forall p :: p in PairsOf(ms) <==> p in done && p in Sent(totals, threshold))
  }

  /** Tick accounting, whatever the iteration order: the error and warn counts split exactly into sent,
      below-gate and unattributed; a pair is sent at most once, with its totals, and just when it has a
      service name and crosses the threshold. */
  method Gate(totals: Totals, threshold: int) returns (qualifying: seq<Protocol.ServiceLogMetrics>, unattributed: nat)
    requires Labelled(totals)
    ensures Selected(totals, threshold, totals.Keys, qualifying)
    ensures unattributed == Weight(totals, Unattributed(totals, threshold))
    ensures Weight(totals, totals.Keys) ==
            Weight(totals, Sent(totals, threshold)) + Weight(totals, Below(totals, threshold)) + unattributed
  {
    qualifying, unattributed := [], 0;
    var left := totals.Keys;
    GateStart(totals, threshold);
    hide Weight, Selected, Unattributed, Sent, Below, TotalOf, PairsOf, Labelled;
    while left != {}
      invariant left <= totals.Keys
      invariant Selected(totals, threshold, totals.Keys - left, qualifying)
      invariant unattributed == Weight(totals, Unattributed(totals, threshold) - left)
      decreases left
    {
      var p :| p in left;
      var m := totals[p];
      GateStep(totals, threshold, left, qualifying, p);
      left := left - {p};
      if m.errorCount < threshold && m.warnCount < threshold {
        continue;
      }
      if m.service == "" {
        unattributed := unattributed + m.errorCount + m.warnCount;
        continue;
      }
      qualifying := qualifying + [m];
    }
    assert totals.Keys - left == totals.Keys
        && Unattributed(totals, threshold) - left == Unattributed(totals, threshold);
    Accounting(totals, threshold);
  }

  lemma GateStep(totals: Totals, threshold: int, left: set<Pair>, ms: seq<Protocol.ServiceLogMetrics>, p: Pair)
    requires Labelled(totals) && left <= totals.Keys && p in left && Selected(totals, threshold, totals.Keys - left, ms)
    ensures var m, un, rest := totals[p], Unattributed(totals, threshold), left - {p};
            && Selected(totals, threshold, totals.Keys - rest,
                        if Crosses(m, threshold) && m.service != "" then ms + [m] else ms)
            && Weight(totals, un - rest) == Weight(totals, un - left)
                 + if Crosses(m, threshold) && m.service == "" then Weigh(m) else 0
  {
    UnattributedStep(totals, Unattributed(totals, threshold), left, p);
    SelectedStep(totals, threshold, totals.Keys - left, ms, p);
    assert totals.Keys - (left - {p}) == (totals.Keys - left) + {p};
    hide Selected, Weight;
  }

  lemma GateStart(totals: Totals, threshold: int)
    ensures Selected(totals, threshold, totals.Keys - totals.Keys, [])
    ensures Weight(totals, Unattributed(totals, threshold) - totals.Keys) == 0
  {
    assert Unattributed(totals, threshold) - totals.Keys == {};
  }

  lemma SelectedAll(totals: Totals, threshold: int, ms: seq<Protocol.ServiceLogMetrics>)
    requires Selected(totals, threshold, totals.Keys, ms)
    ensures forall i, j :: 0 <= i < j < |ms| ==> PairsOf(ms)[i] != PairsOf(ms)[j]
    ensures forall m :: m in ms ==> m == TotalOf(totals, Pair(m.namespace, m.service))
    ensures forall p :: p in PairsOf(ms) <==> p in Sent(totals, threshold)
  {
  }

  lemma SelectedStep(totals: Totals, threshold: int, done: set<Pair>, ms: seq<Protocol.ServiceLogMetrics>, p: Pair)
    requires Labelled(totals) && p in totals && p !in done && Selected(totals, threshold, done, ms)
    ensures Selected(totals, threshold, done + {p}, if p in Sent(totals, threshold) then ms + [totals[p]] else ms)
  {
    if p in Sent(totals, threshold) {
      assert PairsOf(ms + [totals[p]]) == PairsOf(ms) + [p];
    }
  }

  lemma UnattributedStep(totals: Totals, un: set<Pair>, left: set<Pair>, p: Pair)
    requires un <= totals.Keys && p in left
    ensures Weight(totals, un - (left - {p})) == Weight(totals, un - left) + if p in un then Weigh(totals[p]) else 0
  {
    hide Weight, Weigh;
    var after := un - (left - {p});
    if p in un {
      assert after - {p} == un - left;
      WeightRemove(totals, after, p);
    } else {
      assert after == un - left;
    }
  }

  lemma Accounting(totals: Totals, threshold: int)
    ensures Weight(totals, totals.Keys) ==
            Weight(totals, Sent(totals, threshold)) + Weight(totals, Below(totals, threshold))
            + Weight(totals, Unattributed(totals, threshold))
  {
    var s, u, b := Sent(totals, threshold), Unattributed(totals, threshold), Below(totals, threshold);
    assert totals.Keys == s + (b + u);
    WeightSplit(totals, b, u);
    WeightSplit(totals, s, b + u);
  }

  class Collector {
    const opts: Options
    var prev: map<string, EndpointCounters>
    ghost var last: map<string, Families>   // the last successful scrape of each endpoint

    /** Every stored baseline mirrors that endpoint's last successful scrape. */
    ghost predicate Valid()
      reads this
    {
      && Usable(opts)
      && forall a :: Mirrors(opts, Baseline(prev, a), LastOf(last, a))
    }

    constructor (raw: Options)
      ensures Valid() && opts == WithDefaults(raw) && last == map[]
    {
      opts := WithDefaults(raw);
      prev := map[];
      last := map[];
    }

    /** The deltas of one scrape against the same endpoint's previous one. Each pair's three movements are
        exact, other endpoints keep their baselines, and the new baseline is this scrape. */
    method ComputeDeltas(addr: string, fams: Families) returns (out: map<Pair, Delta>)
      requires Valid()
      modifies this`prev, this`last
      ensures Valid() && last == old(last)[addr := fams]
      ensures forall a :: a != addr ==> Baseline(prev, a) == Baseline(old(prev), a)
      ensures forall p, f :: Get(DeltaOf(out, p), f) == MovedSince(opts, old(last), addr, fams, MetricOf(opts, f), p)
      ensures forall p :: DeltaOf(out, p).sample == ScrapeSample(opts, fams, p)
    {
      hide SumFor, SampleFor, Get, DeltaOf, Complete, Family;
      var cur := CurrentCounters(opts, fams);
      ghost var base := Baseline(prev, addr);
      out := Diff(opts, Baseline(prev, addr), cur, fams);
      forall p, f
        ensures Moved(opts, base, fams, MetricOf(opts, f), p) ==
                MovedSince(opts, last, addr, fams, MetricOf(opts, f), p)
      {
        assert Scraped(opts, MetricOf(opts, f));
      }
      prev := prev[addr := cur];
      last := last[addr := fams];
      forall a ensures Mirrors(opts, Baseline(prev, a), LastOf(last, a)) {
        assert a != addr ==> Mirrors(opts, Baseline(old(prev), a), LastOf(old(last), a));
        hide Mirrors;
      }
    }

    /** The scrape loop of a tick: a failed endpoint is skipped and keeps its baseline; every pair's totals
        are its movements over all endpoints scraped. */
    method Aggregate(targets: seq<Target>) returns (totals: Totals)
      requires Valid()
      modifies this`prev, this`last
      ensures Valid() && last == LastAfter(old(last), targets)
      ensures Labelled(totals)
      ensures forall p, f :: Amount(TotalOf(totals, p), f) == TickTotal(opts, old(last), targets, MetricOf(opts, f), p)
      ensures forall p :: TotalOf(totals, p).sample == TickSample(opts, targets, p)
    {
      totals := map[];
      for i := 0 to |targets|
        invariant Valid() && last == LastAfter(old(last), targets[..i])
        invariant Labelled(totals)
        invariant forall p, f ::
                  Amount(TotalOf(totals, p), f) == TickTotal(opts, old(last), targets[..i], MetricOf(opts, f), p)
        invariant forall p :: TotalOf(totals, p).sample == TickSample(opts, targets[..i], p)
      {
        hide Amount, TotalOf, Get, DeltaOf, MovedSince, ScrapeSample, Labelled, MetricOf;
        assert targets[..i + 1][..i] == targets[..i];
        if targets[i].scrape.None? {
          continue;
        }
        var deltas := ComputeDeltas(targets[i].addr, targets[i].scrape.value);
        ghost var before := totals;
        totals := AddDeltas(totals, deltas);
        assert forall p :: AddedTo(TotalOf(before, p), DeltaOf(deltas, p), TotalOf(totals, p));
      }
      assert targets[..|targets|] == targets;
    }

    /** One tick. The frame, if any, holds exactly the named pairs whose error or warn total over this
        tick's scrapes reaches the threshold, once each. */
    method RunOnce(discovered: Option<seq<Target>>) returns (frame: Option<seq<Protocol.ServiceLogMetrics>>)
      requires Valid()
      modifies this`prev, this`last
      ensures Valid() && last == (if discovered.Some? then LastAfter(old(last), discovered.value) else old(last))
      ensures discovered.None? ==> frame.None?
      ensures discovered.Some? ==> FrameOf(opts, old(last), discovered.value, frame)
      ensures discovered.Some? && frame.Some? ==>
                forall p :: p in PairsOf(frame.value) <==>
                  && p.service != ""
                  && (|| TickTotal(opts, old(last), discovered.value, opts.errorMetric, p) >= opts.threshold
                      || TickTotal(opts, old(last), discovered.value, opts.warnMetric, p) >= opts.threshold)
    {
      if discovered.None? || discovered.value == [] {
        return None;
      }
      var totals := Aggregate(discovered.value);
      var qualifying, unattributed := Gate(totals, opts.threshold);
      SelectedAll(totals, opts.threshold, qualifying);
      forall p: Pair
        ensures p in Sent(totals, opts.threshold) <==> p.service != "" && Reaches(opts, old(last), discovered.value, p)
        ensures IsTick(opts, old(last), discovered.value, TotalOf(totals, p))
      {
        hide TickTotal, TickSample;
        assert forall f ::
            Amount(TotalOf(totals, p), f) == TickTotal(opts, old(last), discovered.value, MetricOf(opts, f), p);
        assert Amount(TotalOf(totals, p), Errors) == TotalOf(totals, p).errorCount;
        assert Amount(TotalOf(totals, p), Warns) == TotalOf(totals, p).warnCount;
        assert Amount(TotalOf(totals, p), Total) == TotalOf(totals, p).totalCount;
      }
      hide Reaches, IsTick, Sent, TotalOf;
      if qualifying == [] {
        forall p: Pair | p.service != "" ensures !Reaches(opts, old(last), discovered.value, p) {
          assert p !in PairsOf(qualifying);
        }
        return None;
      }
      frame := Some(qualifying);
    }
  }

  /** What a tick sends: one entry for each named pair that reaches the threshold, with its movements, and
      nothing if there is none. */
  ghost predicate FrameOf(o: Options, last: map<string, Families>, ts: seq<Target>,
                          frame: Option<seq<Protocol.ServiceLogMetrics>>) {
    && (frame.None? ==> forall p: Pair :: p.service != "" ==> !Reaches(o, last, ts, p))
    && (frame.Some? ==>
          && frame.value != []
          && (forall i, j :: 0 <= i < j < |frame.value| ==> PairsOf(frame.value)[i] != PairsOf(frame.value)[j])
          && (forall p :: p in PairsOf(frame.value) <==> p.service != "" && Reaches(o, last, ts, p))
          && (forall m :: m in frame.value ==> IsTick(o, last, ts, m)))
  }

  /** A pair's error or warn movement over a tick reaches the threshold. */
  ghost predicate Reaches(o: Options, last: map<string, Families>, ts: seq<Target>, p: Pair) {
    || TickTotal(o, last, ts, o.errorMetric, p) >= o.threshold
    || TickTotal(o, last, ts, o.warnMetric, p) >= o.threshold
  }

  /** An entry carries its pair's movements over the tick. */
  ghost predicate IsTick(o: Options, last: map<string, Families>, ts: seq<Target>, m: Protocol.ServiceLogMetrics) {
    var p := Pair(m.namespace, m.service);
    && m.errorCount == TickTotal(o, last, ts, o.errorMetric, p)
    && m.warnCount == TickTotal(o, last, ts, o.warnMetric, p)
    && m.totalCount == TickTotal(o, last, ts, o.totalMetric, p)
    && m.sample == TickSample(o, ts, p)
  }
}
