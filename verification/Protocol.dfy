/** Chunked frames (push/protocol.go; SendLogMetrics and sendSnapshot in push/pusher.go). Sample texts are
    byte strings. */
module Protocol {

  const MAX_SERVICES := 100
  const MAX_SAMPLE := 256

  datatype ServiceLogMetrics = ServiceLogMetrics(namespace: string, service: string, errorCount: nat, warnCount: nat,
                                                 totalCount: nat, sample: string)

  function TruncateSample(s: string): (t: string)
    ensures |t| <= 256 && t <= s && (|s| <= 256 ==> t == s) && (|s| > 256 ==> |t| == 256)
  {
    if |s| <= MAX_SAMPLE then s else s[..MAX_SAMPLE]
  }

  // ----- chunking -----

  /** A sub-slice [lo, hi) of a shared backing array. */
  datatype Slice = Slice(lo: nat, hi: nat)

  /** The slices of consecutive chunks of `size` elements out of n. */
  ghost predicate Partition(cs: seq<Slice>, n: nat, size: nat) {
    && (forall i :: 0 <= i < |cs| ==> cs[i].lo < cs[i].hi <= n && cs[i].hi - cs[i].lo <= size)
    && (forall i :: 0 <= i < |cs| - 1 ==> cs[i].hi == cs[i + 1].lo && cs[i].hi - cs[i].lo == size)
    && (cs == [] <==> n == 0)
    && (cs != [] ==> cs[0].lo == 0 && cs[|cs| - 1].hi == n)
  }

  /** Only full chunks so far. */
  ghost predicate FullChunks(cs: seq<Slice>, n: nat, size: nat) {
    Partition(cs, n, size) && (cs != [] ==> n - cs[|cs| - 1].lo == size)
  }

  lemma NextChunk(cs: seq<Slice>, lo: nat, hi: nat, size: nat)
    requires FullChunks(cs, lo, size) && lo < hi <= lo + size
    ensures Partition(cs + [Slice(lo, hi)], hi, size)
    ensures hi == lo + size ==> FullChunks(cs + [Slice(lo, hi)], hi, size)
  {
    var cs' := cs + [Slice(lo, hi)];
    assert forall i :: 0 <= i < |cs| ==> cs'[i] == cs[i];
    assert cs != [] ==> cs[|cs| - 1].hi == lo;
  }

  /** The chunk loop, for any positive chunk size. */
  method Chunks(n: nat, size: nat) returns (cs: seq<Slice>)
    requires size > 0
    ensures Partition(cs, n, size)
  {
    hide FullChunks, Partition;
    cs := [];
    var i := 0;
    assert FullChunks(cs, 0, size) by { NoChunks(size); }
    while i < n
      invariant if i <= n then FullChunks(cs, i, size) else Partition(cs, n, size)
      decreases n - i
    {
      var end := i + size;
      if end > n {
        end := n;
      }
      NextChunk(cs, i, end, size);
      cs := cs + [Slice(i, end)];
      i := i + size;
    }
    if i == n { FullIsPartition(cs, n, size); }
  }

  lemma NoChunks(size: nat)
    ensures FullChunks([], 0, size)
  {
  }

  lemma FullIsPartition(cs: seq<Slice>, n: nat, size: nat)
    requires FullChunks(cs, n, size)
    ensures Partition(cs, n, size)
  {
  }

  function End(cs: seq<Slice>): nat {
    if cs == [] then 0 else cs[|cs| - 1].hi
  }

  /** Slices of an n-element list that follow one another from 0. */
  predicate Consecutive(cs: seq<Slice>, n: nat) {
    cs == [] ||
    var front, c := cs[..|cs| - 1], cs[|cs| - 1];
    Consecutive(front, n) && End(front) == c.lo && c.lo <= c.hi <= n
  }

  /** The contents of the slices, put together in order. */
  function Glue<T>(s: seq<T>, cs: seq<Slice>): seq<T>
    requires Consecutive(cs, |s|)
  {
    if cs == [] then []
    else Glue(s, cs[..|cs| - 1]) + s[cs[|cs| - 1].lo..cs[|cs| - 1].hi]
  }

  /** Chunking preserves content: consecutive slices of a list, put together, are its elements in order. */
  lemma {:induction false} GlueIsPrefix<T>(s: seq<T>, cs: seq<Slice>)
    requires Consecutive(cs, |s|)
    ensures End(cs) <= |s| && Glue(s, cs) == s[..End(cs)]
  {
    if cs != [] {
      var front, c := cs[..|cs| - 1], cs[|cs| - 1];
      GlueIsPrefix(s, front);
      assert s[..c.hi] == s[..c.lo] + s[c.lo..c.hi];
    }
  }

  lemma {:induction false} PartitionConsecutive(cs: seq<Slice>, n: nat, size: nat, k: nat)
    requires Partition(cs, n, size) && k <= |cs|
    ensures Consecutive(cs[..k], n)
  {
    if k > 0 {
      PartitionConsecutive(cs, n, size, k - 1);
      assert cs[..k][..k - 1] == cs[..k - 1];
    }
  }

  /** No fewer chunks would do, and no more are made. */
  lemma ChunkCount(cs: seq<Slice>, n: nat, size: nat)
    requires Partition(cs, n, size) && n > 0
    ensures (|cs| - 1) * size < n <= |cs| * size
  {
    var k := |cs| - 1;
    LoIs(cs, n, size, k);
    assert k * size + size == (k + 1) * size;
  }

  lemma {:induction false} LoIs(cs: seq<Slice>, n: nat, size: nat, i: nat)
    requires Partition(cs, n, size) && i < |cs|
    ensures cs[i].lo == i * size
  {
    if i > 0 {
      LoIs(cs, n, size, i - 1);
      assert (i - 1) * size + size == i * size;
    }
  }

  // ----- log_metrics -----

  function Clip(m: ServiceLogMetrics): ServiceLogMetrics {
    m.(sample := TruncateSample(m.sample))
  }

  function Clipped(ms: seq<ServiceLogMetrics>): (r: seq<ServiceLogMetrics>)
    ensures |r| == |ms| && forall i :: 0 <= i < |ms| ==> r[i] == Clip(ms[i])
  {
    seq(|ms|, i requires 0 <= i < |ms| => Clip(ms[i]))
  }

  /** Truncation leaves every other field as it is. */
  lemma ClippedIs(ms: seq<ServiceLogMetrics>, i: nat)
    requires i < |ms|
    ensures Clipped(ms)[i] == ms[i].(sample := TruncateSample(ms[i].sample))
  {
  }

  /** Truncating again changes nothing. */
  lemma ClipIdempotent(ms: seq<ServiceLogMetrics>)
    ensures Clipped(Clipped(ms)) == Clipped(ms)
  {
    assert forall i :: 0 <= i < |ms| ==> Clip(Clip(ms[i])) == Clip(ms[i]);
  }

  /** newLogMetrics truncates in place, in the caller's slice. */
  method TruncateInPlace(services: array<ServiceLogMetrics>, c: Slice)
    requires c.lo <= c.hi <= services.Length
    modifies services
    ensures services[..] == old(services[..c.lo]) + Clipped(old(services[c.lo..c.hi])) + old(services[c.hi..])
  {
    for i := c.lo to c.hi
      invariant forall k :: 0 <= k < services.Length ==>
                  services[k] == if c.lo <= k < i then Clip(old(services[k])) else old(services[k])
    {
      services[i] := services[i].(sample := TruncateSample(services[i].sample));
    }
  }

  /** SendLogMetrics: after the first connection, the frames it offers hold the list in order, each sample
      truncated, at most 100 to a frame and none empty; before it, nothing is offered or touched. The
      frames share the caller's array, and truncating one leaves those offered before it alone. */
  method SendLogMetrics(services: array<ServiceLogMetrics>, connected: bool) returns (frames: seq<Slice>)
    modifies services
    ensures !connected ==> frames == [] && services[..] == old(services[..])
    ensures connected ==>
              && Partition(frames, services.Length, 100)
              && services[..] == Clipped(old(services[..]))
              && Consecutive(frames, services.Length) && Glue(services[..], frames) == Clipped(old(services[..]))
              && |frames| == (services.Length + 99) / 100
  {
    ghost var all := services[..];
    frames := [];
    if services.Length == 0 {
      return;
    }
    if !connected {
      return;
    }
    var chunks := Chunks(services.Length, MAX_SERVICES);
    ghost var done := 0;
    for k := 0 to |chunks|
      invariant frames == chunks[..k]
      invariant done == if k == 0 then 0 else chunks[k - 1].hi
      invariant done <= services.Length && services[..] == Clipped(all[..done]) + all[done..]
    {
      assert done == chunks[k].lo && chunks[k].lo <= chunks[k].hi <= services.Length;
      hide Partition;
      ghost var before := services[..];
      TruncateInPlace(services, chunks[k]);
      ClipMore(all, before, services[..], chunks[k]);
      frames := frames + [chunks[k]];
      done := chunks[k].hi;
    }
    assert frames == chunks && done == services.Length;
    assert all[..done] == all && all[done..] == [];
    Delivered(services[..], frames);
  }

  lemma ClipMore(all: seq<ServiceLogMetrics>, before: seq<ServiceLogMetrics>, after: seq<ServiceLogMetrics>, c: Slice)
    requires c.lo <= c.hi <= |all| && before == Clipped(all[..c.lo]) + all[c.lo..]
    requires after == before[..c.lo] + Clipped(before[c.lo..c.hi]) + before[c.hi..]
    ensures after == Clipped(all[..c.hi]) + all[c.hi..]
  {
    assert before[c.lo..c.hi] == all[c.lo..c.hi];
    assert before[c.hi..] == all[c.hi..];
    assert Clipped(all[..c.hi]) == Clipped(all[..c.lo]) + Clipped(all[c.lo..c.hi]);
  }

  lemma Delivered(s: seq<ServiceLogMetrics>, frames: seq<Slice>)
    requires Partition(frames, |s|, MAX_SERVICES) && s != []
    ensures Consecutive(frames, |s|) && Glue(s, frames) == s && |frames| == (|s| + 99) / 100
  {
    PartitionConsecutive(frames, |s|, MAX_SERVICES, |frames|);
    assert frames[..|frames|] == frames && s[..|s|] == s;
    GlueIsPrefix(s, frames);
    ChunkCount(frames, |s|, MAX_SERVICES);
  }
}
