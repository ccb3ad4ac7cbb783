/** What every connection's wire looks like, under every interleaving: grammar, order, isolation, bound. */
module StreamWire {
  import opened Scope
  import opened Stream

  /** The frame that may stand at position k of a trace with n snapshot frames. */
  predicate Follows(f: Frame, k: nat, n: nat) {
    if k == 0 then f == Hello
    else if k <= n then f.Snapshot?
    else if k == n + 1 then f == SnapshotEnd
    else Queueable(f) || f == Heartbeat
  }

  /** The data-frame trace: hello, n snapshots, snapshot_end, then queued frames and heartbeats; or a
      prefix of that. */
  ghost predicate Trace(w: seq<Frame>, n: nat) {
    forall j :: 0 <= j < |w| ==> Follows(w[j], j, n)
  }

  /** The queued frames on the wire, in order. */
  function Drained(w: seq<Frame>): seq<Frame> {
    if w == [] then []
    else Drained(w[..|w| - 1]) + if Queueable(w[|w| - 1]) then [w[|w| - 1]] else []
  }

  /** The Applications of the snapshot frames, in order. */
  function SnapshotApps(w: seq<Frame>): seq<App> {
    if w == [] then []
    else SnapshotApps(w[..|w| - 1]) + if w[|w| - 1].Snapshot? then w[|w| - 1].apps else []
  }

  lemma DrainedSnoc(w: seq<Frame>, f: Frame)
    ensures Drained(w + [f]) == if Queueable(f) then Drained(w) + [f] else Drained(w)
    ensures SnapshotApps(w + [f]) == if f.Snapshot? then SnapshotApps(w) + f.apps else SnapshotApps(w)
  {
    assert (w + [f])[..|w|] == w;
  }

  /** The queue side: bounded, and every accepted frame is on the wire, lost to the one failed write, or
      still queued, in the order of acceptance. */
  ghost predicate Fifo(cfg: Config, cn: Conn) {
    && |cn.queue| <= CAPACITY
    && Drained(cn.wire) + cn.lost + cn.queue == cn.accepted
    && |cn.lost| <= 1 && (cn.lost != [] ==> cn.phase == Closed)
    && forall i :: 0 <= i < |cn.accepted| ==>
         Queueable(cn.accepted[i]) && (cn.accepted[i].AppDelta? ==> InScopeKey(cfg, cn.accepted[i].app.key))
  }

  /** The writer side: the trace and how far it is. */
  ghost predicate Writing(cn: Conn) {
    && Trace(cn.wire, cn.chunks)
    && (cn.phase == Opened || cn.phase == Registered ==> cn.wire == [] && cn.chunks == 0 && cn.listed == [])
    && (cn.phase.Listing? ==> |cn.wire| == cn.chunks + 1)
    && (cn.phase == Streaming ==> |cn.wire| >= cn.chunks + 2)
  }

  /** The snapshot: its frames carry the listed Applications in order, in chunks of the configured size,
      all of them once snapshot_end is out. */
  ghost predicate Snapping(cfg: Config, cn: Conn) {
    && cn.sent <= |cn.listed|
    && SnapshotApps(cn.wire) == cn.listed[..cn.sent]
    && (|cn.wire| >= cn.chunks + 2 ==> cn.sent == |cn.listed|)
    && (forall j :: 0 <= j < |cn.wire| && cn.wire[j].Snapshot? ==> 0 < |cn.wire[j].apps| <= cfg.chunk)
    && (forall i :: 0 <= i < |cn.listed| ==> InScopeKey(cfg, cn.listed[i].key))
  }

  ghost predicate ConnInv(cfg: Config, cn: Conn) {
    Fifo(cfg, cn) && Writing(cn) && Snapping(cfg, cn)
  }

  /** Appending a frame that was not queued. */
  lemma FifoWrite(cfg: Config, cn: Conn, f: Frame, cn': Conn)
    requires Fifo(cfg, cn) && !Queueable(f) && cn.phase != Closed && cn'.wire == cn.wire + [f]
    requires cn'.queue == cn.queue && cn'.accepted == cn.accepted && cn'.lost == cn.lost
    ensures Fifo(cfg, cn')
  {
    DrainedSnoc(cn.wire, f);
  }

  lemma Shift<T>(d: seq<T>, q: seq<T>, all: seq<T>)
    requires q != [] && d + [] + q == all
    ensures d + [q[0]] + [] + q[1..] == all && d + [q[0]] + q[1..] == all
    ensures all[|d|] == q[0]
  {
  }

  /** The head of the queue is the next accepted frame that is not out yet. */
  lemma QueueHead(cfg: Config, cn: Conn)
    requires Fifo(cfg, cn) && cn.phase != Closed && cn.queue != []
    ensures Queueable(cn.queue[0]) && cn.lost == []
    ensures Drained(cn.wire) + [cn.queue[0]] + [] + cn.queue[1..] == cn.accepted
    ensures Drained(cn.wire) + [cn.queue[0]] + cn.queue[1..] == cn.accepted
  {
    hide Drained;
    Shift(Drained(cn.wire), cn.queue, cn.accepted);
    assert Queueable(cn.accepted[|Drained(cn.wire)|]);
  }

  lemma FifoDrain(cfg: Config, cn: Conn)
    requires Fifo(cfg, cn) && Ready(cfg, cn, Drain)
    ensures Fifo(cfg, Written(cfg, cn, Drain))
  {
    QueueHead(cfg, cn);
    DrainedSnoc(cn.wire, cn.queue[0]);
    hide Drained, InScopeKey, Queueable;
  }

  lemma FifoDrainFails(cfg: Config, cn: Conn)
    requires Fifo(cfg, cn) && Ready(cfg, cn, DrainFails)
    ensures Fifo(cfg, Written(cfg, cn, DrainFails))
  {
    QueueHead(cfg, cn);
    hide Drained;
  }

  lemma FifoWriter(cfg: Config, cn: Conn, act: Act)
    requires Fifo(cfg, cn) && Ready(cfg, cn, act)
    ensures Fifo(cfg, Written(cfg, cn, act))
  {
    var cn' := Written(cfg, cn, act);
    match act
    case Drain => FifoDrain(cfg, cn);
    case DrainFails => FifoDrainFails(cfg, cn);
    case Close => FifoClose(cfg, cn, cn');
    case SendHello => hide Fifo; FifoWrite(cfg, cn, Hello, cn');
    case SendChunk => hide Fifo; FifoWrite(cfg, cn, cn'.wire[|cn.wire|], cn');
    case SendEnd => hide Fifo; FifoWrite(cfg, cn, SnapshotEnd, cn');
    case Beat => hide Fifo; FifoWrite(cfg, cn, Heartbeat, cn');
  }

  lemma FifoClose(cfg: Config, cn: Conn, cn': Conn)
    requires Fifo(cfg, cn) && cn'.phase == Closed
    requires cn'.wire == cn.wire && cn'.queue == cn.queue && cn'.accepted == cn.accepted && cn'.lost == cn.lost
    ensures Fifo(cfg, cn')
  {
  }

  lemma TraceSnoc(w: seq<Frame>, n: nat, f: Frame)
    requires Trace(w, n) && Follows(f, |w|, n)
    ensures Trace(w + [f], n)
  {
  }

  lemma WritingWriter(cfg: Config, cn: Conn, act: Act)
    requires Fifo(cfg, cn) && Writing(cn) && Ready(cfg, cn, act)
    ensures Writing(Written(cfg, cn, act))
  {
    match act
    case Drain =>
      QueueHead(cfg, cn);
      TraceSnoc(cn.wire, cn.chunks, cn.queue[0]);
      hide Fifo, Trace;
    case SendChunk =>
      assert Trace(cn.wire, cn.chunks + 1);
      TraceSnoc(cn.wire, cn.chunks + 1, Snapshot(cn.listed[cn.sent..ChunkEnd(cfg, cn)]));
      hide Fifo, Trace;
    case SendHello => hide Fifo; TraceSnoc(cn.wire, cn.chunks, Hello);
    case SendEnd => hide Fifo; TraceSnoc(cn.wire, cn.chunks, SnapshotEnd);
    case Beat => hide Fifo; TraceSnoc(cn.wire, cn.chunks, Heartbeat);
    case DrainFails => hide Fifo, Trace;
    case Close => hide Fifo, Trace;
  }

  lemma SnappingChunk(cfg: Config, cn: Conn)
    requires Writing(cn) && Snapping(cfg, cn) && Ready(cfg, cn, SendChunk) && cfg.chunk > 0
    ensures Snapping(cfg, Written(cfg, cn, SendChunk))
  {
    var e := ChunkEnd(cfg, cn);
    assert |cn.wire| == cn.chunks + 1;
    hide Writing, Trace;
    assert cn.sent < e <= |cn.listed| && e - cn.sent <= cfg.chunk;
    var apps := cn.listed[cn.sent..e];
    DrainedSnoc(cn.wire, Snapshot(apps));
    assert cn.listed[..e] == cn.listed[..cn.sent] + apps;
    hide SnapshotApps, Drained, InScopeKey, ChunkEnd, Effective;
  }

  /** Any other frame leaves the snapshot as it is. */
  lemma SnappingOther(cfg: Config, cn: Conn, f: Frame, cn': Conn)
    requires Snapping(cfg, cn) && !f.Snapshot? && cn'.wire == cn.wire + [f]
    requires cn'.listed == cn.listed && cn'.sent == cn.sent && cn'.chunks == cn.chunks
    requires |cn.wire| + 1 >= cn.chunks + 2 ==> cn.sent == |cn.listed|
    ensures Snapping(cfg, cn')
  {
    DrainedSnoc(cn.wire, f);
    hide SnapshotApps, Drained;
  }

  lemma SnappingWriter(cfg: Config, cn: Conn, act: Act)
    requires ConnInv(cfg, cn) && Ready(cfg, cn, act) && cfg.chunk > 0
    ensures Snapping(cfg, Written(cfg, cn, act))
  {
    var cn' := Written(cfg, cn, act);
    if act.Drain? { QueueHead(cfg, cn); }
    hide Fifo, Drained, SnapshotApps;
    match act
    case SendChunk => SnappingChunk(cfg, cn);
    case SendHello => SnappingOther(cfg, cn, Hello, cn');
    case SendEnd => SnappingOther(cfg, cn, SnapshotEnd, cn');
    case Beat => SnappingOther(cfg, cn, Heartbeat, cn');
    case Drain => SnappingOther(cfg, cn, cn.queue[0], cn');
    case DrainFails =>
    case Close =>
  }

  lemma ConnOffered(cfg: Config, cn: Conn, f: Frame, own: bool)
    requires ConnInv(cfg, cn) && Queueable(f) && (f.AppDelta? ==> InScopeKey(cfg, f.app.key))
    ensures ConnInv(cfg, Offered(cn, f, own))
  {
    hide NoticeWord, CallWord, Drained, SnapshotApps;
  }

  /** A namespace listing adds Applications in scope. */
  lemma ConnListed(cfg: Config, s: State, cn: Conn, order: seq<App>)
    requires Configured(cfg) && ConnInv(cfg, cn) && cn.phase.Listing? && cn.phase.next < |Effective(cfg)|
    requires ListsCache(s, Effective(cfg)[cn.phase.next], order)
    ensures ConnInv(cfg, cn.(listed := cn.listed + order, phase := Listing(cn.phase.next + 1)))
  {
    forall i | 0 <= i < |order| ensures InScopeKey(cfg, order[i].key) {
      assert order[i] in order;
    }
    assert (cn.listed + order)[..cn.sent] == cn.listed[..cn.sent];
    hide Drained, SnapshotApps;
  }

  ghost predicate Inv(cfg: Config, s: State) {
    Orderly(cfg, s) && forall c :: 0 <= c < |s.conns| ==> ConnInv(cfg, s.conns[c])
  }

  /** Fields the wire does not depend on. */
  lemma ConnFrame(cfg: Config, cn: Conn, cn': Conn)
    requires ConnInv(cfg, cn)
    requires && cn'.queue == cn.queue && cn'.wire == cn.wire && cn'.listed == cn.listed && cn'.sent == cn.sent
             && cn'.chunks == cn.chunks && cn'.accepted == cn.accepted && cn'.lost == cn.lost
             && (cn'.phase == cn.phase || (cn.phase == Opened && cn'.phase == Registered))
    ensures ConnInv(cfg, cn')
  {
  }

  lemma InvSet(cfg: Config, s: State, c: nat, cn: Conn, s': State)
    requires Inv(cfg, s) && c < |s.conns| && s'.conns == s.conns[c := cn] && ConnInv(cfg, cn) && Orderly(cfg, s')
    ensures Inv(cfg, s')
  {
  }

  lemma TopStep(cfg: Config, s: State, a: Step)
    requires Configured(cfg) && Inv(cfg, s) && Enabled(cfg, s, a) && OnTop(a)
    ensures ConnInv(cfg, Top(Apply(cfg, s, a)))
  {
    var cn := Top(s);
    assert ConnInv(cfg, cn);
    match a
    case Register(order) => ConnFrame(cfg, cn, Top(Apply(cfg, s, a)));
    case Unregister => ConnFrame(cfg, cn, Top(Apply(cfg, s, a)));
    case List(order) => ConnListed(cfg, s, cn, order);
    case Write(act) =>
      FifoWriter(cfg, cn, act);
      WritingWriter(cfg, cn, act);
      SnappingWriter(cfg, cn, act);
  }

  lemma InvHandler(cfg: Config, s: State, a: Step)
    requires Inv(cfg, s) && Enabled(cfg, s, a) && Orderly(cfg, Apply(cfg, s, a)) && (a.Take? || a.Read? || a.Offer?)
    ensures Inv(cfg, Apply(cfg, s, a))
  {
    if a.Offer? {
      InvOffer(cfg, s, a.c);
    } else {
      var s' := Apply(cfg, s, a);
      ConnFrame(cfg, s.conns[a.c], s'.conns[a.c]);
      hide Orderly, ConnInv;
      InvSet(cfg, s, a.c, s'.conns[a.c], s');
    }
  }

  lemma InvProducer(cfg: Config, s: State, p: nat)
    requires Inv(cfg, s) && Enabled(cfg, s, ProducerOffer(p)) && Orderly(cfg, Apply(cfg, s, ProducerOffer(p)))
    ensures Inv(cfg, Apply(cfg, s, ProducerOffer(p)))
  {
    ProducerFrame(cfg, s, p);
    hide Orderly, ConnInv, Offered;
    var call := s.producers[p];
    ConnOffered(cfg, s.conns[call.conn], call.frame, true);
    InvSet(cfg, s, call.conn, Offered(s.conns[call.conn], call.frame, true), Apply(cfg, s, ProducerOffer(p)));
  }

  lemma InvStep(cfg: Config, s: State, a: Step)
    requires Configured(cfg) && Inv(cfg, s) && Enabled(cfg, s, a)
    ensures Inv(cfg, Apply(cfg, s, a))
  {
    OrderlyStep(cfg, s, a);
    hide Orderly, ConnInv, Enabled, Inv;
    if OnTop(a) {
      InvTop(cfg, s, a);
    } else if a.Take? || a.Read? || a.Offer? {
      InvHandler(cfg, s, a);
    } else if a.CacheSet? || a.CacheDelete? {
      InvCache(cfg, s, a);
    } else if a.ProducerOffer? {
      InvProducer(cfg, s, a.pid);
    } else {
      InvRest(cfg, s, a);
    }
  }

  lemma InvTop(cfg: Config, s: State, a: Step)
    requires Configured(cfg) && Inv(cfg, s) && Enabled(cfg, s, a) && Orderly(cfg, Apply(cfg, s, a)) && OnTop(a)
    ensures Inv(cfg, Apply(cfg, s, a))
  {
    TopStep(cfg, s, a);
    hide Orderly, ConnInv, ListsCache, Written;
    InvSet(cfg, s, |s.conns| - 1, Top(Apply(cfg, s, a)), Apply(cfg, s, a));
  }

  lemma InvRest(cfg: Config, s: State, a: Step)
    requires Inv(cfg, s) && Enabled(cfg, s, a) && Orderly(cfg, Apply(cfg, s, a)) && (a.Open? || a.ProducerRead?)
    ensures Inv(cfg, Apply(cfg, s, a))
  {
    FreshInv(cfg);
    hide Orderly, ConnInv, ListsCache;
  }

  lemma ProducerFrame(cfg: Config, s: State, p: nat)
    requires Orderly(cfg, s) && p in s.producers && s.producers[p].Bound?
    ensures Queueable(s.producers[p].frame) && !s.producers[p].frame.AppDelta? && s.producers[p].conn < |s.conns|
  {
  }

  lemma FreshInv(cfg: Config)
    ensures ConnInv(cfg, FRESH)
  {
  }

  lemma InvCache(cfg: Config, s: State, a: Step)
    requires Inv(cfg, s) && Enabled(cfg, s, a) && Orderly(cfg, Apply(cfg, s, a)) && (a.CacheSet? || a.CacheDelete?)
    ensures Inv(cfg, Apply(cfg, s, a))
  {
    hide Orderly, ListsCache;
    if s.conns != [] {
      ConnFrame(cfg, Top(s), Top(Apply(cfg, s, a)));
    }
    hide ConnInv;
  }

  lemma InvOffer(cfg: Config, s: State, c: nat)
    requires Inv(cfg, s) && Enabled(cfg, s, Offer(c)) && Orderly(cfg, Apply(cfg, s, Offer(c)))
    ensures Inv(cfg, Apply(cfg, s, Offer(c)))
  {
    var cn := s.conns[c];
    var mid := s.(conns := s.conns[c := cn.(call := Idle)]);
    var d, f := cn.call.conn, cn.call.frame;
    OrderlyAt(cfg, s, c);
    hide Orderly;
    ConnFrame(cfg, cn, cn.(call := Idle));
    assert ConnInv(cfg, mid.conns[d]);
    hide ConnInv;
    ConnOffered(cfg, mid.conns[d], f, c == d);
    hide Offered;
  }

  lemma {:induction false} InvAlways(cfg: Config, tr: seq<State>, steps: seq<Step>, i: nat)
    requires Configured(cfg) && Execution(cfg, tr, steps) && i < |tr|
    ensures Inv(cfg, tr[i])
  {
    if i > 0 {
      InvAlways(cfg, tr, steps, i - 1);
      InvStep(cfg, tr[i - 1], steps[i - 1]);
    }
  }

  // ----- theorems -----

  /** Frames that the steps so far had the channel of connection d accept, in order. */
  ghost function AcceptedBy(tr: seq<State>, steps: seq<Step>, i: nat, d: nat): seq<Frame>
    requires i <= |steps| < |tr|
  {
    if i == 0 then []
    else AcceptedBy(tr, steps, i - 1, d) + Accepts(tr[i - 1], steps[i - 1], d)
  }

  /** One step's contribution: an offer goes to the channel it holds, and to no other. */
  function Accepts(s: State, a: Step, d: nat): seq<Frame> {
    var call :=
      if a.Offer? && a.c < |s.conns| then s.conns[a.c].call
      else if a.ProducerOffer? && a.pid in s.producers then s.producers[a.pid]
      else Idle;
    if call.Bound? && call.conn == d && d < |s.conns| && |s.conns[d].queue| < CAPACITY then [call.frame] else []
  }

  lemma AcceptsStep(cfg: Config, s: State, a: Step, d: nat)
    requires Enabled(cfg, s, a) && d < |Apply(cfg, s, a).conns|
    ensures Apply(cfg, s, a).conns[d].accepted == (if d < |s.conns| then s.conns[d].accepted else []) + Accepts(s, a, d)
  {
    hide NoticeWord, CallWord, ListsCache;
  }

  lemma {:induction false} AcceptedHistory(cfg: Config, tr: seq<State>, steps: seq<Step>, i: nat, d: nat)
    requires Execution(cfg, tr, steps) && i < |tr| && d < |tr[i].conns|
    ensures tr[i].conns[d].accepted == AcceptedBy(tr, steps, i, d)
  {
    if i > 0 {
      AcceptsStep(cfg, tr[i - 1], steps[i - 1], d);
      if d < |tr[i - 1].conns| {
        AcceptedHistory(cfg, tr, steps, i - 1, d);
      } else {
        NoneBefore(cfg, tr, steps, i - 1, d);
      }
    }
  }

  lemma ConnsGrow(cfg: Config, s: State, a: Step)
    requires Enabled(cfg, s, a)
    ensures |s.conns| <= |Apply(cfg, s, a).conns|
  {
    hide NoticeWord, CallWord, ListsCache;
  }

  lemma {:induction false} NoneBefore(cfg: Config, tr: seq<State>, steps: seq<Step>, i: nat, d: nat)
    requires Execution(cfg, tr, steps) && i < |tr| && d >= |tr[i].conns|
    ensures AcceptedBy(tr, steps, i, d) == []
  {
    if i > 0 {
      ConnsGrow(cfg, tr[i - 1], steps[i - 1]);
      NoneBefore(cfg, tr, steps, i - 1, d);
    }
  }

  /** Wire grammar and isolation, for every connection at every point of every interleaving: the trace has
      the shape of the protocol; the queued frames on it are a prefix of the frames that were offered to
      this connection's channel, in order, and none offered to another; at most the one whose write failed
      is missing; and the queue never exceeds its capacity. */
  lemma WireGrammarAndIsolation(cfg: Config, tr: seq<State>, steps: seq<Step>, i: nat, d: nat)
    requires Configured(cfg) && Execution(cfg, tr, steps) && i < |tr| && d < |tr[i].conns|
    ensures var cn := tr[i].conns[d];
            && (exists n :: Trace(cn.wire, n))
            && Drained(cn.wire) + cn.lost + cn.queue == AcceptedBy(tr, steps, i, d)
            && |cn.lost| <= 1 && (cn.phase != Closed ==> cn.lost == [])
            && |cn.queue| <= 4096
  {
    InvAlways(cfg, tr, steps, i);
    AcceptedHistory(cfg, tr, steps, i, d);
    assert ConnInv(cfg, tr[i].conns[d]);
  }

  /** The snapshot loop partitions the listing: what the snapshot frames carry is the listed Applications in
      order, each frame non-empty and within the chunk size, and all of them by snapshot_end. */
  lemma SnapshotPartition(cfg: Config, tr: seq<State>, steps: seq<Step>, i: nat, d: nat)
    requires Configured(cfg) && Execution(cfg, tr, steps) && i < |tr| && d < |tr[i].conns|
    ensures var cn := tr[i].conns[d];
            && SnapshotApps(cn.wire) <= cn.listed
            && (SnapshotEnd in cn.wire ==> SnapshotApps(cn.wire) == cn.listed)
            && (forall f :: f in cn.wire && f.Snapshot? ==> 0 < |f.apps| <= cfg.chunk)
  {
    InvAlways(cfg, tr, steps, i);
    var cn := tr[i].conns[d];
    assert ConnInv(cfg, cn);
    hide SnapshotApps, Drained;
  }
}
