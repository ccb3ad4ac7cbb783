/** What a snapshot must contain, and that a connection can always get its receiver up to date. */
module StreamSnapshot {
  import opened Text
  import opened Scope
  import opened Stream
  import opened StreamConvergence
  import StreamWire

  // ----- content -----

  ghost predicate SomeListed(cfg: Config, n: nat, a: App) {
    exists m :: 0 <= m < n && m < |Effective(cfg)| && Listed(Effective(cfg)[m], a)
  }

  /** The last connection has listed an Application if it has listed a namespace that covers it. */
  ghost predicate ListedSoFar(cfg: Config, s: State, a: App) {
    s.conns != [] ==>
      && (Top(s).phase.Listing? && SomeListed(cfg, Top(s).phase.next, a) ==> a in Top(s).listed)
      && ((Top(s).phase == Streaming || SnapshotEnd in Top(s).wire) && SomeListed(cfg, |Effective(cfg)|, a) ==>
            a in Top(s).listed)
  }

  ghost predicate Caches(s: State, a: App) {
    a.key in s.cache && s.cache[a.key] == a
  }

  lemma ListedWrite(cfg: Config, s: State, act: Act, a: App)
    requires ListedSoFar(cfg, s, a) && Enabled(cfg, s, Write(act))
    ensures ListedSoFar(cfg, Apply(cfg, s, Write(act)), a)
  {
    hide SomeListed, ListsCache;
    assert !SomeListed(cfg, 0, a) by { NoneListed(cfg, a); }
    hide Effective;
  }

  lemma NoneListed(cfg: Config, a: App)
    ensures !SomeListed(cfg, 0, a)
  {
  }

  lemma ListedList(cfg: Config, s: State, order: seq<App>, a: App)
    requires ListedSoFar(cfg, s, a) && Caches(s, a) && Enabled(cfg, s, List(order))
    ensures ListedSoFar(cfg, Apply(cfg, s, List(order)), a)
  {
    var n := Top(s).phase.next;
    if SomeListed(cfg, n + 1, a) && !SomeListed(cfg, n, a) {
      var m :| 0 <= m < n + 1 && m < |Effective(cfg)| && Listed(Effective(cfg)[m], a);
      assert m == n;
    }
  }

  lemma ListedStep(cfg: Config, s: State, step: Step, a: App)
    requires ListedSoFar(cfg, s, a) && Caches(s, a) && Enabled(cfg, s, step)
    ensures ListedSoFar(cfg, Apply(cfg, s, step), a)
  {
    if step.Write? {
      ListedWrite(cfg, s, step.act, a);
    } else if step.List? {
      ListedList(cfg, s, step.order, a);
    } else {
      hide SomeListed, ListsCache, NoticeWord, CallWord, Effective;
    }
  }

  lemma CachedBefore(cfg: Config, s: State, step: Step, a: App)
    requires Enabled(cfg, s, step) && !Changes(step, a.key) && Caches(Apply(cfg, s, step), a)
    ensures Caches(s, a)
  {
    hide ListsCache, NoticeWord, CallWord;
  }

  ghost predicate Unchanged(steps: seq<Step>, start: nat, i: nat, k: Key)
    requires i <= |steps|
  {
    forall j :: start < j < i ==> !Changes(steps[j], k)
  }

  lemma {:induction false} ListedAlways(cfg: Config, tr: seq<State>, steps: seq<Step>, start: nat, i: nat, a: App)
    requires Execution(cfg, tr, steps) && start < i < |tr| && steps[start] == Open
    requires Unchanged(steps, start, i, a.key) && Caches(tr[i], a)
    ensures ListedSoFar(cfg, tr[i], a)
    decreases i
  {
    var s, step := tr[i - 1], steps[i - 1];
    assert Enabled(cfg, s, step) && tr[i] == Apply(cfg, s, step);
    hide Enabled, SomeListed;
    if i > start + 1 {
      hide ListedSoFar;
      CachedBefore(cfg, s, step, a);
      ListedAlways(cfg, tr, steps, start, i - 1, a);
      ListedStep(cfg, s, step, a);
    }
  }

  lemma CoveredIsListed(cfg: Config, a: App)
    requires cfg.namespaces == [] || a.key.namespace in cfg.namespaces
    ensures SomeListed(cfg, |Effective(cfg)|, a)
  {
    if cfg.namespaces == [] {
      assert Listed(Effective(cfg)[0], a);
    } else {
      var m :| 0 <= m < |cfg.namespaces| && cfg.namespaces[m] == a.key.namespace;
      assert Listed(Effective(cfg)[m], a);
    }
  }

  lemma ListedInScope(cfg: Config, cn: Conn, a: App)
    requires StreamWire.ConnInv(cfg, cn) && a in cn.listed
    ensures Covers(cfg.namespaces, a.key.namespace)
  {
    var m :| 0 <= m < |cn.listed| && cn.listed[m] == a;
    assert InScopeKey(cfg, cn.listed[m].key);
  }

  /** A finished snapshot is complete: it carries every Application of a configured namespace, or of any when
      none is configured, that the cache holds and has not changed since the connection opened; and it
      carries nothing else than Applications of such namespaces. */
  lemma SnapshotComplete(cfg: Config, tr: seq<State>, steps: seq<Step>, start: nat, i: nat, a: App)
    requires Configured(cfg) && Execution(cfg, tr, steps) && start < i < |tr| && steps[start] == Open
    requires tr[i].conns != [] && SnapshotEnd in Top(tr[i]).wire
    requires Unchanged(steps, start, i, a.key) && Caches(tr[i], a)
    ensures a in StreamWire.SnapshotApps(Top(tr[i]).wire) <==>
            cfg.namespaces == [] || a.key.namespace in cfg.namespaces
  {
    var t := |tr[i].conns| - 1;
    StreamWire.SnapshotPartition(cfg, tr, steps, i, t);
    StreamWire.InvAlways(cfg, tr, steps, i);
    assert StreamWire.ConnInv(cfg, tr[i].conns[t]);
    if cfg.namespaces == [] || a.key.namespace in cfg.namespaces {
      ListedAlways(cfg, tr, steps, start, i, a);
      CoveredIsListed(cfg, a);
    } else if a in Top(tr[i]).listed {
      ListedInScope(cfg, Top(tr[i]), a);
    }
    hide StreamWire.SnapshotApps, StreamWire.Drained, SomeListed;
  }

  // ----- chunks -----

  /** As many snapshot frames as the Applications sent need, all of them full but the last. */
  ghost predicate Chunked(cfg: Config, cn: Conn) {
    && cn.sent <= cn.chunks * cfg.chunk
    && (cn.chunks > 0 ==> (cn.chunks - 1) * cfg.chunk < cn.sent)
    && (cn.sent < |cn.listed| ==> cn.sent == cn.chunks * cfg.chunk)
    && (cn.phase == Opened || cn.phase == Registered ==> cn.chunks == 0)
    && (cn.phase.Listing? && cn.phase.next < |Effective(cfg)| ==> cn.chunks == 0)
  }

  lemma ChunkedFrame(cfg: Config, cn: Conn, cn': Conn)
    requires Chunked(cfg, cn) && cn'.sent == cn.sent && cn'.chunks == cn.chunks
    requires cn'.listed == cn.listed || cn.chunks == 0
    requires cn'.phase == cn.phase || cn.chunks == 0 || cn'.phase == Streaming || cn'.phase == Closed
    ensures Chunked(cfg, cn')
  {
    if cn.chunks == 0 { assert cn.chunks * cfg.chunk == 0; }
  }

  lemma ChunkedChunk(cfg: Config, cn: Conn)
    requires cfg.chunk > 0 && Chunked(cfg, cn) && Ready(cfg, cn, SendChunk)
    ensures Chunked(cfg, Written(cfg, cn, SendChunk))
  {
    assert (cn.chunks + 1) * cfg.chunk == cn.chunks * cfg.chunk + cfg.chunk;
    hide Effective;
  }

  lemma ChunkedStep(cfg: Config, s: State, a: Step)
    requires Configured(cfg) && Enabled(cfg, s, a) && s.conns != [] && Chunked(cfg, Top(s))
    requires !a.Open?
    ensures Apply(cfg, s, a).conns != [] && Chunked(cfg, Top(Apply(cfg, s, a)))
  {
    if a == Write(SendChunk) {
      ChunkedChunk(cfg, Top(s));
    } else {
      hide ListsCache, NoticeWord, CallWord, Effective;
      ChunkedFrame(cfg, Top(s), Top(Apply(cfg, s, a)));
      hide Chunked;
    }
  }

  lemma FreshChunked(cfg: Config)
    ensures Chunked(cfg, FRESH)
  {
  }

  lemma {:induction false} ChunkedAlways(cfg: Config, tr: seq<State>, steps: seq<Step>, i: nat)
    requires Configured(cfg) && Execution(cfg, tr, steps) && i < |tr| && tr[i].conns != []
    ensures Chunked(cfg, Top(tr[i]))
  {
    assert i > 0;
    assert Enabled(cfg, tr[i - 1], steps[i - 1]) && tr[i] == Apply(cfg, tr[i - 1], steps[i - 1]);
    FreshChunked(cfg);
    hide Chunked, Enabled;
    if !steps[i - 1].Open? {
      NotFirst(cfg, tr[i - 1], steps[i - 1]);
      ChunkedAlways(cfg, tr, steps, i - 1);
      ChunkedStep(cfg, tr[i - 1], steps[i - 1]);
    }
  }

  lemma NotFirst(cfg: Config, s: State, a: Step)
    requires Enabled(cfg, s, a) && Apply(cfg, s, a).conns != [] && !a.Open?
    ensures s.conns != []
  {
    hide ListsCache, NoticeWord, CallWord;
  }

  /** A finished snapshot uses no more frames than its listing needs: n frames for more than n - 1 and at most n
      full chunks, none for none. */
  lemma SnapshotChunks(cfg: Config, tr: seq<State>, steps: seq<Step>, i: nat) returns (n: nat)
    requires Configured(cfg) && Execution(cfg, tr, steps) && i < |tr| && tr[i].conns != []
    requires SnapshotEnd in Top(tr[i]).wire
    ensures StreamWire.Trace(Top(tr[i]).wire, n) && |Top(tr[i]).wire| >= n + 2
    ensures |Top(tr[i]).listed| <= n * cfg.chunk && (n > 0 ==> (n - 1) * cfg.chunk < |Top(tr[i]).listed|)
  {
    ChunkedAlways(cfg, tr, steps, i);
    StreamWire.InvAlways(cfg, tr, steps, i);
    var cn := Top(tr[i]);
    assert StreamWire.ConnInv(cfg, cn);
    n := cn.chunks;
    EndAt(cn.wire, n);
    hide StreamWire.SnapshotApps, StreamWire.Drained;
  }

  lemma EndAt(w: seq<Frame>, n: nat)
    requires StreamWire.Trace(w, n) && SnapshotEnd in w
    ensures |w| >= n + 2
  {
    var j :| 0 <= j < |w| && w[j] == SnapshotEnd;
    assert StreamWire.Follows(w[j], j, n);
  }

  // ----- progress -----

  /** A listing of the cache exists for every namespace. */
  lemma {:induction false} SomeOrder(s: State, ns: string) returns (order: seq<App>)
    requires forall k :: k in s.cache ==> s.cache[k].key == k
    ensures ListsCache(s, ns, order)
    decreases |s.cache|
  {
    if s.cache == map[] {
      order := [];
    } else {
      var k :| k in s.cache;
      var front := s.(cache := s.cache - {k});
      assert |front.cache| < |s.cache| by { assert front.cache.Keys == s.cache.Keys - {k}; }
      var rest := SomeOrder(front, ns);
      order := if Listed(ns, s.cache[k]) then rest + [s.cache[k]] else rest;
      assert forall l :: l in s.cache && l != k ==> l in front.cache && front.cache[l] == s.cache[l];
    }
  }

  /** What getting up to date keeps. */
  ghost predicate Progressed(s: State, s': State) {
    s.conns != [] && s'.conns != [] && s'.cache == s.cache && |s'.conns| == |s.conns| && Top(s').dirty <= Top(s).dirty
  }

  lemma Order(cfg: Config, s: State, ns: string) returns (order: seq<App>)
    requires Configured(cfg) && Reachable(cfg, s)
    ensures ListsCache(s, ns, order)
  {
    ReachInv(cfg, s);
    CacheKeys(cfg, s);
    hide Orderly, Tracks, StreamWire.Inv;
    order := SomeOrder(s, ns);
  }

  /** Registering, if that has not happened yet. */
  lemma ToRegistered(cfg: Config, s: State) returns (s': State)
    requires Configured(cfg) && Reachable(cfg, s) && s.conns != [] && Top(s).phase == Opened
    ensures Reachable(cfg, s') && Progressed(s, s') && Top(s').phase == Registered && Top(s').active
  {
    var order := Order(cfg, s, "");
    hide Reachable, ListsCache;
    s' := Reach(cfg, s, Register(order));
  }

  lemma {:induction false} ToListed(cfg: Config, s: State) returns (s': State)
    requires Configured(cfg) && Reachable(cfg, s) && s.conns != [] && Top(s).active
    requires Top(s).phase.Listing? && Top(s).phase.next <= |Effective(cfg)|
    ensures Reachable(cfg, s') && Progressed(s, s') && Top(s').phase == Listing(|Effective(cfg)|) && Top(s').active
    decreases |Effective(cfg)| - Top(s).phase.next
  {
    if Top(s).phase.next == |Effective(cfg)| {
      s' := s;
    } else {
      var order := Order(cfg, s, Effective(cfg)[Top(s).phase.next]);
      hide Reachable, ListsCache, Effective;
      var s1 := Reach(cfg, s, List(order));
      s' := ToListed(cfg, s1);
    }
  }

  lemma {:induction false} ToStreaming(cfg: Config, s: State) returns (s': State)
    requires Configured(cfg) && Reachable(cfg, s) && s.conns != [] && Top(s).active
    requires Top(s).phase == Listing(|Effective(cfg)|) && Top(s).sent <= |Top(s).listed|
    ensures Reachable(cfg, s') && Progressed(s, s') && Top(s').phase == Streaming && Top(s').active
    decreases |Top(s).listed| - Top(s).sent
  {
    hide Reachable, ListsCache, Effective;
    if Top(s).sent == |Top(s).listed| {
      s' := Reach(cfg, s, Write(SendEnd));
    } else {
      var s1 := Reach(cfg, s, Write(SendChunk));
      s' := ToStreaming(cfg, s1);
    }
  }

  function Stage(c: Call): nat {
    match c case Idle => 0 case Bound(_, _) => 1 case Taken(_) => 2
  }

  /** Delivering what is pending and draining what is queued, without dropping anything. */
  lemma {:induction false} ToSettled(cfg: Config, s: State) returns (s': State)
    requires Configured(cfg) && Reachable(cfg, s) && s.conns != [] && Top(s).phase == Streaming && Top(s).active
    ensures Reachable(cfg, s') && Progressed(s, s') && Settled(s')
    decreases 3 * |Top(s).pending| + Stage(Top(s).call), |Top(s).queue|
  {
    hide Reachable, NoticeWord, CallWord;
    var t := |s.conns| - 1;
    if Top(s).call.Taken? {
      var s1 := Reach(cfg, s, Read(t));
      s' := ToSettled(cfg, s1);
    } else if Top(s).call.Bound? && |Top(s).queue| < CAPACITY {
      OwnChannel(cfg, s);
      var s1 := Reach(cfg, s, Offer(t));
      s' := ToSettled(cfg, s1);
    } else if Top(s).call.Idle? && Top(s).pending != [] {
      var s1 := Reach(cfg, s, Take(t));
      s' := ToSettled(cfg, s1);
    } else if Top(s).queue != [] {
      var s1 := Reach(cfg, s, Write(Drain));
      s' := ToSettled(cfg, s1);
    } else {
      s' := s;
    }
  }

  lemma OwnChannel(cfg: Config, s: State)
    requires Configured(cfg) && Reachable(cfg, s) && s.conns != [] && Top(s).call.Bound?
    ensures Top(s).call.conn == |s.conns| - 1
  {
    ReachInv(cfg, s);
    OrderlyAt(cfg, s, |s.conns| - 1);
  }

  lemma SentBound(cfg: Config, s: State)
    requires Configured(cfg) && Reachable(cfg, s) && s.conns != []
    ensures Top(s).sent <= |Top(s).listed|
  {
    ReachInv(cfg, s);
    assert StreamWire.ConnInv(cfg, Top(s));
  }

  /** A connection that is past registration and not over has its handlers registered, and goes through its
      namespaces in order. */
  ghost predicate Handled(cfg: Config, s: State) {
    s.conns != [] && Top(s).phase != Opened && Top(s).phase != Closed ==>
      Top(s).active && (Top(s).phase.Listing? ==> Top(s).phase.next <= |Effective(cfg)|)
  }

  lemma HandledStep(cfg: Config, s: State, a: Step)
    requires Handled(cfg, s) && Enabled(cfg, s, a)
    ensures Handled(cfg, Apply(cfg, s, a))
  {
    hide ListsCache, NoticeWord, CallWord, Effective;
  }

  lemma {:induction false} HandledAlways(cfg: Config, tr: seq<State>, steps: seq<Step>, i: nat)
    requires Execution(cfg, tr, steps) && i < |tr|
    ensures Handled(cfg, tr[i])
  {
    if i > 0 {
      HandledAlways(cfg, tr, steps, i - 1);
      HandledStep(cfg, tr[i - 1], steps[i - 1]);
    }
  }

  /** Nothing goes out on a connection before its handlers are registered: whenever the last connection has
      sent something and is not over, no change of the cache escapes its handler. */
  lemma RegisteredFirst(cfg: Config, tr: seq<State>, steps: seq<Step>, i: nat)
    requires Configured(cfg) && Execution(cfg, tr, steps) && i < |tr| && tr[i].conns != []
    requires Top(tr[i]).wire != [] && Top(tr[i]).phase != Closed
    ensures Top(tr[i]).active
  {
    HandledAlways(cfg, tr, steps, i);
    StreamWire.InvAlways(cfg, tr, steps, i);
    assert StreamWire.ConnInv(cfg, Top(tr[i]));
  }

  lemma HandledReachable(cfg: Config, s: State)
    requires Reachable(cfg, s)
    ensures Handled(cfg, s)
  {
    var tr, steps :| Execution(cfg, tr, steps) && tr[|tr| - 1] == s;
    HandledAlways(cfg, tr, steps, |tr| - 1);
  }

  /** From registration on: hello, listing, snapshot and stream. */
  lemma Onward(cfg: Config, s: State) returns (s': State)
    requires Configured(cfg) && Reachable(cfg, s) && s.conns != [] && Top(s).phase != Opened && Top(s).phase != Closed
    ensures Reachable(cfg, s') && Progressed(s, s') && Settled(s')
  {
    HandledReachable(cfg, s);
    hide Reachable, Effective;
    s' := s;
    if Top(s').phase == Registered {
      s' := Reach(cfg, s', Write(SendHello));
    }
    if Top(s').phase.Listing? {
      s' := ToListed(cfg, s');
      SentBound(cfg, s');
      s' := ToStreaming(cfg, s');
    }
    s' := ToSettled(cfg, s');
  }

  /** Every connection that is not over can bring its receiver up to date, from any reachable state and without
      any further change of the cache: it goes on to a settled state in which the receiver holds the cached
      value of every key in scope that was clean. */
  lemma AlwaysSettles(cfg: Config, s: State) returns (s': State)
    requires Configured(cfg) && Reachable(cfg, s) && s.conns != [] && Top(s).phase != Closed
    ensures Reachable(cfg, s') && Settled(s') && s'.cache == s.cache
    ensures forall k :: InScopeKey(cfg, k) && k !in Top(s).dirty ==> Cached(InventoryOf(s'), k) == Cached(s.cache, k)
  {
    s' := s;
    if Top(s).phase == Opened {
      s' := ToRegistered(cfg, s);
    }
    s' := Onward(cfg, s');
    hide Reachable, Settled, InventoryOf;
    forall k | InScopeKey(cfg, k) && k !in Top(s).dirty
      ensures Cached(InventoryOf(s'), k) == Cached(s.cache, k)
    {
      UpToDate(cfg, s', k);
    }
  }

  lemma UpToDate(cfg: Config, s: State, k: Key)
    requires Configured(cfg) && Reachable(cfg, s) && Settled(s)
    requires InScopeKey(cfg, k) && k !in Top(s).dirty
    ensures Cached(InventoryOf(s), k) == Cached(s.cache, k)
  {
    hide Settled, InventoryOf;
    var tr, steps :| Execution(cfg, tr, steps) && tr[|tr| - 1] == s;
    Convergence(cfg, tr, steps, |tr| - 1, k);
  }

  lemma ReplaySnoc(w: seq<Frame>, f: Frame)
    ensures Replay(w + [f]) == Receive(Replay(w), f)
  {
    assert (w + [f])[..|w|] == w;
  }

  /** The two steps of a producer on a settled connection. */
  lemma ProducerQueues(cfg: Config, s: State, p: nat, f: Frame) returns (s': State)
    requires Reachable(cfg, s) && Settled(s) && (f.K8sEvent? || f.LogMetrics?)
    requires p in s.producers ==> s.producers[p].Idle?
    ensures Reachable(cfg, s') && s'.cache == s.cache && |s'.conns| == |s.conns|
    ensures s'.conns != [] && Top(s') == Top(s).(queue := [f], accepted := Top(s).accepted + [f])
  {
    hide Reachable, NoticeWord, CallWord, ListsCache;
    var s1 := Reach(cfg, s, ProducerRead(p, f));
    s' := Reach(cfg, s1, ProducerOffer(p));
    assert Top(s').queue == [f] && Top(s').dirty == Top(s).dirty;
  }

  /** A cluster event or a batch of counts that a producer offers to a settled connection goes out. */
  lemma ProducerDelivers(cfg: Config, s: State, p: nat, f: Frame) returns (s': State)
    requires Reachable(cfg, s) && Settled(s) && (f.K8sEvent? || f.LogMetrics?)
    requires p in s.producers ==> s.producers[p].Idle?
    ensures Reachable(cfg, s') && Settled(s') && s'.cache == s.cache
    ensures Top(s').wire == Top(s).wire + [f] && InventoryOf(s') == InventoryOf(s)
  {
    var s1 := ProducerQueues(cfg, s, p, f);
    hide Reachable, NoticeWord, CallWord, ListsCache, Replay;
    s' := Reach(cfg, s1, Write(Drain));
    ReplaySnoc(Top(s).wire, f);
  }

  /** A streaming connection can beat at any time, between any frames, and the receiver's inventory stays. */
  lemma Beats(cfg: Config, s: State) returns (s': State)
    requires Reachable(cfg, s) && s.conns != [] && Top(s).phase == Streaming
    ensures Reachable(cfg, s') && s' == SetTop(s, Top(s).(wire := Top(s).wire + [Heartbeat]))
    ensures InventoryOf(s') == InventoryOf(s)
  {
    hide Reachable, Replay;
    s' := Reach(cfg, s, Write(Beat));
    ReplaySnoc(Top(s).wire, Heartbeat);
  }
}
