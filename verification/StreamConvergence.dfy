/** What the receiver ends up with: replaying a connection's wire against the cache. */
module StreamConvergence {
  import opened Text
  import opened Scope
  import opened Stream
  import StreamWire

  // ----- the receiver -----

  /** The receiver collects snapshot frames, replaces its inventory at snapshot_end, then applies deltas. */
  datatype Hub = Hub(staging: map<Key, App>, inventory: map<Key, App>)

  function Put(m: map<Key, App>, apps: seq<App>): map<Key, App> {
    if apps == [] then m else Put(m, apps[..|apps| - 1])[apps[|apps| - 1].key := apps[|apps| - 1]]
  }

  function Receive(h: Hub, f: Frame): Hub {
    match f
    case Hello => h.(staging := map[])
    case Snapshot(apps) => h.(staging := Put(h.staging, apps))
    case SnapshotEnd => h.(inventory := h.staging)
    case AppDelta(op, app) =>
      h.(inventory := if op == Delete then h.inventory - {app.key} else h.inventory[app.key := app])
    case K8sEvent(_) => h
    case LogMetrics(_) => h
    case Heartbeat => h
  }

  function Replay(w: seq<Frame>): Hub {
    if w == [] then Hub(map[], map[]) else Receive(Replay(w[..|w| - 1]), w[|w| - 1])
  }

  function Cached(m: map<Key, App>, k: Key): Option<App> {
    if k in m then Some(m[k]) else None
  }

  lemma {:induction false} PutConcat(m: map<Key, App>, a: seq<App>, b: seq<App>)
    ensures Put(Put(m, a), b) == Put(m, a + b)
  {
    if b == [] {
      assert a + b == a;
    } else {
      PutConcat(m, a, b[..|b| - 1]);
      assert (a + b)[..|a + b| - 1] == a + b[..|b| - 1];
    }
  }

  lemma {:induction false} PutKeys(apps: seq<App>, k: Key)
    ensures k in Put(map[], apps) <==> exists i :: 0 <= i < |apps| && apps[i].key == k
  {
    if apps != [] {
      var n := |apps| - 1;
      PutKeys(apps[..n], k);
      assert forall i :: 0 <= i < n ==> apps[..n][i] == apps[i];
    }
  }

  /** Replaying a trace: the snapshot Applications are staged until snapshot_end; after it the last delta
      about a key decides, else the snapshot. */
  lemma {:induction false} ReplayTrace(w: seq<Frame>, n: nat, k: Key)
    requires StreamWire.Trace(w, n)
    ensures |w| <= n + 1 ==>
              && Word(w, k).None? && Replay(w).inventory == map[]
              && Replay(w).staging == Put(map[], StreamWire.SnapshotApps(w))
    ensures |w| >= n + 2 ==>
              && Replay(w).staging == Put(map[], StreamWire.SnapshotApps(w))
              && Cached(Replay(w).inventory, k) ==
                 (if Word(w, k).Some? then Word(w, k).value else Cached(Put(map[], StreamWire.SnapshotApps(w)), k))
  {
    if w != [] {
      var pre, f := w[..|w| - 1], w[|w| - 1];
      assert StreamWire.Follows(w[|w| - 1], |w| - 1, n);
      assert forall j :: 0 <= j < |pre| ==> pre[j] == w[j];
      assert pre + [f] == w;
      ReplayTrace(pre, n, k);
      StreamWire.DrainedSnoc(pre, f);
      WordSnoc(pre, f, k);
      assert Replay(w) == Receive(Replay(pre), f);
      if f.Snapshot? { PutConcat(map[], StreamWire.SnapshotApps(pre), f.apps); }
      if pre == [] { assert StreamWire.SnapshotApps(pre) == []; }
      hide Replay, StreamWire.SnapshotApps, Word;
    }
  }

  // ----- words -----

  lemma WordSnoc(fs: seq<Frame>, f: Frame, k: Key)
    ensures Word(fs + [f], k) == if f.AppDelta? && f.app.key == k then Some(Said(f.op, f.app)) else Word(fs, k)
  {
    assert (fs + [f])[..|fs|] == fs;
  }

  lemma {:induction false} WordConcat(a: seq<Frame>, b: seq<Frame>, k: Key)
    ensures Word(a + b, k) == Later(Word(a, k), Word(b, k))
  {
    if b == [] {
      assert a + b == a;
    } else {
      WordConcat(a, b[..|b| - 1], k);
      assert (a + b)[..|a + b| - 1] == a + b[..|b| - 1];
    }
  }

  lemma WordOne(f: Frame, k: Key)
    ensures Word([f], k) == if f.AppDelta? && f.app.key == k then Some(Said(f.op, f.app)) else None
  {
    WordSnoc([], f, k);
    assert [] + [f] == [f];
  }

  lemma NoticeSnoc(ns: seq<Notice>, n: Notice, k: Key)
    ensures NoticeWord(ns + [n], k) ==
            if n.Notice? && n.app.key == k then Some(Said(n.op, n.app)) else NoticeWord(ns, k)
  {
    assert (ns + [n])[..|ns|] == ns;
  }

  lemma {:induction false} NoticeFirst(ns: seq<Notice>, k: Key)
    requires ns != []
    ensures NoticeWord(ns, k) == Later(NoticeWord(ns[..1], k), NoticeWord(ns[1..], k))
  {
    if |ns| == 1 {
      assert ns[..1] == ns;
    } else {
      NoticeFirst(ns[..|ns| - 1], k);
      assert ns[..|ns| - 1][..1] == ns[..1];
      assert ns[..|ns| - 1][1..] == ns[1..][..|ns| - 2];
    }
  }

  lemma NoticeOne(n: Notice, k: Key)
    ensures NoticeWord([n], k) == if n.Notice? && n.app.key == k then Some(Said(n.op, n.app)) else None
  {
    NoticeSnoc([], n, k);
    assert [] + [n] == [n];
  }

  // ----- coherence -----

  /** The last word about a key is what the cache says; with no word, the key is neither cached nor listed. */
  ghost predicate Coherent(cache: map<Key, App>, cn: Conn, k: Key) {
    if LastWord(cn, k).Some? then LastWord(cn, k).value == Cached(cache, k)
    else k !in cache && forall i :: 0 <= i < |cn.listed| ==> cn.listed[i].key != k
  }

  ghost predicate Live(s: State) {
    s.conns != [] && Top(s).active && Top(s).phase != Closed
  }

  /** On the live connection every clean key in scope is coherent; before registration, a key with a word
      in the queue is not clean. */
  ghost predicate Tracks(cfg: Config, s: State) {
    && (Live(s) ==> forall k :: InScopeKey(cfg, k) && k !in Top(s).dirty ==> Coherent(s.cache, Top(s), k))
    && (s.conns != [] && Top(s).phase == Opened ==> forall k :: k !in Top(s).dirty ==> Word(Top(s).queue, k).None?)
  }

  lemma KeepsNotify(cfg: Config, s: State, cache: map<Key, App>, n: Notice, key: Key)
    requires s.conns != [] && Top(s).active
    requires forall k :: k != key ==> Cached(cache, k) == Cached(s.cache, k)
    requires if n.Notice? then n.app.key == key && Said(n.op, n.app) == Cached(cache, key) else n.key == key
    ensures forall k ::
              k !in Notify(Top(s), n).dirty && (k == key || (k !in Top(s).dirty && Coherent(s.cache, Top(s), k))) ==>
              Coherent(cache, Notify(Top(s), n), k)
  {
    hide Word, CallWord, NoticeWord;
    forall k | k !in Notify(Top(s), n).dirty && (k == key || (k !in Top(s).dirty && Coherent(s.cache, Top(s), k)))
      ensures Coherent(cache, Notify(Top(s), n), k)
    {
      NoticeSnoc(Top(s).pending, n, k);
      assert Cached(cache, k).Some? <==> k in cache;
      assert Cached(s.cache, k).Some? <==> k in s.cache;
    }
  }

  lemma {:induction false} AddsWord(cache: map<Key, App>, order: seq<App>, k: Key)
    requires forall i :: 0 <= i < |order| ==> order[i].key in cache && cache[order[i].key] == order[i]
    ensures NoticeWord(Adds(order), k) ==
            if exists i :: 0 <= i < |order| && order[i].key == k then Some(Cached(cache, k)) else None
  {
    if order != [] {
      var n := |order| - 1;
      AddsWord(cache, order[..n], k);
      assert Adds(order) == Adds(order[..n]) + [Notice(Add, order[n])];
      NoticeSnoc(Adds(order[..n]), Notice(Add, order[n]), k);
      assert forall i :: 0 <= i < n ==> order[..n][i] == order[i];
    }
  }

  lemma TracksRegister(cfg: Config, s: State, order: seq<App>)
    requires StreamWire.Inv(cfg, s) && Tracks(cfg, s) && Enabled(cfg, s, Register(order))
    ensures Tracks(cfg, Apply(cfg, s, Register(order)))
  {
    var s' := Apply(cfg, s, Register(order));
    var cn, cn' := Top(s), Top(s');
    assert StreamWire.ConnInv(cfg, cn);
    OrderlyAt(cfg, s, |s.conns| - 1);
    CacheKeys(cfg, s);
    hide StreamWire.ConnInv, Orderly;
    assert forall i :: 0 <= i < |order| ==> order[i] in order;
    forall k | k !in cn'.dirty ensures Coherent(s.cache, cn', k) {
      AddsWord(s.cache, order, k);
      if k in s.cache {
        assert s.cache[k] in order;
      } else {
        assert k !in cn.dirty && Word(cn.queue, k).None?;
        assert Word(cn.wire, k).None? && CallWord(cn.call, k).None?;
      }
    }
  }

  /** The writer moves words along without changing the last one. */
  lemma WriterKeepsWord(cfg: Config, cn: Conn, act: Act, k: Key)
    requires Ready(cfg, cn, act) && !act.DrainFails?
    ensures LastWord(Written(cfg, cn, act), k) == LastWord(cn, k)
  {
    var cn' := Written(cfg, cn, act);
    if act.Drain? {
      WordSnoc(cn.wire, cn.queue[0], k);
      WordConcat([cn.queue[0]], cn.queue[1..], k);
      WordOne(cn.queue[0], k);
      assert [cn.queue[0]] + cn.queue[1..] == cn.queue;
    } else if !act.Close? {
      WordSnoc(cn.wire, cn'.wire[|cn.wire|], k);
    }
    hide Word, NoticeWord, CallWord;
  }

  lemma TakeKeepsWord(cfg: Config, cn: Conn, k: Key)
    requires cn.pending != [] && cn.call == Idle && InScopeKey(cfg, k)
    ensures LastWord(TakeNext(cfg, cn), k) == LastWord(cn, k)
  {
    var n := cn.pending[0];
    NoticeFirst(cn.pending, k);
    assert cn.pending[..1] == [n];
    NoticeOne(n, k);
    if n.Notice? { WordOne(AppDelta(n.op, n.app), k); }
    hide Word, NoticeWord;
  }

  /** An offer to the live connection: own or stale, accepted or dropped. A key that is still clean keeps
      its last word. */
  lemma OfferKeepsWord(cn: Conn, f: Frame, own: bool, k: Key)
    requires own || cn.call == Idle || cn.call.frame.AppDelta?
    requires k !in Offered(cn, f, own).dirty
    ensures own && cn.call == Idle && f.AppDelta? ==>
            LastWord(Offered(cn, f, own), k) == LastWord(cn.(call := Bound(f, 0)), k)
    ensures !own || !f.AppDelta? ==> LastWord(Offered(cn, f, own), k) == LastWord(cn, k)
  {
    WordSnoc(cn.queue, f, k);
    WordOne(f, k);
    hide Word, NoticeWord, CallWord;
    assert CallWord(Idle, k) == None by { CallIdle(k); }
    assert CallWord(Bound(f, 0), k) == Word([f], k) by { CallIs(f, k); }
  }

  lemma CallIdle(k: Key)
    ensures CallWord(Idle, k) == None
  {
  }

  lemma CallIs(f: Frame, k: Key)
    ensures forall d :: CallWord(Bound(f, d), k) == Word([f], k) == CallWord(Taken(f), k)
  {
  }

  // ----- the invariant -----

  /** A step that leaves the cache alone and the clean keys' last words as they were. */
  lemma TracksFrom(cfg: Config, s: State, s': State)
    requires Tracks(cfg, s) && s.conns != [] && s'.conns != [] && s'.cache == s.cache
    requires Live(s') ==>
               && Live(s) && Top(s').listed == Top(s).listed && Top(s).dirty <= Top(s').dirty
               && forall k :: InScopeKey(cfg, k) && k !in Top(s').dirty ==> LastWord(Top(s'), k) == LastWord(Top(s), k)
    requires Top(s').phase == Opened ==>
               && Top(s).phase == Opened && Top(s).dirty <= Top(s').dirty
               && forall k :: k !in Top(s').dirty && Word(Top(s).queue, k).None? ==> Word(Top(s').queue, k).None?
    ensures Tracks(cfg, s')
  {
    hide LastWord, Word;
  }

  lemma TracksWrite(cfg: Config, s: State, act: Act)
    requires Tracks(cfg, s) && Enabled(cfg, s, Write(act))
    ensures Tracks(cfg, Apply(cfg, s, Write(act)))
  {
    var s' := Apply(cfg, s, Write(act));
    if !act.DrainFails? {
      forall k { WriterKeepsWord(cfg, Top(s), act, k); }
    }
    hide LastWord, Word;
    TracksFrom(cfg, s, s');
  }

  lemma TracksCache(cfg: Config, s: State, a: Step)
    requires Orderly(cfg, s) && Tracks(cfg, s) && (a.CacheSet? || a.CacheDelete?) && Enabled(cfg, s, a)
    ensures Tracks(cfg, Apply(cfg, s, a))
  {
    var s' := Apply(cfg, s, a);
    if s.conns != [] {
      OrderlyAt(cfg, s, |s.conns| - 1);
      CacheKeys(cfg, s);
      hide Orderly, LastWord, Word, Coherent;
      if Top(s).active {
        if a.CacheSet? {
          var n := Notice(if a.app.key in s.cache then Update else Add, a.app);
          KeepsNotify(cfg, s, s'.cache, n, a.app.key);
        } else {
          var n := if a.tombstone then Tombstone(a.key) else Notice(Delete, App(a.key, s.cache[a.key].content));
          KeepsNotify(cfg, s, s'.cache, n, a.key);
        }
      }
    }
  }

  lemma TracksList(cfg: Config, s: State, order: seq<App>)
    requires Tracks(cfg, s) && Enabled(cfg, s, List(order))
    ensures Tracks(cfg, Apply(cfg, s, List(order)))
  {
    var s' := Apply(cfg, s, List(order));
    assert forall i :: 0 <= i < |order| ==> order[i] in order;
    assert forall k :: LastWord(Top(s'), k) == LastWord(Top(s), k);
    hide LastWord, Word;
  }

  lemma TracksHandler(cfg: Config, s: State, a: Step)
    requires Orderly(cfg, s) && Tracks(cfg, s) && (a.Take? || a.Read?) && Enabled(cfg, s, a)
    ensures Tracks(cfg, Apply(cfg, s, a))
  {
    var s' := Apply(cfg, s, a);
    OrderlyAt(cfg, s, a.c);
    if a.c == |s.conns| - 1 {
      forall k | InScopeKey(cfg, k) ensures LastWord(Top(s'), k) == LastWord(Top(s), k) {
        if a.Take? { TakeKeepsWord(cfg, Top(s), k); } else { CallIs(Top(s).call.frame, k); }
      }
      hide Orderly, LastWord, Word;
      TracksFrom(cfg, s, s');
    } else {
      hide Orderly, LastWord, Word;
      TracksFrom(cfg, s, s');
    }
  }

  lemma OpenedOffered(cn: Conn, f: Frame, k: Key)
    requires cn.pending == [] && cn.call == Idle && k !in Offered(cn, f, false).dirty && Word(cn.queue, k).None?
    ensures Word(Offered(cn, f, false).queue, k).None?
  {
    WordSnoc(cn.queue, f, k);
  }

  lemma OpenedProduced(cn: Conn, f: Frame, k: Key)
    requires !f.AppDelta? && Word(cn.queue, k).None?
    ensures Word(Offered(cn, f, true).queue, k).None?
  {
    WordSnoc(cn.queue, f, k);
  }

  lemma TracksOffer(cfg: Config, s: State, c: nat)
    requires Orderly(cfg, s) && Tracks(cfg, s) && Enabled(cfg, s, Offer(c))
    ensures Tracks(cfg, Apply(cfg, s, Offer(c)))
  {
    var s' := Apply(cfg, s, Offer(c));
    var t := |s.conns| - 1;
    OrderlyAt(cfg, s, c);
    OrderlyAt(cfg, s, t);
    var d, f := s.conns[c].call.conn, s.conns[c].call.frame;
    if d == t {
      var mid := if c == t then Top(s).(call := Idle) else Top(s);
      assert Top(s') == Offered(mid, f, c == t);
      forall k | k !in Top(s').dirty ensures LastWord(Top(s'), k) == LastWord(Top(s), k) {
        OfferKeepsWord(mid, f, c == t, k);
        if c == t { SameCall(Top(s), mid, f, k); }
      }
      if Top(s).phase == Opened {
        forall k | k !in Top(s').dirty && Word(Top(s).queue, k).None? ensures Word(Top(s').queue, k).None? {
          OpenedOffered(mid, f, k);
        }
      }
    }
    hide Orderly, LastWord, Word, NoticeWord, CallWord;
    TracksFrom(cfg, s, s');
  }

  lemma SameCall(cn: Conn, mid: Conn, f: Frame, k: Key)
    requires cn.call.Bound? && cn.call.frame == f && mid == cn.(call := Idle)
    ensures LastWord(mid.(call := Bound(f, 0)), k) == LastWord(cn, k)
  {
    CallIs(f, k);
    hide Word, NoticeWord, CallWord;
  }

  lemma TracksProduce(cfg: Config, s: State, p: nat)
    requires Orderly(cfg, s) && Tracks(cfg, s) && Enabled(cfg, s, ProducerOffer(p))
    ensures Tracks(cfg, Apply(cfg, s, ProducerOffer(p)))
  {
    var s' := Apply(cfg, s, ProducerOffer(p));
    StreamWire.ProducerFrame(cfg, s, p);
    var t, d, f := |s.conns| - 1, s.producers[p].conn, s.producers[p].frame;
    OrderlyAt(cfg, s, t);
    if d == t {
      forall k | k !in Top(s').dirty ensures LastWord(Top(s'), k) == LastWord(Top(s), k) {
        OfferKeepsWord(Top(s), f, true, k);
      }
      forall k | Word(Top(s).queue, k).None? ensures Word(Top(s').queue, k).None? {
        OpenedProduced(Top(s), f, k);
      }
    }
    hide Orderly, LastWord, Word, NoticeWord, CallWord;
    TracksFrom(cfg, s, s');
  }

  lemma TracksRest(cfg: Config, s: State, a: Step)
    requires Tracks(cfg, s) && Enabled(cfg, s, a) && (a.Open? || a.Unregister? || a.ProducerRead?)
    ensures Tracks(cfg, Apply(cfg, s, a))
  {
    hide LastWord;
  }

  lemma TracksStep(cfg: Config, s: State, a: Step)
    requires StreamWire.Inv(cfg, s) && Tracks(cfg, s) && Enabled(cfg, s, a)
    ensures Tracks(cfg, Apply(cfg, s, a))
  {
    hide Tracks, Enabled, Orderly, StreamWire.ConnInv;
    match a
    case CacheSet(_) => TracksCache(cfg, s, a);
    case CacheDelete(_, _) => TracksCache(cfg, s, a);
    case Open => TracksRest(cfg, s, a);
    case Register(order) => TracksRegister(cfg, s, order);
    case List(order) => TracksList(cfg, s, order);
    case Write(act) => TracksWrite(cfg, s, act);
    case Unregister => TracksRest(cfg, s, a);
    case Take(_) => TracksHandler(cfg, s, a);
    case Read(_) => TracksHandler(cfg, s, a);
    case Offer(c) => TracksOffer(cfg, s, c);
    case ProducerRead(_, _) => TracksRest(cfg, s, a);
    case ProducerOffer(p) => TracksProduce(cfg, s, p);
  }

  lemma {:induction false} TracksAlways(cfg: Config, tr: seq<State>, steps: seq<Step>, i: nat)
    requires Configured(cfg) && Execution(cfg, tr, steps) && i < |tr|
    ensures StreamWire.Inv(cfg, tr[i]) && Tracks(cfg, tr[i])
  {
    StreamWire.InvAlways(cfg, tr, steps, i);
    if i > 0 {
      TracksAlways(cfg, tr, steps, i - 1);
      TracksStep(cfg, tr[i - 1], steps[i - 1]);
    }
  }

  // ----- convergence -----

  /** Streaming, with nothing left to deliver, in flight or queued. */
  ghost predicate Settled(s: State) {
    && s.conns != [] && Top(s).phase == Streaming && Top(s).active
    && Top(s).queue == [] && Top(s).call == Idle && Top(s).pending == []
  }

  function InventoryOf(s: State): map<Key, App>
    requires s.conns != []
  {
    Replay(Top(s).wire).inventory
  }

  /** What the receiver holds for a key once the connection streams: the last delta on the wire, else the
      listing. */
  lemma Holding(cfg: Config, s: State, k: Key)
    requires StreamWire.Inv(cfg, s) && s.conns != [] && Top(s).phase == Streaming
    ensures Cached(InventoryOf(s), k) ==
            if Word(Top(s).wire, k).Some? then Word(Top(s).wire, k).value else Cached(Put(map[], Top(s).listed), k)
  {
    var cn := Top(s);
    assert StreamWire.ConnInv(cfg, cn);
    ReplayTrace(cn.wire, cn.chunks, k);
    assert cn.listed[..cn.sent] == cn.listed;
    hide Word, Replay, Put, StreamWire.SnapshotApps, StreamWire.Drained;
  }

  lemma {:induction false} WordsInScope(cfg: Config, w: seq<Frame>, k: Key)
    requires var d := StreamWire.Drained(w);
             forall i :: 0 <= i < |d| ==> d[i].AppDelta? ==> InScopeKey(cfg, d[i].app.key)
    requires !InScopeKey(cfg, k)
    ensures Word(w, k).None?
  {
    if w != [] {
      var pre, f := w[..|w| - 1], w[|w| - 1];
      assert pre + [f] == w;
      StreamWire.DrainedSnoc(pre, f);
      var d := StreamWire.Drained(pre);
      assert forall i :: 0 <= i < |d| ==> d[i] == StreamWire.Drained(w)[i];
      if Queueable(f) { assert StreamWire.Drained(w)[|d|] == f; }
      WordsInScope(cfg, pre, k);
      WordSnoc(pre, f, k);
    }
  }

  /** Stream convergence. For every interleaving, reconnects included: once the live connection has settled,
      replaying its wire gives the cached Application for every key in scope whose last word was not
      spoilt, and nothing for keys out of scope. Stale deltas queued before the snapshot and replayed after
      it do no harm. */
  lemma Convergence(cfg: Config, tr: seq<State>, steps: seq<Step>, i: nat, k: Key)
    requires Configured(cfg) && Execution(cfg, tr, steps) && i < |tr| && Settled(tr[i])
    ensures InScopeKey(cfg, k) && k !in Top(tr[i]).dirty ==> Cached(InventoryOf(tr[i]), k) == Cached(tr[i].cache, k)
    ensures !InScopeKey(cfg, k) ==> k !in InventoryOf(tr[i])
  {
    TracksAlways(cfg, tr, steps, i);
    var s := tr[i];
    var cn := Top(s);
    Holding(cfg, s, k);
    PutKeys(cn.listed, k);
    assert StreamWire.ConnInv(cfg, cn);
    if InScopeKey(cfg, k) && k !in cn.dirty {
      assert Coherent(s.cache, cn, k);
      assert LastWord(cn, k) == Word(cn.wire, k) by { SettledWord(cn, k); }
    }
    if !InScopeKey(cfg, k) {
      OnWire(cfg, cn);
      WordsInScope(cfg, cn.wire, k);
    }
    hide Word, Replay, Put, LastWord, StreamWire.Drained, StreamWire.SnapshotApps;
  }

  lemma SettledWord(cn: Conn, k: Key)
    requires cn.queue == [] && cn.call == Idle && cn.pending == []
    ensures LastWord(cn, k) == Word(cn.wire, k)
  {
  }

  lemma OnWire(cfg: Config, cn: Conn)
    requires StreamWire.Fifo(cfg, cn)
    ensures var d := StreamWire.Drained(cn.wire);
            forall i :: 0 <= i < |d| ==> d[i].AppDelta? ==> InScopeKey(cfg, d[i].app.key)
  {
    hide StreamWire.Drained;
    var d := StreamWire.Drained(cn.wire);
    assert forall i :: 0 <= i < |d| ==> d[i] == cn.accepted[i];
  }

  // ----- what spoils it, and what does not -----

  /** The three ways the last word about a key can go wrong: a deletion seen only as a tombstone, a delta
      of the own handler dropped on a full queue, and a delta of an earlier connection's handler that was
      still in flight and found the new channel. */
  ghost predicate Spoils(s: State, a: Step) {
    || (a.CacheDelete? && a.tombstone)
    || (&& a.Offer? && a.c < |s.conns| && s.conns[a.c].call.Bound? && s.conns[a.c].call.conn < |s.conns|
        && (a.c == s.conns[a.c].call.conn <==> |s.conns[s.conns[a.c].call.conn].queue| >= CAPACITY))
  }

  lemma CleanStep(cfg: Config, s: State, a: Step)
    requires Orderly(cfg, s) && Enabled(cfg, s, a) && !Spoils(s, a) && (s.conns != [] || a.Open?)
    requires s.conns != [] ==> Top(s).dirty == {}
    ensures Apply(cfg, s, a).conns != [] && Top(Apply(cfg, s, a)).dirty == {}
  {
    if a.ProducerOffer? { StreamWire.ProducerFrame(cfg, s, a.pid); }
    hide Orderly, NoticeWord, CallWord, ListsCache;
  }

  /** From the opening of a connection on, as long as no step spoils a word, none is spoilt. */
  lemma {:induction false} CleanRun(cfg: Config, tr: seq<State>, steps: seq<Step>, start: nat, i: nat)
    requires Configured(cfg) && Execution(cfg, tr, steps) && start < i < |tr| && steps[start] == Open
    requires forall j :: start < j < i ==> !Spoils(tr[j], steps[j])
    ensures tr[i].conns != [] && Top(tr[i]).dirty == {}
  {
    if i > start + 1 {
      CleanRun(cfg, tr, steps, start, i - 1);
      StreamWire.InvAlways(cfg, tr, steps, i - 1);
      CleanStep(cfg, tr[i - 1], steps[i - 1]);
    }
  }

  /** Without tombstones, drops and stale deltas since the connection opened, the settled receiver holds
      exactly the cached Applications in scope. */
  lemma ConvergesWhenClean(cfg: Config, tr: seq<State>, steps: seq<Step>, start: nat, i: nat)
    requires Configured(cfg) && Execution(cfg, tr, steps) && start < i < |tr| && steps[start] == Open
    requires forall j :: start < j < i ==> !Spoils(tr[j], steps[j])
    requires Settled(tr[i])
    ensures InventoryOf(tr[i]) == map k | k in tr[i].cache && InScopeKey(cfg, k) :: tr[i].cache[k]
  {
    CleanRun(cfg, tr, steps, start, i);
    var m, c := InventoryOf(tr[i]), tr[i].cache;
    forall k ensures Cached(m, k) == if InScopeKey(cfg, k) then Cached(c, k) else None {
      Convergence(cfg, tr, steps, i, k);
    }
    hide Replay, InScopeKey, Settled;
    forall k ensures k in m <==> k in c && InScopeKey(cfg, k) {
      assert Cached(m, k).Some? <==> k in m;
      assert Cached(c, k).Some? <==> k in c;
    }
    forall k | k in m ensures m[k] == c[k] {
      assert Cached(m, k) == Some(m[k]) && Cached(c, k) == Some(c[k]);
    }
  }

  // ----- exactly when a key converges -----

  lemma {:induction false} WordDrained(w: seq<Frame>, k: Key)
    ensures Word(StreamWire.Drained(w), k) == Word(w, k)
  {
    if w != [] {
      var pre, f := w[..|w| - 1], w[|w| - 1];
      assert pre + [f] == w;
      WordDrained(pre, k);
      StreamWire.DrainedSnoc(pre, f);
      WordSnoc(pre, f, k);
      WordSnoc(StreamWire.Drained(pre), f, k);
    }
  }

  /** What a settled receiver holds, in terms of the steps of any run: what the last delta about the key said
      that this connection's channel accepted, whoever offered it, else what was listed. So the key converges
      exactly when that is what the cache says. */
  lemma HoldsAccepted(cfg: Config, tr: seq<State>, steps: seq<Step>, i: nat, k: Key)
    requires Configured(cfg) && Execution(cfg, tr, steps) && i < |tr| && Settled(tr[i])
    ensures var cn, word := Top(tr[i]), Word(StreamWire.AcceptedBy(tr, steps, i, |tr[i].conns| - 1), k);
            var held := if word.Some? then word.value else Cached(Put(map[], cn.listed), k);
            && Cached(InventoryOf(tr[i]), k) == held
            && (Cached(InventoryOf(tr[i]), k) == Cached(tr[i].cache, k) <==> held == Cached(tr[i].cache, k))
  {
    StreamWire.InvAlways(cfg, tr, steps, i);
    StreamWire.WireGrammarAndIsolation(cfg, tr, steps, i, |tr[i].conns| - 1);
    Holding(cfg, tr[i], k);
    WordDrained(Top(tr[i]).wire, k);
    var d := StreamWire.Drained(Top(tr[i]).wire);
    assert d + [] + [] == d;
    hide Word, Replay, Put, StreamWire.Drained, StreamWire.AcceptedBy;
  }

  /** While tombstones are the only spoilers: a dirty key in scope has left the cache, and the last word
      still says that it is there. */
  ghost predicate Missed(cfg: Config, s: State) {
    && (s.conns != [] && Top(s).phase == Opened ==> Top(s).dirty == {})
    && (Live(s) ==> forall k :: InScopeKey(cfg, k) && k in Top(s).dirty ==> StillSaid(s, k))
  }

  predicate StillSaid(s: State, k: Key)
    requires s.conns != []
  {
    k !in s.cache && LastWord(Top(s), k).Some? && LastWord(Top(s), k).value.Some?
  }

  lemma MissedFrom(cfg: Config, s: State, s': State)
    requires Missed(cfg, s) && s.conns != [] && s'.conns != [] && s'.cache == s.cache
    requires Top(s').phase == Opened ==> Top(s').dirty == {}
    requires Live(s') ==>
               && Live(s) && Top(s').dirty <= Top(s).dirty
               && forall k :: InScopeKey(cfg, k) ==> LastWord(Top(s'), k) == LastWord(Top(s), k)
    ensures Missed(cfg, s')
  {
    hide LastWord;
  }

  lemma MissedCache(cfg: Config, s: State, a: Step)
    requires Orderly(cfg, s) && Tracks(cfg, s) && Missed(cfg, s) && (a.CacheSet? || a.CacheDelete?)
             && Enabled(cfg, s, a)
    ensures Missed(cfg, Apply(cfg, s, a))
  {
    var s' := Apply(cfg, s, a);
    if s.conns != [] && Top(s).active {
      OrderlyAt(cfg, s, |s.conns| - 1);
      var n := Top(s').pending[|Top(s).pending|];
      assert Top(s').pending == Top(s).pending + [n];
      forall k | Live(s') && InScopeKey(cfg, k) && k in Top(s').dirty ensures StillSaid(s', k) {
        NoticeSnoc(Top(s).pending, n, k);
        if k !in Top(s).dirty {
          assert Coherent(s.cache, Top(s), k);
        }
        hide Word, NoticeWord, CallWord;
      }
    }
  }

  lemma AcceptKeepsWord(cn: Conn, f: Frame, k: Key)
    requires cn.call == Idle && |cn.queue| < CAPACITY
    ensures LastWord(Offered(cn, f, true), k) == LastWord(cn.(call := Bound(f, 0)), k)
    ensures Offered(cn, f, true).dirty == cn.dirty
  {
    WordSnoc(cn.queue, f, k);
    WordOne(f, k);
    CallIdle(k);
    CallIs(f, k);
    hide Word, NoticeWord, CallWord;
  }

  lemma MissedOffer(cfg: Config, s: State, c: nat)
    requires Orderly(cfg, s) && Missed(cfg, s) && Enabled(cfg, s, Offer(c)) && !Spoils(s, Offer(c))
    ensures Missed(cfg, Apply(cfg, s, Offer(c)))
  {
    var s' := Apply(cfg, s, Offer(c));
    var t := |s.conns| - 1;
    OrderlyAt(cfg, s, c);
    OrderlyAt(cfg, s, t);
    var d, f := s.conns[c].call.conn, s.conns[c].call.frame;
    if c == t {
      var mid := Top(s).(call := Idle);
      assert Top(s') == Offered(mid, f, true);
      forall k ensures LastWord(Top(s'), k) == LastWord(Top(s), k) && Top(s').dirty == Top(s).dirty {
        AcceptKeepsWord(mid, f, k);
        SameCall(Top(s), mid, f, k);
      }
    }
    hide Orderly, LastWord, NoticeWord, CallWord;
    MissedFrom(cfg, s, s');
  }

  lemma MissedProduce(cfg: Config, s: State, p: nat)
    requires Orderly(cfg, s) && Missed(cfg, s) && Enabled(cfg, s, ProducerOffer(p))
    ensures Missed(cfg, Apply(cfg, s, ProducerOffer(p)))
  {
    var s' := Apply(cfg, s, ProducerOffer(p));
    StreamWire.ProducerFrame(cfg, s, p);
    var f := s.producers[p].frame;
    if s.producers[p].conn == |s.conns| - 1 {
      forall k ensures LastWord(Top(s'), k) == LastWord(Top(s), k) {
        WordSnoc(Top(s).queue, f, k);
        hide Word, NoticeWord, CallWord;
      }
    }
    hide Orderly, LastWord, NoticeWord, CallWord;
    MissedFrom(cfg, s, s');
  }

  lemma MissedHandler(cfg: Config, s: State, a: Step)
    requires Orderly(cfg, s) && Missed(cfg, s) && (a.Take? || a.Read?) && Enabled(cfg, s, a)
    ensures Missed(cfg, Apply(cfg, s, a))
  {
    var s' := Apply(cfg, s, a);
    OrderlyAt(cfg, s, a.c);
    if a.c == |s.conns| - 1 {
      forall k | InScopeKey(cfg, k) ensures LastWord(Top(s'), k) == LastWord(Top(s), k) {
        if a.Take? { TakeKeepsWord(cfg, Top(s), k); } else { CallIs(Top(s).call.frame, k); }
      }
    }
    hide Orderly, LastWord, Word;
    MissedFrom(cfg, s, s');
  }

  lemma MissedTop(cfg: Config, s: State, a: Step)
    requires Missed(cfg, s) && OnTop(a) && Enabled(cfg, s, a)
    ensures Missed(cfg, Apply(cfg, s, a))
  {
    var s' := Apply(cfg, s, a);
    if a.Write? && !a.act.DrainFails? {
      forall k { WriterKeepsWord(cfg, Top(s), a.act, k); }
    }
    if a.List? { assert forall k :: LastWord(Top(s'), k) == LastWord(Top(s), k); }
    hide LastWord, ListsCache;
    if !a.Register? { MissedFrom(cfg, s, s'); }
  }

  lemma MissedStep(cfg: Config, s: State, a: Step)
    requires StreamWire.Inv(cfg, s) && Tracks(cfg, s) && Missed(cfg, s) && Enabled(cfg, s, a)
    requires Spoils(s, a) ==> a.CacheDelete?
    ensures Missed(cfg, Apply(cfg, s, a))
  {
    hide Tracks, Enabled, Orderly, StreamWire.ConnInv, Missed, Spoils;
    match a
    case CacheSet(_) => MissedCache(cfg, s, a);
    case CacheDelete(_, _) => MissedCache(cfg, s, a);
    case Open => MissedRest(cfg, s, a);
    case Register(_) => MissedTop(cfg, s, a);
    case List(_) => MissedTop(cfg, s, a);
    case Write(_) => MissedTop(cfg, s, a);
    case Unregister => MissedTop(cfg, s, a);
    case Take(_) => MissedHandler(cfg, s, a);
    case Read(_) => MissedHandler(cfg, s, a);
    case Offer(c) => MissedOffer(cfg, s, c);
    case ProducerRead(_, _) => MissedRest(cfg, s, a);
    case ProducerOffer(p) => MissedProduce(cfg, s, p);
  }

  lemma MissedRest(cfg: Config, s: State, a: Step)
    requires Missed(cfg, s) && Enabled(cfg, s, a) && (a.Open? || a.ProducerRead?)
    ensures Missed(cfg, Apply(cfg, s, a))
  {
    hide LastWord;
  }

  /** Since the connection opened, the only spoiling steps are deletions seen as tombstones. */
  ghost predicate OnlyTombstones(tr: seq<State>, steps: seq<Step>, start: nat, i: nat)
    requires i < |tr| == |steps| + 1
  {
    && start < i && steps[start] == Open
    && forall j :: start < j < i && Spoils(tr[j], steps[j]) ==> steps[j].CacheDelete?
  }

  lemma {:induction false} MissedAlways(cfg: Config, tr: seq<State>, steps: seq<Step>, start: nat, i: nat)
    requires Configured(cfg) && Execution(cfg, tr, steps) && i < |tr| && OnlyTombstones(tr, steps, start, i)
    ensures Missed(cfg, tr[i])
    decreases i
  {
    hide Spoils, LastWord;
    if i == start + 1 {
      assert tr[i] == Apply(cfg, tr[start], Open);
    } else {
      MissedAlways(cfg, tr, steps, start, i - 1);
      TracksAlways(cfg, tr, steps, i - 1);
      MissedStep(cfg, tr[i - 1], steps[i - 1]);
    }
  }

  predicate Changes(a: Step, k: Key) {
    (a.CacheSet? && a.app.key == k) || (a.CacheDelete? && a.key == k)
  }

  /** The last change of the key after step r was a deletion seen as a tombstone. */
  ghost predicate TombstonedLast(steps: seq<Step>, r: nat, i: nat, k: Key)
    requires i <= |steps|
  {
    exists j :: r < j < i && steps[j] == CacheDelete(k, true) && forall l :: j < l < i ==> !Changes(steps[l], k)
  }

  lemma TombstonedStep(steps: seq<Step>, r: nat, i: nat, k: Key)
    requires r < i - 1 < |steps|
    ensures TombstonedLast(steps, r, i, k) <==>
            steps[i - 1] == CacheDelete(k, true) || (TombstonedLast(steps, r, i - 1, k) && !Changes(steps[i - 1], k))
  {
    if TombstonedLast(steps, r, i - 1, k) && !Changes(steps[i - 1], k) {
      var j :| r < j < i - 1 && steps[j] == CacheDelete(k, true) && forall l :: j < l < i - 1 ==> !Changes(steps[l], k);
      assert forall l :: j < l < i ==> !Changes(steps[l], k);
    }
  }

  /** How a step that keeps the handler registered moves the dirty keys. */
  lemma DirtyStep(cfg: Config, s: State, a: Step, k: Key)
    requires Orderly(cfg, s) && Enabled(cfg, s, a) && !a.Register? && (Spoils(s, a) ==> a.CacheDelete?)
    requires Apply(cfg, s, a).conns != [] && Top(Apply(cfg, s, a)).active
    ensures s.conns != [] && Top(s).active
    ensures k in Top(Apply(cfg, s, a)).dirty <==> a == CacheDelete(k, true) || (k in Top(s).dirty && !Changes(a, k))
  {
    if a.ProducerOffer? { StreamWire.ProducerFrame(cfg, s, a.pid); }
    if a.Offer? { OrderlyAt(cfg, s, a.c); }
    hide Orderly, NoticeWord, CallWord, ListsCache;
  }

  lemma RegisterCleans(cfg: Config, s: State, a: Step)
    requires Missed(cfg, s) && a.Register? && Enabled(cfg, s, a)
    ensures Top(Apply(cfg, s, a)).dirty == {}
  {
    hide ListsCache, LastWord;
  }

  lemma OneStep(cfg: Config, tr: seq<State>, steps: seq<Step>, start: nat, i: nat)
    requires Execution(cfg, tr, steps) && i < |tr| && OnlyTombstones(tr, steps, start, i) && start + 1 < i
    ensures Enabled(cfg, tr[i - 1], steps[i - 1]) && tr[i] == Apply(cfg, tr[i - 1], steps[i - 1])
    ensures Spoils(tr[i - 1], steps[i - 1]) ==> steps[i - 1].CacheDelete?
    ensures OnlyTombstones(tr, steps, start, i - 1)
  {
    hide Spoils, Apply, Enabled;
  }

  /** The last registration of the handler after `start` and before i is step r. */
  ghost predicate RegisteredAt(steps: seq<Step>, start: nat, r: nat, i: nat)
    requires i <= |steps|
  {
    start < r < i && steps[r].Register? && forall j :: r < j < i ==> !steps[j].Register?
  }

  lemma CleanAtRegistration(cfg: Config, tr: seq<State>, steps: seq<Step>, start: nat, r: nat, k: Key)
    requires Configured(cfg) && Execution(cfg, tr, steps) && r + 1 < |tr| && OnlyTombstones(tr, steps, start, r + 1)
    requires start < r && steps[r].Register?
    ensures tr[r + 1].conns != [] && Top(tr[r + 1]).dirty == {} && !TombstonedLast(steps, r, r + 1, k)
  {
    OneStep(cfg, tr, steps, start, r + 1);
    hide Spoils, Orderly, OnlyTombstones, Execution, LastWord, ListsCache;
    MissedAlways(cfg, tr, steps, start, r);
    RegisterCleans(cfg, tr[r], steps[r]);
  }

  lemma DirtyNext(cfg: Config, tr: seq<State>, steps: seq<Step>, start: nat, i: nat, k: Key)
    requires Configured(cfg) && Execution(cfg, tr, steps) && i < |tr| && OnlyTombstones(tr, steps, start, i)
    requires start + 1 < i && !steps[i - 1].Register? && tr[i].conns != [] && Top(tr[i]).active
    ensures OnlyTombstones(tr, steps, start, i - 1) && tr[i - 1].conns != [] && Top(tr[i - 1]).active
    ensures k in Top(tr[i]).dirty <==>
            steps[i - 1] == CacheDelete(k, true) || (k in Top(tr[i - 1]).dirty && !Changes(steps[i - 1], k))
  {
    OneStep(cfg, tr, steps, start, i);
    StreamWire.InvAlways(cfg, tr, steps, i - 1);
    hide Spoils, Apply, Enabled, Orderly, StreamWire.ConnInv, Changes, OnlyTombstones;
    DirtyStep(cfg, tr[i - 1], steps[i - 1], k);
  }

  lemma {:induction false} DirtyIff(cfg: Config, tr: seq<State>, steps: seq<Step>, start: nat, r: nat, i: nat, k: Key)
    requires Configured(cfg) && Execution(cfg, tr, steps) && i < |tr| && OnlyTombstones(tr, steps, start, i)
    requires RegisteredAt(steps, start, r, i)
    requires tr[i].conns != [] && Top(tr[i]).active
    ensures k in Top(tr[i]).dirty <==> TombstonedLast(steps, r, i, k)
    decreases i
  {
    assert |tr| == |steps| + 1;
    hide Changes, OnlyTombstones, Execution, TombstonedLast;
    if i == r + 1 {
      CleanAtRegistration(cfg, tr, steps, start, r, k);
    } else {
      DirtyNext(cfg, tr, steps, start, i, k);
      DirtyIff(cfg, tr, steps, start, r, i - 1, k);
      TombstonedStep(steps, r, i, k);
    }
  }

  /** Exactly when a key converges, if nothing was dropped and no earlier connection's delta got in since the
      connection opened: the settled receiver agrees with the cache about a key in scope if and only if the
      last change of that key since registration was not a deletion seen as a tombstone. */
  lemma ConvergesIff(cfg: Config, tr: seq<State>, steps: seq<Step>, start: nat, r: nat, i: nat, k: Key)
    requires Configured(cfg) && Execution(cfg, tr, steps) && i < |tr| && OnlyTombstones(tr, steps, start, i)
    requires RegisteredAt(steps, start, r, i) && Settled(tr[i]) && InScopeKey(cfg, k)
    ensures Cached(InventoryOf(tr[i]), k) == Cached(tr[i].cache, k) <==> !TombstonedLast(steps, r, i, k)
    ensures k in Top(tr[i]).dirty <==> TombstonedLast(steps, r, i, k)
  {
    var s := tr[i];
    MissedAlways(cfg, tr, steps, start, i);
    TracksAlways(cfg, tr, steps, i);
    DirtyIff(cfg, tr, steps, start, r, i, k);
    Convergence(cfg, tr, steps, i, k);
    Holding(cfg, s, k);
    SettledWord(Top(s), k);
    assert k in Top(s).dirty ==> StillSaid(s, k);
    hide TombstonedLast, OnlyTombstones, Tracks, Missed, Word, Replay, Put, LastWord, StreamWire.Inv;
  }

  ghost predicate Reachable(cfg: Config, s: State) {
    exists tr, steps :: Execution(cfg, tr, steps) && tr[|tr| - 1] == s
  }

  lemma ReachStep(cfg: Config, s: State, a: Step)
    requires Reachable(cfg, s) && Enabled(cfg, s, a)
    ensures Reachable(cfg, Apply(cfg, s, a))
  {
    var tr, steps :| Execution(cfg, tr, steps) && tr[|tr| - 1] == s;
    hide Apply, Enabled;
    assert Execution(cfg, tr + [Apply(cfg, s, a)], steps + [a]);
  }

  lemma ReachStart(cfg: Config)
    ensures Reachable(cfg, START)
  {
    assert Execution(cfg, [START], []);
  }

  lemma ReachInv(cfg: Config, s: State)
    requires Configured(cfg) && Reachable(cfg, s)
    ensures StreamWire.Inv(cfg, s) && Tracks(cfg, s)
  {
    var tr, steps :| Execution(cfg, tr, steps) && tr[|tr| - 1] == s;
    TracksAlways(cfg, tr, steps, |tr| - 1);
  }

  /** A deletion that arrives as a tombstone leaves the Application with the receiver: in every reachable
      settled state, for every clean key in scope. */
  lemma TombstoneDiverges(cfg: Config, s: State, k: Key)
    requires Configured(cfg) && Reachable(cfg, s) && Settled(s)
    requires k in s.cache && InScopeKey(cfg, k) && k !in Top(s).dirty
    ensures var del := CacheDelete(k, true);
            var s1 := Apply(cfg, s, del);
            Enabled(cfg, s1, Take(|s1.conns| - 1)) &&
            var s2 := Apply(cfg, s1, Take(|s1.conns| - 1));
            Settled(s2) && k !in s2.cache && Cached(InventoryOf(s2), k) == Some(s.cache[k])
  {
    var tr, steps :| Execution(cfg, tr, steps) && tr[|tr| - 1] == s;
    Convergence(cfg, tr, steps, |tr| - 1, k);
    hide Replay, Word, NoticeWord, CallWord;
  }

  /** With the handler idle, the writer can drain the queue; what it then holds is what was sent and queued. */
  lemma {:induction false} DrainAll(cfg: Config, s: State, k: Key) returns (s': State)
    requires Reachable(cfg, s) && s.conns != [] && Top(s).phase == Streaming && Top(s).active
    requires Top(s).call == Idle && Top(s).pending == []
    ensures Reachable(cfg, s') && Settled(s') && s'.cache == s.cache && Top(s').listed == Top(s).listed
    ensures Word(Top(s').wire, k) == Later(Word(Top(s).wire, k), Word(Top(s).queue, k))
    decreases |Top(s).queue|
  {
    hide Reachable, NoticeWord, CallWord;
    if Top(s).queue == [] {
      s' := s;
    } else {
      var q := Top(s).queue;
      var s1 := Reach(cfg, s, Write(Drain));
      WordSnoc(Top(s).wire, q[0], k);
      WordConcat([q[0]], q[1..], k);
      WordOne(q[0], k);
      assert [q[0]] + q[1..] == q;
      hide Word;
      s' := DrainAll(cfg, s1, k);
    }
  }

  /** A delta dropped on a full queue, with no later word about its key, is never made up for: after the
      queue has drained the receiver holds what it would have held without it. So the key converges
      exactly when that is what the dropped delta said. */
  lemma DropLoses(cfg: Config, s: State, k: Key) returns (s': State)
    requires Configured(cfg) && Reachable(cfg, s) && s.conns != [] && Top(s).phase == Streaming && Top(s).active
    requires Top(s).pending == [] && |Top(s).queue| == CAPACITY && k !in Top(s).dirty
    requires Top(s).call.Bound? && Top(s).call.frame.AppDelta? && Top(s).call.frame.app.key == k
    ensures Reachable(cfg, s') && Settled(s') && s'.cache == s.cache
    ensures var f, before := Top(s).call.frame, Later(Word(Top(s).wire, k), Word(Top(s).queue, k));
            && Cached(InventoryOf(s'), k) ==
                 (if before.Some? then before.value else Cached(Put(map[], Top(s).listed), k))
            && Cached(s'.cache, k) == Said(f.op, f.app)
    ensures var f, before := Top(s).call.frame, Later(Word(Top(s).wire, k), Word(Top(s).queue, k));
            Cached(InventoryOf(s'), k) == Cached(s'.cache, k) <==>
            Said(f.op, f.app) == (if before.Some? then before.value else Cached(Put(map[], Top(s).listed), k))
  {
    ReachInv(cfg, s);
    var t := |s.conns| - 1;
    OrderlyAt(cfg, s, t);
    assert Coherent(s.cache, Top(s), k);
    assert LastWord(Top(s), k) == Some(Said(Top(s).call.frame.op, Top(s).call.frame.app)) by {
      CallIs(Top(s).call.frame, k);
      WordOne(Top(s).call.frame, k);
      hide Word;
    }
    hide Reachable, NoticeWord, CallWord, Tracks, StreamWire.Inv, Orderly, LastWord, Coherent;
    var s1 := Reach(cfg, s, Offer(t));
    s' := DrainAll(cfg, s1, k);
    ReachInv(cfg, s');
    Holding(cfg, s', k);
  }

  /** A delta of an earlier connection's handler that reaches a settled connection overwrites what the
      receiver holds, so the key converges exactly when the stale delta happens to agree with the cache. */
  lemma StaleOverwrites(cfg: Config, s: State, c: nat)
    requires Configured(cfg) && Reachable(cfg, s) && Settled(s) && c < |s.conns| - 1
    requires s.conns[c].call.Bound? && s.conns[c].call.conn == |s.conns| - 1
    ensures var f := s.conns[c].call.frame;
            f.AppDelta? && Enabled(cfg, s, Offer(c)) &&
            var s1 := Apply(cfg, s, Offer(c));
            Enabled(cfg, s1, Write(Drain)) &&
            var s2 := Apply(cfg, s1, Write(Drain));
            && Settled(s2) && s2.cache == s.cache
            && Cached(InventoryOf(s2), f.app.key) == Said(f.op, f.app)
            && (Cached(InventoryOf(s2), f.app.key) == Cached(s2.cache, f.app.key) <==>
                  Said(f.op, f.app) == Cached(s.cache, f.app.key))
  {
    ReachInv(cfg, s);
    OrderlyAt(cfg, s, c);
    var f := s.conns[c].call.frame;
    var s1 := Apply(cfg, s, Offer(c));
    var s2 := Apply(cfg, s1, Write(Drain));
    hide StreamWire.Inv, Orderly, Tracks, NoticeWord, CallWord;
    assert Top(s1).queue == [f];
    assert Top(s2).wire == Top(s).wire + [f];
    assert (Top(s).wire + [f])[..|Top(s).wire|] == Top(s).wire;
    assert Replay(Top(s2).wire) == Receive(Replay(Top(s).wire), f);
  }

  /** Such a delta is possible: a run with one reconnect in which the receiver settles on an Application
      the cache has replaced. */
  lemma StaleDeltaDiverges()
    ensures exists cfg, s ::
            Configured(cfg) && Reachable(cfg, s) && Settled(s) && InventoryOf(s) != s.cache && cfg.namespaces == []
  {
    var cfg := Config([], 1);
    var k := Key("ns", "app");
    var older, newer := App(k, 1), App(k, 2);
    var s := StaleInFlight(cfg, k, older, newer);
    var t := |s.conns| - 1;
    StaleOverwrites(cfg, s, 0);
    var s1 := Apply(cfg, s, Offer(0));
    ReachStep(cfg, s, Offer(0));
    ReachStep(cfg, s1, Write(Drain));
    hide Apply, Enabled, Reachable;
    var s2 := Apply(cfg, s1, Write(Drain));
    assert Cached(InventoryOf(s2), k) == Some(older) && Cached(s2.cache, k) == Some(newer);
  }

  lemma Reach(cfg: Config, s: State, a: Step) returns (s': State)
    requires Reachable(cfg, s) && Enabled(cfg, s, a)
    ensures Reachable(cfg, s') && s' == Apply(cfg, s, a)
  {
    ReachStep(cfg, s, a);
    s' := Apply(cfg, s, a);
  }

  lemma FirstRegistered(cfg: Config, a: App) returns (s: State)
    requires cfg == Config([], 1)
    ensures Reachable(cfg, s)
    ensures s == State(map[a.key := a],
                       [FRESH.(phase := Registered, active := true, pending := [Notice(Add, a)])], map[])
  {
    hide NoticeWord, CallWord, Reachable;
    ReachStart(cfg);
    s := Reach(cfg, START, CacheSet(a));
    s := Reach(cfg, s, Open);
    s := Reach(cfg, s, Register([a]));
    assert Adds([a]) == [Notice(Add, a)];
    assert {} - s.cache.Keys == {};
  }

  /** The first connection is over; its handler has taken a delta and not enqueued it. */
  lemma FirstConnection(cfg: Config, a: App) returns (s: State)
    requires cfg == Config([], 1)
    ensures Reachable(cfg, s)
            && s == State(map[a.key := a], [FRESH.(phase := Closed, call := Taken(AppDelta(Add, a)))], map[])
  {
    hide NoticeWord, CallWord, Reachable, ListsCache;
    s := FirstRegistered(cfg, a);
    s := Reach(cfg, s, Take(0));
    s := Reach(cfg, s, Write(Close));
    s := Reach(cfg, s, Unregister);
  }

  /** Reconnected: the old delta has found the new channel, and the cache has moved on. */
  lemma Reconnected(cfg: Config, a: App, b: App) returns (s: State)
    requires cfg == Config([], 1) && a.key == b.key
    ensures Reachable(cfg, s)
    ensures s == State(map[b.key := b],
                       [FRESH.(phase := Closed, call := Bound(AppDelta(Add, a), 1)),
                        FRESH.(phase := Registered, active := true, pending := [Notice(Add, b)])], map[])
  {
    hide NoticeWord, CallWord, Reachable;
    s := FirstConnection(cfg, a);
    s := Reach(cfg, s, CacheSet(b));
    assert s.cache == map[b.key := b];
    s := Reach(cfg, s, Open);
    s := Reach(cfg, s, Read(0));
    s := Reach(cfg, s, Register([b]));
    assert Adds([b]) == [Notice(Add, b)];
    assert {} - s.cache.Keys == {};
  }

  /** The new handler's own delta is queued. */
  lemma Queued(cfg: Config, a: App, b: App) returns (s: State)
    requires cfg == Config([], 1) && a.key == b.key
    ensures Reachable(cfg, s)
    ensures s == State(map[b.key := b],
                       [FRESH.(phase := Closed, call := Bound(AppDelta(Add, a), 1)),
                        FRESH.(phase := Registered, active := true,
                               queue := [AppDelta(Add, b)], accepted := [AppDelta(Add, b)])], map[])
  {
    hide NoticeWord, CallWord, Reachable;
    s := Reconnected(cfg, a, b);
    s := Reach(cfg, s, Take(1));
    assert Top(s).pending == [] && Top(s).call == Taken(AppDelta(Add, b));
    s := Reach(cfg, s, Read(1));
    s := Reach(cfg, s, Offer(1));
    assert Top(s).queue == [AppDelta(Add, b)] && Top(s).accepted == [AppDelta(Add, b)];
    assert Top(s) == FRESH.(phase := Registered, active := true,
                            queue := [AppDelta(Add, b)], accepted := [AppDelta(Add, b)]);
  }

  /** It is listed as well. */
  lemma ListedToo(cfg: Config, a: App, b: App) returns (s: State)
    requires cfg == Config([], 1) && a.key == b.key
    ensures Reachable(cfg, s)
    ensures s == State(map[b.key := b],
                       [FRESH.(phase := Closed, call := Bound(AppDelta(Add, a), 1)),
                        FRESH.(phase := Listing(1), active := true, wire := [Hello], listed := [b],
                               queue := [AppDelta(Add, b)], accepted := [AppDelta(Add, b)])], map[])
  {
    hide NoticeWord, CallWord, Reachable;
    s := Queued(cfg, a, b);
    s := Reach(cfg, s, Write(SendHello));
    s := Reach(cfg, s, List([b]));
    assert Top(s).listed == [b] && Top(s).wire == [Hello];
  }

  lemma StaleInFlight(cfg: Config, k: Key, older: App, newer: App) returns (s: State)
    requires cfg == Config([], 1) && older.key == k && newer.key == k
    ensures Reachable(cfg, s) && Settled(s) && s.cache == map[k := newer] && |s.conns| == 2
    ensures s.conns[0].call == Bound(AppDelta(Add, older), 1)
  {
    hide NoticeWord, CallWord, Reachable, ListsCache;
    s := ListedToo(cfg, older, newer);
    s := Reach(cfg, s, Write(SendChunk));
    assert Top(s).sent == 1;
    s := Reach(cfg, s, Write(SendEnd));
    assert Top(s).phase == Streaming;
    s := Reach(cfg, s, Write(Drain));
  }
}
