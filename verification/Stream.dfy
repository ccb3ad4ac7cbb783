/** The push stream as interleaved steps (push/pusher.go): informer handlers and other producers enqueue in
    two atomic steps, one writer per connection sends, connections come and go, and the cache changes
    underneath. */
module Stream {
  import opened Text
  import opened Scope

  const CAPACITY := 4096

  datatype Op = Add | Update | Delete

  datatype Frame =
    | Hello
    | Snapshot(apps: seq<App>)
    | SnapshotEnd
    | AppDelta(op: Op, app: App)
    | K8sEvent(event: int)
    | LogMetrics(batch: int)
    | Heartbeat

  /** A notification of the Application informer. A tombstone is a deletion the informer learned of by
      relisting; the handler is given no Application and ignores it. */
  datatype Notice = Notice(op: Op, app: App) | Tombstone(key: Key)

  /** An enqueue call in flight: its frame is built; then it holds the channel of a connection. */
  datatype Call = Idle | Taken(frame: Frame) | Bound(frame: Frame, conn: nat)

  /** How far runOnce is. `Listing(i)` has listed i namespaces. */
  datatype Phase = Opened | Registered | Listing(next: nat) | Streaming | Closed

  /** One connection. Its history: frames accepted by its channel, the frame lost to a failed write, and
      the keys whose last word on this connection may be wrong (see Offer and Notify). */
  datatype Conn = Conn(
    phase: Phase,
    queue: seq<Frame>,
    wire: seq<Frame>,
    listed: seq<App>,
    sent: nat,            // listed Applications already on the wire
    chunks: nat,          // snapshot frames on the wire
    active: bool,         // informer handlers registered
    pending: seq<Notice>, // notifications the handler has not been given yet
    call: Call,           // the handler's own enqueue call
    accepted: seq<Frame>,
    lost: seq<Frame>,
    dirty: set<Key>)

  const FRESH := Conn(Opened, [], [], [], 0, 0, false, [], Idle, [], [], {})

  datatype State = State(cache: map<Key, App>, conns: seq<Conn>, producers: map<nat, Call>)

  datatype Config = Config(namespaces: seq<string>, chunk: nat)

  ghost predicate Configured(cfg: Config) {
    cfg.chunk > 0 && "" !in cfg.namespaces
  }

  function Effective(cfg: Config): seq<string> {
    if cfg.namespaces == [] then [""] else cfg.namespaces
  }

  predicate InScopeKey(cfg: Config, k: Key) {
    Covers(cfg.namespaces, k.namespace)
  }

  /** What the goroutine of a connection does on its own. */
  datatype Act = SendHello | SendChunk | SendEnd | Drain | DrainFails | Beat | Close

  datatype Step =
    | CacheSet(app: App)
    | CacheDelete(key: Key, tombstone: bool)
    | Open
    | Register(order: seq<App>)
    | List(order: seq<App>)
    | Write(act: Act)
    | Unregister
    | Take(c: nat)
    | Read(c: nat)
    | Offer(c: nat)
    | ProducerRead(pid: nat, frame: Frame)
    | ProducerOffer(pid: nat)

  // ----- words -----

  /** What a delta says about its key. */
  function Said(op: Op, app: App): Option<App> {
    if op == Delete then None else Some(app)
  }

  /** The last delta about a key in a list of frames, if any. */
  function Word(fs: seq<Frame>, k: Key): Option<Option<App>> {
    if fs == [] then None
    else
      var f := fs[|fs| - 1];
      if f.AppDelta? && f.app.key == k then Some(Said(f.op, f.app)) else Word(fs[..|fs| - 1], k)
  }

  function NoticeWord(ns: seq<Notice>, k: Key): Option<Option<App>> {
    if ns == [] then None
    else
      var n := ns[|ns| - 1];
      if n.Notice? && n.app.key == k then Some(Said(n.op, n.app)) else NoticeWord(ns[..|ns| - 1], k)
  }

  function CallWord(c: Call, k: Key): Option<Option<App>> {
    if c.Idle? then None else Word([c.frame], k)
  }

  function Later(a: Option<Option<App>>, b: Option<Option<App>>): Option<Option<App>> {
    if b.Some? then b else a
  }

  /** The last word about a key among everything sent, queued, in flight and still to be delivered. */
  function LastWord(cn: Conn, k: Key): Option<Option<App>> {
    Later(Later(Later(Word(cn.wire, k), Word(cn.queue, k)), CallWord(cn.call, k)), NoticeWord(cn.pending, k))
  }

  // ----- steps -----

  function Top(s: State): Conn
    requires s.conns != []
  {
    s.conns[|s.conns| - 1]
  }

  function SetTop(s: State, cn: Conn): State
    requires s.conns != []
  {
    s.(conns := s.conns[|s.conns| - 1 := cn])
  }

  /** A cache change reaches the registered handler. A regular notification is the new last word about its
      key; a tombstone leaves the last word wrong. */
  function Notify(cn: Conn, n: Notice): Conn {
    if !cn.active then cn
    else cn.(pending := cn.pending + [n],
             dirty := if n.Notice? then cn.dirty - {n.app.key} else cn.dirty + {n.key})
  }

  function NotifyTop(s: State, n: Notice): State {
    if s.conns == [] then s else SetTop(s, Notify(Top(s), n))
  }

  ghost predicate ListsCache(s: State, ns: string, order: seq<App>) {
    && (forall a :: a in order ==> a.key in s.cache && s.cache[a.key] == a && Listed(ns, a))
    && (forall k :: k in s.cache && Listed(ns, s.cache[k]) ==> s.cache[k] in order)
  }

  function Adds(order: seq<App>): (ns: seq<Notice>)
    ensures |ns| == |order| && forall i :: 0 <= i < |order| ==> ns[i] == Notice(Add, order[i])
  {
    seq(|order|, i requires 0 <= i < |order| => Notice(Add, order[i]))
  }

  predicate Queueable(f: Frame) {
    f.AppDelta? || f.K8sEvent? || f.LogMetrics?
  }

  function AboutKey(f: Frame): set<Key> {
    if f.AppDelta? then {f.app.key} else {}
  }

  /** The channel takes the frame unless it is full. Either way the last word about the frame's key may now
      be wrong, when the frame was dropped or came from an earlier connection's handler, unless the own
      handler still has something to say about that key. */
  function Offered(cn: Conn, f: Frame, own: bool): Conn {
    var quiet := set k | k in AboutKey(f) && NoticeWord(cn.pending, k).None? && CallWord(cn.call, k).None?;
    if |cn.queue| < CAPACITY then
      cn.(queue := cn.queue + [f], accepted := cn.accepted + [f], dirty := if own then cn.dirty else cn.dirty + quiet)
    else
      cn.(dirty := if own then cn.dirty + quiet else cn.dirty)
  }

  predicate Ready(cfg: Config, cn: Conn, act: Act) {
    match act
    case SendHello => cn.phase == Registered
    case SendChunk => cn.phase == Listing(|Effective(cfg)|) && cn.sent < |cn.listed|
    case SendEnd => cn.phase == Listing(|Effective(cfg)|) && cn.sent == |cn.listed|
    case Drain => cn.phase == Streaming && cn.queue != []
    case DrainFails => cn.phase == Streaming && cn.queue != []
    case Beat => cn.phase == Streaming
    case Close => cn.phase != Closed
  }

  ghost predicate Enabled(cfg: Config, s: State, a: Step) {
    match a
    case CacheSet(_) => true
    case CacheDelete(k, _) => k in s.cache
    case Open => s.conns == [] || (Top(s).phase == Closed && !Top(s).active)
    case Register(order) => s.conns != [] && Top(s).phase == Opened && ListsCache(s, "", order)
    case List(order) => && s.conns != [] && Top(s).phase.Listing? && Top(s).phase.next < |Effective(cfg)|
                        && ListsCache(s, Effective(cfg)[Top(s).phase.next], order)
    case Write(act) => s.conns != [] && Ready(cfg, Top(s), act)
    case Unregister => s.conns != [] && Top(s).phase == Closed && Top(s).active
    case Take(c) => c < |s.conns| && s.conns[c].call == Idle && s.conns[c].pending != []
    case Read(c) => c < |s.conns| && s.conns[c].call.Taken?
    case Offer(c) => c < |s.conns| && s.conns[c].call.Bound? && s.conns[c].call.conn < |s.conns|
    case ProducerRead(p, f) => && s.conns != [] && (f.K8sEvent? || f.LogMetrics?)
                               && (p in s.producers ==> s.producers[p].Idle?)
    case ProducerOffer(p) => p in s.producers && s.producers[p].Bound? && s.producers[p].conn < |s.conns|
  }

  /** The handler's next notification: a frame for an Application in scope, nothing otherwise. */
  function TakeNext(cfg: Config, cn: Conn): Conn
    requires cn.pending != []
  {
    var n := cn.pending[0];
    cn.(pending := cn.pending[1..],
        call := if n.Notice? && InScopeKey(cfg, n.app.key) then Taken(AppDelta(n.op, n.app)) else Idle)
  }

  function ChunkEnd(cfg: Config, cn: Conn): nat {
    if cn.sent + cfg.chunk > |cn.listed| then |cn.listed| else cn.sent + cfg.chunk
  }

  /** What the goroutine does to its connection. */
  function Written(cfg: Config, cn: Conn, act: Act): Conn
    requires Ready(cfg, cn, act)
  {
    match act
    case SendHello => cn.(wire := cn.wire + [Hello], phase := Listing(0))
    case SendChunk =>
      cn.(wire := cn.wire + [Snapshot(cn.listed[cn.sent..ChunkEnd(cfg, cn)])], sent := ChunkEnd(cfg, cn),
          chunks := cn.chunks + 1)
    case SendEnd => cn.(wire := cn.wire + [SnapshotEnd], phase := Streaming)
    case Drain => cn.(wire := cn.wire + [cn.queue[0]], queue := cn.queue[1..])
    case DrainFails => cn.(lost := [cn.queue[0]], queue := cn.queue[1..], phase := Closed)
    case Beat => cn.(wire := cn.wire + [Heartbeat])
    case Close => cn.(phase := Closed)
  }

  function Apply(cfg: Config, s: State, a: Step): State
    requires Enabled(cfg, s, a)
  {
    match a
    case CacheSet(app) =>
      NotifyTop(s.(cache := s.cache[app.key := app]), Notice(if app.key in s.cache then Update else Add, app))
    case CacheDelete(k, tombstone) =>
      NotifyTop(s.(cache := s.cache - {k}),
                if tombstone then Tombstone(k) else Notice(Delete, App(k, s.cache[k].content)))
    case Open => s.(conns := s.conns + [FRESH])
    case Register(order) =>
      SetTop(s, Top(s).(phase := Registered, active := true, pending := Adds(order),
                        dirty := Top(s).dirty - s.cache.Keys))
    case List(order) => SetTop(s, Top(s).(listed := Top(s).listed + order, phase := Listing(Top(s).phase.next + 1)))
    case Unregister => SetTop(s, Top(s).(active := false, pending := []))
    case Take(c) => s.(conns := s.conns[c := TakeNext(cfg, s.conns[c])])
    case Read(c) => s.(conns := s.conns[c := s.conns[c].(call := Bound(s.conns[c].call.frame, |s.conns| - 1))])
    case Offer(c) =>
      var call := s.conns[c].call;
      var s' := s.(conns := s.conns[c := s.conns[c].(call := Idle)]);
      s'.(conns := s'.conns[call.conn := Offered(s'.conns[call.conn], call.frame, c == call.conn)])
    case ProducerRead(p, f) => s.(producers := s.producers[p := Bound(f, |s.conns| - 1)])
    case ProducerOffer(p) =>
      var call := s.producers[p];
      s.(producers := s.producers[p := Idle],
         conns := s.conns[call.conn := Offered(s.conns[call.conn], call.frame, true)])
    case Write(act) => SetTop(s, Written(cfg, Top(s), act))
  }

  const START := State(map[], [], map[])

  /** Any interleaving, from an empty cache and no connection. */
  ghost predicate Execution(cfg: Config, tr: seq<State>, steps: seq<Step>) {
    && |tr| == |steps| + 1 && tr[0] == START
    && forall i :: 0 <= i < |steps| ==> Enabled(cfg, tr[i], steps[i]) && tr[i + 1] == Apply(cfg, tr[i], steps[i])
  }

  // ----- who holds what -----

  /** The handler's call carries a delta in scope and a channel no older than its own connection's. */
  ghost predicate CallOk(cfg: Config, s: State, c: nat)
    requires c < |s.conns|
  {
    var call := s.conns[c].call;
    && (!call.Idle? ==> call.frame.AppDelta? && InScopeKey(cfg, call.frame.app.key))
    && (call.Bound? ==> c <= call.conn < |s.conns|)
  }

  ghost predicate ProducersOk(s: State) {
    forall p :: p in s.producers ==>
      var call := s.producers[p];
      !call.Taken? && (call.Bound? ==> call.conn < |s.conns| && (call.frame.K8sEvent? || call.frame.LogMetrics?))
  }

  /** A connection on its own: nothing is pending without a handler, and no handler before registration. */
  ghost predicate Tidy(cn: Conn) {
    && (!cn.active ==> cn.pending == [])
    && (cn.phase == Opened ==> !cn.active && cn.call.Idle?)
  }

  /** Earlier connections are over; only the last one can be live or have a registered handler. */
  ghost predicate Orderly(cfg: Config, s: State) {
    && (forall c :: 0 <= c < |s.conns| - 1 ==> s.conns[c].phase == Closed && !s.conns[c].active)
    && (forall c :: 0 <= c < |s.conns| ==> Tidy(s.conns[c]) && CallOk(cfg, s, c))
    && ProducersOk(s)
    && (forall k :: k in s.cache ==> s.cache[k].key == k)
  }

  /** Replacing one connection by another that keeps or retires its call. */
  lemma OrderlySet(cfg: Config, s: State, c: nat, cn: Conn)
    requires Orderly(cfg, s) && c < |s.conns| && Tidy(cn)
    requires c < |s.conns| - 1 ==> cn.phase == s.conns[c].phase && !cn.active
    requires CallOk(cfg, s.(conns := s.conns[c := cn]), c)
    ensures Orderly(cfg, s.(conns := s.conns[c := cn]))
  {
    var s' := s.(conns := s.conns[c := cn]);
    forall d | 0 <= d < |s'.conns| ensures Tidy(s'.conns[d]) && CallOk(cfg, s', d) {
      assert CallOk(cfg, s, d);
    }
  }

  lemma OrderlyCache(cfg: Config, s: State, cache: map<Key, App>, n: Notice)
    requires Orderly(cfg, s) && forall k :: k in cache ==> cache[k].key == k
    ensures Orderly(cfg, NotifyTop(s.(cache := cache), n))
  {
    var t := s.(cache := cache);
    forall c | 0 <= c < |t.conns| ensures CallOk(cfg, t, c) { assert CallOk(cfg, s, c); }
    if s.conns != [] {
      OrderlySet(cfg, t, |t.conns| - 1, Notify(Top(t), n));
    }
  }

  lemma OrderlyOpen(cfg: Config, s: State)
    requires Orderly(cfg, s) && Enabled(cfg, s, Open)
    ensures Orderly(cfg, Apply(cfg, s, Open))
  {
    var s' := Apply(cfg, s, Open);
    forall c | 0 <= c < |s'.conns| ensures Tidy(s'.conns[c]) && CallOk(cfg, s', c) {
      if c < |s.conns| { assert CallOk(cfg, s, c); }
    }
  }

  /** Connections keep everything but their queue-side fields when a frame is offered to them. */
  lemma OrderlyOffered(cfg: Config, s: State, d: nat, f: Frame, own: bool)
    requires Orderly(cfg, s) && d < |s.conns|
    ensures Orderly(cfg, s.(conns := s.conns[d := Offered(s.conns[d], f, own)]))
  {
    hide NoticeWord, CallWord;
    assert CallOk(cfg, s, d);
    OrderlySet(cfg, s, d, Offered(s.conns[d], f, own));
  }

  /** Steps on the last connection alone. */
  predicate OnTop(a: Step) {
    a.Register? || a.List? || a.Write? || a.Unregister?
  }

  lemma OrderlyTop(cfg: Config, s: State, a: Step)
    requires Orderly(cfg, s) && Enabled(cfg, s, a) && OnTop(a)
    ensures Orderly(cfg, Apply(cfg, s, a))
  {
    OrderlyAt(cfg, s, |s.conns| - 1);
    hide Orderly;
    OrderlySet(cfg, s, |s.conns| - 1, Top(Apply(cfg, s, a)));
  }

  lemma OrderlyHandler(cfg: Config, s: State, a: Step)
    requires Orderly(cfg, s) && Enabled(cfg, s, a) && (a.Take? || a.Read? || a.Offer?)
    ensures Orderly(cfg, Apply(cfg, s, a))
  {
    hide Offered;
    OrderlyAt(cfg, s, a.c);
    hide Orderly;
    var cn := s.conns[a.c];
    match a
    case Take(c) => OrderlySet(cfg, s, c, TakeNext(cfg, cn));
    case Read(c) => OrderlySet(cfg, s, c, cn.(call := Bound(cn.call.frame, |s.conns| - 1)));
    case Offer(c) =>
      OrderlySet(cfg, s, c, cn.(call := Idle));
      OrderlyOffered(cfg, s.(conns := s.conns[c := cn.(call := Idle)]), cn.call.conn, cn.call.frame, c == cn.call.conn);
  }

  lemma OrderlyStep(cfg: Config, s: State, a: Step)
    requires Orderly(cfg, s) && Enabled(cfg, s, a)
    ensures Orderly(cfg, Apply(cfg, s, a))
  {
    CacheKeys(cfg, s);
    if OnTop(a) {
      OrderlyTop(cfg, s, a);
    } else if a.Take? || a.Read? || a.Offer? {
      OrderlyHandler(cfg, s, a);
    } else {
      hide Orderly, Offered, ListsCache, Notify;
      match a
      case CacheSet(app) =>
        OrderlyCache(cfg, s, s.cache[app.key := app], Notice(if app.key in s.cache then Update else Add, app));
      case CacheDelete(k, tombstone) =>
        OrderlyCache(cfg, s, s.cache - {k},
                     if tombstone then Tombstone(k) else Notice(Delete, App(k, s.cache[k].content)));
      case Open => OrderlyOpen(cfg, s);
      case ProducerRead(p, f) => OrderlyProducers(cfg, s, s.producers[p := Bound(f, |s.conns| - 1)]);
      case ProducerOffer(p) =>
        OrderlyProducers(cfg, s, s.producers[p := Idle]);
        var call := s.producers[p];
        OrderlyOffered(cfg, s.(producers := s.producers[p := Idle]), call.conn, call.frame, true);
    }
  }

  lemma CacheKeys(cfg: Config, s: State)
    requires Orderly(cfg, s)
    ensures forall k :: k in s.cache ==> s.cache[k].key == k
    ensures ProducersOk(s)
  {
  }

  lemma OrderlyAt(cfg: Config, s: State, c: nat)
    requires Orderly(cfg, s) && c < |s.conns|
    ensures Tidy(s.conns[c]) && CallOk(cfg, s, c)
    ensures c < |s.conns| - 1 ==> s.conns[c].phase == Closed && !s.conns[c].active && s.conns[c].pending == []
  {
  }

  lemma OrderlyProducers(cfg: Config, s: State, producers: map<nat, Call>)
    requires Orderly(cfg, s) && ProducersOk(s.(producers := producers))
    ensures Orderly(cfg, s.(producers := producers))
  {
    var t := s.(producers := producers);
    forall c | 0 <= c < |t.conns| ensures CallOk(cfg, t, c) { assert CallOk(cfg, s, c); }
  }
}
