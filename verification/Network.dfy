/** Two connected peers (conn.go): their pending asks, the two FIFO links between them, and every
    interleaving of their steps.

    A peer's reader handles one frame at a time, so handling a frame is one step. Starting an ask, taking its
    reply from the channel, deleting its table entry, acting on the reply and giving up are steps of the
    asking goroutine. A link holds messages as the receiver decodes them; decoding is a function of the
    frame, so it does not matter that it happens when the frame is sent. */
module Network {
  import opened Text
  import opened Escaping
  import opened Codec
  import opened Protocol

  datatype Phase = Waiting | Got(reply: Message) | Finished(reply: Message) | Abandoned

  /** One ask: the message sent, the one-place reply channel, whether the channel is in the table of waiting
      messages, how far the asking goroutine is, and the clock reading at its start. */
  datatype Ask = Ask(request: Message, slot: Option<Message>, registered: bool, phase: Phase, at: int)

  /** `blocked` is the message the reader is stuck on because the channel it must go to is full. `settled` is a
      history that no step looks at: for each namespace, when the ask about it that returned last was started. */
  datatype Peer = Peer(connected: set<Bytes>, asks: map<Bytes, Ask>, blocked: Option<Message>, clock: int,
                       settled: map<Bytes, int>)

  datatype Step =
    | Start(now: int, request: Message)
    | Handle(answers: Answers)
    | Unblock
    | Take(token: Bytes)
    | Unregister(token: Bytes)
    | Finish(token: Bytes, party: seq<Frame>)
    | Abandon(token: Bytes)
    | Emit(message: Message)

  const NEW_PEER := Peer({}, map[], None, 0, map[])

  /** A message a caller may send: no token, no error, not native. */
  predicate Sendable(m: Message) {
    && m.wait == [] && m.err.None? && !m.noOp && !m.invalid && m.fromExplicit == [] && !m.fromExchange
    && !m.native && m.event != NATIVE_MESSAGE
  }

  /** `askConnect` and `askDisconnect` look at the local state first; other asks do not. */
  predicate MayAsk(cfg: Config, p: Peer, m: Message) {
    && Sendable(m)
    && (m.event == NAMESPACE_CONNECT ==> m.namespace in cfg.namespaces && m.namespace !in p.connected)
    && (m.event == NAMESPACE_DISCONNECT ==> m.namespace in p.connected)
  }

  ghost predicate Enabled(cfg: Config, p: Peer, inbox: seq<Message>, s: Step) {
    match s
    case Start(now, request) => p.clock < now && MayAsk(cfg, p, request)
    case Handle(a) => inbox != [] && p.blocked.None? && PartyFits(inbox[0], a.party)
    case Unblock => p.blocked.Some? && p.blocked.value.wait in p.asks && p.asks[p.blocked.value.wait].slot.None?
    case Take(t) => t in p.asks && p.asks[t].phase.Waiting? && p.asks[t].slot.Some?
    case Unregister(t) => t in p.asks && p.asks[t].phase.Got? && p.asks[t].registered
    case Finish(t, party) => t in p.asks && p.asks[t].phase.Got? && !p.asks[t].registered && PartyFits(EMPTY, party)
    case Abandon(t) => t in p.asks && p.asks[t].phase.Waiting?
    case Emit(m) => Sendable(m)
  }

  datatype Acted = Acted(peer: Peer, sent: seq<Frame>)

  predicate Expected(cfg: Config, p: Peer, m: Message) {
    IsWait(m.wait, cfg.isClient) && m.wait in p.asks && p.asks[m.wait].registered
  }

  function SetAsk(p: Peer, t: Bytes, ask: Ask): Peer {
    p.(asks := p.asks[t := ask])
  }

  /** A message that is neither invalid, native nor the reply to an ask reaches the `switch`. */
  predicate Dispatches(cfg: Config, p: Peer, m: Message) {
    !m.invalid && !m.native && !Expected(cfg, p, m)
  }

  /** `handleMessage`. A native message for an unconnected empty namespace, on which the source dereferences
      nil, is ignored here. */
  function HandleMessage(cfg: Config, p: Peer, m: Message, a: Answers): Acted {
    if m.invalid then Acted(p, [])
    else if m.native then
      Acted(p, if [] in p.connected then FireEvent(EventsOf(cfg, []), m, a.first).sent else [])
    else if Expected(cfg, p, m) then
      var ask := p.asks[m.wait];
      if ask.slot.None? then Acted(SetAsk(p, m.wait, ask.(slot := Some(m))), [])
      else Acted(p.(blocked := Some(m)), [])
    else
      var h := Dispatch(cfg, p.connected, m, a);
      Acted(p.(connected := h.connected), h.sent)
  }

  /** `Conn.ask` up to the point where it waits. */
  function StartAsk(cfg: Config, p: Peer, now: int, m: Message): Acted {
    var request := m.(wait := GenWait(cfg.isClient, now));
    var sent := Write(cfg, p.connected, request);
    var ask := Ask(request, None, true, if sent == [] then Abandoned else Waiting, now);
    Acted(SetAsk(p, request.wait, ask).(clock := now), sent)
  }

  /** What `askConnect` and `askDisconnect` do with the reply. */
  function FinishAsk(p: Peer, t: Bytes, party: seq<Frame>): Acted
    requires t in p.asks && p.asks[t].phase.Got?
  {
    var ask := p.asks[t];
    var settled :=
      if IsNamespaceEvent(ask.request.event) then p.settled[ask.request.namespace := ask.at] else p.settled;
    var q := SetAsk(p, t, ask.(phase := Finished(ask.phase.reply))).(settled := settled);
    if ask.phase.reply.err.Some? then Acted(q, [])
    else if ask.request.event == NAMESPACE_CONNECT then
      Acted(q.(connected := q.connected + {ask.request.namespace}), [])
    else if ask.request.event == NAMESPACE_DISCONNECT then
      Acted(q.(connected := q.connected - {ask.request.namespace}), party)
    else Acted(q, [])
  }

  function Act(cfg: Config, p: Peer, inbox: seq<Message>, s: Step): Acted
    requires Enabled(cfg, p, inbox, s)
  {
    match s
    case Start(now, request) => StartAsk(cfg, p, now, request)
    case Handle(a) => HandleMessage(cfg, p, inbox[0], a)
    case Unblock =>
      var m := p.blocked.value;
      Acted(SetAsk(p, m.wait, p.asks[m.wait].(slot := Some(m))).(blocked := None), [])
    case Take(t) => Acted(SetAsk(p, t, p.asks[t].(slot := None, phase := Got(p.asks[t].slot.value))), [])
    case Unregister(t) => Acted(SetAsk(p, t, p.asks[t].(registered := false)), [])
    case Finish(t, party) => FinishAsk(p, t, party)
    case Abandon(t) => Acted(SetAsk(p, t, p.asks[t].(phase := Abandoned)), [])
    case Emit(m) => Acted(p, Write(cfg, p.connected, m))
  }

  /** Which message was sent while which message was handled. */
  type Log = set<(Message, Message)>

  /** How a receiver sees what is sent to it. */
  type Decoder = Message -> Message

  /** `byA` and `byB` record which message was sent while which message was handled. */
  datatype Net = Net(a: Peer, b: Peer, ab: seq<Message>, ba: seq<Message>, byA: Log, byB: Log)

  datatype Move = ByA(step: Step) | ByB(step: Step)

  const START := Net(NEW_PEER, NEW_PEER, [], [], {}, {})

  function Swap(n: Net): Net {
    Net(n.b, n.a, n.ba, n.ab, n.byB, n.byA)
  }

  function Pairs(m: Message, sent: seq<Message>): Log {
    set d | d in sent :: (m, d)
  }

  function StepA(ca: Config, cb: Config, n: Net, s: Step): Net
    requires Enabled(ca, n.a, n.ba, s)
  {
    var acted := Act(ca, n.a, n.ba, s);
    var sent := DecodeAll(cb, acted.sent);
    if s.Handle? then
      Net(acted.peer, n.b, n.ab + sent, n.ba[1..], n.byA + Pairs(n.ba[0], sent), n.byB)
    else
      Net(acted.peer, n.b, n.ab + sent, n.ba, n.byA, n.byB)
  }

  ghost predicate CanMove(ca: Config, cb: Config, n: Net, move: Move) {
    match move
    case ByA(s) => Enabled(ca, n.a, n.ba, s)
    case ByB(s) => Enabled(cb, n.b, n.ab, s)
  }

  function Next(ca: Config, cb: Config, n: Net, move: Move): Net
    requires CanMove(ca, cb, n, move)
  {
    match move
    case ByA(s) => StepA(ca, cb, n, s)
    case ByB(s) => Swap(StepA(cb, ca, Swap(n), s))
  }

  /** A run of a client and a server: any sequence of enabled moves from the start. */
  ghost predicate Run(ca: Config, cb: Config, nets: seq<Net>, moves: seq<Move>) {
    && ca.isClient != cb.isClient
    && |nets| == |moves| + 1 && nets[0] == START
    && forall i | 0 <= i < |moves| ::
         CanMove(ca, cb, nets[i], moves[i]) && nets[i + 1] == Next(ca, cb, nets[i], moves[i])
  }

  // ---- tokens ----

  ghost predicate Own(isClient: bool, t: Bytes) {
    exists n: int :: t == GenWait(isClient, n)
  }

  ghost predicate OwnUntil(isClient: bool, t: Bytes, clock: int) {
    exists n: int :: n <= clock && t == GenWait(isClient, n)
  }

  lemma OwnIsExclusive(isClient: bool, t: Bytes)
    requires Own(isClient, t)
    ensures !Own(!isClient, t) && t != [] && PlainToken(t) && IsWait(t, isClient)
  {
    var n :| t == GenWait(isClient, n);
  }

  lemma FreshToken(isClient: bool, now: int, t: Bytes, clock: int)
    requires OwnUntil(isClient, t, clock) && clock < now
    ensures t != GenWait(isClient, now)
  {
    var n :| n <= clock && t == GenWait(isClient, n);
    GenWaitInjective(isClient, n, isClient, now);
  }

  // ---- the invariant ----

  /** A message on a link: no token or a generated one, and a token never on a native message. */
  ghost predicate Clean(m: Message) {
    && (m.wait == [] || Own(true, m.wait) || Own(false, m.wait))
    && m.fromExplicit == [] && !m.invalid
    && (m.wait != [] ==> !m.native && m.event != NATIVE_MESSAGE)
  }

  /** The request as the other side decodes it. */
  function Seen(to: Config, request: Message): Message {
    Received(request, request.binary, to.allowNative)
  }

  /** How the other side decodes requests; the invariant is stated for any such view. */
  function View(to: Config): Decoder {
    request => Seen(to, request)
  }

  predicate HasReply(ask: Ask, m: Message) {
    ask.slot == Some(m) || ask.phase == Got(m) || ask.phase == Finished(m)
  }

  /** Everything an ask holds carries its token and was sent while its own request was handled. */
  ghost predicate Replied(view: Decoder, ask: Ask, byY: Log) {
    forall m | HasReply(ask, m) :: m.wait == ask.request.wait && (view(ask.request), m) in byY
  }

  ghost predicate TokensOwn(cx: Config, x: Peer) {
    forall t | t in x.asks :: OwnUntil(cx.isClient, t, x.clock) && x.asks[t].request.wait == t
  }

  /** Towards the other side, an ask's token appears only on its request until the ask is over. */
  ghost predicate OutLink(cx: Config, x: Peer, view: Decoder, xy: seq<Message>) {
    forall m | m in xy && Own(cx.isClient, m.wait) ::
      m.wait in x.asks && (x.asks[m.wait].registered ==> m == view(x.asks[m.wait].request))
  }

  /** Towards the asker, it appears only on messages sent while that request was handled. */
  ghost predicate InLink(cx: Config, x: Peer, view: Decoder, yx: seq<Message>, byY: Log) {
    forall m | m in yx && Own(cx.isClient, m.wait) ::
      m.wait in x.asks && (x.asks[m.wait].registered ==> (view(x.asks[m.wait].request), m) in byY)
  }

  ghost predicate Half(cx: Config, x: Peer, view: Decoder, xy: seq<Message>, yx: seq<Message>,
                       byY: Log)
  {
    && TokensOwn(cx, x)
    && OutLink(cx, x, view, xy)
    && InLink(cx, x, view, yx, byY)
    && (forall t | t in x.asks :: Replied(view, x.asks[t], byY))
    && (x.blocked.Some? ==>
          var m := x.blocked.value;
          m.wait in x.asks && (view(x.asks[m.wait].request), m) in byY)
  }

  ghost predicate Correlated(ca: Config, cb: Config, n: Net) {
    && ca.isClient != cb.isClient
    && (forall m | m in n.ab || m in n.ba :: Clean(m))
    && Half(ca, n.a, View(cb), n.ab, n.ba, n.byB)
    && Half(cb, n.b, View(ca), n.ba, n.ab, n.byA)
  }

  // ---- what the steps send ----

  predicate Tokenless(ms: seq<Message>) {
    forall m | m in ms :: m.wait == [] && m.fromExplicit == [] && !m.invalid
  }

  /** What starting an ask does: the request is sent, and the ask waits, exactly when it may be written, which is so for
      a namespace event and for an event of a namespace the asker holds. The ask is in the table either way. */
  lemma StartSends(cfg: Config, to: Config, p: Peer, now: int, m: Message)
    requires MayAsk(cfg, p, m)
    ensures var request := m.(wait := GenWait(cfg.isClient, now));
            var acted := StartAsk(cfg, p, now, m);
            var writable := IsNamespaceEvent(m.event) || m.namespace in p.connected;
            && Clean(Seen(to, request))
            && DecodeAll(to, acted.sent) == (if writable then [Seen(to, request)] else [])
            && var status := if writable then Waiting else Abandoned;
               acted.peer == SetAsk(p, request.wait, Ask(request, None, true, status, now)).(clock := now)
  {
    var request := m.(wait := GenWait(cfg.isClient, now));
    RequestIsClean(cfg.isClient, to, request);
    WriteSends(cfg, to, p.connected, request);
  }

  lemma RequestIsClean(isClient: bool, to: Config, request: Message)
    requires Own(isClient, request.wait) && !request.native && request.fromExplicit == []
    requires request.event != NATIVE_MESSAGE
    ensures Clean(Seen(to, request))
  {
    NativeEventSurvives(request.event);
  }

  lemma WriteSends(cfg: Config, to: Config, connected: set<Bytes>, m: Message)
    requires PlainToken(m.wait) && !m.native && m.fromExplicit == []
    ensures DecodeAll(to, Write(cfg, connected, m))
         == if IsNamespaceEvent(m.event) || m.namespace in connected then [Seen(to, m)] else []
  {
    DecodeMessageFrame(to, m);
  }

  lemma HandleCauses(cfg: Config, p: Peer, m: Message, a: Answers)
    requires Clean(m)
    ensures var sent := HandleMessage(cfg, p, m, a).sent;
            && (forall f | f in sent :: Caused(m, a, f))
            && (sent != [] ==> !m.native && !Expected(cfg, p, m) && (IsNamespaceEvent(m.event) ==> m.wait != []))
  {
    DispatchCauses(cfg, p.connected, m, a);
  }

  lemma HandleSends(cfg: Config, to: Config, p: Peer, m: Message, a: Answers, d: Message)
    requires Clean(m) && PartyFits(m, a.party)
    requires d in DecodeAll(to, HandleMessage(cfg, p, m, a).sent)
    ensures Clean(d) && (d.wait == [] || d.wait == m.wait) && !Expected(cfg, p, m)
    ensures IsNamespaceEvent(d.event) ==> IsNamespaceEvent(m.event) && m.wait != []
  {
    HandleCauses(cfg, p, m, a);
    var sent := HandleMessage(cfg, p, m, a).sent;
    var i :| 0 <= i < |sent| && d == Decode(to, sent[i]);
    CausedIsClean(to, m, a, sent[i]);
  }

  lemma CausedIsClean(to: Config, m: Message, a: Answers, f: Frame)
    requires Clean(m) && !m.native && PartyFits(m, a.party) && Caused(m, a, f)
    ensures var d := Decode(to, f);
            && Clean(d) && (d.wait == [] || d.wait == m.wait)
            && (IsNamespaceEvent(d.event) ==> IsNamespaceEvent(m.event))
  {
    if m.wait != [] { OwnIsExclusive(Own(true, m.wait), m.wait); }
    CausedDecodes(to, m, a, f);
  }

  lemma PartySends(to: Config, party: seq<Frame>)
    requires PartyFits(EMPTY, party)
    ensures Tokenless(DecodeAll(to, party))
    ensures forall d | d in DecodeAll(to, party) :: !IsNamespaceEvent(d.event)
  {
    var sent := DecodeAll(to, party);
    assert EMPTY.event !in PARTY_EVENTS by { assert forall e | e in PARTY_EVENTS :: |e| > 0; }
    forall i | 0 <= i < |sent|
      ensures sent[i].wait == [] && sent[i].fromExplicit == [] && !sent[i].invalid && !IsNamespaceEvent(sent[i].event)
    {
      ForcedLeaveFrame(to, EMPTY, party[i]);
    }
  }

  /** An emit puts exactly its message on the link if it may be written, and otherwise nothing. */
  lemma EmitSends(cfg: Config, to: Config, p: Peer, m: Message)
    requires Sendable(m)
    ensures DecodeAll(to, Write(cfg, p.connected, m))
         == if IsNamespaceEvent(m.event) || m.namespace in p.connected then [Seen(to, m)] else []
    ensures Tokenless(DecodeAll(to, Write(cfg, p.connected, m)))
  {
    WriteSends(cfg, to, p.connected, m);
  }

  /** An invalid message does nothing. A native one is fired on the empty namespace, if that is connected: it changes
      nothing, an accepting handler answers its token, if any, and a refusal is not written. */
  lemma NativeOutcome(cfg: Config, p: Peer, m: Message, a: Answers)
    requires m.invalid || m.native
    ensures HandleMessage(cfg, p, m, a)
         == Acted(p, if && !m.invalid && [] in p.connected && m.event in EventsOf(cfg, [])
                        && a.first.Accept? && m.wait != []
                     then [Frame(true, EmptyReply(m.wait))] else [])
  {
  }

  // ---- the invariant is kept ----

  /** The other side's half is kept by any step whose token-carrying messages answer the message handled. */
  lemma OtherHalfKept(cy: Config, y: Peer, view: Decoder, yx: seq<Message>, xy: seq<Message>, byX: Log,
                      yx': seq<Message>, sent: seq<Message>, byX': Log)
    requires Half(cy, y, view, yx, xy, byX)
    requires forall m | m in yx' :: m in yx
    requires byX <= byX'
    requires forall d | d in sent && Own(cy.isClient, d.wait) ::
               yx != [] && d.wait == yx[0].wait && (yx[0], d) in byX'
    ensures Half(cy, y, view, yx', xy + sent, byX')
  {
  }

  /** An asker's half is kept when it only sends messages that carry no token of its own, or one of an ask
      that is over. */
  lemma OwnHalfKept(cx: Config, x: Peer, view: Decoder, xy: seq<Message>, yx: seq<Message>,
                    byY: Log, x': Peer, sent: seq<Message>, yx': seq<Message>)
    requires Half(cx, x, view, xy, yx, byY)
    requires x'.asks == x.asks && x'.blocked == x.blocked && x'.clock == x.clock
    requires forall m | m in yx' :: m in yx
    requires forall d | d in sent && Own(cx.isClient, d.wait) :: d.wait in x.asks && !x.asks[d.wait].registered
    ensures Half(cx, x', view, xy + sent, yx', byY)
  {
  }

  /** ... and when one of its asks moves on, keeping its request and not registering again. */
  lemma AskKept(cx: Config, x: Peer, view: Decoder, xy: seq<Message>, yx: seq<Message>, byY: Log,
                t: Bytes, ask: Ask, blocked: Option<Message>, yx': seq<Message>)
    requires Half(cx, x, view, xy, yx, byY) && t in x.asks
    requires ask.request == x.asks[t].request && (ask.registered ==> x.asks[t].registered)
    requires forall m | HasReply(ask, m) && !HasReply(x.asks[t], m) ::
               m.wait == t && (view(ask.request), m) in byY
    requires blocked == None || blocked == x.blocked
             || (blocked.value.wait in x.asks && (view(x.asks[blocked.value.wait].request), blocked.value) in byY)
    requires forall m | m in yx' :: m in yx
    ensures Half(cx, SetAsk(x, t, ask).(blocked := blocked), view, xy, yx', byY)
  {
    var x' := SetAsk(x, t, ask).(blocked := blocked);
    assert Replied(view, x.asks[t], byY) && Replied(view, ask, byY);
    SameRequests(cx, x, x', view, xy, yx, yx', byY);
  }

  /** The links see only the requests of the asks and which asks are registered. */
  lemma SameRequests(cx: Config, x: Peer, x': Peer, view: Decoder, xy: seq<Message>, yx: seq<Message>,
                     yx': seq<Message>, byY: Log)
    requires TokensOwn(cx, x) && OutLink(cx, x, view, xy) && InLink(cx, x, view, yx, byY)
    requires x'.asks.Keys == x.asks.Keys && x'.clock == x.clock && forall m | m in yx' :: m in yx
    requires forall u | u in x.asks ::
               x'.asks[u].request == x.asks[u].request && (x'.asks[u].registered ==> x.asks[u].registered)
    ensures TokensOwn(cx, x') && OutLink(cx, x', view, xy) && InLink(cx, x', view, yx', byY)
  {
  }

  lemma StartKept(cx: Config, x: Peer, view: Decoder, xy: seq<Message>, yx: seq<Message>, byY: Log,
                  now: int, ask: Ask, sent: seq<Message>)
    requires Half(cx, x, view, xy, yx, byY) && x.clock < now
    requires ask.request.wait == GenWait(cx.isClient, now) && ask.slot.None? && !ask.phase.Got? && !ask.phase.Finished?
    requires forall d | d in sent :: d == view(ask.request)
    requires view(ask.request).wait == ask.request.wait
    ensures Half(cx, SetAsk(x, ask.request.wait, ask).(clock := now), view, xy + sent, yx, byY)
  {
    StartTokens(cx, x, now, ask);
    StartLinks(cx, x, view, xy, yx, byY, ask, sent, SetAsk(x, ask.request.wait, ask).(clock := now));
  }

  lemma StartTokens(cx: Config, x: Peer, now: int, ask: Ask)
    requires TokensOwn(cx, x) && x.clock < now && ask.request.wait == GenWait(cx.isClient, now)
    ensures TokensOwn(cx, SetAsk(x, ask.request.wait, ask).(clock := now))
    ensures ask.request.wait !in x.asks
  {
    var t := ask.request.wait;
    var x' := SetAsk(x, t, ask).(clock := now);
    if t in x.asks { FreshToken(cx.isClient, now, t, x.clock); }
    forall u | u in x'.asks
      ensures OwnUntil(cx.isClient, u, now) && x'.asks[u].request.wait == u
    {
      if u != t {
        var k :| k <= x.clock && u == GenWait(cx.isClient, k);
      }
    }
  }

  lemma StartLinks(cx: Config, x: Peer, view: Decoder, xy: seq<Message>, yx: seq<Message>,
                   byY: Log, ask: Ask, sent: seq<Message>, x': Peer)
    requires Half(cx, x, view, xy, yx, byY)
    requires ask.request.wait !in x.asks && TokensOwn(cx, x')
    requires x' == SetAsk(x, ask.request.wait, ask).(clock := x'.clock)
    requires ask.slot.None? && !ask.phase.Got? && !ask.phase.Finished?
    requires forall d | d in sent :: d == view(ask.request)
    requires view(ask.request).wait == ask.request.wait
    ensures Half(cx, x', view, xy + sent, yx, byY)
  {
    assert forall u | u in x.asks :: u in x'.asks && x'.asks[u] == x.asks[u];
    StartOutLink(cx, x, view, xy, ask, sent, x');
    assert InLink(cx, x', view, yx, byY);
    assert Replied(view, ask, byY);
  }

  lemma StartOutLink(cx: Config, x: Peer, view: Decoder, xy: seq<Message>, ask: Ask, sent: seq<Message>, x': Peer)
    requires OutLink(cx, x, view, xy) && ask.request.wait !in x.asks
    requires x'.asks == x.asks[ask.request.wait := ask]
    requires forall d | d in sent :: d == view(ask.request)
    requires view(ask.request).wait == ask.request.wait
    ensures OutLink(cx, x', view, xy + sent)
  {
  }

  /** A message the reader hands to a waiting ask. */
  predicate Delivers(cfg: Config, p: Peer, m: Message) {
    !m.invalid && !m.native && Expected(cfg, p, m)
  }

  function Delivered(p: Peer, m: Message): Peer
    requires m.wait in p.asks
  {
    if p.asks[m.wait].slot.None? then SetAsk(p, m.wait, p.asks[m.wait].(slot := Some(m))) else p.(blocked := Some(m))
  }

  /** Handling a message either delivers it to its ask and sends nothing, or leaves the asks alone. */
  lemma HandleEffect(cfg: Config, p: Peer, m: Message, a: Answers)
    ensures var acted := HandleMessage(cfg, p, m, a);
            if Delivers(cfg, p, m) then acted == Acted(Delivered(p, m), [])
            else acted.peer == p.(connected := acted.peer.connected)
  {
  }

  lemma HandleKeeps(ca: Config, cb: Config, n: Net, m: Message, a': Peer, sent: seq<Message>)
    requires Correlated(ca, cb, n) && n.ba != [] && m == n.ba[0]
    requires if Delivers(ca, n.a, m) then sent == [] && a' == Delivered(n.a, m)
             else a' == n.a.(connected := a'.connected)
    requires forall d | d in sent :: Clean(d) && (d.wait == [] || d.wait == m.wait) && !Expected(ca, n.a, m)
    ensures Correlated(ca, cb, Net(a', n.b, n.ab + sent, n.ba[1..], n.byA + Pairs(m, sent), n.byB))
  {
    var byA' := n.byA + Pairs(m, sent);
    assert forall d | d in sent && Own(cb.isClient, d.wait) :: d.wait == m.wait && (m, d) in byA';
    OtherHalfKept(cb, n.b, View(ca), n.ba, n.ab, n.byA, n.ba[1..], sent, byA');
    if Delivers(ca, n.a, m) {
      DeliveryKept(ca, n.a, View(cb), n.ab, n.ba, n.byB, m);
      assert n.ab + sent == n.ab;
    } else {
      forall d | d in sent && Own(ca.isClient, d.wait)
        ensures d.wait in n.a.asks && !n.a.asks[d.wait].registered
      {
        OwnIsExclusive(ca.isClient, d.wait);
        assert m in n.ba;
      }
      OwnHalfKept(ca, n.a, View(cb), n.ab, n.ba, n.byB, a', sent, n.ba[1..]);
    }
  }

  lemma AskTokenIsOwn(cx: Config, x: Peer, t: Bytes)
    requires TokensOwn(cx, x) && t in x.asks
    ensures Own(cx.isClient, t)
  {
    var k :| k <= x.clock && t == GenWait(cx.isClient, k);
  }

  lemma DeliveryKept(cx: Config, x: Peer, view: Decoder, xy: seq<Message>, yx: seq<Message>,
                     byY: Log, m: Message)
    requires Half(cx, x, view, xy, yx, byY) && yx != [] && m == yx[0] && Expected(cx, x, m)
    ensures Half(cx, Delivered(x, m), view, xy, yx[1..], byY)
  {
    AskTokenIsOwn(cx, x, m.wait);
    assert m in yx && (view(x.asks[m.wait].request), m) in byY;
    var ask := x.asks[m.wait];
    if ask.slot.None? {
      AskKept(cx, x, view, xy, yx, byY, m.wait, ask.(slot := Some(m)), x.blocked, yx[1..]);
    } else {
      AskKept(cx, x, view, xy, yx, byY, m.wait, ask, Some(m), yx[1..]);
      assert x.asks[m.wait := ask] == x.asks;
    }
  }

  /** A step that sends only messages without a token and otherwise moves one ask on. */
  lemma AskStepKeeps(ca: Config, cb: Config, n: Net, t: Bytes, a': Peer, sent: seq<Message>)
    requires Correlated(ca, cb, n) && t in n.a.asks && t in a'.asks && Tokenless(sent)
    requires a' == SetAsk(n.a, t, a'.asks[t])
                     .(blocked := a'.blocked, connected := a'.connected, settled := a'.settled)
    requires a'.asks[t].request == n.a.asks[t].request && (a'.asks[t].registered ==> n.a.asks[t].registered)
    requires forall m | HasReply(a'.asks[t], m) ::
               HasReply(n.a.asks[t], m) || (n.a.blocked == Some(m) && m.wait == t)
    requires a'.blocked == None || a'.blocked == n.a.blocked
    ensures Correlated(ca, cb, n.(a := a', ab := n.ab + sent))
  {
    AskKept(ca, n.a, View(cb), n.ab, n.ba, n.byB, t, a'.asks[t], a'.blocked, n.ba);
    var mid := SetAsk(n.a, t, a'.asks[t]).(blocked := a'.blocked);
    OwnHalfKept(ca, mid, View(cb), n.ab, n.ba, n.byB, a', sent, n.ba);
    OtherHalfKept(cb, n.b, View(ca), n.ba, n.ab, n.byA, n.ba, sent, n.byA);
  }

  lemma EmitKeeps(ca: Config, cb: Config, n: Net, sent: seq<Message>)
    requires Correlated(ca, cb, n) && Tokenless(sent)
    ensures Correlated(ca, cb, n.(ab := n.ab + sent))
  {
    OwnHalfKept(ca, n.a, View(cb), n.ab, n.ba, n.byB, n.a, sent, n.ba);
    OtherHalfKept(cb, n.b, View(ca), n.ba, n.ab, n.byA, n.ba, sent, n.byA);
  }

  lemma StartKeeps(ca: Config, cb: Config, n: Net, now: int, ask: Ask, sent: seq<Message>)
    requires Correlated(ca, cb, n) && n.a.clock < now
    requires ask.request.wait == GenWait(ca.isClient, now) && ask.slot.None? && !ask.phase.Got? && !ask.phase.Finished?
    requires forall d | d in sent :: d == Seen(cb, ask.request) && Clean(d)
    ensures var a' := SetAsk(n.a, ask.request.wait, ask).(clock := now);
            Correlated(ca, cb, n.(a := a', ab := n.ab + sent))
  {
    assert Own(ca.isClient, ask.request.wait);
    OwnIsExclusive(ca.isClient, ask.request.wait);
    StartKept(ca, n.a, View(cb), n.ab, n.ba, n.byB, now, ask, sent);
    OtherHalfKept(cb, n.b, View(ca), n.ba, n.ab, n.byA, n.ba, sent, n.byA);
  }

  /** Starting an ask or handling a message keeps the invariant of both peers. */
  lemma TokenStepKeeps(ca: Config, cb: Config, n: Net, s: Step)
    requires Correlated(ca, cb, n) && Enabled(ca, n.a, n.ba, s) && (s.Start? || s.Handle?)
    ensures Correlated(ca, cb, StepA(ca, cb, n, s))
  {
    if s.Start? {
      var acted := StartAsk(ca, n.a, s.now, s.request);
      StartSends(ca, cb, n.a, s.now, s.request);
      StartKeeps(ca, cb, n, s.now, acted.peer.asks[GenWait(ca.isClient, s.now)], DecodeAll(cb, acted.sent));
    } else {
      var m := n.ba[0];
      var acted := HandleMessage(ca, n.a, m, s.answers);
      var sent := DecodeAll(cb, acted.sent);
      HandleEffect(ca, n.a, m, s.answers);
      forall d | d in sent
        ensures Clean(d) && (d.wait == [] || d.wait == m.wait) && !Expected(ca, n.a, m)
      {
        HandleSends(ca, cb, n.a, m, s.answers, d);
      }
      HandleKeeps(ca, cb, n, m, acted.peer, sent);
    }
  }

  /** So does a step that only moves one ask on. */
  lemma LocalStepKeeps(ca: Config, cb: Config, n: Net, s: Step)
    requires Correlated(ca, cb, n) && Enabled(ca, n.a, n.ba, s)
    requires s.Unblock? || s.Take? || s.Unregister? || s.Abandon?
    ensures Correlated(ca, cb, StepA(ca, cb, n, s))
  {
    var t := if s.Unblock? then n.a.blocked.value.wait else s.token;
    var a' := Act(ca, n.a, n.ba, s).peer;
    assert a' == SetAsk(n.a, t, a'.asks[t]).(blocked := a'.blocked);
    AskStepKeeps(ca, cb, n, t, a', []);
  }

  lemma FinishKeeps(ca: Config, cb: Config, n: Net, t: Bytes, party: seq<Frame>)
    requires Correlated(ca, cb, n) && Enabled(ca, n.a, n.ba, Finish(t, party))
    ensures Correlated(ca, cb, StepA(ca, cb, n, Finish(t, party)))
  {
    var acted := FinishAsk(n.a, t, party);
    FinishEffect(n.a, t, party);
    PartySends(cb, party);
    AskStepKeeps(ca, cb, n, t, acted.peer, DecodeAll(cb, acted.sent));
  }

  lemma FinishEffect(p: Peer, t: Bytes, party: seq<Frame>)
    requires t in p.asks && p.asks[t].phase.Got?
    ensures var acted := FinishAsk(p, t, party);
            var ask := p.asks[t].(phase := Finished(p.asks[t].phase.reply));
            && acted.peer == SetAsk(p, t, ask).(connected := acted.peer.connected, settled := acted.peer.settled)
            && (acted.sent == [] || acted.sent == party)
  {
  }

  /** What a returning namespace ask does to the namespaces and to the table of waiting messages. */
  lemma FinishNamespace(p: Peer, t: Bytes, party: seq<Frame>)
    requires t in p.asks && p.asks[t].phase.Got? && IsNamespaceEvent(p.asks[t].request.event)
    ensures var acted := FinishAsk(p, t, party);
            var request := p.asks[t].request;
            && (if p.asks[t].phase.reply.err.Some? then acted.peer.connected == p.connected && acted.sent == []
                else if request.event == NAMESPACE_CONNECT then
                  acted.peer.connected == p.connected + {request.namespace} && acted.sent == []
                else acted.peer.connected == p.connected - {request.namespace} && acted.sent == party)
            && acted.peer.asks.Keys == p.asks.Keys
            && forall u | u in p.asks ::
                 acted.peer.asks[u].registered == p.asks[u].registered && acted.peer.asks[u].slot == p.asks[u].slot
  {
    NamespaceEventsDiffer();
  }

  lemma NamespaceEventsDiffer()
    ensures NAMESPACE_CONNECT != NAMESPACE_DISCONNECT
  {
    assert |NAMESPACE_CONNECT| != |NAMESPACE_DISCONNECT|;
  }

  /** Each step of one peer keeps the invariant of both. */
  lemma StepKeeps(ca: Config, cb: Config, n: Net, s: Step)
    requires Correlated(ca, cb, n) && Enabled(ca, n.a, n.ba, s)
    ensures Correlated(ca, cb, StepA(ca, cb, n, s))
  {
    match s {
      case Start(_, _) => TokenStepKeeps(ca, cb, n, s);
      case Handle(_) => TokenStepKeeps(ca, cb, n, s);
      case Finish(t, party) => FinishKeeps(ca, cb, n, t, party);
      case Emit(m) =>
        EmitSends(ca, cb, n.a, m);
        EmitKeeps(ca, cb, n, DecodeAll(cb, Write(ca, n.a.connected, m)));
      case _ => LocalStepKeeps(ca, cb, n, s);
    }
  }

  lemma MoveKeeps(ca: Config, cb: Config, n: Net, move: Move)
    requires Correlated(ca, cb, n) && CanMove(ca, cb, n, move)
    ensures Correlated(ca, cb, Next(ca, cb, n, move))
  {
    match move {
      case ByA(s) => StepKeeps(ca, cb, n, s);
      case ByB(s) => StepKeeps(cb, ca, Swap(n), s);
    }
  }

  lemma {:induction false} RunKeeps(ca: Config, cb: Config, nets: seq<Net>, moves: seq<Move>, i: nat)
    requires Run(ca, cb, nets, moves) && i <= |moves|
    ensures Correlated(ca, cb, nets[i])
  {
    if i > 0 {
      RunKeeps(ca, cb, nets, moves, i - 1);
      MoveKeeps(ca, cb, nets[i - 1], moves[i - 1]);
    }
  }

  /** An ask of `x` that has taken its reply or returned it did so with a message that carries its token and
      that the other side sent while it handled this very ask's request. */
  ghost predicate AskAnswered(x: Peer, t: Bytes, view: Decoder, byY: Log) {
    t in x.asks && (x.asks[t].phase.Got? || x.asks[t].phase.Finished?) ==>
      var reply := x.asks[t].phase.reply; reply.wait == t && (view(x.asks[t].request), reply) in byY
  }

  /** Ask correlation, in every state of every run and for every ask of either side, however many surplus or
      late replies are around. */
  lemma AskCorrelation(ca: Config, cb: Config, nets: seq<Net>, moves: seq<Move>, i: nat, t: Bytes)
    requires Run(ca, cb, nets, moves) && i <= |moves|
    ensures AskAnswered(nets[i].a, t, View(cb), nets[i].byB)
    ensures AskAnswered(nets[i].b, t, View(ca), nets[i].byA)
  {
    RunKeeps(ca, cb, nets, moves, i);
    HalfAnswers(ca, nets[i].a, View(cb), nets[i].ab, nets[i].ba, nets[i].byB, t);
    HalfAnswers(cb, nets[i].b, View(ca), nets[i].ba, nets[i].ab, nets[i].byA, t);
  }

  lemma HalfAnswers(cx: Config, x: Peer, view: Decoder, xy: seq<Message>, yx: seq<Message>, byY: Log, t: Bytes)
    requires Half(cx, x, view, xy, yx, byY)
    ensures AskAnswered(x, t, view, byY)
  {
    if t in x.asks && (x.asks[t].phase.Got? || x.asks[t].phase.Finished?) {
      assert HasReply(x.asks[t], x.asks[t].phase.reply);
    }
  }

  /** No request of one side is ever taken for a reply by the other: a message under the sender's own token
      is expected by no ask of the receiver, and handling it leaves the receiver's asks and reader alone. */
  lemma RequestIsNeverAReply(ca: Config, cb: Config, nets: seq<Net>, moves: seq<Move>, i: nat, m: Message, a: Answers)
    requires Run(ca, cb, nets, moves) && i <= |moves|
    requires m in nets[i].ab && Own(ca.isClient, m.wait)
    ensures !Expected(cb, nets[i].b, m)
    ensures var b' := HandleMessage(cb, nets[i].b, m, a).peer;
            b'.asks == nets[i].b.asks && b'.blocked == nets[i].b.blocked
  {
    RunKeeps(ca, cb, nets, moves, i);
    OwnIsExclusive(ca.isClient, m.wait);
    if m.wait in nets[i].b.asks { AskTokenIsOwn(cb, nets[i].b, m.wait); }
    HandleEffect(cb, nets[i].b, m, a);
  }

  // ---- surplus replies and the reader ----

  /** The reader is blocked on the full channel of an ask that takes no more replies. */
  predicate Wedged(p: Peer) {
    && p.blocked.Some? && p.blocked.value.wait in p.asks
    && p.asks[p.blocked.value.wait].slot.Some? && !p.asks[p.blocked.value.wait].phase.Waiting?
  }

  /** A reply is handed to an ask that takes no more and whose channel is full. */
  predicate SurplusOnFull(cfg: Config, p: Peer, m: Message) {
    Delivers(cfg, p, m) && p.asks[m.wait].slot.Some? && !p.asks[m.wait].phase.Waiting?
  }

  /** The ask that the reader is blocked on is given up while its channel is full. */
  predicate GivesUpBlocking(p: Peer, t: Bytes) {
    p.blocked.Some? && p.blocked.value.wait == t && t in p.asks && p.asks[t].slot.Some?
  }

  /** In every state of every run and for every enabled step, the reader is wedged afterwards exactly when it
      was before, when a surplus reply meets a full channel, or when an ask is given up while the reader is
      blocked on its full channel. */
  lemma WedgesExactly(ca: Config, cb: Config, nets: seq<Net>, moves: seq<Move>, i: nat, s: Step)
    requires Run(ca, cb, nets, moves) && i <= |moves| && Enabled(ca, nets[i].a, nets[i].ba, s)
    ensures var p := nets[i].a;
            Wedged(Act(ca, p, nets[i].ba, s).peer)
            <==> || Wedged(p)
                 || (s.Handle? && SurplusOnFull(ca, p, nets[i].ba[0]))
                 || (s.Abandon? && GivesUpBlocking(p, s.token))
  {
    RunKeeps(ca, cb, nets, moves, i);
    StepWedges(ca, nets[i].a, nets[i].ba, s);
  }

  lemma StepWedges(cfg: Config, p: Peer, inbox: seq<Message>, s: Step)
    requires Enabled(cfg, p, inbox, s) && TokensOwn(cfg, p)
    requires p.blocked.Some? ==> p.blocked.value.wait in p.asks
    ensures Wedged(Act(cfg, p, inbox, s).peer)
       <==> || Wedged(p)
            || (s.Handle? && SurplusOnFull(cfg, p, inbox[0]))
            || (s.Abandon? && GivesUpBlocking(p, s.token))
  {
    match s {
      case Start(now, m) =>
        if p.blocked.Some? {
          FreshToken(cfg.isClient, now, p.blocked.value.wait, p.clock);
          StartKeepsOthers(cfg, p, now, m, p.blocked.value.wait);
        }
      case Handle(answers) => HandleEffect(cfg, p, inbox[0], answers);
      case Finish(t, party) => FinishKeepsChannels(p, t, party);
      case _ =>
    }
  }

  /** A wedged reader stays wedged in every continuation of the run, and never takes another message off its
      link: what was waiting for it is still waiting, in front of all that came since. */
  lemma {:induction false} WedgedForever(ca: Config, cb: Config, nets: seq<Net>, moves: seq<Move>, i: nat, j: nat)
    requires Run(ca, cb, nets, moves) && i <= j <= |moves| && Wedged(nets[i].a)
    ensures Wedged(nets[j].a) && nets[i].ba <= nets[j].ba
    decreases j
  {
    if i < j {
      WedgedForever(ca, cb, nets, moves, i, j - 1);
      TokensOwnInRun(ca, cb, nets, moves, j - 1);
      WedgedStep(ca, cb, nets[j - 1], moves[j - 1]);
      PrefixTransitive(nets[i].ba, nets[j - 1].ba, nets[j].ba);
    }
  }

  lemma PrefixTransitive(x: seq<Message>, y: seq<Message>, z: seq<Message>)
    requires x <= y && y <= z
    ensures x <= z
  {
  }

  lemma TokensOwnInRun(ca: Config, cb: Config, nets: seq<Net>, moves: seq<Move>, i: nat)
    requires Run(ca, cb, nets, moves) && i <= |moves|
    ensures TokensOwn(ca, nets[i].a)
  {
    RunKeeps(ca, cb, nets, moves, i);
  }

  lemma WedgedStep(ca: Config, cb: Config, n: Net, move: Move)
    requires CanMove(ca, cb, n, move) && TokensOwn(ca, n.a) && Wedged(n.a)
    ensures var n' := Next(ca, cb, n, move); Wedged(n'.a) && n.ba <= n'.ba
  {
    if move.ByA? { StepWedges(ca, n.a, n.ba, move.step); }
  }

  lemma StartKeepsOthers(cfg: Config, p: Peer, now: int, m: Message, t: Bytes)
    requires t in p.asks && t != GenWait(cfg.isClient, now)
    ensures var q := StartAsk(cfg, p, now, m).peer; t in q.asks && q.asks[t] == p.asks[t] && q.blocked == p.blocked
  {
  }

  lemma FinishKeepsChannels(p: Peer, t: Bytes, party: seq<Frame>)
    requires t in p.asks && p.asks[t].phase.Got?
    ensures var q := FinishAsk(p, t, party).peer;
            && q.blocked == p.blocked && q.asks.Keys == p.asks.Keys && !q.asks[t].phase.Waiting?
            && q.asks[t].slot == p.asks[t].slot && forall u | u in p.asks && u != t :: q.asks[u] == p.asks[u]
  {
  }

  // ---- a run that wedges ----

  const ACCEPTING := Answers(Accept, Accept, [])

  function ConnectRequest(name: Bytes): Message {
    EMPTY.(namespace := name, event := NAMESPACE_CONNECT)
  }

  function EmptyMessage(t: Bytes, binary: bool): Message {
    EMPTY.(wait := t, binary := binary)
  }

  /** Three successes under a token, as a responder with both handlers sends them. */
  predicate ThreeSuccesses(ms: seq<Message>, t: Bytes) {
    |ms| == 3 && forall i | 0 <= i < 3 :: ms[i] == EmptyMessage(t, i != 1)
  }

  lemma ThreeReplies(ca: Config, cb: Config, t: Bytes, name: Bytes)
    requires PlainToken(t) && t != [] && name in cb.namespaces
    requires NAMESPACE_CONNECT in cb.namespaces[name] && NAMESPACE_CONNECTED in cb.namespaces[name]
    ensures var h := Dispatch(cb, {}, ConnectRequest(name).(wait := t), ACCEPTING);
            h.connected == {name} && ThreeSuccesses(DecodeAll(ca, h.sent), t)
  {
    ThreeFrames(cb, t, name);
    ThreeDecoded(ca, t, Dispatch(cb, {}, ConnectRequest(name).(wait := t), ACCEPTING).sent);
  }

  lemma ThreeDecoded(to: Config, t: Bytes, frames: seq<Frame>)
    requires PlainToken(t) && |frames| == 3 && forall i | 0 <= i < 3 :: frames[i] == Frame(i != 1, EmptyReply(t))
    ensures ThreeSuccesses(DecodeAll(to, frames), t)
  {
    forall i | 0 <= i < 3
      ensures DecodeAll(to, frames)[i] == EmptyMessage(t, i != 1)
    {
      DecodeEmptyFrame(to, t, i != 1);
    }
  }

  lemma ThreeFrames(cb: Config, t: Bytes, name: Bytes)
    requires t != [] && name in cb.namespaces
    requires NAMESPACE_CONNECT in cb.namespaces[name] && NAMESPACE_CONNECTED in cb.namespaces[name]
    ensures Dispatch(cb, {}, ConnectRequest(name).(wait := t), ACCEPTING)
         == Handled({name}, [Frame(true, EmptyReply(t)), Frame(false, EmptyReply(t)), Frame(true, EmptyReply(t))])
  {
    var m := ConnectRequest(name).(wait := t);
    var events := cb.namespaces[name];
    assert FireEvent(events, m, Accept) == Fired(None, [Frame(true, EmptyReply(t))]);
    assert FireEvent(events, m.(event := NAMESPACE_CONNECTED), Accept).sent == [Frame(true, EmptyReply(t))];
    assert {} + {name} == {name};
  }

  /** The first two moves: the ask starts and the responder answers it. */
  lemma ConnectAnswered(ca: Config, cb: Config, name: Bytes) returns (n1: Net, n2: Net)
    requires ca.isClient != cb.isClient && EscapeSafe(name) && name in ca.namespaces && name in cb.namespaces
    requires NAMESPACE_CONNECT in cb.namespaces[name] && NAMESPACE_CONNECTED in cb.namespaces[name]
    ensures var start, answer := ByA(Start(1, ConnectRequest(name))), ByB(Handle(ACCEPTING));
            && CanMove(ca, cb, START, start) && n1 == Next(ca, cb, START, start)
            && CanMove(ca, cb, n1, answer) && n2 == Next(ca, cb, n1, answer)
    ensures var t := GenWait(ca.isClient, 1);
            && n2.a == Peer({}, map[t := Ask(ConnectRequest(name).(wait := t), None, true, Waiting, 1)], None, 1, map[])
            && ThreeSuccesses(n2.ba, t)
  {
    ConnectStarts(ca, cb, name);
    n1 := Next(ca, cb, START, ByA(Start(1, ConnectRequest(name))));
    ConnectHandled(ca, cb, n1, GenWait(ca.isClient, 1), name);
    n2 := Next(ca, cb, n1, ByB(Handle(ACCEPTING)));
  }

  lemma ConnectStarts(ca: Config, cb: Config, name: Bytes)
    requires EscapeSafe(name) && name in ca.namespaces
    ensures CanMove(ca, cb, START, ByA(Start(1, ConnectRequest(name))))
    ensures var t := GenWait(ca.isClient, 1);
            var request := ConnectRequest(name).(wait := t);
            var n := Next(ca, cb, START, ByA(Start(1, ConnectRequest(name))));
            && n.a == Peer({}, map[t := Ask(request, None, true, Waiting, 1)], None, 1, map[])
            && n.b == NEW_PEER && n.ab == [request] && n.ba == []
  {
    var request := ConnectRequest(name).(wait := GenWait(ca.isClient, 1));
    assert NAMESPACE_CONNECT[5] != NATIVE_MESSAGE[5];
    RequestAsSent(cb, request);
    WriteSends(ca, cb, {}, request);
  }

  lemma ConnectHandled(ca: Config, cb: Config, n: Net, t: Bytes, name: Bytes)
    requires PlainToken(t) && t != [] && n.b == NEW_PEER && n.ba == []
    requires n.ab == [ConnectRequest(name).(wait := t)] && name in cb.namespaces
    requires NAMESPACE_CONNECT in cb.namespaces[name] && NAMESPACE_CONNECTED in cb.namespaces[name]
    ensures CanMove(ca, cb, n, ByB(Handle(ACCEPTING)))
    ensures var n' := Next(ca, cb, n, ByB(Handle(ACCEPTING))); n'.a == n.a && ThreeSuccesses(n'.ba, t)
  {
    ThreeReplies(ca, cb, t, name);
  }

  lemma RequestAsSent(to: Config, request: Message)
    requires EscapeSafe(request.namespace) && request == ConnectRequest(request.namespace).(wait := request.wait)
    ensures Seen(to, request) == request
  {
    UnescapeEscape(request.namespace);
    NamespaceEventSurvives(request.event);
    assert request.event != NATIVE_MESSAGE by { assert NAMESPACE_CONNECT[5] != NATIVE_MESSAGE[5]; }
    assert Unescape(Escape([])) == [];
  }

  lemma DeliveryStep(ca: Config, cb: Config, n: Net)
    requires n.ba != [] && n.a.blocked.None? && Delivers(ca, n.a, n.ba[0])
    ensures Enabled(ca, n.a, n.ba, Handle(ACCEPTING))
    ensures var n' := StepA(ca, cb, n, Handle(ACCEPTING)); n'.a == Delivered(n.a, n.ba[0]) && n'.ba == n.ba[1..]
  {
    HandleEffect(ca, n.a, n.ba[0], ACCEPTING);
  }

  /** One more move extends a run. */
  lemma RunOn(ca: Config, cb: Config, nets: seq<Net>, moves: seq<Move>, move: Move)
      returns (nets': seq<Net>, moves': seq<Move>)
    requires Run(ca, cb, nets, moves) && CanMove(ca, cb, nets[|moves|], move)
    ensures Run(ca, cb, nets', moves') && |moves'| == |moves| + 1 && nets <= nets'
    ensures nets'[|moves'|] == Next(ca, cb, nets[|moves|], move)
  {
    nets' := nets + [Next(ca, cb, nets[|moves|], move)];
    moves' := moves + [move];
  }

  /** An ordinary connect can wedge the reader of the side that asks, whenever the other side has handlers for
      both events of the namespace: the ask takes the first of three replies, the second fills its channel
      before the ask leaves the table, and the third blocks the reader. */
  lemma ConnectCanWedge(ca: Config, cb: Config, name: Bytes) returns (nets: seq<Net>, moves: seq<Move>)
    requires ca.isClient != cb.isClient && EscapeSafe(name) && name in ca.namespaces && name in cb.namespaces
    requires NAMESPACE_CONNECT in cb.namespaces[name] && NAMESPACE_CONNECTED in cb.namespaces[name]
    ensures Run(ca, cb, nets, moves) && Wedged(nets[|moves|].a)
  {
    var n1, n2 := ConnectAnswered(ca, cb, name);
    nets, moves := [START], [];
    nets, moves := RunOn(ca, cb, nets, moves, ByA(Start(1, ConnectRequest(name))));
    nets, moves := RunOn(ca, cb, nets, moves, ByB(Handle(ACCEPTING)));
    nets, moves := SurplusRepliesWedge(ca, cb, nets, moves, ConnectRequest(name));
  }

  lemma SurplusRepliesWedge(ca: Config, cb: Config, nets: seq<Net>, moves: seq<Move>, m: Message)
      returns (nets': seq<Net>, moves': seq<Move>)
    requires Run(ca, cb, nets, moves)
    requires var t := GenWait(ca.isClient, 1);
             var n := nets[|moves|];
             && n.a == Peer({}, map[t := Ask(m.(wait := t), None, true, Waiting, 1)], None, 1, map[])
             && ThreeSuccesses(n.ba, t)
    ensures Run(ca, cb, nets', moves') && Wedged(nets'[|moves'|].a)
  {
    var t := GenWait(ca.isClient, 1);
    assert Own(ca.isClient, t);
    OwnIsExclusive(ca.isClient, t);
    DeliveryStep(ca, cb, nets[|moves|]);
    nets', moves' := RunOn(ca, cb, nets, moves, ByA(Handle(ACCEPTING)));
    nets', moves' := RunOn(ca, cb, nets', moves', ByA(Take(t)));
    DeliveryStep(ca, cb, nets'[|moves'|]);
    nets', moves' := RunOn(ca, cb, nets', moves', ByA(Handle(ACCEPTING)));
    DeliveryStep(ca, cb, nets'[|moves'|]);
    nets', moves' := RunOn(ca, cb, nets', moves', ByA(Handle(ACCEPTING)));
  }
}
