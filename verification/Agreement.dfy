/** Both sides hold the same namespaces (conn.go: askConnect, replyConnect, askDisconnect, replyDisconnect).

    Each namespace is initiated by one of the two sides, in either role. The lemmas speak of one side `x`, the
    namespaces `mine` it initiates, and what the other side holds; both sides are such an `x`. */
module Agreement {
  import opened Text
  import opened Escaping
  import opened Codec
  import opened Protocol
  import opened Network

  /** The namespaces a side initiates. */
  type Names = Bytes -> bool

  predicate NsAsk(ask: Ask) {
    IsNamespaceEvent(ask.request.event)
  }

  /** An ask to connect or disconnect whose caller still waits for it. */
  predicate Outstanding(ask: Ask) {
    NsAsk(ask) && (ask.phase.Waiting? || ask.phase.Got?)
  }

  /** An ask to connect or disconnect whose caller gave up. */
  predicate GivenUp(ask: Ask) {
    NsAsk(ask) && ask.phase.Abandoned?
  }

  predicate SameName(p: Ask, q: Ask) {
    p.request.namespace == q.request.namespace
  }

  /** An ask about the same namespace that was not started before has returned. */
  predicate Overtaken(x: Peer, ask: Ask) {
    ask.request.namespace in x.settled && ask.at <= x.settled[ask.request.namespace]
  }

  /** Outstanding or given up, and not overtaken. */
  predicate Live(x: Peer, t: Bytes) {
    t in x.asks && (Outstanding(x.asks[t]) || GivenUp(x.asks[t])) && !Overtaken(x, x.asks[t])
  }

  predicate LiveFor(x: Peer, t: Bytes, name: Bytes) {
    Live(x, t) && x.asks[t].request.namespace == name
  }

  predicate IsRequest(m: Message) {
    IsNamespaceEvent(m.event) && m.wait != []
  }

  /** The steps the agreement is stated for. A side asks about the namespaces it initiates, under escape-safe
      names, and not while an ask about the same one is outstanding; one that was given up may be repeated.
      It does not refuse a namespace request with a `Reply`. All else is free. */
  ghost predicate AllowedStep(cx: Config, mine: Names, x: Peer, inbox: seq<Message>, s: Step) {
    match s
    case Start(_, m) => IsNamespaceEvent(m.event) ==>
      && mine(m.namespace) && EscapeSafe(m.namespace)
      && forall t | t in x.asks && Outstanding(x.asks[t]) :: x.asks[t].request.namespace != m.namespace
    case Handle(answers) => inbox != [] && IsRequest(inbox[0]) && !Expected(cx, x, inbox[0]) ==>
      var refusal := Refusal(cx, x.connected, inbox[0], answers); refusal.Some? ==> !refusal.value.Reply?
    case _ => true
  }

  ghost predicate Allowed(ca: Config, cb: Config, ma: Names, mb: Names, n: Net, move: Move) {
    match move
    case ByA(s) => AllowedStep(ca, ma, n.a, n.ba, s)
    case ByB(s) => AllowedStep(cb, mb, n.b, n.ab, s)
  }

  // ---- the invariant ----

  /** A live ask nothing has been delivered to. */
  predicate Quiet(x: Peer, t: Bytes) {
    && Live(x, t) && x.asks[t].registered && !x.asks[t].phase.Got? && x.asks[t].slot.None?
    && !(x.blocked.Some? && x.blocked.value.wait == t)
  }

  predicate Requested(xy: seq<Message>, t: Bytes) {
    exists m | m in xy :: m.wait == t && IsRequest(m)
  }

  predicate Wants(ask: Ask) {
    ask.request.event == NAMESPACE_CONNECT
  }

  /** A reply says success exactly when the responder is in the requested state. */
  predicate Truthful(ask: Ask, held: set<Bytes>, m: Message) {
    m.err.None? <==> ((ask.request.namespace in held) == Wants(ask))
  }

  predicate Holds(x: Peer, t: Bytes, m: Message)
    requires t in x.asks
  {
    HasReply(x.asks[t], m) || (x.blocked == Some(m) && m.wait == t)
  }

  /** A namespace event under a token of `x`: on its own link a request, on the other the echo of a refused one. */
  predicate OwnRequest(x: Peer, m: Message) {
    IsRequest(m) && m.wait in x.asks
  }

  ghost predicate AskOk(x: Peer, mine: Names, ask: Ask) {
    NsAsk(ask) ==>
      && mine(ask.request.namespace) && EscapeSafe(ask.request.namespace) && !ask.request.noOp && ask.at <= x.clock
      && (Outstanding(ask) ==> !Overtaken(x, ask)) && (ask.phase.Finished? ==> Overtaken(x, ask))
      && (GivenUp(ask) ==> ask.registered)
  }

  /** An outstanding ask is the latest about its namespace. */
  predicate Latest(x: Peer) {
    forall t, u | t in x.asks && u in x.asks && t != u && Outstanding(x.asks[t]) && NsAsk(x.asks[u])
                  && SameName(x.asks[t], x.asks[u]) :: x.asks[u].at < x.asks[t].at
  }

  ghost predicate AsksOk(x: Peer, mine: Names) {
    && (forall t | t in x.asks :: AskOk(x, mine, x.asks[t]))
    && (forall name | name in x.settled :: x.settled[name] <= x.clock)
    && Latest(x)
  }

  ghost predicate LiveOk(x: Peer, held: set<Bytes>, xy: seq<Message>, yx: seq<Message>, t: Bytes)
    requires Live(x, t)
  {
    var ask := x.asks[t];
    && (ask.request.namespace in x.connected) == !Wants(ask)
    && (!ask.phase.Got? ==> ask.registered)
    && if Requested(xy, t) then Quiet(x, t) && forall m | m in yx :: m.wait != t
       else
         && (Outstanding(ask) ==>
               && (ask.registered ==> forall m | m in yx && m.wait == t :: Truthful(ask, held, m))
               && (forall m | Holds(x, t, m) :: Truthful(ask, held, m)))
         && (!ask.phase.Got? && ask.slot.None? ==> exists m | m in yx :: m.wait == t)
  }

  /** On its own link every request is that of a quiet ask and the only message of its token ... */
  predicate Out(x: Peer, xy: seq<Message>) {
    forall i | 0 <= i < |xy| && OwnRequest(x, xy[i]) ::
      Quiet(x, xy[i].wait) && forall j | 0 <= j < |xy| && j != i :: xy[j].wait != xy[i].wait
  }

  /** ... and the requests about one namespace are in the order of their asks. */
  predicate InOrder(x: Peer, xy: seq<Message>) {
    forall i, j | 0 <= i < j < |xy| && OwnRequest(x, xy[i]) && OwnRequest(x, xy[j])
                  && SameName(x.asks[xy[i].wait], x.asks[xy[j].wait]) ::
      x.asks[xy[i].wait].at < x.asks[xy[j].wait].at
  }

  /** An ask the table of waiting messages still leads to. */
  predicate Tracked(x: Peer, t: Bytes) {
    t in x.asks && NsAsk(x.asks[t]) && x.asks[t].registered
  }

  /** On the other link a refusal's echo is the only message of its token and will find its ask. */
  predicate Back(x: Peer, yx: seq<Message>) {
    forall i | 0 <= i < |yx| && OwnRequest(x, yx[i]) ::
      && Tracked(x, yx[i].wait) && (GivenUp(x.asks[yx[i].wait]) || Quiet(x, yx[i].wait))
      && forall j | 0 <= j < |yx| && j != i :: yx[j].wait != yx[i].wait
  }

  /** While a request is on its way, so are all later ones about the same namespace. */
  ghost predicate Fifo(x: Peer, xy: seq<Message>) {
    forall t, u | Live(x, t) && Live(x, u) && SameName(x.asks[t], x.asks[u]) && x.asks[t].at < x.asks[u].at
                  && Requested(xy, t) :: Requested(xy, u)
  }

  ghost predicate Settled(x: Peer, held: set<Bytes>, mine: Names) {
    forall name: Bytes | (name in x.connected || name in held) && mine(name)
                         && (forall t | Live(x, t) :: x.asks[t].request.namespace != name) ::
      name in x.connected && name in held
  }

  ghost predicate Links(x: Peer, xy: seq<Message>, yx: seq<Message>) {
    Out(x, xy) && InOrder(x, xy) && Back(x, yx) && Fifo(x, xy)
  }

  ghost predicate Agree(mine: Names, x: Peer, held: set<Bytes>, xy: seq<Message>, yx: seq<Message>) {
    && AsksOk(x, mine) && Links(x, xy, yx) && Settled(x, held, mine)
    && forall t | Live(x, t) :: LiveOk(x, held, xy, yx, t)
  }

  ghost predicate Disjoint(ma: Names, mb: Names) {
    forall name: Bytes :: !(ma(name) && mb(name))
  }

  ghost predicate Agreed(ca: Config, cb: Config, ma: Names, mb: Names, n: Net) {
    && Correlated(ca, cb, n) && Disjoint(ma, mb)
    && Agree(ma, n.a, n.b.connected, n.ab, n.ba)
    && Agree(mb, n.b, n.a.connected, n.ba, n.ab)
  }

  // ---- messages that do not concern a namespace ask ----

  /** No namespace event of `x` and not under the token of a namespace ask in the table. */
  predicate Harmless(x: Peer, m: Message) {
    !OwnRequest(x, m) && !Tracked(x, m.wait)
  }

  lemma RequestedAppend(x: Peer, xy: seq<Message>, sent: seq<Message>, t: Bytes)
    requires t in x.asks && forall m | m in sent :: !OwnRequest(x, m)
    ensures Requested(xy + sent, t) <==> Requested(xy, t)
  {
  }

  lemma SendsHarmless(mine: Names, x: Peer, held: set<Bytes>, xy: seq<Message>, yx: seq<Message>,
                      out: seq<Message>, back: seq<Message>)
    requires Agree(mine, x, held, xy, yx)
    requires forall m | m in out || m in back :: Harmless(x, m)
    ensures Agree(mine, x, held, xy + out, yx + back)
  {
    forall t | t in x.asks
      ensures Requested(xy + out, t) <==> Requested(xy, t)
    {
      RequestedAppend(x, xy, out, t);
    }
    OutAppend(x, xy, out);
    BackAppend(x, yx, back);
    forall t | Live(x, t)
      ensures LiveOk(x, held, xy + out, yx + back, t)
    {
      LiveAppend(x, held, xy, xy + out, yx, back, t);
    }
  }

  lemma LiveAppend(x: Peer, held: set<Bytes>, xy: seq<Message>, xy': seq<Message>, yx: seq<Message>,
                   back: seq<Message>, t: Bytes)
    requires Live(x, t) && LiveOk(x, held, xy, yx, t) && (Requested(xy', t) <==> Requested(xy, t))
    requires forall m | m in back :: Harmless(x, m)
    ensures LiveOk(x, held, xy', yx + back, t)
  {
    assert x.asks[t].registered ==> forall m | m in yx + back && m.wait == t :: m in yx;
    if m :| m in yx && m.wait == t { assert m in yx + back; }
  }

  lemma OutAppend(x: Peer, xy: seq<Message>, more: seq<Message>)
    requires Out(x, xy) && InOrder(x, xy) && forall m | m in more :: Harmless(x, m)
    ensures Out(x, xy + more) && InOrder(x, xy + more)
  {
    var all := xy + more;
    assert forall j | |xy| <= j < |all| :: all[j] in more;
    forall i | 0 <= i < |all| && OwnRequest(x, all[i])
      ensures Quiet(x, all[i].wait) && forall j | 0 <= j < |all| && j != i :: all[j].wait != all[i].wait
    {
      assert i < |xy| && all[i] == xy[i];
    }
  }

  lemma BackAppend(x: Peer, yx: seq<Message>, more: seq<Message>)
    requires Back(x, yx) && forall m | m in more :: Harmless(x, m)
    ensures Back(x, yx + more)
  {
    var all := yx + more;
    assert forall j | |yx| <= j < |all| :: all[j] in more;
    forall i | 0 <= i < |all| && OwnRequest(x, all[i])
      ensures Tracked(x, all[i].wait) && (GivenUp(x.asks[all[i].wait]) || Quiet(x, all[i].wait))
      ensures forall j | 0 <= j < |all| && j != i :: all[j].wait != all[i].wait
    {
      assert i < |yx| && all[i] == yx[i];
    }
  }

  lemma OutTail(x: Peer, xy: seq<Message>)
    requires Out(x, xy) && InOrder(x, xy) && xy != []
    ensures Out(x, xy[1..]) && InOrder(x, xy[1..])
  {
  }

  lemma BackTail(x: Peer, yx: seq<Message>)
    requires Back(x, yx) && yx != []
    ensures Back(x, yx[1..])
  {
  }

  lemma RequestedTail(xy: seq<Message>, t: Bytes)
    requires xy != [] && !(IsRequest(xy[0]) && xy[0].wait == t)
    ensures Requested(xy[1..], t) <==> Requested(xy, t)
  {
    assert xy == [xy[0]] + xy[1..];
    if Requested(xy, t) {
      var m :| m in xy && m.wait == t && IsRequest(m);
      assert m in xy[1..];
    }
  }

  /** The other reader takes a message that is no request of `x`. */
  lemma TakesOut(mine: Names, x: Peer, held: set<Bytes>, xy: seq<Message>, yx: seq<Message>)
    requires Agree(mine, x, held, xy, yx) && xy != [] && !OwnRequest(x, xy[0])
    ensures Agree(mine, x, held, xy[1..], yx)
  {
    OutTail(x, xy);
    forall t | t in x.asks
      ensures Requested(xy[1..], t) <==> Requested(xy, t)
    {
      RequestedTail(xy, t);
    }
    assert forall t | Live(x, t) :: LiveOk(x, held, xy, yx, t);
  }

  /** The reader of `x` takes a message that no live ask in the table waits for. */
  lemma TakesBack(mine: Names, x: Peer, held: set<Bytes>, xy: seq<Message>, yx: seq<Message>)
    requires Agree(mine, x, held, xy, yx) && yx != []
    requires !(Live(x, yx[0].wait) && x.asks[yx[0].wait].registered)
    ensures Agree(mine, x, held, xy, yx[1..])
  {
    BackTail(x, yx);
    assert yx == [yx[0]] + yx[1..];
    forall t | Live(x, t)
      ensures LiveOk(x, held, xy, yx[1..], t)
    {
      assert LiveOk(x, held, xy, yx, t);
      if !x.asks[t].phase.Got? && x.asks[t].slot.None? && !Requested(xy, t) {
        var m :| m in yx && m.wait == t;
        assert m in yx[1..];
      }
    }
  }

  /** Namespaces that `x` does not initiate come and go on both sides. */
  lemma NamesElsewhere(mine: Names, x: Peer, x': Peer, held: set<Bytes>, held': set<Bytes>,
                       xy: seq<Message>, yx: seq<Message>)
    requires Agree(mine, x, held, xy, yx) && x' == x.(connected := x'.connected)
    requires forall name | mine(name) ::
               (name in x'.connected <==> name in x.connected) && (name in held' <==> name in held)
    ensures Agree(mine, x', held', xy, yx)
  {
    assert forall t :: Live(x', t) <==> Live(x, t);
    assert forall t :: Quiet(x', t) <==> Quiet(x, t);
    assert forall t | t in x.asks :: AskOk(x, mine, x.asks[t]) && AskOk(x', mine, x'.asks[t]);
    forall t | Live(x', t)
      ensures LiveOk(x', held', xy, yx, t)
    {
      assert LiveOk(x, held, xy, yx, t) && mine(x.asks[t].request.namespace);
      assert forall m :: Holds(x', t, m) <==> Holds(x, t, m);
    }
  }

  // ---- steps of an ask ----

  /** `q` is a later state of ask `p` that matters no more to the invariant than `p` does. */
  predicate SameState(p: Ask, q: Ask) {
    q.request == p.request && q.at == p.at && (NsAsk(p) ==> q.phase == p.phase && q.registered == p.registered)
  }

  /** Only asks that are not live change, or a custom ask is new. */
  lemma OtherAsksChange(mine: Names, x: Peer, x': Peer, held: set<Bytes>, xy: seq<Message>, yx: seq<Message>)
    requires Agree(mine, x, held, xy, yx)
    requires x'.connected == x.connected && x'.settled == x.settled && x.clock <= x'.clock
    requires forall t | t in x.asks :: t in x'.asks && SameState(x.asks[t], x'.asks[t])
    requires forall t | t in x'.asks && t !in x.asks ::
               !NsAsk(x'.asks[t]) && forall m | m in xy || m in yx :: m.wait != t
    requires forall t | Live(x, t) :: x'.asks[t] == x.asks[t]
    requires x'.blocked == x.blocked
             || (&& (x.blocked.Some? ==> !Live(x, x.blocked.value.wait))
                 && (x'.blocked.Some? ==> !Live(x, x'.blocked.value.wait)))
    ensures Agree(mine, x', held, xy, yx)
  {
    assert forall t :: Live(x', t) <==> Live(x, t);
    assert forall t | Quiet(x, t) :: Quiet(x', t);
    AsksCarryOver(mine, x, x');
    LinksCarryOver(x, x', xy, yx);
    forall t | Live(x', t)
      ensures LiveOk(x', held, xy, yx, t)
    {
      assert LiveOk(x, held, xy, yx, t);
      assert forall m | Holds(x', t, m) :: Holds(x, t, m);
    }
  }

  lemma AsksCarryOver(mine: Names, x: Peer, x': Peer)
    requires AsksOk(x, mine) && x'.settled == x.settled && x.clock <= x'.clock
    requires forall t | t in x.asks :: t in x'.asks && SameState(x.asks[t], x'.asks[t])
    requires forall t | t in x'.asks && t !in x.asks :: !NsAsk(x'.asks[t])
    ensures AsksOk(x', mine)
  {
    forall t | t in x'.asks
      ensures AskOk(x', mine, x'.asks[t])
    {
      if t in x.asks { assert AskOk(x, mine, x.asks[t]); }
    }
  }

  lemma LinksCarryOver(x: Peer, x': Peer, xy: seq<Message>, yx: seq<Message>)
    requires Links(x, xy, yx)
    requires forall t | t in x.asks :: t in x'.asks && SameState(x.asks[t], x'.asks[t])
    requires forall t | t in x'.asks && t !in x.asks :: forall m | m in xy || m in yx :: m.wait != t
    requires forall t :: Live(x', t) <==> Live(x, t)
    requires forall t | Quiet(x, t) :: Quiet(x', t)
    ensures Links(x', xy, yx)
  {
    assert forall m | m in xy || m in yx :: OwnRequest(x', m) <==> OwnRequest(x, m);
    assert forall i | 0 <= i < |xy| :: xy[i] in xy;
    assert forall i | 0 <= i < |yx| :: yx[i] in yx;
  }

  /** A live ask moves on without becoming quiet again. */
  lemma LiveAskMoves(mine: Names, x: Peer, held: set<Bytes>, xy: seq<Message>, yx: seq<Message>, t: Bytes, ask: Ask,
                     blocked: Option<Message>)
    requires Agree(mine, x, held, xy, yx) && Live(x, t) && !Quiet(x, t)
    requires ask.request == x.asks[t].request && ask.at == x.asks[t].at && !ask.phase.Finished?
    requires GivenUp(ask) == GivenUp(x.asks[t]) && (ask.registered ==> x.asks[t].registered)
    requires !ask.phase.Got? ==> ask.registered && ask.slot.Some?
    requires Outstanding(ask) ==>
               forall m | HasReply(ask, m) || (blocked == Some(m) && m.wait == t) :: Truthful(ask, held, m)
    requires blocked == x.blocked
             || ((x.blocked.Some? ==> x.blocked.value.wait == t) && (blocked.Some? ==> blocked.value.wait == t))
    ensures Agree(mine, SetAsk(x, t, ask).(blocked := blocked), held, xy, yx)
  {
    var x' := SetAsk(x, t, ask).(blocked := blocked);
    NoRequestOf(mine, x, held, xy, yx, t);
    assert forall u :: Live(x', u) <==> Live(x, u);
    assert forall u | Quiet(x, u) :: u != t && Quiet(x', u);
    AsksMoved(mine, x, x', t);
    LinksMoved(x, x', xy, yx, t);
    OthersStayOk(x, x', held, xy, yx, t);
    assert LiveOk(x, held, xy, yx, t);
    MovedIsOk(x, x', held, xy, yx, t);
    SettledKept(mine, x, x', held);
  }

  /** The live asks other than `t` stay as they should be. */
  lemma OthersStayOk(x: Peer, x': Peer, held: set<Bytes>, xy: seq<Message>, yx: seq<Message>, t: Bytes)
    requires forall u | Live(x, u) :: LiveOk(x, held, xy, yx, u)
    requires x'.connected == x.connected && forall u :: Live(x', u) <==> Live(x, u)
    requires forall u | Live(x, u) && u != t :: u in x'.asks && x'.asks[u] == x.asks[u]
    requires forall u | Quiet(x, u) && u != t :: Quiet(x', u)
    requires x'.blocked == x.blocked || (x'.blocked.Some? ==> x'.blocked.value.wait == t)
    ensures forall u | Live(x', u) && u != t :: LiveOk(x', held, xy, yx, u)
  {
    forall u | Live(x', u) && u != t
      ensures LiveOk(x', held, xy, yx, u)
    {
      assert LiveOk(x, held, xy, yx, u);
      assert forall m | Holds(x', u, m) :: Holds(x, u, m);
    }
  }

  lemma MovedIsOk(x: Peer, x': Peer, held: set<Bytes>, xy: seq<Message>, yx: seq<Message>, t: Bytes)
    requires Live(x, t) && LiveOk(x, held, xy, yx, t) && Live(x', t) && x'.connected == x.connected
    requires x'.asks[t].request == x.asks[t].request && !Requested(xy, t)
    requires Outstanding(x'.asks[t]) ==> Outstanding(x.asks[t])
    requires x'.asks[t].registered ==> x.asks[t].registered
    requires !x'.asks[t].phase.Got? ==> x'.asks[t].registered && x'.asks[t].slot.Some?
    requires Outstanding(x'.asks[t]) ==> forall m | Holds(x', t, m) :: Truthful(x'.asks[t], held, m)
    ensures LiveOk(x', held, xy, yx, t)
  {
  }

  lemma NoRequestOf(mine: Names, x: Peer, held: set<Bytes>, xy: seq<Message>, yx: seq<Message>, t: Bytes)
    requires Agree(mine, x, held, xy, yx) && Live(x, t) && !Quiet(x, t)
    ensures !Requested(xy, t)
    ensures forall m | m in yx && OwnRequest(x, m) && m.wait == t :: GivenUp(x.asks[t])
    ensures Outstanding(x.asks[t]) ==> forall m | Holds(x, t, m) :: Truthful(x.asks[t], held, m)
  {
    assert LiveOk(x, held, xy, yx, t);
  }

  /** One live ask moves on: the asks stay in order. */
  lemma AsksMoved(mine: Names, x: Peer, x': Peer, t: Bytes)
    requires AsksOk(x, mine) && t in x.asks && t in x'.asks && x'.asks == x.asks[t := x'.asks[t]]
    requires x'.settled == x.settled && x'.clock == x.clock
    requires x'.asks[t].request == x.asks[t].request && x'.asks[t].at == x.asks[t].at && !x'.asks[t].phase.Finished?
    requires Outstanding(x'.asks[t]) ==> Outstanding(x.asks[t])
    requires GivenUp(x'.asks[t]) ==> x'.asks[t].registered
    ensures AsksOk(x', mine)
  {
    forall u | u in x'.asks
      ensures AskOk(x', mine, x'.asks[u])
    {
      assert AskOk(x, mine, x.asks[u]);
    }
  }

  lemma LinksMoved(x: Peer, x': Peer, xy: seq<Message>, yx: seq<Message>, t: Bytes)
    requires Links(x, xy, yx) && t in x.asks && t in x'.asks && x'.asks == x.asks[t := x'.asks[t]]
    requires x'.asks[t].request == x.asks[t].request && x'.asks[t].at == x.asks[t].at
    requires forall u :: Live(x', u) <==> Live(x, u)
    requires forall u | Quiet(x, u) :: Quiet(x', u)
    requires GivenUp(x.asks[t]) && x.asks[t].registered ==> GivenUp(x'.asks[t]) && x'.asks[t].registered
    ensures Links(x', xy, yx)
  {
    assert forall m :: OwnRequest(x', m) <==> OwnRequest(x, m);
  }

  lemma SettledKept(mine: Names, x: Peer, x': Peer, held: set<Bytes>)
    requires Settled(x, held, mine) && x'.connected == x.connected
    requires forall u :: Live(x', u) <==> Live(x, u)
    requires forall u | Live(x, u) :: u in x'.asks && x'.asks[u].request == x.asks[u].request
    ensures Settled(x', held, mine)
  {
  }

  /** The reader of `x` hands a reply to a live ask. */
  lemma DeliversLive(mine: Names, x: Peer, held: set<Bytes>, xy: seq<Message>, yx: seq<Message>)
    requires Agree(mine, x, held, xy, yx) && yx != [] && x.blocked.None?
    requires Live(x, yx[0].wait) && x.asks[yx[0].wait].registered
    ensures Agree(mine, Delivered(x, yx[0]), held, xy, yx[1..])
  {
    var m := yx[0];
    var t := m.wait;
    var x' := Delivered(x, m);
    assert LiveOk(x, held, xy, yx, t) && m in yx && !Requested(xy, t);
    BackTail(x, yx);
    OthersAreNoEcho(x, yx);
    DeliveredLive(x, m);
    DeliveredAsks(mine, x, x', t);
    DeliveredLinks(x, x', xy, yx[1..], t);
    forall u | Live(x', u)
      ensures LiveOk(x', held, xy, yx[1..], u)
    {
      DeliveredIsOk(x, held, xy, yx, u);
    }
    SettledKept(mine, x, x', held);
  }

  lemma DeliveredLive(x: Peer, m: Message)
    requires m.wait in x.asks && x.blocked.None?
    ensures var x' := Delivered(x, m);
            && x'.asks.Keys == x.asks.Keys && (forall u | u in x.asks :: SameState(x.asks[u], x'.asks[u]))
            && (forall u :: Live(x', u) <==> Live(x, u))
            && (forall u | Quiet(x, u) && u != m.wait :: Quiet(x', u))
  {
  }

  lemma OthersAreNoEcho(x: Peer, yx: seq<Message>)
    requires Back(x, yx) && yx != []
    ensures forall m | m in yx[1..] && OwnRequest(x, m) :: m.wait != yx[0].wait
  {
    forall m | m in yx[1..] && OwnRequest(x, m)
      ensures m.wait != yx[0].wait
    {
      var i :| 0 <= i < |yx| - 1 && yx[i + 1] == m;
    }
  }

  lemma DeliveredAsks(mine: Names, x: Peer, x': Peer, t: Bytes)
    requires AsksOk(x, mine) && t in x.asks && x'.asks.Keys == x.asks.Keys
    requires x'.asks == x.asks || x'.asks == x.asks[t := x.asks[t].(slot := x'.asks[t].slot)]
    requires x'.settled == x.settled && x'.clock == x.clock
    ensures AsksOk(x', mine)
  {
    AsksCarryOver(mine, x, x');
  }

  lemma DeliveredLinks(x: Peer, x': Peer, xy: seq<Message>, yx: seq<Message>, t: Bytes)
    requires Links(x, xy, yx) && t in x.asks && x'.asks.Keys == x.asks.Keys && !Requested(xy, t)
    requires forall u | u in x.asks :: SameState(x.asks[u], x'.asks[u])
    requires forall u :: Live(x', u) <==> Live(x, u)
    requires forall u | Quiet(x, u) && u != t :: Quiet(x', u)
    requires forall m | m in yx && OwnRequest(x, m) :: m.wait != t
    ensures Links(x', xy, yx)
  {
    assert forall m :: OwnRequest(x', m) <==> OwnRequest(x, m);
    assert forall i | 0 <= i < |xy| && OwnRequest(x, xy[i]) :: xy[i] in xy && xy[i].wait != t;
    assert forall i | 0 <= i < |yx| && OwnRequest(x, yx[i]) :: yx[i] in yx && yx[i].wait != t;
  }

  lemma DeliveredIsOk(x: Peer, held: set<Bytes>, xy: seq<Message>, yx: seq<Message>, u: Bytes)
    requires yx != [] && x.blocked.None? && yx[0].wait in x.asks && x.asks[yx[0].wait].registered
    requires Live(x, u) && LiveOk(x, held, xy, yx, u) && Live(Delivered(x, yx[0]), u)
    requires u == yx[0].wait ==> !Requested(xy, u)
    ensures LiveOk(Delivered(x, yx[0]), held, xy, yx[1..], u)
  {
    var m := yx[0];
    var x' := Delivered(x, m);
    assert yx == [m] + yx[1..];
    assert m in yx;
    assert forall r | Holds(x', u, r) :: Holds(x, u, r) || (r == m && u == m.wait);
    if u != m.wait && !x.asks[u].phase.Got? && x.asks[u].slot.None? && !Requested(xy, u) {
      var r :| r in yx && r.wait == u;
      assert r in yx[1..];
    }
  }

  /** An ask is given up: it no longer waits, and nothing else changes. */
  lemma AskGivenUp(mine: Names, x: Peer, held: set<Bytes>, xy: seq<Message>, yx: seq<Message>, t: Bytes)
    requires Agree(mine, x, held, xy, yx) && t in x.asks && x.asks[t].phase.Waiting?
    ensures Agree(mine, SetAsk(x, t, x.asks[t].(phase := Abandoned)), held, xy, yx)
  {
    var x' := SetAsk(x, t, x.asks[t].(phase := Abandoned));
    assert AskOk(x, mine, x.asks[t]);
    assert Live(x, t) ==> LiveOk(x, held, xy, yx, t);
    assert forall u :: Live(x', u) <==> Live(x, u);
    assert forall u :: Quiet(x', u) <==> Quiet(x, u);
    if NsAsk(x.asks[t]) {
      AsksMoved(mine, x, x', t);
      LinksMoved(x, x', xy, yx, t);
    } else {
      CustomGivenUp(mine, x, x', xy, yx, t);
    }
    OthersStayOk(x, x', held, xy, yx, t);
    if Live(x, t) { GivenUpIsOk(x, held, xy, yx, t); }
    SettledKept(mine, x, x', held);
  }

  lemma GivenUpIsOk(x: Peer, held: set<Bytes>, xy: seq<Message>, yx: seq<Message>, t: Bytes)
    requires Live(x, t) && x.asks[t].phase.Waiting? && LiveOk(x, held, xy, yx, t)
    ensures LiveOk(SetAsk(x, t, x.asks[t].(phase := Abandoned)), held, xy, yx, t)
  {
  }

  lemma CustomGivenUp(mine: Names, x: Peer, x': Peer, xy: seq<Message>, yx: seq<Message>, t: Bytes)
    requires AsksOk(x, mine) && Links(x, xy, yx) && t in x.asks && !NsAsk(x.asks[t])
    requires x' == SetAsk(x, t, x.asks[t].(phase := Abandoned))
    requires forall u :: Live(x', u) <==> Live(x, u)
    requires forall u :: Quiet(x', u) <==> Quiet(x, u)
    ensures AsksOk(x', mine) && Links(x', xy, yx)
  {
    AsksCarryOver(mine, x, x');
    LinksCarryOver(x, x', xy, yx);
  }

  // ---- a namespace ask returns ----

  lemma LiveAskFinishes(mine: Names, x: Peer, held: set<Bytes>, xy: seq<Message>, yx: seq<Message>, t: Bytes)
    requires Agree(mine, x, held, xy, yx) && t in x.asks && Outstanding(x.asks[t]) && x.asks[t].phase.Got?
    ensures Agree(mine, FinishAsk(x, t, []).peer, held, xy, yx)
  {
    assert AskOk(x, mine, x.asks[t]) && Live(x, t);
    assert LiveOk(x, held, xy, yx, t) && Holds(x, t, x.asks[t].phase.reply);
    FinishOutcome(x, held, t);
    AskReturns(mine, x, FinishAsk(x, t, []).peer, held, xy, yx, t);
  }

  /** `x'` is `x` after ask `t` returned. */
  ghost predicate Returned(x: Peer, x': Peer, held: set<Bytes>, t: Bytes)
    requires t in x.asks && x.asks[t].phase.Got?
  {
    var ask := x.asks[t];
    var name := ask.request.namespace;
    && x' == SetAsk(x, t, ask.(phase := Finished(ask.phase.reply)))
               .(connected := x'.connected, settled := x.settled[name := ask.at])
    && (name in x'.connected) == (name in held)
    && forall other | other != name :: other in x'.connected <==> other in x.connected
  }

  /** A truthful reply leaves the asker with the namespace exactly when the responder holds it. */
  lemma FinishOutcome(x: Peer, held: set<Bytes>, t: Bytes)
    requires Live(x, t) && x.asks[t].phase.Got? && Truthful(x.asks[t], held, x.asks[t].phase.reply)
    requires (x.asks[t].request.namespace in x.connected) == !Wants(x.asks[t])
    ensures Returned(x, FinishAsk(x, t, []).peer, held, t)
  {
  }

  /** Every other ask about the namespace is older: it is overtaken, and none of its messages is a request. */
  lemma AskReturns(mine: Names, x: Peer, x': Peer, held: set<Bytes>, xy: seq<Message>, yx: seq<Message>, t: Bytes)
    requires Agree(mine, x, held, xy, yx) && Live(x, t) && Outstanding(x.asks[t]) && x.asks[t].phase.Got?
    requires Returned(x, x', held, t)
    ensures Agree(mine, x', held, xy, yx)
  {
    LiveAfterReturn(mine, x, x', held, t);
    NoRequestOf(mine, x, held, xy, yx, t);
    AsksAfterReturn(mine, x, x', held, t);
    LinksAfterReturn(x, x', held, xy, yx, t);
    forall u | Live(x', u)
      ensures LiveOk(x', held, xy, yx, u)
    {
      assert LiveOk(x, held, xy, yx, u);
      assert forall m | Holds(x', u, m) :: Holds(x, u, m);
    }
    SettledAfterReturn(mine, x, x', held, t);
  }

  lemma LiveAfterReturn(mine: Names, x: Peer, x': Peer, held: set<Bytes>, t: Bytes)
    requires AsksOk(x, mine) && Live(x, t) && Outstanding(x.asks[t]) && x.asks[t].phase.Got? && Returned(x, x', held, t)
    ensures forall u :: Live(x', u) <==> Live(x, u) && !SameName(x.asks[u], x.asks[t])
    ensures forall u | Live(x', u) :: u in x.asks && x'.asks[u] == x.asks[u]
    ensures forall u | Quiet(x, u) && !SameName(x.asks[u], x.asks[t]) :: Quiet(x', u)
  {
    assert forall u | u in x.asks && u != t && NsAsk(x.asks[u]) && SameName(x.asks[u], x.asks[t]) ::
        x.asks[u].at < x.asks[t].at;
  }

  lemma AsksAfterReturn(mine: Names, x: Peer, x': Peer, held: set<Bytes>, t: Bytes)
    requires AsksOk(x, mine) && Live(x, t) && Outstanding(x.asks[t]) && x.asks[t].phase.Got? && Returned(x, x', held, t)
    ensures AsksOk(x', mine)
  {
    assert AskOk(x, mine, x.asks[t]);
    forall u | u in x'.asks
      ensures AskOk(x', mine, x'.asks[u])
    {
      assert AskOk(x, mine, x.asks[u]);
      if u != t && Outstanding(x.asks[u]) && SameName(x.asks[u], x.asks[t]) { assert x.asks[t].at < x.asks[u].at; }
    }
  }

  lemma LinksAfterReturn(x: Peer, x': Peer, held: set<Bytes>, xy: seq<Message>, yx: seq<Message>, t: Bytes)
    requires Links(x, xy, yx) && Live(x, t) && Outstanding(x.asks[t]) && x.asks[t].phase.Got?
    requires Returned(x, x', held, t)
    requires Latest(x) && !Requested(xy, t)
    requires forall m | m in yx && OwnRequest(x, m) && m.wait == t :: GivenUp(x.asks[t])
    requires forall u :: Live(x', u) <==> Live(x, u) && !SameName(x.asks[u], x.asks[t])
    requires forall u | Quiet(x, u) && !SameName(x.asks[u], x.asks[t]) :: Quiet(x', u)
    ensures Links(x', xy, yx)
  {
    assert forall m :: OwnRequest(x', m) <==> OwnRequest(x, m);
    assert forall u | u in x.asks :: u in x'.asks && x'.asks[u].at == x.asks[u].at;
    assert forall u | u in x.asks :: x'.asks[u].request == x.asks[u].request;
    forall i | 0 <= i < |xy| && OwnRequest(x, xy[i])
      ensures !SameName(x.asks[xy[i].wait], x.asks[t])
    {
      assert xy[i] in xy && Requested(xy, xy[i].wait);
    }
    forall i | 0 <= i < |yx| && OwnRequest(x, yx[i])
      ensures Tracked(x', yx[i].wait) && (GivenUp(x'.asks[yx[i].wait]) || Quiet(x', yx[i].wait))
    {
      assert yx[i] in yx && yx[i].wait != t;
      if !GivenUp(x.asks[yx[i].wait]) { OutstandingAlone(x, yx[i].wait, t); }
    }
  }

  /** At most one ask about a namespace is outstanding. */
  lemma OutstandingAlone(x: Peer, t: Bytes, u: Bytes)
    requires Latest(x) && t in x.asks && u in x.asks && t != u && Outstanding(x.asks[t]) && Outstanding(x.asks[u])
    ensures !SameName(x.asks[t], x.asks[u])
  {
  }

  lemma SettledAfterReturn(mine: Names, x: Peer, x': Peer, held: set<Bytes>, t: Bytes)
    requires Settled(x, held, mine) && Live(x, t) && x.asks[t].phase.Got? && Returned(x, x', held, t)
    requires forall u :: Live(x', u) <==> Live(x, u) && !SameName(x.asks[u], x.asks[t])
    requires forall u | Live(x', u) :: u in x.asks && x'.asks[u] == x.asks[u]
    ensures Settled(x', held, mine)
  {
    forall name: Bytes | (name in x'.connected || name in held) && mine(name)
                         && (forall u | Live(x', u) :: x'.asks[u].request.namespace != name)
      ensures name in x'.connected && name in held
    {
      if name != x.asks[t].request.namespace {
        assert forall u | Live(x, u) :: x.asks[u].request.namespace != name;
      }
    }
  }

  // ---- a namespace ask starts ----

  /** `x'` is `x` after the namespace ask `t` was started. */
  ghost predicate Started(mine: Names, x: Peer, x': Peer, t: Bytes) {
    && t !in x.asks && t in x'.asks && x' == SetAsk(x, t, x'.asks[t]).(clock := x'.clock) && x.clock < x'.clock
    && var ask := x'.asks[t];
       && NsAsk(ask) && ask.phase.Waiting? && ask.registered && ask.slot.None? && ask.at == x'.clock
       && !ask.request.noOp && EscapeSafe(ask.request.namespace) && mine(ask.request.namespace)
       && (ask.request.namespace in x.connected) == !Wants(ask)
       && forall u | u in x.asks && Outstanding(x.asks[u]) :: !SameName(x.asks[u], ask)
  }

  lemma LiveAskStarts(mine: Names, x: Peer, x': Peer, held: set<Bytes>, xy: seq<Message>, yx: seq<Message>, t: Bytes,
                      request: Message)
    requires Agree(mine, x, held, xy, yx) && Started(mine, x, x', t)
    requires x.blocked.Some? ==> x.blocked.value.wait in x.asks
    requires request.wait == t && IsRequest(request)
    requires forall m | m in xy || m in yx :: m.wait != t
    ensures Agree(mine, x', held, xy + [request], yx)
  {
    AsksStarted(mine, x, x', t);
    LiveStarted(mine, x, x', t);
    LinksStarted(mine, x, x', xy, yx, t, request);
    forall u | Live(x', u)
      ensures LiveOk(x', held, xy + [request], yx, u)
    {
      if u == t {
        assert request in xy + [request];
      } else {
        assert LiveOk(x, held, xy, yx, u);
        assert Requested(xy + [request], u) <==> Requested(xy, u);
        assert forall r | Holds(x', u, r) :: Holds(x, u, r);
      }
    }
    forall name: Bytes | (name in x'.connected || name in held) && mine(name)
                         && (forall u | Live(x', u) :: x'.asks[u].request.namespace != name)
      ensures name in x'.connected && name in held
    {
      assert forall u | Live(x, u) :: Live(x', u) && x.asks[u].request.namespace != name;
    }
  }

  lemma AsksStarted(mine: Names, x: Peer, x': Peer, t: Bytes)
    requires AsksOk(x, mine) && Started(mine, x, x', t)
    ensures AsksOk(x', mine)
  {
    forall u | u in x'.asks
      ensures AskOk(x', mine, x'.asks[u])
    {
      if u != t { assert AskOk(x, mine, x.asks[u]); }
    }
    forall u, v | u in x'.asks && v in x'.asks && u != v && Outstanding(x'.asks[u]) && NsAsk(x'.asks[v])
                  && SameName(x'.asks[u], x'.asks[v])
      ensures x'.asks[v].at < x'.asks[u].at
    {
      if u == t { assert AskOk(x, mine, x.asks[v]); }
    }
  }

  lemma LiveStarted(mine: Names, x: Peer, x': Peer, t: Bytes)
    requires AsksOk(x, mine) && Started(mine, x, x', t) && (x.blocked.Some? ==> x.blocked.value.wait in x.asks)
    ensures forall u | u != t :: Live(x', u) <==> Live(x, u)
    ensures forall u | Live(x, u) :: x'.asks[u] == x.asks[u]
    ensures forall u | Quiet(x, u) :: Quiet(x', u)
    ensures Quiet(x', t)
  {
  }

  lemma LinksStarted(mine: Names, x: Peer, x': Peer, xy: seq<Message>, yx: seq<Message>, t: Bytes, request: Message)
    requires AsksOk(x, mine) && Links(x, xy, yx) && Started(mine, x, x', t)
    requires forall u | u != t :: Live(x', u) <==> Live(x, u)
    requires forall u | Quiet(x, u) :: Quiet(x', u)
    requires Quiet(x', t) && request.wait == t && IsRequest(request)
    requires forall m | m in xy || m in yx :: m.wait != t
    ensures Links(x', xy + [request], yx)
  {
    assert forall m | m in xy || m in yx :: OwnRequest(x', m) <==> OwnRequest(x, m);
    assert forall i | 0 <= i < |xy| :: xy[i] in xy;
    assert forall i | 0 <= i < |yx| :: yx[i] in yx;
    OutStarted(mine, x, x', xy, t, request);
    assert request in xy + [request] && Requested(xy + [request], t);
    assert forall u | u != t :: Requested(xy + [request], u) <==> Requested(xy, u);
    assert forall u | u in x.asks && NsAsk(x.asks[u]) :: AskOk(x, mine, x.asks[u]) && x.asks[u].at < x'.asks[t].at;
  }

  lemma OutStarted(mine: Names, x: Peer, x': Peer, xy: seq<Message>, t: Bytes, request: Message)
    requires AsksOk(x, mine) && Out(x, xy) && InOrder(x, xy) && Started(mine, x, x', t)
    requires forall u | Quiet(x, u) :: Quiet(x', u)
    requires Quiet(x', t) && request.wait == t && IsRequest(request)
    requires forall m | m in xy :: m.wait != t && (OwnRequest(x', m) <==> OwnRequest(x, m))
    ensures Out(x', xy + [request]) && InOrder(x', xy + [request])
  {
    var all := xy + [request];
    forall i | 0 <= i < |all| && OwnRequest(x', all[i])
      ensures Quiet(x', all[i].wait) && forall j | 0 <= j < |all| && j != i :: all[j].wait != all[i].wait
    {
      assert forall k | 0 <= k < |xy| :: xy[k] in xy;
    }
    forall i, j | 0 <= i < j < |all| && OwnRequest(x', all[i]) && OwnRequest(x', all[j])
                  && SameName(x'.asks[all[i].wait], x'.asks[all[j].wait])
      ensures x'.asks[all[i].wait].at < x'.asks[all[j].wait].at
    {
      assert all[i] == xy[i] && xy[i] in xy;
      assert AskOk(x, mine, x.asks[xy[i].wait]);
      if j < |xy| { assert xy[j] in xy; }
    }
  }

  // ---- the responder answers a request ----

  /** The request at the head of the link is answered, truthfully and at least once; a refusal is the only answer. */
  ghost predicate Served(x: Peer, held: set<Bytes>, held': set<Bytes>, m: Message, sent: seq<Message>)
    requires m.wait in x.asks
  {
    var ask := x.asks[m.wait];
    && (forall name | name != ask.request.namespace :: name in held' <==> name in held)
    && ((ask.request.namespace in held) == Wants(ask) ==> (ask.request.namespace in held') == Wants(ask))
    && (forall d | d in sent :: d.wait == m.wait || d.wait == [])
    && (forall d | d in sent && d.wait == m.wait :: Truthful(ask, held', d))
    && (exists d | d in sent :: d.wait == m.wait)
    && (forall d | d in sent && IsRequest(d) :: sent == [d])
  }

  lemma RequestServed(mine: Names, x: Peer, held: set<Bytes>, held': set<Bytes>, xy: seq<Message>, yx: seq<Message>,
                      sent: seq<Message>)
    requires Agree(mine, x, held, xy, yx) && xy != [] && OwnRequest(x, xy[0]) && [] !in x.asks
    requires Served(x, held, held', xy[0], sent)
    ensures Agree(mine, x, held', xy[1..], yx + sent)
  {
    var t := xy[0].wait;
    assert Quiet(x, t) && xy[0] in xy && Requested(xy, t);
    assert LiveOk(x, held, xy, yx, t);
    HeadIsOldest(x, xy);
    LinksServed(x, xy, yx, sent);
    forall u | Live(x, u)
      ensures LiveOk(x, held', xy[1..], yx + sent, u)
    {
      if u == t {
        AnsweredIsOk(x, held, held', xy, yx, sent);
      } else {
        RequestedTail(xy, u);
        OtherIsOk(x, held, held', xy, yx, sent, u);
      }
    }
    assert forall name | name != x.asks[t].request.namespace :: name in held' <==> name in held;
  }

  /** The request at the head is no longer on its way, and neither is an older one about the same namespace. */
  lemma HeadIsOldest(x: Peer, xy: seq<Message>)
    requires Out(x, xy) && InOrder(x, xy) && xy != [] && OwnRequest(x, xy[0])
    ensures !Requested(xy[1..], xy[0].wait)
    ensures forall u | u in x.asks && SameName(x.asks[u], x.asks[xy[0].wait]) && Requested(xy[1..], u) ::
              x.asks[xy[0].wait].at < x.asks[u].at
  {
    var t := xy[0].wait;
    forall u | u in x.asks && Requested(xy[1..], u)
      ensures u != t && (SameName(x.asks[u], x.asks[t]) ==> x.asks[t].at < x.asks[u].at)
    {
      var m :| m in xy[1..] && m.wait == u && IsRequest(m);
      var j :| 0 <= j < |xy| - 1 && xy[j + 1] == m;
      assert OwnRequest(x, xy[j + 1]);
    }
  }

  lemma LinksServed(x: Peer, xy: seq<Message>, yx: seq<Message>, sent: seq<Message>)
    requires Links(x, xy, yx) && xy != [] && OwnRequest(x, xy[0]) && Quiet(x, xy[0].wait) && [] !in x.asks
    requires forall m | m in yx :: m.wait != xy[0].wait
    requires forall d | d in sent :: d.wait == xy[0].wait || d.wait == []
    requires forall d | d in sent && IsRequest(d) :: sent == [d]
    requires !Requested(xy[1..], xy[0].wait)
    requires forall u | u in x.asks && SameName(x.asks[u], x.asks[xy[0].wait]) && Requested(xy[1..], u) ::
               x.asks[xy[0].wait].at < x.asks[u].at
    ensures Links(x, xy[1..], yx + sent)
  {
    var t := xy[0].wait;
    OutTail(x, xy);
    EchoAppend(x, yx, sent, t);
    forall u, v | Live(x, u) && Live(x, v) && SameName(x.asks[u], x.asks[v]) && x.asks[u].at < x.asks[v].at
                  && Requested(xy[1..], u)
      ensures Requested(xy[1..], v)
    {
      RequestedTail(xy, u);
      assert Requested(xy, v);
      if v != t { RequestedTail(xy, v); }
    }
  }

  lemma EchoAppend(x: Peer, yx: seq<Message>, sent: seq<Message>, t: Bytes)
    requires Back(x, yx) && Quiet(x, t) && [] !in x.asks && forall m | m in yx :: m.wait != t
    requires forall d | d in sent :: d.wait == t || d.wait == []
    requires forall d | d in sent && IsRequest(d) :: sent == [d]
    ensures Back(x, yx + sent)
  {
    var all := yx + sent;
    assert forall k | 0 <= k < |yx| :: all[k] == yx[k] && yx[k] in yx;
    assert forall k | |yx| <= k < |all| :: all[k] in sent;
    forall i | 0 <= i < |all| && OwnRequest(x, all[i])
      ensures Tracked(x, all[i].wait) && (GivenUp(x.asks[all[i].wait]) || Quiet(x, all[i].wait))
      ensures forall j | 0 <= j < |all| && j != i :: all[j].wait != all[i].wait
    {
      if i < |yx| { assert OwnRequest(x, yx[i]); } else { assert sent == [all[i]]; }
    }
  }

  lemma AnsweredIsOk(x: Peer, held: set<Bytes>, held': set<Bytes>, xy: seq<Message>, yx: seq<Message>,
                     sent: seq<Message>)
    requires xy != [] && Quiet(x, xy[0].wait) && LiveOk(x, held, xy, yx, xy[0].wait)
    requires Served(x, held, held', xy[0], sent)
    requires Requested(xy, xy[0].wait) && !Requested(xy[1..], xy[0].wait)
    ensures LiveOk(x, held', xy[1..], yx + sent, xy[0].wait)
  {
    var t := xy[0].wait;
    var d :| d in sent && d.wait == t;
    assert d in yx + sent;
    assert forall m | m in yx + sent && m.wait == t :: m in sent;
  }

  /** A request about the same namespace that is still outstanding was started later, so it is still on its way. */
  lemma OtherIsOk(x: Peer, held: set<Bytes>, held': set<Bytes>, xy: seq<Message>, yx: seq<Message>,
                  sent: seq<Message>, u: Bytes)
    requires xy != [] && Quiet(x, xy[0].wait) && Requested(xy, xy[0].wait) && Served(x, held, held', xy[0], sent)
    requires Live(x, u) && u != xy[0].wait && LiveOk(x, held, xy, yx, u) && [] !in x.asks
    requires Requested(xy[1..], u) <==> Requested(xy, u)
    requires Latest(x) && Fifo(x, xy)
    ensures LiveOk(x, held', xy[1..], yx + sent, u)
  {
    assert forall m | m in yx + sent && m.wait == u :: m in yx;
    if m :| m in yx && m.wait == u { assert m in yx + sent; }
    if Outstanding(x.asks[u]) && SameName(x.asks[u], x.asks[xy[0].wait]) {
      assert x.asks[xy[0].wait].at < x.asks[u].at;
      assert Requested(xy, u);
    }
  }

  // ---- what a step of one peer does, seen from its own namespaces ----

  lemma NoEmptyToken(cx: Config, x: Peer)
    requires TokensOwn(cx, x)
    ensures [] !in x.asks
  {
    if [] in x.asks { AskTokenIsOwn(cx, x, []); OwnIsExclusive(cx.isClient, []); }
  }

  /** The two sides share no token. */
  lemma TokensApart(ca: Config, cb: Config, n: Net, t: Bytes)
    requires Correlated(ca, cb, n) && t in n.a.asks
    ensures t !in n.b.asks && t != [] && IsWait(t, ca.isClient)
  {
    AskTokenIsOwn(ca, n.a, t);
    OwnIsExclusive(ca.isClient, t);
    if t in n.b.asks { AskTokenIsOwn(cb, n.b, t); }
  }

  /** Every namespace event on a link under a token is one side's own or the other's. */
  lemma RequestHasOwner(ca: Config, cb: Config, n: Net, m: Message)
    requires Correlated(ca, cb, n) && (m in n.ab || m in n.ba) && IsRequest(m)
    ensures OwnRequest(n.a, m) || OwnRequest(n.b, m)
  {
    assert Clean(m);
  }

  /** A message under the token of a namespace ask in the table is delivered. */
  lemma TrackedIsDelivered(ca: Config, cb: Config, n: Net, m: Message)
    requires Correlated(ca, cb, n) && m in n.ba && Tracked(n.a, m.wait)
    ensures Delivers(ca, n.a, m)
  {
    TokensApart(ca, cb, n, m.wait);
    assert Clean(m);
  }

  /** What handling a message that is no namespace request does to the namespaces: nothing. */
  lemma OtherMessagesKeepNamespaces(cfg: Config, p: Peer, m: Message, a: Answers)
    requires !IsRequest(m) || Delivers(cfg, p, m)
    ensures HandleMessage(cfg, p, m, a).peer.connected == p.connected
  {
    if Delivers(cfg, p, m) { HandleEffect(cfg, p, m, a); }
  }

  /** A request is the request of a quiet ask of the other side, as it was sent. */
  lemma RequestIsSeen(ca: Config, cb: Config, ma: Names, mb: Names, n: Net, m: Message)
    requires Agreed(ca, cb, ma, mb, n) && m in n.ba && OwnRequest(n.b, m)
    ensures Quiet(n.b, m.wait) && m == Seen(ca, n.b.asks[m.wait].request) && mb(m.namespace)
    ensures m.namespace == n.b.asks[m.wait].request.namespace && m.event == n.b.asks[m.wait].request.event
    ensures !Expected(ca, n.a, m) && Request(m) && !m.invalid
  {
    var i :| 0 <= i < |n.ba| && n.ba[i] == m;
    assert OwnRequest(n.b, n.ba[i]) && Quiet(n.b, m.wait);
    AskTokenIsOwn(cb, n.b, m.wait);
    OwnIsExclusive(cb.isClient, m.wait);
    if m.wait in n.a.asks { TokensApart(ca, cb, n, m.wait); }
    assert AskOk(n.b, mb, n.b.asks[m.wait]) && Clean(m);
    RequestArrives(ca, n.b.asks[m.wait].request);
  }

  /** A namespace request names the same namespace to both sides exactly when the name is escape-safe. */
  lemma RequestArrives(to: Config, request: Message)
    requires IsNamespaceEvent(request.event)
    ensures Seen(to, request).event == request.event
    ensures Seen(to, request).namespace == request.namespace <==> EscapeSafe(request.namespace)
  {
    NamespaceEventSurvives(request.event);
    UnescapeEscape(request.namespace);
  }

  /** What is sent while a message is handled does not concern the handling side's own asks. */
  lemma HandlingIsHarmless(ca: Config, cb: Config, n: Net, answers: Answers, d: Message)
    requires Correlated(ca, cb, n) && Enabled(ca, n.a, n.ba, Handle(answers)) && !Delivers(ca, n.a, n.ba[0])
    requires !OwnRequest(n.a, n.ba[0])
    requires d in DecodeAll(cb, HandleMessage(ca, n.a, n.ba[0], answers).sent)
    ensures Harmless(n.a, d)
  {
    var m := n.ba[0];
    assert m in n.ba && Clean(m);
    HandleSends(ca, cb, n.a, m, answers, d);
    NoEmptyToken(ca, n.a);
    if Tracked(n.a, m.wait) { TrackedIsDelivered(ca, cb, n, m); }
  }

  /** A message that is no request of the other side: the handling side's namespaces stay as they are, and what it
      sends does not concern the other side's asks. */
  lemma HandlingOthers(ca: Config, cb: Config, ma: Names, mb: Names, n: Net, answers: Answers)
    requires Agreed(ca, cb, ma, mb, n) && Enabled(ca, n.a, n.ba, Handle(answers)) && !OwnRequest(n.b, n.ba[0])
    ensures HandleMessage(ca, n.a, n.ba[0], answers).peer.connected == n.a.connected
    ensures forall d | d in DecodeAll(cb, HandleMessage(ca, n.a, n.ba[0], answers).sent) :: Harmless(n.b, d)
  {
    var m := n.ba[0];
    assert m in n.ba;
    if IsRequest(m) {
      RequestHasOwner(ca, cb, n, m);
      assert Tracked(n.a, m.wait);
      TrackedIsDelivered(ca, cb, n, m);
    }
    OtherMessagesKeepNamespaces(ca, n.a, m, answers);
    forall d | d in DecodeAll(cb, HandleMessage(ca, n.a, m, answers).sent)
      ensures Harmless(n.b, d)
    {
      AnswersOthers(ca, cb, n, answers, d);
    }
  }

  lemma AnswersOthers(ca: Config, cb: Config, n: Net, answers: Answers, d: Message)
    requires Correlated(ca, cb, n) && Enabled(ca, n.a, n.ba, Handle(answers)) && !OwnRequest(n.b, n.ba[0])
    requires d in DecodeAll(cb, HandleMessage(ca, n.a, n.ba[0], answers).sent)
    ensures Harmless(n.b, d)
  {
    var m := n.ba[0];
    assert m in n.ba && Clean(m);
    HandleSends(ca, cb, n.a, m, answers, d);
    NoEmptyToken(cb, n.b);
    if Tracked(n.b, d.wait) {
      AskTokenIsOwn(cb, n.b, d.wait);
      assert m == Seen(ca, n.b.asks[m.wait].request);
      NamespaceEventSurvives(n.b.asks[m.wait].request.event);
    }
  }

  /** A request changes at most the namespace it names, which the other side initiates. */
  lemma RequestElsewhere(ca: Config, cb: Config, ma: Names, mb: Names, n: Net, answers: Answers)
    requires Agreed(ca, cb, ma, mb, n) && Enabled(ca, n.a, n.ba, Handle(answers)) && OwnRequest(n.b, n.ba[0])
    ensures forall name | ma(name) ::
              name in HandleMessage(ca, n.a, n.ba[0], answers).peer.connected <==> name in n.a.connected
  {
    var m := n.ba[0];
    assert m in n.ba;
    RequestIsSeen(ca, cb, ma, mb, n, m);
    NotExpected(ca, n.a, m, answers);
    VerdictState(ca, n.a.connected, m, answers);
  }

  lemma NotExpected(cfg: Config, p: Peer, m: Message, a: Answers)
    requires !m.invalid && !m.native && !Expected(cfg, p, m)
    ensures var h := Dispatch(cfg, p.connected, m, a);
            HandleMessage(cfg, p, m, a) == Acted(p.(connected := h.connected), h.sent)
  {
  }

  // ---- the responder's verdict ----

  /** The responder's answers to a request are truthful about the state they leave it in. */
  lemma RequestVerdict(cfg: Config, to: Config, held: set<Bytes>, x: Peer, m: Message, a: Answers)
    requires Request(m) && IsNamespaceEvent(m.event) && PartyFits(m, a.party) && m.wait in x.asks
    requires var refusal := Refusal(cfg, held, m, a); refusal.Some? ==> !refusal.value.Reply?
    requires m.event == x.asks[m.wait].request.event && m.namespace == x.asks[m.wait].request.namespace
    ensures var h := Dispatch(cfg, held, m, a); Served(x, held, h.connected, m, DecodeAll(to, h.sent))
  {
    var h := Dispatch(cfg, held, m, a);
    var sent := DecodeAll(to, h.sent);
    var refusal := Refusal(cfg, held, m, a);
    forall i | 0 <= i < |sent|
      ensures sent[i].wait == [] || sent[i].wait == m.wait
      ensures sent[i].wait == m.wait ==> (sent[i].err.None? <==> refusal.None?)
      ensures refusal.None? ==> !IsNamespaceEvent(sent[i].event)
    {
      NamespaceVerdict(cfg, to, held, m, a, i);
    }
    VerdictState(cfg, held, m, a);
    AnswerExists(cfg, to, held, m, a);
    VerdictFacts(held, h.connected, x, m, sent, refusal.Some?);
  }

  lemma VerdictFacts(held: set<Bytes>, held': set<Bytes>, x: Peer, m: Message, sent: seq<Message>, refused: bool)
    requires m.wait in x.asks && m.namespace == x.asks[m.wait].request.namespace
    requires forall i | 0 <= i < |sent| ::
               && (sent[i].wait == [] || sent[i].wait == m.wait)
               && (sent[i].wait == m.wait ==> (sent[i].err.None? <==> !refused))
               && (!refused ==> !IsNamespaceEvent(sent[i].event))
    requires if refused then held' == held && |sent| == 1 && (m.namespace in held) == !Wants(x.asks[m.wait])
             else held' == if Wants(x.asks[m.wait]) then held + {m.namespace} else held - {m.namespace}
    requires exists d | d in sent :: d.wait == m.wait
    ensures Served(x, held, held', m, sent)
  {
  }

  /** A refusal leaves the namespaces alone, and is possible only in the state the request is to change. */
  lemma VerdictState(cfg: Config, held: set<Bytes>, m: Message, a: Answers)
    requires Request(m) && IsNamespaceEvent(m.event)
    ensures var h := Dispatch(cfg, held, m, a);
            var refusal := Refusal(cfg, held, m, a);
            && (refusal.Some? ==>
                  h.connected == held && |h.sent| == 1 && (m.namespace in held) == (m.event != NAMESPACE_CONNECT))
            && (refusal.None? ==>
                  h.connected == if m.event == NAMESPACE_CONNECT then held + {m.namespace} else held - {m.namespace})
  {
    if Refusal(cfg, held, m, a).Some? {
      RefusedAnswer(cfg, held, m, a);
    } else {
      var pre, party, post := GrantedAnswer(cfg, held, m, a);
    }
  }

  lemma AnswerExists(cfg: Config, to: Config, held: set<Bytes>, m: Message, a: Answers)
    requires Request(m) && IsNamespaceEvent(m.event) && PartyFits(m, a.party)
    ensures exists d | d in DecodeAll(to, Dispatch(cfg, held, m, a).sent) :: d.wait == m.wait
  {
    ReplyConsistency(cfg, to, held, m, a);
    var answers := Tagged(DecodeAll(to, Dispatch(cfg, held, m, a).sent), m.wait);
    TaggedFrom(DecodeAll(to, Dispatch(cfg, held, m, a).sent), m.wait);
    assert answers[0] in answers;
  }

  lemma RequestIsServed(ca: Config, cb: Config, ma: Names, mb: Names, n: Net, answers: Answers)
    requires Agreed(ca, cb, ma, mb, n) && Enabled(ca, n.a, n.ba, Handle(answers)) && OwnRequest(n.b, n.ba[0])
    requires AllowedStep(ca, ma, n.a, n.ba, Handle(answers))
    ensures var acted := HandleMessage(ca, n.a, n.ba[0], answers);
            Served(n.b, n.a.connected, acted.peer.connected, n.ba[0], DecodeAll(cb, acted.sent))
  {
    var m := n.ba[0];
    assert m in n.ba;
    RequestIsSeen(ca, cb, ma, mb, n, m);
    NotExpected(ca, n.a, m, answers);
    RequestVerdict(ca, cb, n.a.connected, n.b, m, answers);
  }

  // ---- a move keeps what it means for the moving side's namespaces ----

  lemma OwnHandleKeeps(ca: Config, cb: Config, ma: Names, mb: Names, n: Net, answers: Answers)
    requires Agreed(ca, cb, ma, mb, n) && Enabled(ca, n.a, n.ba, Handle(answers))
    ensures var n' := StepA(ca, cb, n, Handle(answers)); Agree(ma, n'.a, n'.b.connected, n'.ab, n'.ba)
  {
    var m := n.ba[0];
    assert m in n.ba;
    HandleEffect(ca, n.a, m, answers);
    if Delivers(ca, n.a, m) {
      OwnDelivery(ca, cb, ma, mb, n, answers);
    } else {
      if Tracked(n.a, m.wait) { TrackedIsDelivered(ca, cb, n, m); }
      OwnDispatch(ca, cb, ma, mb, n, answers);
    }
  }

  lemma OwnDelivery(ca: Config, cb: Config, ma: Names, mb: Names, n: Net, answers: Answers)
    requires Agreed(ca, cb, ma, mb, n) && Enabled(ca, n.a, n.ba, Handle(answers)) && Delivers(ca, n.a, n.ba[0])
    ensures var n' := StepA(ca, cb, n, Handle(answers)); Agree(ma, n'.a, n'.b.connected, n'.ab, n'.ba)
  {
    HandleEffect(ca, n.a, n.ba[0], answers);
    assert n.ab + DecodeAll(cb, []) == n.ab;
    DeliveryAgrees(ma, n.a, n.b.connected, n.ab, n.ba);
  }

  /** Putting a reply into the channel of its ask, or blocking on it, keeps the agreement. */
  lemma DeliveryAgrees(mine: Names, x: Peer, held: set<Bytes>, xy: seq<Message>, yx: seq<Message>)
    requires Agree(mine, x, held, xy, yx) && yx != [] && x.blocked.None?
    requires yx[0].wait in x.asks && x.asks[yx[0].wait].registered
    ensures Agree(mine, Delivered(x, yx[0]), held, xy, yx[1..])
  {
    var m := yx[0];
    if Live(x, m.wait) {
      DeliversLive(mine, x, held, xy, yx);
    } else {
      TakesBack(mine, x, held, xy, yx);
      DeliveredLive(x, m);
      OtherAsksChange(mine, x, Delivered(x, m), held, xy, yx[1..]);
    }
  }

  lemma OwnDispatch(ca: Config, cb: Config, ma: Names, mb: Names, n: Net, answers: Answers)
    requires Agreed(ca, cb, ma, mb, n) && Enabled(ca, n.a, n.ba, Handle(answers)) && !Delivers(ca, n.a, n.ba[0])
    requires !Tracked(n.a, n.ba[0].wait)
    ensures var n' := StepA(ca, cb, n, Handle(answers)); Agree(ma, n'.a, n'.b.connected, n'.ab, n'.ba)
  {
    var m := n.ba[0];
    var acted := HandleMessage(ca, n.a, m, answers);
    var sent := DecodeAll(cb, acted.sent);
    HandleEffect(ca, n.a, m, answers);
    assert !OwnRequest(n.a, m);
    forall d | d in sent
      ensures Harmless(n.a, d)
    {
      HandlingIsHarmless(ca, cb, n, answers, d);
    }
    if OwnRequest(n.b, m) {
      RequestElsewhere(ca, cb, ma, mb, n, answers);
    } else {
      HandlingOthers(ca, cb, ma, mb, n, answers);
    }
    TakesBack(ma, n.a, n.b.connected, n.ab, n.ba);
    SendsHarmless(ma, n.a, n.b.connected, n.ab, n.ba[1..], sent, []);
    assert n.ba[1..] + [] == n.ba[1..];
    NamesElsewhere(ma, n.a, acted.peer, n.b.connected, n.b.connected, n.ab + sent, n.ba[1..]);
  }

  lemma OwnStartKeeps(ca: Config, cb: Config, ma: Names, mb: Names, n: Net, now: int, m: Message)
    requires Agreed(ca, cb, ma, mb, n) && Enabled(ca, n.a, n.ba, Start(now, m))
    requires AllowedStep(ca, ma, n.a, n.ba, Start(now, m))
    ensures var acted := StartAsk(ca, n.a, now, m);
            Agree(ma, acted.peer, n.b.connected, n.ab + DecodeAll(cb, acted.sent), n.ba)
  {
    var acted := StartAsk(ca, n.a, now, m);
    var request := m.(wait := GenWait(ca.isClient, now));
    StartSends(ca, cb, n.a, now, m);
    StartTokens(ca, n.a, now, acted.peer.asks[request.wait]);
    StartIsFresh(ca, cb, n, now, request.wait);
    NamespaceEventSurvives(m.event);
    if IsNamespaceEvent(m.event) {
      StartedAsk(ca, ma, n.a, now, m);
      LiveAskStarts(ma, n.a, acted.peer, n.b.connected, n.ab, n.ba, request.wait, Seen(cb, request));
    } else {
      CustomAskStarts(ma, n.a, acted.peer, n.b.connected, n.ab, n.ba, request.wait, DecodeAll(cb, acted.sent));
    }
  }

  lemma StartedAsk(ca: Config, mine: Names, x: Peer, now: int, m: Message)
    requires MayAsk(ca, x, m) && IsNamespaceEvent(m.event) && mine(m.namespace) && EscapeSafe(m.namespace)
    requires x.clock < now && GenWait(ca.isClient, now) !in x.asks
    requires forall t | t in x.asks && Outstanding(x.asks[t]) :: x.asks[t].request.namespace != m.namespace
    ensures Started(mine, x, StartAsk(ca, x, now, m).peer, GenWait(ca.isClient, now))
  {
    NamespaceEventsDiffer();
  }

  lemma CustomAskStarts(mine: Names, x: Peer, x': Peer, held: set<Bytes>, xy: seq<Message>, yx: seq<Message>, t: Bytes,
                        sent: seq<Message>)
    requires Agree(mine, x, held, xy, yx) && t !in x.asks && t in x'.asks && !NsAsk(x'.asks[t])
    requires x' == SetAsk(x, t, x'.asks[t]).(clock := x'.clock) && x.clock < x'.clock
    requires forall m | m in xy || m in yx :: m.wait != t
    requires forall m | m in sent :: m.wait == t && !IsRequest(m)
    ensures Agree(mine, x', held, xy + sent, yx)
  {
    OtherAsksChange(mine, x, x', held, xy, yx);
    SendsHarmless(mine, x', held, xy, yx, sent, []);
    assert yx + [] == yx;
  }

  lemma StartIsFresh(ca: Config, cb: Config, n: Net, now: int, t: Bytes)
    requires Correlated(ca, cb, n) && t == GenWait(ca.isClient, now) && t !in n.a.asks
    ensures forall m | m in n.ab || m in n.ba :: m.wait != t
  {
    assert Own(ca.isClient, t);
  }

  /** A step that moves one ask on: taking a reply, leaving the table, unblocking the reader. */
  lemma OwnAskMoves(mine: Names, x: Peer, held: set<Bytes>, xy: seq<Message>, yx: seq<Message>, t: Bytes, ask: Ask,
                    blocked: Option<Message>)
    requires Agree(mine, x, held, xy, yx) && t in x.asks
    requires ask.request == x.asks[t].request && ask.at == x.asks[t].at && (ask.registered ==> x.asks[t].registered)
    requires !ask.phase.Finished? && ask.phase.Abandoned? == x.asks[t].phase.Abandoned? && !x.asks[t].phase.Finished?
    requires x.asks[t].phase.Got? ==> ask.phase.Got?
    requires !ask.phase.Got? ==> ask.slot.Some? && ask.registered == x.asks[t].registered
    requires x.asks[t].phase.Got? || x.asks[t].slot.Some? || (x.blocked.Some? && x.blocked.value.wait == t)
    requires forall m | HasReply(ask, m) || (blocked == Some(m) && m.wait == t) :: Holds(x, t, m)
    requires blocked == x.blocked || (x.blocked.Some? && x.blocked.value.wait == t && blocked == None)
    ensures Agree(mine, SetAsk(x, t, ask).(blocked := blocked), held, xy, yx)
  {
    assert AskOk(x, mine, x.asks[t]);
    if Live(x, t) {
      assert LiveOk(x, held, xy, yx, t) && !Quiet(x, t);
      NoRequestOf(mine, x, held, xy, yx, t);
      LiveAskMoves(mine, x, held, xy, yx, t, ask, blocked);
    } else {
      assert SameState(x.asks[t], ask);
      OtherAsksChange(mine, x, SetAsk(x, t, ask).(blocked := blocked), held, xy, yx);
    }
  }

  lemma OwnFinishKeeps(ca: Config, cb: Config, ma: Names, mb: Names, n: Net, t: Bytes, party: seq<Frame>)
    requires Agreed(ca, cb, ma, mb, n) && Enabled(ca, n.a, n.ba, Finish(t, party))
    ensures var acted := FinishAsk(n.a, t, party);
            Agree(ma, acted.peer, n.b.connected, n.ab + DecodeAll(cb, acted.sent), n.ba)
  {
    var acted := FinishAsk(n.a, t, party);
    FinishSends(ca, cb, n, t, party);
    if NsAsk(n.a.asks[t]) {
      LiveAskFinishes(ma, n.a, n.b.connected, n.ab, n.ba, t);
    } else {
      CustomAskFinishes(ma, n.a, n.b.connected, n.ab, n.ba, t);
    }
    SendsHarmless(ma, acted.peer, n.b.connected, n.ab, n.ba, DecodeAll(cb, acted.sent), []);
    assert n.ba + [] == n.ba;
  }

  lemma CustomAskFinishes(mine: Names, x: Peer, held: set<Bytes>, xy: seq<Message>, yx: seq<Message>, t: Bytes)
    requires Agree(mine, x, held, xy, yx) && t in x.asks && x.asks[t].phase.Got? && !NsAsk(x.asks[t])
    ensures Agree(mine, FinishAsk(x, t, []).peer, held, xy, yx)
  {
    var x' := FinishAsk(x, t, []).peer;
    assert x' == SetAsk(x, t, x.asks[t].(phase := Finished(x.asks[t].phase.reply)));
    OtherAsksChange(mine, x, x', held, xy, yx);
  }

  lemma FinishSends(ca: Config, cb: Config, n: Net, t: Bytes, party: seq<Frame>)
    requires Correlated(ca, cb, n) && Enabled(ca, n.a, n.ba, Finish(t, party))
    ensures var acted := FinishAsk(n.a, t, party);
            && acted.peer == FinishAsk(n.a, t, []).peer
            && (!NsAsk(n.a.asks[t]) ==> acted.peer.connected == n.a.connected && acted.peer.settled == n.a.settled)
            && forall d | d in DecodeAll(cb, acted.sent) :: Harmless(acted.peer, d) && Harmless(n.b, d)
  {
    NoEmptyToken(ca, n.a);
    NoEmptyToken(cb, n.b);
    FinishEffect(n.a, t, party);
    PartyIsHarmless(cb, FinishAsk(n.a, t, party).peer, party);
    PartyIsHarmless(cb, n.b, party);
    FinishPeer(n.a, t, party);
  }

  lemma PartyIsHarmless(to: Config, x: Peer, party: seq<Frame>)
    requires PartyFits(EMPTY, party) && [] !in x.asks
    ensures forall d | d in DecodeAll(to, party) :: Harmless(x, d)
  {
    PartySends(to, party);
  }

  lemma FinishPeer(p: Peer, t: Bytes, party: seq<Frame>)
    requires t in p.asks && p.asks[t].phase.Got?
    ensures FinishAsk(p, t, party).peer == FinishAsk(p, t, []).peer
    ensures !NsAsk(p.asks[t]) ==>
              FinishAsk(p, t, party).peer.connected == p.connected && FinishAsk(p, t, party).peer.settled == p.settled
  {
  }

  lemma EmitIsHarmless(ca: Config, cb: Config, n: Net, m: Message)
    requires Correlated(ca, cb, n) && Sendable(m)
    ensures forall d | d in DecodeAll(cb, Write(ca, n.a.connected, m)) :: Harmless(n.a, d) && Harmless(n.b, d)
  {
    EmitSends(ca, cb, n.a, m);
    NoEmptyToken(ca, n.a);
    NoEmptyToken(cb, n.b);
  }

  lemma OwnMoveKeeps(ca: Config, cb: Config, ma: Names, mb: Names, n: Net, s: Step)
    requires Agreed(ca, cb, ma, mb, n) && Enabled(ca, n.a, n.ba, s) && AllowedStep(ca, ma, n.a, n.ba, s)
    ensures var n' := StepA(ca, cb, n, s); Agree(ma, n'.a, n'.b.connected, n'.ab, n'.ba)
  {
    match s {
      case Start(now, m) => OwnStartKeeps(ca, cb, ma, mb, n, now, m);
      case Handle(answers) => OwnHandleKeeps(ca, cb, ma, mb, n, answers);
      case Finish(t, party) => OwnFinishKeeps(ca, cb, ma, mb, n, t, party);
      case Emit(m) =>
        EmitIsHarmless(ca, cb, n, m);
        SendsHarmless(ma, n.a, n.b.connected, n.ab, n.ba, DecodeAll(cb, Write(ca, n.a.connected, m)), []);
        assert n.ba + [] == n.ba;
      case _ => OwnLocalKeeps(ca, cb, ma, mb, n, s);
    }
  }

  lemma OwnLocalKeeps(ca: Config, cb: Config, ma: Names, mb: Names, n: Net, s: Step)
    requires Agreed(ca, cb, ma, mb, n) && Enabled(ca, n.a, n.ba, s)
    requires s.Unblock? || s.Take? || s.Unregister? || s.Abandon?
    ensures var n' := StepA(ca, cb, n, s); Agree(ma, n'.a, n'.b.connected, n'.ab, n'.ba)
  {
    assert n.ab + DecodeAll(cb, []) == n.ab;
    LocalAskMoves(ca, ma, n.a, n.b.connected, n.ab, n.ba, s);
  }

  lemma LocalAskMoves(cx: Config, mine: Names, x: Peer, held: set<Bytes>, xy: seq<Message>, yx: seq<Message>, s: Step)
    requires Agree(mine, x, held, xy, yx) && Enabled(cx, x, yx, s)
    requires s.Unblock? || s.Take? || s.Unregister? || s.Abandon?
    ensures Agree(mine, Act(cx, x, yx, s).peer, held, xy, yx)
  {
    match s {
      case Unblock => ReaderUnblocks(mine, x, held, xy, yx);
      case Take(t) => ReplyTaken(mine, x, held, xy, yx, t);
      case Unregister(t) =>
        OwnAskMoves(mine, x, held, xy, yx, t, x.asks[t].(registered := false), x.blocked);
      case Abandon(t) => AskGivenUp(mine, x, held, xy, yx, t);
    }
  }

  lemma ReaderUnblocks(mine: Names, x: Peer, held: set<Bytes>, xy: seq<Message>, yx: seq<Message>)
    requires Agree(mine, x, held, xy, yx) && x.blocked.Some? && x.blocked.value.wait in x.asks
    requires x.asks[x.blocked.value.wait].slot.None?
    ensures var t := x.blocked.value.wait;
            Agree(mine, SetAsk(x, t, x.asks[t].(slot := x.blocked)).(blocked := None), held, xy, yx)
  {
    var t := x.blocked.value.wait;
    if x.asks[t].phase.Finished? {
      OtherAsksChange(mine, x, SetAsk(x, t, x.asks[t].(slot := x.blocked)).(blocked := None), held, xy, yx);
    } else {
      OwnAskMoves(mine, x, held, xy, yx, t, x.asks[t].(slot := x.blocked), None);
    }
  }

  lemma ReplyTaken(mine: Names, x: Peer, held: set<Bytes>, xy: seq<Message>, yx: seq<Message>, t: Bytes)
    requires Agree(mine, x, held, xy, yx) && t in x.asks && x.asks[t].phase.Waiting? && x.asks[t].slot.Some?
    ensures var ask := x.asks[t];
            Agree(mine, SetAsk(x, t, ask.(slot := None, phase := Got(ask.slot.value))), held, xy, yx)
  {
    var ask := x.asks[t];
    OwnAskMoves(mine, x, held, xy, yx, t, ask.(slot := None, phase := Got(ask.slot.value)), x.blocked);
  }

  // ---- ... and for the other side's ----

  lemma OtherHandleKeeps(ca: Config, cb: Config, ma: Names, mb: Names, n: Net, answers: Answers)
    requires Agreed(ca, cb, ma, mb, n) && Enabled(ca, n.a, n.ba, Handle(answers))
    requires AllowedStep(ca, ma, n.a, n.ba, Handle(answers))
    ensures var n' := StepA(ca, cb, n, Handle(answers)); Agree(mb, n'.b, n'.a.connected, n'.ba, n'.ab)
  {
    var m := n.ba[0];
    var acted := HandleMessage(ca, n.a, m, answers);
    var sent := DecodeAll(cb, acted.sent);
    if OwnRequest(n.b, m) {
      NoEmptyToken(cb, n.b);
      RequestIsServed(ca, cb, ma, mb, n, answers);
      RequestServed(mb, n.b, n.a.connected, acted.peer.connected, n.ba, n.ab, sent);
    } else {
      HandlingOthers(ca, cb, ma, mb, n, answers);
      TakesOut(mb, n.b, n.a.connected, n.ba, n.ab);
      SendsHarmless(mb, n.b, n.a.connected, n.ba[1..], n.ab, [], sent);
      assert n.ba[1..] + [] == n.ba[1..];
    }
  }

  /** Any other step: what it sends does not concern the other side's asks, and the namespaces it changes are not
      the other side's. */
  lemma OtherStepEffect(ca: Config, cb: Config, ma: Names, mb: Names, n: Net, s: Step)
    requires Agreed(ca, cb, ma, mb, n) && Enabled(ca, n.a, n.ba, s) && !s.Handle?
    ensures var acted := Act(ca, n.a, n.ba, s);
            && (forall d | d in DecodeAll(cb, acted.sent) :: Harmless(n.b, d))
            && (forall name | mb(name) :: name in acted.peer.connected <==> name in n.a.connected)
  {
    match s {
      case Start(now, m) => StartElsewhere(ca, cb, n, now, m);
      case Finish(t, party) => FinishElsewhere(ca, cb, ma, mb, n, t, party);
      case Emit(m) => EmitIsHarmless(ca, cb, n, m);
      case _ =>
    }
  }

  lemma StartElsewhere(ca: Config, cb: Config, n: Net, now: int, m: Message)
    requires Correlated(ca, cb, n) && MayAsk(ca, n.a, m)
    ensures var acted := StartAsk(ca, n.a, now, m);
            acted.peer.connected == n.a.connected && forall d | d in DecodeAll(cb, acted.sent) :: Harmless(n.b, d)
  {
    StartSends(ca, cb, n.a, now, m);
    var t := GenWait(ca.isClient, now);
    assert Own(ca.isClient, t);
    if t in n.b.asks { AskTokenIsOwn(cb, n.b, t); OwnIsExclusive(ca.isClient, t); }
  }

  lemma FinishElsewhere(ca: Config, cb: Config, ma: Names, mb: Names, n: Net, t: Bytes, party: seq<Frame>)
    requires Agreed(ca, cb, ma, mb, n) && Enabled(ca, n.a, n.ba, Finish(t, party))
    ensures var acted := FinishAsk(n.a, t, party);
            && (forall d | d in DecodeAll(cb, acted.sent) :: Harmless(n.b, d))
            && (forall name | mb(name) :: name in acted.peer.connected <==> name in n.a.connected)
  {
    FinishSends(ca, cb, n, t, party);
    assert AskOk(n.a, ma, n.a.asks[t]);
    if NsAsk(n.a.asks[t]) { FinishNamespace(n.a, t, party); }
  }

  lemma OtherMoveKeeps(ca: Config, cb: Config, ma: Names, mb: Names, n: Net, s: Step)
    requires Agreed(ca, cb, ma, mb, n) && Enabled(ca, n.a, n.ba, s) && AllowedStep(ca, ma, n.a, n.ba, s)
    ensures var n' := StepA(ca, cb, n, s); Agree(mb, n'.b, n'.a.connected, n'.ba, n'.ab)
  {
    if s.Handle? {
      OtherHandleKeeps(ca, cb, ma, mb, n, s.answers);
    } else {
      var acted := Act(ca, n.a, n.ba, s);
      OtherStepEffect(ca, cb, ma, mb, n, s);
      SendsHarmless(mb, n.b, n.a.connected, n.ba, n.ab, [], DecodeAll(cb, acted.sent));
      assert n.ba + [] == n.ba;
      NamesElsewhere(mb, n.b, n.b, n.a.connected, acted.peer.connected, n.ba, n.ab + DecodeAll(cb, acted.sent));
    }
  }

  // ---- runs ----

  lemma AllowedMoveKeeps(ca: Config, cb: Config, ma: Names, mb: Names, n: Net, move: Move)
    requires Agreed(ca, cb, ma, mb, n) && CanMove(ca, cb, n, move) && Allowed(ca, cb, ma, mb, n, move)
    ensures Agreed(ca, cb, ma, mb, Next(ca, cb, n, move))
  {
    MoveKeeps(ca, cb, n, move);
    match move {
      case ByA(s) =>
        OwnMoveKeeps(ca, cb, ma, mb, n, s);
        OtherMoveKeeps(ca, cb, ma, mb, n, s);
      case ByB(s) =>
        OwnMoveKeeps(cb, ca, mb, ma, Swap(n), s);
        OtherMoveKeeps(cb, ca, mb, ma, Swap(n), s);
    }
  }

  /** A run in which each namespace is initiated by one side: `ma` are those of `a`, `mb` those of `b`. */
  ghost predicate AllowedRun(ca: Config, cb: Config, ma: Names, mb: Names, nets: seq<Net>, moves: seq<Move>) {
    && Run(ca, cb, nets, moves) && (forall name: Bytes :: ma(name) != mb(name))
    && forall i | 0 <= i < |moves| :: Allowed(ca, cb, ma, mb, nets[i], moves[i])
  }

  lemma {:induction false} RunAgrees(ca: Config, cb: Config, ma: Names, mb: Names, nets: seq<Net>, moves: seq<Move>,
                                     i: nat)
    requires AllowedRun(ca, cb, ma, mb, nets, moves) && i <= |moves|
    ensures Agreed(ca, cb, ma, mb, nets[i])
  {
    if i > 0 {
      RunAgrees(ca, cb, ma, mb, nets, moves, i - 1);
      AllowedMoveKeeps(ca, cb, ma, mb, nets[i - 1], moves[i - 1]);
    }
  }

  // ---- what the responder answered ----

  /** The responder answered the request of an ask while it handled it: with a success, or with a refusal. */
  ghost predicate Answered(view: Decoder, x: Peer, byY: Log, t: Bytes, success: bool)
    requires t in x.asks
  {
    exists m :: (view(x.asks[t].request), m) in byY && m.wait == t && (m.err.None? <==> success)
  }

  /** A request still on its way has no answer; any other has one, and they all say the same. */
  ghost predicate LogOk(view: Decoder, x: Peer, xy: seq<Message>, byY: Log, t: Bytes)
    requires t in x.asks
  {
    var request := view(x.asks[t].request);
    if Requested(xy, t) then forall m :: (request, m) !in byY
    else
      && (Answered(view, x, byY, t, true) || Answered(view, x, byY, t, false))
      && !(Answered(view, x, byY, t, true) && Answered(view, x, byY, t, false))
  }

  ghost predicate GrantedFor(view: Decoder, x: Peer, byY: Log, name: Bytes) {
    exists t | LiveFor(x, t, name) :: Answered(view, x, byY, t, true)
  }

  /** The responder is in the requested state exactly when it has granted a live ask about the namespace. */
  ghost predicate HeldOk(view: Decoder, x: Peer, held: set<Bytes>, byY: Log, t: Bytes)
    requires t in x.asks
  {
    var name := x.asks[t].request.namespace;
    (name in held) == Wants(x.asks[t]) <==> GrantedFor(view, x, byY, name)
  }

  ghost predicate KnownTokens(cx: Config, x: Peer, byY: Log) {
    forall p | p in byY && Own(cx.isClient, p.0.wait) :: p.0.wait in x.asks
  }

  ghost predicate Logged(cx: Config, view: Decoder, x: Peer, held: set<Bytes>, xy: seq<Message>, byY: Log) {
    && KnownTokens(cx, x, byY)
    && forall t | Live(x, t) :: LogOk(view, x, xy, byY, t) && HeldOk(view, x, held, byY, t)
  }

  /** A step keeps every ask with its request, revives none, and ends the asks about a namespace together. */
  predicate Persist(x: Peer, x': Peer) {
    forall t | t in x.asks ::
      && t in x'.asks && x'.asks[t].request == x.asks[t].request && x'.asks[t].at == x.asks[t].at
      && (Live(x', t) ==> Live(x, t)) && (GivenUp(x.asks[t]) ==> GivenUp(x'.asks[t]))
  }

  ghost predicate EndTogether(x: Peer, x': Peer) {
    forall t, u | Live(x', t) && t in x.asks && Live(x, u) && SameName(x.asks[t], x.asks[u]) :: Live(x', u)
  }

  lemma AsksPersist(ca: Config, cb: Config, ma: Names, mb: Names, n: Net, s: Step)
    requires Agreed(ca, cb, ma, mb, n) && Enabled(ca, n.a, n.ba, s)
    ensures var x' := Act(ca, n.a, n.ba, s).peer;
            && Persist(n.a, x') && EndTogether(n.a, x')
            && forall t | t in x'.asks && t !in n.a.asks :: s.Start? && t == GenWait(ca.isClient, s.now)
  {
    match s {
      case Start(now, m) => StartPersists(ca, n.a, now, m);
      case Handle(answers) => HandlePersists(ca, n.a, n.ba[0], answers);
      case Finish(t, party) =>
        FinishSends(ca, cb, n, t, party);
        if NsAsk(n.a.asks[t]) {
          ReturnPersists(ca, cb, ma, mb, n, t);
        } else {
          CustomFinishPersists(n.a, t);
        }
      case _ => LocalPersists(ca, n.a, n.ba, s);
    }
  }

  lemma StartPersists(cfg: Config, p: Peer, now: int, m: Message)
    requires TokensOwn(cfg, p) && p.clock < now
    ensures var q := StartAsk(cfg, p, now, m).peer;
            var t := GenWait(cfg.isClient, now);
            t !in p.asks && q.asks.Keys == p.asks.Keys + {t} && Persist(p, q) && EndTogether(p, q)
  {
    var q := StartAsk(cfg, p, now, m).peer;
    var t := GenWait(cfg.isClient, now);
    StartTokens(cfg, p, now, q.asks[t]);
    AddedPersists(p, q, t);
  }

  lemma AddedPersists(p: Peer, q: Peer, t: Bytes)
    requires t !in p.asks && t in q.asks && q == SetAsk(p, t, q.asks[t]).(clock := q.clock)
    ensures Persist(p, q) && EndTogether(p, q)
  {
    assert forall u | u in p.asks :: Live(q, u) <==> Live(p, u);
  }

  lemma HandlePersists(cfg: Config, p: Peer, m: Message, a: Answers)
    ensures var q := HandleMessage(cfg, p, m, a).peer;
            q.asks.Keys == p.asks.Keys && Persist(p, q) && EndTogether(p, q)
  {
    HandleEffect(cfg, p, m, a);
    var q := HandleMessage(cfg, p, m, a).peer;
    assert forall t | t in p.asks :: Live(q, t) <==> Live(p, t);
  }

  lemma LocalPersists(cfg: Config, p: Peer, inbox: seq<Message>, s: Step)
    requires Enabled(cfg, p, inbox, s) && (s.Unblock? || s.Take? || s.Unregister? || s.Abandon? || s.Emit?)
    ensures var q := Act(cfg, p, inbox, s).peer;
            q.asks.Keys == p.asks.Keys && Persist(p, q) && EndTogether(p, q)
  {
    var q := Act(cfg, p, inbox, s).peer;
    if !s.Emit? { MovedPersists(p, q, if s.Unblock? then p.blocked.value.wait else s.token); }
  }

  lemma MovedPersists(p: Peer, q: Peer, t: Bytes)
    requires t in p.asks && t in q.asks && q == SetAsk(p, t, q.asks[t]).(blocked := q.blocked)
    requires q.asks[t].request == p.asks[t].request && q.asks[t].at == p.asks[t].at
    requires q.asks[t].phase.Finished? == p.asks[t].phase.Finished?
    requires p.asks[t].phase.Abandoned? ==> q.asks[t].phase.Abandoned?
    ensures q.asks.Keys == p.asks.Keys && Persist(p, q) && EndTogether(p, q)
  {
    assert forall u :: Live(q, u) <==> Live(p, u);
  }

  lemma CustomFinishPersists(p: Peer, t: Bytes)
    requires t in p.asks && p.asks[t].phase.Got? && !NsAsk(p.asks[t])
    ensures var q := FinishAsk(p, t, []).peer;
            q.asks.Keys == p.asks.Keys && Persist(p, q) && EndTogether(p, q)
  {
    var q := FinishAsk(p, t, []).peer;
    assert q == SetAsk(p, t, p.asks[t].(phase := Finished(p.asks[t].phase.reply)));
    assert forall u | u in p.asks :: Live(q, u) <==> Live(p, u);
  }

  lemma ReturnPersists(ca: Config, cb: Config, ma: Names, mb: Names, n: Net, t: Bytes)
    requires Agreed(ca, cb, ma, mb, n) && t in n.a.asks && n.a.asks[t].phase.Got? && NsAsk(n.a.asks[t])
    ensures var q := FinishAsk(n.a, t, []).peer;
            q.asks.Keys == n.a.asks.Keys && Persist(n.a, q) && EndTogether(n.a, q)
  {
    var x := n.a;
    assert AskOk(x, ma, x.asks[t]) && Live(x, t);
    assert LiveOk(x, n.b.connected, n.ab, n.ba, t) && Holds(x, t, x.asks[t].phase.reply);
    FinishOutcome(x, n.b.connected, t);
    ReturnedPersists(ma, x, FinishAsk(x, t, []).peer, n.b.connected, t);
  }

  lemma ReturnedPersists(mine: Names, x: Peer, x': Peer, held: set<Bytes>, t: Bytes)
    requires AsksOk(x, mine) && Live(x, t) && Outstanding(x.asks[t]) && x.asks[t].phase.Got? && Returned(x, x', held, t)
    ensures x'.asks.Keys == x.asks.Keys && Persist(x, x') && EndTogether(x, x')
  {
    LiveAfterReturn(mine, x, x', held, t);
  }

  /** A request is sent only for a new namespace ask. */
  lemma NewRequests(ca: Config, cb: Config, ma: Names, mb: Names, n: Net, s: Step)
    requires Agreed(ca, cb, ma, mb, n) && Enabled(ca, n.a, n.ba, s)
    ensures var sent := DecodeAll(cb, Act(ca, n.a, n.ba, s).sent);
            && (s.Start? && IsNamespaceEvent(s.request.event) ==>
                  sent == [Seen(cb, s.request.(wait := GenWait(ca.isClient, s.now)))] && IsRequest(sent[0]))
            && (!(s.Start? && IsNamespaceEvent(s.request.event)) ==> forall d | d in sent :: !OwnRequest(n.a, d))
  {
    match s {
      case Start(now, m) =>
        StartSends(ca, cb, n.a, now, m);
        NamespaceEventSurvives(m.event);
      case Handle(answers) =>
        var m := n.ba[0];
        assert m in n.ba;
        if Tracked(n.a, m.wait) { TrackedIsDelivered(ca, cb, n, m); }
        HandleEffect(ca, n.a, m, answers);
        forall d | d in DecodeAll(cb, HandleMessage(ca, n.a, m, answers).sent)
          ensures !OwnRequest(n.a, d)
        {
          if !Delivers(ca, n.a, m) { HandlingIsHarmless(ca, cb, n, answers, d); }
        }
      case Finish(t, party) =>
        FinishEffect(n.a, t, party);
        PartySends(cb, party);
      case Emit(m) => EmitIsHarmless(ca, cb, n, m);
      case _ =>
    }
  }

  /** The log and the responder stay as they are: what was logged of the asks that stay live still holds. */
  lemma LogsKept(cx: Config, view: Decoder, x: Peer, x': Peer, held: set<Bytes>, xy: seq<Message>, xy': seq<Message>,
                 byY: Log, t: Bytes)
    requires Logged(cx, view, x, held, xy, byY) && Persist(x, x') && EndTogether(x, x')
    requires Live(x', t) && t in x.asks && (Requested(xy', t) <==> Requested(xy, t))
    requires forall u | Live(x', u) && u !in x.asks :: forall m :: (view(x'.asks[u].request), m) !in byY
    ensures LogOk(view, x', xy', byY, t) && HeldOk(view, x', held, byY, t)
  {
    assert LogOk(view, x, xy, byY, t) && HeldOk(view, x, held, byY, t);
    assert forall u, success | u in x.asks ::
        Answered(view, x', byY, u, success) <==> Answered(view, x, byY, u, success);
    GrantedKept(view, x, x', byY, t);
  }

  lemma GrantedKept(view: Decoder, x: Peer, x': Peer, byY: Log, t: Bytes)
    requires Persist(x, x') && EndTogether(x, x') && Live(x', t) && t in x.asks
    requires forall u, success | u in x.asks ::
               Answered(view, x', byY, u, success) <==> Answered(view, x, byY, u, success)
    requires forall u | Live(x', u) && u !in x.asks :: forall m :: (view(x'.asks[u].request), m) !in byY
    ensures var name := x.asks[t].request.namespace; GrantedFor(view, x', byY, name) <==> GrantedFor(view, x, byY, name)
  {
    var name := x.asks[t].request.namespace;
    if u :| LiveFor(x, u, name) && Answered(view, x, byY, u, true) {
      assert LiveFor(x', u, name) && Answered(view, x', byY, u, true);
    }
    if u :| LiveFor(x', u, name) && Answered(view, x', byY, u, true) {
      assert u in x.asks;
      assert LiveFor(x, u, name) && Answered(view, x, byY, u, true);
    }
  }

  lemma OwnLogs(ca: Config, cb: Config, ma: Names, mb: Names, n: Net, s: Step)
    requires Agreed(ca, cb, ma, mb, n) && Enabled(ca, n.a, n.ba, s) && AllowedStep(ca, ma, n.a, n.ba, s)
    requires Logged(ca, View(cb), n.a, n.b.connected, n.ab, n.byB)
    ensures var n' := StepA(ca, cb, n, s); Logged(ca, View(cb), n'.a, n'.b.connected, n'.ab, n'.byB)
  {
    var acted := Act(ca, n.a, n.ba, s);
    var sent := DecodeAll(cb, acted.sent);
    AsksPersist(ca, cb, ma, mb, n, s);
    NewRequests(ca, cb, ma, mb, n, s);
    if s.Start? && IsNamespaceEvent(s.request.event) {
      StartLogs(ca, cb, ma, mb, n, s.now, s.request);
    } else {
      assert forall u | Live(acted.peer, u) :: u in n.a.asks by {
        if s.Start? { NewAskIsCustom(ca, n.a, s.now, s.request); }
      }
      QuietLogs(ca, View(cb), n.a, acted.peer, n.b.connected, n.ab, sent, n.byB);
    }
  }

  lemma QuietLogs(cx: Config, view: Decoder, x: Peer, x': Peer, held: set<Bytes>, xy: seq<Message>,
                  sent: seq<Message>, byY: Log)
    requires Logged(cx, view, x, held, xy, byY) && Persist(x, x') && EndTogether(x, x')
    requires forall u | Live(x', u) :: u in x.asks
    requires forall d | d in sent :: !OwnRequest(x, d)
    ensures Logged(cx, view, x', held, xy + sent, byY)
  {
    forall t | Live(x', t)
      ensures LogOk(view, x', xy + sent, byY, t) && HeldOk(view, x', held, byY, t)
    {
      RequestedAppend(x, xy, sent, t);
      LogsKept(cx, view, x, x', held, xy, xy + sent, byY, t);
    }
  }

  lemma NewAskIsCustom(cfg: Config, p: Peer, now: int, m: Message)
    requires !IsNamespaceEvent(m.event)
    ensures !Live(StartAsk(cfg, p, now, m).peer, GenWait(cfg.isClient, now))
  {
  }

  lemma StartLogs(ca: Config, cb: Config, ma: Names, mb: Names, n: Net, now: int, m: Message)
    requires Agreed(ca, cb, ma, mb, n) && Enabled(ca, n.a, n.ba, Start(now, m)) && IsNamespaceEvent(m.event)
    requires AllowedStep(ca, ma, n.a, n.ba, Start(now, m))
    requires Logged(ca, View(cb), n.a, n.b.connected, n.ab, n.byB)
    ensures var n' := StepA(ca, cb, n, Start(now, m)); Logged(ca, View(cb), n'.a, n'.b.connected, n'.ab, n'.byB)
  {
    var t := GenWait(ca.isClient, now);
    var x' := StartAsk(ca, n.a, now, m).peer;
    var request := Seen(cb, m.(wait := t));
    StartSends(ca, cb, n.a, now, m);
    NamespaceEventSurvives(m.event);
    StartPersists(ca, n.a, now, m);
    StartedAsk(ca, ma, n.a, now, m);
    assert Own(ca.isClient, t);
    StartedLogs(ca, ma, View(cb), n.a, x', n.b.connected, n.ab, n.ba, request, n.byB, t);
  }

  /** A new namespace ask has no answer yet, and the responder is in the requested state exactly when it has granted
      an ask that was given up before. */
  lemma StartedLogs(cx: Config, mine: Names, view: Decoder, x: Peer, x': Peer, held: set<Bytes>, xy: seq<Message>,
                    yx: seq<Message>, request: Message, byY: Log, t: Bytes)
    requires Agree(mine, x, held, xy, yx) && Logged(cx, view, x, held, xy, byY)
    requires Started(mine, x, x', t) && Persist(x, x') && EndTogether(x, x')
    requires Own(cx.isClient, t) && request == view(x'.asks[t].request) && request.wait == t && IsRequest(request)
    ensures Logged(cx, view, x', held, xy + [request], byY)
  {
    assert forall p | p in byY :: p.0.wait != t;
    assert forall m :: (request, m) !in byY by { assert forall p | p in byY :: p.0 != request; }
    assert request in xy + [request] && Requested(xy + [request], t);
    forall u | Live(x', u) && u != t
      ensures LogOk(view, x', xy + [request], byY, u) && HeldOk(view, x', held, byY, u)
    {
      assert Requested(xy + [request], u) <==> Requested(xy, u);
      LogsKept(cx, view, x, x', held, xy, xy + [request], byY, u);
    }
    assert forall u | Live(x, u) :: LiveOk(x, held, xy, yx, u);
    StartedHeld(mine, view, x, x', held, byY, t);
  }

  lemma StartedHeld(mine: Names, view: Decoder, x: Peer, x': Peer, held: set<Bytes>, byY: Log, t: Bytes)
    requires Settled(x, held, mine) && t !in x.asks && t in x'.asks
    requires NsAsk(x'.asks[t]) && mine(x'.asks[t].request.namespace)
    requires (x'.asks[t].request.namespace in x.connected) == !Wants(x'.asks[t])
    requires forall u | Live(x, u) ::
               && Live(x', u) && x'.asks[u] == x.asks[u]
               && (x.asks[u].request.namespace in x.connected) == !Wants(x.asks[u])
    requires forall u | Live(x', u) && u != t :: Live(x, u) && HeldOk(view, x', held, byY, u)
    requires forall m :: (view(x'.asks[t].request), m) !in byY
    ensures HeldOk(view, x', held, byY, t)
  {
    if u :| LiveFor(x', u, x'.asks[t].request.namespace) && u != t {
      RepeatedHeld(view, x, x', held, byY, t, u);
    } else {
      assert forall u | Live(x, u) :: Live(x', u) && !LiveFor(x', u, x'.asks[t].request.namespace);
      FirstHeld(mine, view, x, x', held, byY, t);
    }
  }

  lemma RepeatedHeld(view: Decoder, x: Peer, x': Peer, held: set<Bytes>, byY: Log, t: Bytes, u: Bytes)
    requires t in x'.asks && u in x'.asks && NsAsk(x'.asks[t]) && NsAsk(x'.asks[u]) && SameName(x'.asks[t], x'.asks[u])
    requires (x'.asks[t].request.namespace in x.connected) == !Wants(x'.asks[t])
    requires (x'.asks[u].request.namespace in x.connected) == !Wants(x'.asks[u])
    requires HeldOk(view, x', held, byY, u)
    ensures HeldOk(view, x', held, byY, t)
  {
    SameWants(x, x', t, u);
  }

  lemma FirstHeld(mine: Names, view: Decoder, x: Peer, x': Peer, held: set<Bytes>, byY: Log, t: Bytes)
    requires Settled(x, held, mine) && t in x'.asks && mine(x'.asks[t].request.namespace)
    requires forall m :: (view(x'.asks[t].request), m) !in byY
    requires forall u | LiveFor(x', u, x'.asks[t].request.namespace) :: u == t
    requires forall u | Live(x, u) :: x.asks[u].request.namespace != x'.asks[t].request.namespace
    requires (x'.asks[t].request.namespace in x.connected) == !Wants(x'.asks[t])
    ensures HeldOk(view, x', held, byY, t)
  {
    FirstAskUnanswered(view, x', byY, t);
  }

  lemma SameWants(x: Peer, x': Peer, t: Bytes, u: Bytes)
    requires t in x'.asks && u in x'.asks && NsAsk(x'.asks[t]) && NsAsk(x'.asks[u]) && SameName(x'.asks[t], x'.asks[u])
    requires (x'.asks[t].request.namespace in x.connected) == !Wants(x'.asks[t])
    requires (x'.asks[u].request.namespace in x.connected) == !Wants(x'.asks[u])
    ensures Wants(x'.asks[t]) == Wants(x'.asks[u])
  {
  }

  lemma FirstAskUnanswered(view: Decoder, x: Peer, byY: Log, t: Bytes)
    requires t in x.asks && forall m :: (view(x.asks[t].request), m) !in byY
    requires forall u | LiveFor(x, u, x.asks[t].request.namespace) :: u == t
    ensures !GrantedFor(view, x, byY, x.asks[t].request.namespace)
  {
  }

  // ---- ... seen from the other side ----

  /** Handling the request at the head logs its answers. */
  lemma ServedLogs(cx: Config, mine: Names, view: Decoder, x: Peer, held: set<Bytes>, held': set<Bytes>,
                   xy: seq<Message>, yx: seq<Message>, byY: Log, sent: seq<Message>)
    requires Agree(mine, x, held, xy, yx) && Logged(cx, view, x, held, xy, byY)
    requires xy != [] && OwnRequest(x, xy[0]) && Served(x, held, held', xy[0], sent)
    requires xy[0] == view(x.asks[xy[0].wait].request)
    requires forall t | Live(x, t) :: view(x.asks[t].request).wait == t
    ensures Logged(cx, view, x, held', xy[1..], byY + Pairs(xy[0], sent))
  {
    var t0 := xy[0].wait;
    var byY' := byY + Pairs(xy[0], sent);
    assert Quiet(x, t0) && xy[0] in xy && Requested(xy, t0);
    assert LogOk(view, x, xy, byY, t0);
    HeadIsOldest(x, xy);
    ServedAnswers(view, x, held, held', xy[0], byY, sent);
    forall t | Live(x, t)
      ensures LogOk(view, x, xy[1..], byY', t) && HeldOk(view, x, held', byY', t)
    {
      assert LogOk(view, x, xy, byY, t) && HeldOk(view, x, held, byY, t);
      if t != t0 { RequestedTail(xy, t); }
      ServedHeld(mine, view, x, held, held', xy, yx, byY, sent, t);
    }
  }

  /** What the log says of the asks after the request `m` was served: the same as before of the others, and of its own
      ask a success exactly when the responder is now in the requested state. */
  lemma ServedAnswers(view: Decoder, x: Peer, held: set<Bytes>, held': set<Bytes>, m: Message, byY: Log,
                      sent: seq<Message>)
    requires m.wait in x.asks && m == view(x.asks[m.wait].request) && Served(x, held, held', m, sent)
    requires forall t | Live(x, t) :: view(x.asks[t].request).wait == t
    requires forall d :: (m, d) !in byY
    ensures var byY' := byY + Pairs(m, sent);
            && (forall t, success | Live(x, t) && t != m.wait ::
                  Answered(view, x, byY', t, success) <==> Answered(view, x, byY, t, success))
            && (forall t, d | Live(x, t) && t != m.wait ::
                  (view(x.asks[t].request), d) in byY' <==> (view(x.asks[t].request), d) in byY)
            && forall success ::
                 Answered(view, x, byY', m.wait, success)
                 <==> (success <==> ((x.asks[m.wait].request.namespace in held') == Wants(x.asks[m.wait])))
  {
    var byY' := byY + Pairs(m, sent);
    var d :| d in sent && d.wait == m.wait;
    assert (m, d) in byY';
    assert forall e | (m, e) in byY' :: e in sent;
  }

  lemma ServedHeld(mine: Names, view: Decoder, x: Peer, held: set<Bytes>, held': set<Bytes>, xy: seq<Message>,
                   yx: seq<Message>, byY: Log, sent: seq<Message>, t: Bytes)
    requires Agree(mine, x, held, xy, yx) && xy != [] && OwnRequest(x, xy[0]) && Served(x, held, held', xy[0], sent)
    requires Live(x, t) && Live(x, xy[0].wait) && HeldOk(view, x, held, byY, t)
    requires forall u, success | Live(x, u) && u != xy[0].wait ::
               Answered(view, x, byY + Pairs(xy[0], sent), u, success) <==> Answered(view, x, byY, u, success)
    requires !Answered(view, x, byY, xy[0].wait, true)
    requires forall success :: Answered(view, x, byY + Pairs(xy[0], sent), xy[0].wait, success)
               <==> (success <==> ((x.asks[xy[0].wait].request.namespace in held') == Wants(x.asks[xy[0].wait])))
    ensures HeldOk(view, x, held', byY + Pairs(xy[0], sent), t)
  {
    var t0 := xy[0].wait;
    var byY' := byY + Pairs(xy[0], sent);
    var name := x.asks[t].request.namespace;
    assert LiveOk(x, held, xy, yx, t) && LiveOk(x, held, xy, yx, t0);
    if name == x.asks[t0].request.namespace {
      NamespaceEventsDiffer();
      assert Wants(x.asks[t]) == Wants(x.asks[t0]) && LiveFor(x, t0, name);
      if u :| LiveFor(x, u, name) && Answered(view, x, byY, u, true) { assert Answered(view, x, byY', u, true); }
      if u :| LiveFor(x, u, name) && Answered(view, x, byY', u, true) {
        if u != t0 { assert Answered(view, x, byY, u, true); }
      }
    } else {
      if u :| LiveFor(x, u, name) && Answered(view, x, byY, u, true) { assert Answered(view, x, byY', u, true); }
      if u :| LiveFor(x, u, name) && Answered(view, x, byY', u, true) { assert Answered(view, x, byY, u, true); }
    }
  }

  /** Nothing is logged under a request of `x`, and the namespaces it initiates stay. */
  lemma OtherLogsKept(cx: Config, mine: Names, view: Decoder, x: Peer, held: set<Bytes>, held': set<Bytes>,
                      xy: seq<Message>, xy': seq<Message>, byY: Log, byY': Log)
    requires Logged(cx, view, x, held, xy, byY) && AsksOk(x, mine) && KnownTokens(cx, x, byY')
    requires forall name | mine(name) :: name in held' <==> name in held
    requires forall t | t in x.asks :: Requested(xy', t) <==> Requested(xy, t)
    requires forall t, m | Live(x, t) :: (view(x.asks[t].request), m) in byY' <==> (view(x.asks[t].request), m) in byY
    ensures Logged(cx, view, x, held', xy', byY')
  {
    assert forall t, success | Live(x, t) ::
        Answered(view, x, byY', t, success) <==> Answered(view, x, byY, t, success);
    forall t | Live(x, t)
      ensures LogOk(view, x, xy', byY', t) && HeldOk(view, x, held', byY', t)
    {
      assert LogOk(view, x, xy, byY, t) && HeldOk(view, x, held, byY, t) && AskOk(x, mine, x.asks[t]);
      var name := x.asks[t].request.namespace;
      if u :| LiveFor(x, u, name) && Answered(view, x, byY, u, true) { assert Answered(view, x, byY', u, true); }
      if u :| LiveFor(x, u, name) && Answered(view, x, byY', u, true) { assert Answered(view, x, byY, u, true); }
    }
  }

  lemma RequestsSeen(cx: Config, to: Config, x: Peer, t: Bytes)
    requires TokensOwn(cx, x) && Live(x, t)
    ensures var m := View(to)(x.asks[t].request); IsRequest(m) && m.wait == t
  {
    NamespaceEventSurvives(x.asks[t].request.event);
    NoEmptyToken(cx, x);
  }

  lemma OtherHandleLogs(ca: Config, cb: Config, ma: Names, mb: Names, n: Net, answers: Answers)
    requires Agreed(ca, cb, ma, mb, n) && Enabled(ca, n.a, n.ba, Handle(answers))
    requires AllowedStep(ca, ma, n.a, n.ba, Handle(answers))
    requires Logged(cb, View(ca), n.b, n.a.connected, n.ba, n.byA)
    ensures var n' := StepA(ca, cb, n, Handle(answers)); Logged(cb, View(ca), n'.b, n'.a.connected, n'.ba, n'.byA)
  {
    var m := n.ba[0];
    var acted := HandleMessage(ca, n.a, m, answers);
    var sent := DecodeAll(cb, acted.sent);
    assert m in n.ba;
    forall t | Live(n.b, t)
      ensures IsRequest(View(ca)(n.b.asks[t].request)) && View(ca)(n.b.asks[t].request).wait == t
    {
      RequestsSeen(cb, ca, n.b, t);
    }
    if OwnRequest(n.b, m) {
      RequestIsSeen(ca, cb, ma, mb, n, m);
      RequestIsServed(ca, cb, ma, mb, n, answers);
      ServedLogs(cb, mb, View(ca), n.b, n.a.connected, acted.peer.connected, n.ba, n.ab, n.byA, sent);
    } else {
      HandlingOthers(ca, cb, ma, mb, n, answers);
      forall t | t in n.b.asks
        ensures Requested(n.ba[1..], t) <==> Requested(n.ba, t)
      {
        RequestedTail(n.ba, t);
      }
      assert KnownTokens(cb, n.b, n.byA + Pairs(m, sent));
      OtherLogsKept(cb, mb, View(ca), n.b, n.a.connected, acted.peer.connected, n.ba, n.ba[1..], n.byA,
                    n.byA + Pairs(m, sent));
    }
  }

  lemma OtherLogs(ca: Config, cb: Config, ma: Names, mb: Names, n: Net, s: Step)
    requires Agreed(ca, cb, ma, mb, n) && Enabled(ca, n.a, n.ba, s) && AllowedStep(ca, ma, n.a, n.ba, s)
    requires Logged(cb, View(ca), n.b, n.a.connected, n.ba, n.byA)
    ensures var n' := StepA(ca, cb, n, s); Logged(cb, View(ca), n'.b, n'.a.connected, n'.ba, n'.byA)
  {
    if s.Handle? {
      OtherHandleLogs(ca, cb, ma, mb, n, s.answers);
    } else {
      var acted := Act(ca, n.a, n.ba, s);
      OtherStepEffect(ca, cb, ma, mb, n, s);
      OtherLogsKept(cb, mb, View(ca), n.b, n.a.connected, acted.peer.connected, n.ba, n.ba, n.byA, n.byA);
    }
  }

  ghost predicate BothLogged(ca: Config, cb: Config, n: Net) {
    && Logged(ca, View(cb), n.a, n.b.connected, n.ab, n.byB)
    && Logged(cb, View(ca), n.b, n.a.connected, n.ba, n.byA)
  }

  lemma MoveLogs(ca: Config, cb: Config, ma: Names, mb: Names, n: Net, move: Move)
    requires Agreed(ca, cb, ma, mb, n) && CanMove(ca, cb, n, move) && Allowed(ca, cb, ma, mb, n, move)
    requires BothLogged(ca, cb, n)
    ensures BothLogged(ca, cb, Next(ca, cb, n, move))
  {
    match move {
      case ByA(s) =>
        OwnLogs(ca, cb, ma, mb, n, s);
        OtherLogs(ca, cb, ma, mb, n, s);
      case ByB(s) =>
        OwnLogs(cb, ca, mb, ma, Swap(n), s);
        OtherLogs(cb, ca, mb, ma, Swap(n), s);
    }
  }

  lemma {:induction false} RunLogs(ca: Config, cb: Config, ma: Names, mb: Names, nets: seq<Net>, moves: seq<Move>,
                                   i: nat)
    requires AllowedRun(ca, cb, ma, mb, nets, moves) && i <= |moves|
    ensures BothLogged(ca, cb, nets[i])
  {
    if i > 0 {
      RunLogs(ca, cb, ma, mb, nets, moves, i - 1);
      RunAgrees(ca, cb, ma, mb, nets, moves, i - 1);
      MoveLogs(ca, cb, ma, mb, nets[i - 1], moves[i - 1]);
    }
  }

  // ---- agreement over all allowed runs ----

  predicate Differ(n: Net, name: Bytes) {
    (name in n.a.connected) != (name in n.b.connected)
  }

  lemma DifferExactly(cx: Config, mine: Names, view: Decoder, x: Peer, held: set<Bytes>, xy: seq<Message>,
                      yx: seq<Message>, byY: Log, name: Bytes)
    requires Agree(mine, x, held, xy, yx) && Logged(cx, view, x, held, xy, byY) && mine(name)
    ensures (name in x.connected) != (name in held) <==> GrantedFor(view, x, byY, name)
  {
    if t :| LiveFor(x, t, name) {
      assert LiveOk(x, held, xy, yx, t) && HeldOk(view, x, held, byY, t);
    }
  }

  /** Namespace agreement in every state of every allowed run: the sides differ on a namespace exactly when the
      responder has granted an ask about it that the side initiating it has not acted on: one that is
      outstanding or was given up, and that no later ask about it has overtaken by returning. */
  lemma NamespaceAgreement(ca: Config, cb: Config, ma: Names, mb: Names, nets: seq<Net>, moves: seq<Move>, i: nat,
                           name: Bytes)
    requires AllowedRun(ca, cb, ma, mb, nets, moves) && i <= |moves|
    ensures ma(name) ==> (Differ(nets[i], name) <==> GrantedFor(View(cb), nets[i].a, nets[i].byB, name))
    ensures mb(name) ==> (Differ(nets[i], name) <==> GrantedFor(View(ca), nets[i].b, nets[i].byA, name))
  {
    RunAgrees(ca, cb, ma, mb, nets, moves, i);
    RunLogs(ca, cb, ma, mb, nets, moves, i);
    var n := nets[i];
    if ma(name) {
      DifferExactly(ca, ma, View(cb), n.a, n.b.connected, n.ab, n.ba, n.byB, name);
    } else {
      DifferExactly(cb, mb, View(ca), n.b, n.a.connected, n.ba, n.ab, n.byA, name);
    }
  }

  /** The ask about the namespace that was started last has returned. */
  predicate LastReturned(x: Peer, name: Bytes) {
    exists t | t in x.asks && NsAsk(x.asks[t]) && x.asks[t].request.namespace == name :: x.asks[t].phase.Finished?
      && forall u | u in x.asks && NsAsk(x.asks[u]) && SameName(x.asks[t], x.asks[u]) :: x.asks[u].at <= x.asks[t].at
  }

  /** Once the last ask about a namespace has returned, with whatever result and however often it was repeated after a
      give-up, the sides agree on the namespace: the responder has handled the earlier requests before. */
  lemma AgreeOnceReturned(ca: Config, cb: Config, ma: Names, mb: Names, nets: seq<Net>, moves: seq<Move>, i: nat,
                          name: Bytes)
    requires AllowedRun(ca, cb, ma, mb, nets, moves) && i <= |moves|
    ensures LastReturned(nets[i].a, name) || LastReturned(nets[i].b, name) ==> !Differ(nets[i], name)
  {
    RunAgrees(ca, cb, ma, mb, nets, moves, i);
    NamespaceAgreement(ca, cb, ma, mb, nets, moves, i, name);
    if LastReturned(nets[i].a, name) { ReturnedLast(ma, nets[i].a, name); }
    if LastReturned(nets[i].b, name) { ReturnedLast(mb, nets[i].b, name); }
  }

  lemma ReturnedLast(mine: Names, x: Peer, name: Bytes)
    requires AsksOk(x, mine) && LastReturned(x, name)
    ensures mine(name) && forall t :: !LiveFor(x, t, name)
  {
    var t :| t in x.asks && NsAsk(x.asks[t]) && x.asks[t].request.namespace == name && x.asks[t].phase.Finished?
             && forall u | u in x.asks && NsAsk(x.asks[u]) && SameName(x.asks[t], x.asks[u]) ::
                  x.asks[u].at <= x.asks[t].at;
    assert AskOk(x, mine, x.asks[t]);
  }

  /** No ask that was given up and not overtaken was granted. */
  ghost predicate NoneGranted(view: Decoder, x: Peer, byY: Log) {
    forall t | Live(x, t) :: !Answered(view, x, byY, t, true)
  }

  /** When no namespace ask is outstanding, both sides hold the same namespaces exactly when the responders have
      granted none of those that were given up and not overtaken. */
  lemma AgreeWhenSettled(ca: Config, cb: Config, ma: Names, mb: Names, nets: seq<Net>, moves: seq<Move>, i: nat)
    requires AllowedRun(ca, cb, ma, mb, nets, moves) && i <= |moves|
    requires forall t | t in nets[i].a.asks :: !Outstanding(nets[i].a.asks[t])
    requires forall t | t in nets[i].b.asks :: !Outstanding(nets[i].b.asks[t])
    ensures nets[i].a.connected == nets[i].b.connected
       <==> NoneGranted(View(cb), nets[i].a, nets[i].byB) && NoneGranted(View(ca), nets[i].b, nets[i].byA)
  {
    var n := nets[i];
    forall name: Bytes
      ensures ma(name) ==> (Differ(n, name) <==> GrantedFor(View(cb), n.a, n.byB, name))
      ensures mb(name) ==> (Differ(n, name) <==> GrantedFor(View(ca), n.b, n.byA, name))
    {
      NamespaceAgreement(ca, cb, ma, mb, nets, moves, i, name);
    }
    RunAgrees(ca, cb, ma, mb, nets, moves, i);
    SettledEqual(ma, mb, n, View(cb), View(ca));
  }

  lemma SettledEqual(ma: Names, mb: Names, n: Net, va: Decoder, vb: Decoder)
    requires AsksOk(n.a, ma) && AsksOk(n.b, mb) && forall name: Bytes :: ma(name) != mb(name)
    requires forall name: Bytes | ma(name) :: Differ(n, name) <==> GrantedFor(va, n.a, n.byB, name)
    requires forall name: Bytes | mb(name) :: Differ(n, name) <==> GrantedFor(vb, n.b, n.byA, name)
    ensures n.a.connected == n.b.connected <==> NoneGranted(va, n.a, n.byB) && NoneGranted(vb, n.b, n.byA)
  {
    if t :| Live(n.a, t) && Answered(va, n.a, n.byB, t, true) {
      assert AskOk(n.a, ma, n.a.asks[t]) && LiveFor(n.a, t, n.a.asks[t].request.namespace);
      assert Differ(n, n.a.asks[t].request.namespace);
    } else if t :| Live(n.b, t) && Answered(vb, n.b, n.byA, t, true) {
      assert AskOk(n.b, mb, n.b.asks[t]) && LiveFor(n.b, t, n.b.asks[t].request.namespace);
      assert Differ(n, n.b.asks[t].request.namespace);
    } else {
      forall name: Bytes
        ensures name in n.a.connected <==> name in n.b.connected
      {
        assert ma(name) || mb(name);
        assert !GrantedFor(va, n.a, n.byB, name) && !GrantedFor(vb, n.b, n.byA, name);
        assert !Differ(n, name);
      }
    }
  }

  /** A success reply to the ask is on its way to the asker, waiting in its channel, or taken. */
  ghost predicate SuccessUnderWay(x: Peer, yx: seq<Message>, t: Bytes) {
    exists m: Message :: m.wait == t && m.err.None? &&
      (m in yx || (t in x.asks && (x.asks[t].slot == Some(m) || x.asks[t].phase == Got(m))))
  }

  /** Where the sides differ, the side that initiates the namespace has a live ask about it, a disconnect if only
      it holds the namespace and a connect if only the other does, and a success reply to it is in flight or
      delivered. */
  lemma DifferOnlyWhileSettling(ca: Config, cb: Config, ma: Names, mb: Names, nets: seq<Net>, moves: seq<Move>, i: nat,
                                name: Bytes) returns (t: Bytes)
    requires AllowedRun(ca, cb, ma, mb, nets, moves) && i <= |moves| && Differ(nets[i], name)
    ensures var n := nets[i];
            if ma(name) then
              && LiveFor(n.a, t, name) && SuccessUnderWay(n.a, n.ba, t)
              && n.a.asks[t].request.event == if name in n.a.connected then NAMESPACE_DISCONNECT else NAMESPACE_CONNECT
            else
              && LiveFor(n.b, t, name) && SuccessUnderWay(n.b, n.ab, t)
              && n.b.asks[t].request.event == if name in n.b.connected then NAMESPACE_DISCONNECT else NAMESPACE_CONNECT
  {
    RunAgrees(ca, cb, ma, mb, nets, moves, i);
    RunLogs(ca, cb, ma, mb, nets, moves, i);
    NamespaceAgreement(ca, cb, ma, mb, nets, moves, i, name);
    var n := nets[i];
    if ma(name) {
      t := GrantedIsUnderWay(ca, ma, View(cb), n.a, n.b.connected, n.ab, n.ba, n.byB, name);
    } else {
      t := GrantedIsUnderWay(cb, mb, View(ca), n.b, n.a.connected, n.ba, n.ab, n.byA, name);
    }
  }

  lemma GrantedIsUnderWay(cx: Config, mine: Names, view: Decoder, x: Peer, held: set<Bytes>, xy: seq<Message>,
                          yx: seq<Message>, byY: Log, name: Bytes) returns (t: Bytes)
    requires Agree(mine, x, held, xy, yx) && Logged(cx, view, x, held, xy, byY) && Half(cx, x, view, xy, yx, byY)
    requires GrantedFor(view, x, byY, name)
    ensures LiveFor(x, t, name) && SuccessUnderWay(x, yx, t)
    ensures x.asks[t].request.event == if name in x.connected then NAMESPACE_DISCONNECT else NAMESPACE_CONNECT
  {
    t :| LiveFor(x, t, name) && Answered(view, x, byY, t, true);
    var ask := x.asks[t];
    assert LiveOk(x, held, xy, yx, t) && LogOk(view, x, xy, byY, t);
    var m: Message;
    if ask.phase.Got? {
      m := ask.phase.reply;
      assert HasReply(ask, m);
    } else if ask.slot.Some? {
      m := ask.slot.value;
      assert HasReply(ask, m);
    } else {
      m :| m in yx && m.wait == t;
      AskTokenIsOwn(cx, x, t);
    }
    assert (view(ask.request), m) in byY && m.wait == t;
    assert Answered(view, x, byY, t, m.err.None?);
  }

  // ---- giving up ----

  lemma {:induction false} GivenUpStays(ca: Config, cb: Config, ma: Names, mb: Names, nets: seq<Net>,
                                        moves: seq<Move>, i: nat, j: nat, t: Bytes)
    requires AllowedRun(ca, cb, ma, mb, nets, moves) && i <= j <= |moves|
    requires t in nets[i].a.asks && GivenUp(nets[i].a.asks[t])
    ensures t in nets[j].a.asks && GivenUp(nets[j].a.asks[t])
    ensures nets[j].a.asks[t].request == nets[i].a.asks[t].request && nets[i].byB <= nets[j].byB
    decreases j
  {
    if i < j {
      GivenUpStays(ca, cb, ma, mb, nets, moves, i, j - 1, t);
      GivenUpNext(ca, cb, ma, mb, nets, moves, j - 1, t);
    }
  }

  lemma GivenUpNext(ca: Config, cb: Config, ma: Names, mb: Names, nets: seq<Net>, moves: seq<Move>, k: nat, t: Bytes)
    requires AllowedRun(ca, cb, ma, mb, nets, moves) && k < |moves|
    requires t in nets[k].a.asks && GivenUp(nets[k].a.asks[t])
    ensures t in nets[k + 1].a.asks && GivenUp(nets[k + 1].a.asks[t])
    ensures nets[k + 1].a.asks[t].request == nets[k].a.asks[t].request && nets[k].byB <= nets[k + 1].byB
  {
    RunAgrees(ca, cb, ma, mb, nets, moves, k);
    GivenUpStep(ca, cb, ma, mb, nets[k], moves[k], t);
  }

  lemma GivenUpStep(ca: Config, cb: Config, ma: Names, mb: Names, n: Net, move: Move, t: Bytes)
    requires CanMove(ca, cb, n, move) && Agreed(ca, cb, ma, mb, n) && t in n.a.asks && GivenUp(n.a.asks[t])
    ensures var n' := Next(ca, cb, n, move);
            && t in n'.a.asks && GivenUp(n'.a.asks[t]) && n'.a.asks[t].request == n.a.asks[t].request
            && n.byB <= n'.byB
  {
    if move.ByA? { AsksPersist(ca, cb, ma, mb, n, move.step); }
  }

  /** Giving up a namespace ask settles nothing. At every later point at which no later ask about the namespace has
      returned, the sides differ on it exactly when the responder has granted this request or a repetition of it
      by then, before or after the give-up. If it was not repeated, an answer given before decides for good. */
  lemma GivingUp(ca: Config, cb: Config, ma: Names, mb: Names, nets: seq<Net>, moves: seq<Move>, i: nat, j: nat,
                 t: Bytes)
    requires AllowedRun(ca, cb, ma, mb, nets, moves) && i <= j <= |moves|
    requires t in nets[i].a.asks && GivenUp(nets[i].a.asks[t])
    ensures t in nets[j].a.asks && GivenUp(nets[j].a.asks[t])
    ensures Live(nets[j].a, t) ==>
              var name := nets[i].a.asks[t].request.namespace;
              && (Differ(nets[j], name) <==> GrantedFor(View(cb), nets[j].a, nets[j].byB, name))
              && (Answered(View(cb), nets[j].a, nets[j].byB, t, true) ==> Differ(nets[j], name))
              && (Answered(View(cb), nets[i].a, nets[i].byB, t, true) ==> Differ(nets[j], name))
              && (Answered(View(cb), nets[i].a, nets[i].byB, t, false)
                  && (forall u | LiveFor(nets[j].a, u, name) :: u == t) ==>
                    !Differ(nets[j], name))
  {
    GivenUpStays(ca, cb, ma, mb, nets, moves, i, j, t);
    RunAgrees(ca, cb, ma, mb, nets, moves, j);
    RunLogs(ca, cb, ma, mb, nets, moves, j);
    var n := nets[j];
    if Live(n.a, t) {
      assert AskOk(n.a, ma, n.a.asks[t]) && LogOk(View(cb), n.a, n.ab, n.byB, t);
      NamespaceAgreement(ca, cb, ma, mb, nets, moves, j, n.a.asks[t].request.namespace);
      AnswersStay(View(cb), nets[i], n, t);
    }
  }

  lemma AnswersStay(view: Decoder, n: Net, n': Net, t: Bytes)
    requires t in n.a.asks && t in n'.a.asks && n'.a.asks[t].request == n.a.asks[t].request && n.byB <= n'.byB
    ensures forall success ::
              Answered(view, n.a, n.byB, t, success) ==> Answered(view, n'.a, n'.byB, t, success)
  {
  }

  /** An ask given up while its request heads the link is granted by a responder that does not refuse it, and then the
      sides differ. */
  lemma GrantedAfterGivingUp(ca: Config, cb: Config, ma: Names, mb: Names, n: Net, answers: Answers)
    requires Agreed(ca, cb, ma, mb, n) && n.ba != [] && OwnRequest(n.b, n.ba[0]) && GivenUp(n.b.asks[n.ba[0].wait])
    requires n.a.blocked.None? && PartyFits(n.ba[0], answers.party)
    requires Refusal(ca, n.a.connected, n.ba[0], answers).None?
    ensures Differ(Next(ca, cb, n, ByA(Handle(answers))), n.b.asks[n.ba[0].wait].request.namespace)
  {
    var m := n.ba[0];
    assert m in n.ba && Requested(n.ba, m.wait);
    RequestIsSeen(ca, cb, ma, mb, n, m);
    NotExpected(ca, n.a, m, answers);
    VerdictState(ca, n.a.connected, m, answers);
    assert LiveOk(n.b, n.a.connected, n.ba, n.ab, m.wait);
  }
}
