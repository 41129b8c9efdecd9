/** What one connection does with one message (conn.go, conn_handler.go), as functions of its state.

    User handlers are answers chosen from outside: accept, or an error value (which may be a `Reply`). */
module Protocol {
  import opened Text
  import opened Escaping
  import opened Codec

  datatype Frame = Frame(binary: bool, payload: Bytes)

  /** The fixed part of a connection: its role, the id `Conn.Is` compares with, the declared namespaces with
      their registered event names, and whether native messages are accepted. */
  datatype Config = Config(isClient: bool, id: Bytes, namespaces: map<Bytes, set<Bytes>>, allowNative: bool)

  datatype Outcome = Accept | Reject(err: Failure)

  /** The handlers' answers while one message is handled: to the first event fired, to the second, and what
      the party operations wrote. */
  datatype Answers = Answers(first: Outcome, second: Outcome, party: seq<Frame>)

  predicate IsNamespaceEvent(event: Bytes) {
    event == NAMESPACE_CONNECT || event == NAMESPACE_DISCONNECT
  }

  /** A message a party operation may write while `m` is handled: under the token of `m`, if `m` is a party
      event, or without a token. */
  predicate PartyMessage(m: Message, p: Message) {
    && !p.native && p.event != NATIVE_MESSAGE && !IsNamespaceEvent(p.event)
    && (p.wait == [] || (m.event in PARTY_EVENTS && p.wait == m.wait))
  }

  ghost predicate PartyFrame(m: Message, f: Frame) {
    || (m.event in PARTY_EVENTS && f == Frame(f.binary, EmptyReply(m.wait)))
    || exists p :: PartyMessage(m, p) && f == MessageFrame(p)
  }

  /** What party operations may write while `m` is handled; module `PartyFrames` shows that they do. */
  ghost predicate PartyFits(m: Message, party: seq<Frame>) {
    forall f | f in party :: PartyFrame(m, f)
  }

  function Decode(cfg: Config, f: Frame): Message {
    DeserializeMessage(f.binary, f.payload, cfg.allowNative, false)
  }

  function DecodeAll(cfg: Config, frames: seq<Frame>): (ms: seq<Message>)
    ensures |ms| == |frames|
    ensures forall i | 0 <= i < |frames| :: ms[i] == Decode(cfg, frames[i])
  {
    seq(|frames|, i requires 0 <= i < |frames| => Decode(cfg, frames[i]))
  }

  // ---- firing events and writing ----

  datatype Fired = Fired(err: Option<Failure>, sent: seq<Frame>)

  function OutcomeError(o: Outcome): Option<Failure> {
    match o case Accept => None case Reject(e) => Some(e)
  }

  /** `Events.fireEvent`: an accepting handler of the event answers the token by itself. */
  function FireEvent(events: set<Bytes>, m: Message, o: Outcome): Fired {
    if m.event in events then
      if o.Reject? then Fired(Some(o.err), [])
      else Fired(None, if m.wait != [] then [Frame(true, EmptyReply(m.wait))] else [])
    else if ANY_EVENT in events then Fired(OutcomeError(o), [])
    else Fired(None, [])
  }

  function EventsOf(cfg: Config, namespace: Bytes): set<Bytes> {
    if namespace in cfg.namespaces then cfg.namespaces[namespace] else {}
  }

  /** `Conn.canWrite` on an open connection. */
  predicate CanWrite(cfg: Config, connected: set<Bytes>, m: Message) {
    && (IsNamespaceEvent(m.event) || m.namespace in connected)
    && !(m.fromExplicit != [] && m.fromExplicit == cfg.id)
  }

  function MessageFrame(m: Message): Frame {
    Frame(m.binary, SerializeMessage(m.(fromExplicit := [])))
  }

  function Write(cfg: Config, connected: set<Bytes>, m: Message): seq<Frame> {
    if CanWrite(cfg, connected, m) then [MessageFrame(m)] else []
  }

  // ---- namespace requests ----

  datatype Handled = Handled(connected: set<Bytes>, sent: seq<Frame>)

  const BAD_NAMESPACE := Plain("bad namespace")

  function ReplyConnect(cfg: Config, connected: set<Bytes>, m: Message, a: Answers): Handled {
    if m.wait == [] || m.noOp then Handled(connected, [])
    else if m.namespace in connected then Handled(connected, [Frame(false, EmptyReply(m.wait))])
    else if m.namespace !in cfg.namespaces then
      Handled(connected, Write(cfg, connected, m.(err := Some(BAD_NAMESPACE))))
    else
      var events := cfg.namespaces[m.namespace];
      var fired := FireEvent(events, m, a.first);
      if fired.err.Some? then Handled(connected, Write(cfg, connected, m.(err := fired.err)))
      else
        Handled(connected + {m.namespace},
                fired.sent + [Frame(false, EmptyReply(m.wait))]
                + FireEvent(events, m.(event := NAMESPACE_CONNECTED), a.second).sent)
  }

  function ReplyDisconnect(cfg: Config, connected: set<Bytes>, m: Message, a: Answers): Handled {
    if m.wait == [] || m.noOp then Handled(connected, [])
    else if m.namespace !in connected then Handled(connected, [Frame(false, EmptyReply(m.wait))])
    else
      var fired := FireEvent(EventsOf(cfg, m.namespace), m, a.first);
      if cfg.isClient then
        Handled(connected - {m.namespace}, [Frame(false, EmptyReply(m.wait))] + fired.sent)
      else if fired.err.Some? then Handled(connected, Write(cfg, connected, m.(err := fired.err)))
      else
        Handled(connected - {m.namespace},
                fired.sent + a.party + [Frame(false, EmptyReply(m.wait))])
  }

  /** The `switch` of `handleMessage`. An event of a namespace that is not connected draws no answer:
      the error that `tryNamespace` tries to write does not pass `canWrite`. */
  function Dispatch(cfg: Config, connected: set<Bytes>, m: Message, a: Answers): Handled {
    if m.event == NAMESPACE_CONNECT then ReplyConnect(cfg, connected, m, a)
    else if m.event == NAMESPACE_DISCONNECT then ReplyDisconnect(cfg, connected, m, a)
    else if m.event in ROOM_EVENTS then Handled(connected, [])
    else if m.namespace !in connected then Handled(connected, [])
    else if m.event in PARTY_EVENTS then Handled(connected, a.party)
    else
      var fired := FireEvent(EventsOf(cfg, m.namespace), m, a.first);
      Handled(connected, if fired.err.Some? then Write(cfg, connected, m.(err := fired.err)) else fired.sent)
  }

  // ---- what the other side decodes ----

  lemma DecodeEmptyFrame(cfg: Config, wait: Bytes, binary: bool)
    requires PlainToken(wait)
    ensures Decode(cfg, Frame(binary, EmptyReply(wait))) == EMPTY.(wait := wait, binary := binary)
  {
    DecodeEmptyReply(wait, binary, cfg.allowNative);
  }

  lemma DecodeMessageFrame(cfg: Config, m: Message)
    requires PlainToken(m.wait) && !(m.native && m.wait == [])
    ensures Decode(cfg, MessageFrame(m)) == Received(m.(fromExplicit := []), m.binary, cfg.allowNative)
    ensures IsNamespaceEvent(Decode(cfg, MessageFrame(m)).event) <==> IsNamespaceEvent(m.event)
    ensures Decode(cfg, MessageFrame(m)).event == NAMESPACE_CONNECT <==> m.event == NAMESPACE_CONNECT
    ensures Decode(cfg, MessageFrame(m)).event == NATIVE_MESSAGE <==> m.event == NATIVE_MESSAGE
  {
    DecodeSerialized(m.(fromExplicit := []), m.binary, cfg.allowNative);
    NamespaceEventSurvives(m.event);
    NativeEventSurvives(m.event);
  }

  lemma NamespaceEventSurvives(event: Bytes)
    ensures Unescape(Escape(event)) == NAMESPACE_CONNECT <==> event == NAMESPACE_CONNECT
    ensures Unescape(Escape(event)) == NAMESPACE_DISCONNECT <==> event == NAMESPACE_DISCONNECT
  {
    assert forall c | c in NAMESPACE_CONNECT :: c != SEPARATOR && c != REPLACEMENT[0];
    assert forall c | c in NAMESPACE_DISCONNECT :: c != SEPARATOR && c != REPLACEMENT[0];
    SystemNameSurvives(event, NAMESPACE_CONNECT);
    SystemNameSurvives(event, NAMESPACE_DISCONNECT);
  }

  lemma NativeEventSurvives(event: Bytes)
    ensures Unescape(Escape(event)) == NATIVE_MESSAGE <==> event == NATIVE_MESSAGE
  {
    assert forall c | c in NATIVE_MESSAGE :: c != SEPARATOR && c != REPLACEMENT[0];
    SystemNameSurvives(event, NATIVE_MESSAGE);
  }

  /** The only frames a handled message can cause. */
  ghost predicate Caused(m: Message, a: Answers, f: Frame) {
    || f == Frame(true, EmptyReply(m.wait))
    || f == Frame(false, EmptyReply(m.wait))
    || f in a.party
    || exists err :: f == MessageFrame(m.(err := err))
  }

  lemma DispatchCauses(cfg: Config, connected: set<Bytes>, m: Message, a: Answers)
    ensures forall f | f in Dispatch(cfg, connected, m, a).sent :: Caused(m, a, f)
  {
    var h := Dispatch(cfg, connected, m, a);
    if m.event == NAMESPACE_CONNECT {
      ReplyConnectCauses(cfg, connected, m, a);
    } else if m.event == NAMESPACE_DISCONNECT {
      ReplyDisconnectCauses(cfg, connected, m, a);
    }
  }

  lemma ReplyConnectCauses(cfg: Config, connected: set<Bytes>, m: Message, a: Answers)
    ensures forall f | f in ReplyConnect(cfg, connected, m, a).sent :: Caused(m, a, f)
  {
  }

  lemma ReplyDisconnectCauses(cfg: Config, connected: set<Bytes>, m: Message, a: Answers)
    ensures forall f | f in ReplyDisconnect(cfg, connected, m, a).sent :: Caused(m, a, f)
  {
  }

  /** What can be said of every message caused by `m`: its token is that of `m` or none, and it is a namespace
      or native event only if `m` is. */
  predicate Follows(d: Message, m: Message) {
    && (d.wait == [] || d.wait == m.wait) && d.fromExplicit == [] && !d.invalid
    && (IsNamespaceEvent(d.event) ==> IsNamespaceEvent(m.event))
    && (d.event == NATIVE_MESSAGE ==> m.event == NATIVE_MESSAGE)
    && (d.native ==> d.event == NATIVE_MESSAGE)
  }

  lemma EmptyReplyFollows(to: Config, m: Message, binary: bool)
    requires PlainToken(m.wait)
    ensures Follows(Decode(to, Frame(binary, EmptyReply(m.wait))), m)
  {
    DecodeEmptyFrame(to, m.wait, binary);
    assert |NAMESPACE_CONNECT| > 0 && |NAMESPACE_DISCONNECT| > 0 && |NATIVE_MESSAGE| > 0;
  }

  lemma MessageFollows(to: Config, m: Message, p: Message)
    requires PlainToken(p.wait) && !p.native && (p.wait == [] || p.wait == m.wait)
    requires p.event == m.event || (!IsNamespaceEvent(p.event) && p.event != NATIVE_MESSAGE)
    ensures Follows(Decode(to, MessageFrame(p)), m)
  {
    DecodeMessageFrame(to, p);
    NativeEventSurvives(p.event);
  }

  lemma CausedDecodes(to: Config, m: Message, a: Answers, f: Frame)
    requires PlainToken(m.wait) && !m.native && PartyFits(m, a.party)
    requires Caused(m, a, f)
    ensures Follows(Decode(to, f), m)
  {
    if f == Frame(true, EmptyReply(m.wait)) || f == Frame(false, EmptyReply(m.wait)) {
      EmptyReplyFollows(to, m, f.binary);
    } else if f in a.party {
      var p :| PartyMessage(m, p) && f == MessageFrame(p);
      MessageFollows(to, m, p);
    } else {
      var err :| f == MessageFrame(m.(err := err));
      MessageFollows(to, m, m.(err := err));
    }
  }

  // ---- the answers to one request ----

  /** A message that asks for an answer: it carries a token. */
  predicate Addressed(m: Message) {
    m.wait != [] && PlainToken(m.wait) && m.fromExplicit == [] && !m.native
  }

  /** A request a connection answers: it is not marked as a no-op. */
  predicate Request(m: Message) {
    Addressed(m) && !m.noOp
  }

  /** Whether a namespace request left the responder in the requested state. */
  predicate Granted(m: Message, connected: set<Bytes>) {
    if m.event == NAMESPACE_CONNECT then m.namespace in connected else m.namespace !in connected
  }

  function Tagged(ms: seq<Message>, wait: Bytes): seq<Message> {
    if ms == [] then [] else (if ms[0].wait == wait then [ms[0]] else []) + Tagged(ms[1..], wait)
  }

  /** The error a namespace request is refused with, if it is. */
  function Refusal(cfg: Config, connected: set<Bytes>, m: Message, a: Answers): Option<Failure> {
    if m.event == NAMESPACE_CONNECT then
      if m.namespace in connected then None
      else if m.namespace !in cfg.namespaces then Some(BAD_NAMESPACE)
      else FireEvent(cfg.namespaces[m.namespace], m, a.first).err
    else
      if m.namespace !in connected || cfg.isClient then None
      else FireEvent(EventsOf(cfg, m.namespace), m, a.first).err
  }

  /** A refused request draws one error frame and changes nothing. */
  lemma RefusedAnswer(cfg: Config, connected: set<Bytes>, m: Message, a: Answers)
    requires Request(m) && IsNamespaceEvent(m.event)
    requires Refusal(cfg, connected, m, a).Some?
    ensures var h := Dispatch(cfg, connected, m, a);
            && h.connected == connected
            && h.sent == [MessageFrame(m.(err := Refusal(cfg, connected, m, a)))]
  {
  }

  predicate EmptyFrames(frames: seq<Frame>, wait: Bytes) {
    forall f | f in frames :: f == Frame(f.binary, EmptyReply(wait))
  }

  /** How many empty replies a granted request draws: the responder's own, and one for each handler that is
      registered by name, fired and accepts. */
  function ReplyCount(cfg: Config, connected: set<Bytes>, m: Message, a: Answers): nat {
    var events := EventsOf(cfg, m.namespace);
    if Granted(m, connected) then 1
    else
      1 + (if m.event in events && a.first.Accept? then 1 else 0)
        + (if m.event == NAMESPACE_CONNECT && NAMESPACE_CONNECTED in events && a.second.Accept? then 1 else 0)
  }

  /** A server that grants a disconnect forces the namespace out of its party first. */
  predicate ForcesLeave(cfg: Config, connected: set<Bytes>, m: Message) {
    m.event == NAMESPACE_DISCONNECT && !cfg.isClient && m.namespace in connected
  }

  /** A granted request draws its empty replies around what a forced leave wrote, if there was one. */
  lemma GrantedAnswer(cfg: Config, connected: set<Bytes>, m: Message, a: Answers)
      returns (pre: seq<Frame>, party: seq<Frame>, post: seq<Frame>)
    requires Request(m) && IsNamespaceEvent(m.event)
    requires Refusal(cfg, connected, m, a).None?
    ensures var h := Dispatch(cfg, connected, m, a);
            && h.sent == pre + party + post
            && h.connected == (if m.event == NAMESPACE_CONNECT then connected + {m.namespace}
                               else connected - {m.namespace})
    ensures EmptyFrames(pre, m.wait) && EmptyFrames(post, m.wait)
    ensures |pre| + |post| == ReplyCount(cfg, connected, m, a)
    ensures party == if ForcesLeave(cfg, connected, m) then a.party else []
    ensures ForcesLeave(cfg, connected, m) ==> |post| == 1
  {
    var h := Dispatch(cfg, connected, m, a);
    if ForcesLeave(cfg, connected, m) {
      pre := FireEvent(EventsOf(cfg, m.namespace), m, a.first).sent;
      party := a.party;
      post := [Frame(false, EmptyReply(m.wait))];
    } else {
      pre, party, post := [], [], h.sent;
    }
  }

  lemma NamespaceEventIsNoParty(event: Bytes)
    requires IsNamespaceEvent(event)
    ensures event !in PARTY_EVENTS && event != []
  {
    assert forall e | e in PARTY_EVENTS :: e[3] == 'P';
    assert event[3] == 'N';
  }

  lemma ForcedLeaveFrame(to: Config, m: Message, f: Frame)
    requires m.event !in PARTY_EVENTS && PartyFrame(m, f)
    ensures var d := Decode(to, f);
            d.wait == [] && d.fromExplicit == [] && !d.invalid && !IsNamespaceEvent(d.event)
  {
    var p :| PartyMessage(m, p) && f == MessageFrame(p);
    DecodeMessageFrame(to, p);
  }

  lemma RefusalFrame(to: Config, m: Message, e: Failure)
    requires Request(m)
    ensures var d := Decode(to, MessageFrame(m.(err := Some(e))));
            d.wait == m.wait && d.fromExplicit == [] && !d.invalid && (d.err.None? <==> e.Reply?)
  {
    DecodeMessageFrame(to, m.(err := Some(e)));
  }

  lemma AnswerFrame(to: Config, m: Message, a: Answers, f: Frame)
    requires Request(m) && IsNamespaceEvent(m.event) && PartyFits(m, a.party)
    requires f == Frame(f.binary, EmptyReply(m.wait)) || f in a.party
    ensures var d := Decode(to, f);
            && d.fromExplicit == [] && !d.invalid && !IsNamespaceEvent(d.event)
            && d.wait == (if f == Frame(f.binary, EmptyReply(m.wait)) then m.wait else [])
            && (d.wait == m.wait ==> d.err.None?)
  {
    NamespaceEventIsNoParty(m.event);
    if f == Frame(f.binary, EmptyReply(m.wait)) {
      DecodeEmptyFrame(to, m.wait, f.binary);
    } else {
      ForcedLeaveFrame(to, m, f);
    }
  }

  /** The answers to a namespace request as the requester decodes them. */
  lemma NamespaceVerdict(cfg: Config, to: Config, connected: set<Bytes>, m: Message, a: Answers, i: nat)
    requires Request(m) && IsNamespaceEvent(m.event) && PartyFits(m, a.party)
    requires i < |Dispatch(cfg, connected, m, a).sent|
    ensures var d := Decode(to, Dispatch(cfg, connected, m, a).sent[i]);
            var refusal := Refusal(cfg, connected, m, a);
            && (d.wait == [] || d.wait == m.wait) && d.fromExplicit == [] && !d.invalid
            && (d.wait == m.wait ==> (d.err.None? <==> refusal.None? || refusal.value.Reply?))
            && (refusal.None? ==> !IsNamespaceEvent(d.event))
            && (refusal.Some? ==> d.wait == m.wait)
  {
    if Refusal(cfg, connected, m, a).Some? {
      RefusedAnswer(cfg, connected, m, a);
      RefusalFrame(to, m, Refusal(cfg, connected, m, a).value);
    } else {
      var pre, party, post := GrantedAnswer(cfg, connected, m, a);
      var f := (pre + party + post)[i];
      assert f in pre || f in party || f in post;
      AnswerFrame(to, m, a, f);
    }
  }

  lemma {:induction false} TaggedConcat(x: seq<Message>, y: seq<Message>, wait: Bytes)
    ensures Tagged(x + y, wait) == Tagged(x, wait) + Tagged(y, wait)
  {
    if x == [] {
      assert x + y == y;
    } else {
      assert (x + y)[0] == x[0] && (x + y)[1..] == x[1..] + y;
      TaggedConcat(x[1..], y, wait);
      var head := if x[0].wait == wait then [x[0]] else [];
      assert head + (Tagged(x[1..], wait) + Tagged(y, wait)) == head + Tagged(x[1..], wait) + Tagged(y, wait);
    }
  }

  lemma {:induction false} TaggedAll(x: seq<Message>, wait: Bytes, all: bool)
    requires forall d | d in x :: (d.wait == wait) == all
    ensures Tagged(x, wait) == if all then x else []
  {
    if x != [] {
      assert forall d | d in x[1..] :: d in x;
      assert x[0] in x;
      TaggedAll(x[1..], wait, all);
    }
  }

  /** Reply consistency: a namespace request draws no frame with its token if it is a no-op, and otherwise between
      one and three, which are either all successes or a single error; they are successes exactly when the
      responder granted the request, unless its handler answered with a `Reply`, which refuses and yet reads
      as a success. */
  lemma ReplyConsistency(cfg: Config, to: Config, connected: set<Bytes>, m: Message, a: Answers)
    requires Addressed(m) && IsNamespaceEvent(m.event) && PartyFits(m, a.party)
    ensures var h := Dispatch(cfg, connected, m, a);
            var answers := Tagged(DecodeAll(to, h.sent), m.wait);
            && (answers == [] <==> m.noOp) && (m.noOp ==> h == Handled(connected, []))
            && (!m.noOp ==> Verdict(answers, m, h.connected, Refusal(cfg, connected, m, a)))
            && (!m.noOp ==>
                  |answers| == if Refusal(cfg, connected, m, a).Some? then 1 else ReplyCount(cfg, connected, m, a))
  {
    if m.noOp {
      assert Dispatch(cfg, connected, m, a).sent == [];
    } else {
      RequestReplies(cfg, to, connected, m, a);
    }
  }

  predicate Verdict(answers: seq<Message>, m: Message, connected: set<Bytes>, refusal: Option<Failure>) {
    && 1 <= |answers| <= 3
    && ((forall d | d in answers :: d.err.None?) || (|answers| == 1 && answers[0].err.Some?))
    && (answers[0].err.None? <==> Granted(m, connected) || (refusal.Some? && refusal.value.Reply?))
  }

  lemma RequestReplies(cfg: Config, to: Config, connected: set<Bytes>, m: Message, a: Answers)
    requires Request(m) && IsNamespaceEvent(m.event) && PartyFits(m, a.party)
    ensures var h := Dispatch(cfg, connected, m, a);
            var answers := Tagged(DecodeAll(to, h.sent), m.wait);
            && Verdict(answers, m, h.connected, Refusal(cfg, connected, m, a))
            && |answers| == if Refusal(cfg, connected, m, a).Some? then 1 else ReplyCount(cfg, connected, m, a)
  {
    var h := Dispatch(cfg, connected, m, a);
    var ds := DecodeAll(to, h.sent);
    forall i | 0 <= i < |ds|
      ensures ds[i].wait == m.wait ==>
                (ds[i].err.None? <==> Refusal(cfg, connected, m, a).None? || Refusal(cfg, connected, m, a).value.Reply?)
      ensures Refusal(cfg, connected, m, a).Some? ==> ds[i].wait == m.wait
    {
      NamespaceVerdict(cfg, to, connected, m, a, i);
    }
    TaggedFrom(ds, m.wait);
    if Refusal(cfg, connected, m, a).Some? {
      RefusedAnswer(cfg, connected, m, a);
      TaggedAll(ds, m.wait, true);
    } else {
      var pre, party, post := GrantedAnswer(cfg, connected, m, a);
      TaggedAnswer(to, m, a, pre, party, post);
    }
  }

  lemma DecodeAllConcat(to: Config, x: seq<Frame>, y: seq<Frame>)
    ensures DecodeAll(to, x + y) == DecodeAll(to, x) + DecodeAll(to, y)
  {
    var whole, parts := DecodeAll(to, x + y), DecodeAll(to, x) + DecodeAll(to, y);
    forall i | 0 <= i < |whole|
      ensures whole[i] == parts[i]
    {
      var f := if i < |x| then x[i] else y[i - |x|];
      assert (x + y)[i] == f;
      assert whole[i] == Decode(to, f);
    }
  }

  lemma TaggedDecodes(to: Config, frames: seq<Frame>, wait: Bytes, all: bool)
    requires forall i | 0 <= i < |frames| :: (Decode(to, frames[i]).wait == wait) == all
    ensures |Tagged(DecodeAll(to, frames), wait)| == if all then |frames| else 0
  {
    TaggedAll(DecodeAll(to, frames), wait, all);
  }

  lemma {:induction false} TaggedFrom(ms: seq<Message>, wait: Bytes)
    ensures forall d | d in Tagged(ms, wait) :: d in ms && d.wait == wait
  {
    if ms != [] { TaggedFrom(ms[1..], wait); }
  }

  lemma TaggedAnswer(to: Config, m: Message, a: Answers, pre: seq<Frame>, party: seq<Frame>, post: seq<Frame>)
    requires Request(m) && PartyFits(m, a.party) && IsNamespaceEvent(m.event)
    requires EmptyFrames(pre, m.wait) && EmptyFrames(post, m.wait)
    requires party == [] || party == a.party
    ensures |Tagged(DecodeAll(to, pre + party + post), m.wait)| == |pre| + |post|
  {
    var x, y, z := DecodeAll(to, pre), DecodeAll(to, party), DecodeAll(to, post);
    DecodeAllConcat(to, pre, party);
    DecodeAllConcat(to, pre + party, post);
    TaggedConcat(x + y, z, m.wait);
    TaggedConcat(x, y, m.wait);
    EmptyFramesTagged(to, m, a, pre);
    EmptyFramesTagged(to, m, a, post);
    ForcedLeaveUntagged(to, m, a, party);
  }

  lemma ForcedLeaveUntagged(to: Config, m: Message, a: Answers, party: seq<Frame>)
    requires Request(m) && PartyFits(m, a.party) && IsNamespaceEvent(m.event)
    requires party == [] || party == a.party
    ensures |Tagged(DecodeAll(to, party), m.wait)| == 0
  {
    forall i | 0 <= i < |party|
      ensures Decode(to, party[i]).wait == []
    {
      NamespaceEventIsNoParty(m.event);
      ForcedLeaveFrame(to, m, party[i]);
    }
    TaggedDecodes(to, party, m.wait, false);
  }

  lemma EmptyFramesTagged(to: Config, m: Message, a: Answers, frames: seq<Frame>)
    requires Request(m) && PartyFits(m, a.party) && IsNamespaceEvent(m.event) && EmptyFrames(frames, m.wait)
    ensures |Tagged(DecodeAll(to, frames), m.wait)| == |frames|
  {
    forall i | 0 <= i < |frames|
      ensures Decode(to, frames[i]).wait == m.wait
    {
      assert frames[i] in frames;
      AnswerFrame(to, m, a, frames[i]);
    }
    TaggedDecodes(to, frames, m.wait, true);
  }

  // ---- custom events ----

  /** What the receiver of a message reads in it: a success with a body, or the text of an error. */
  datatype Reading = Success(body: Bytes) | Failed(text: Bytes)

  /** A decoded error is always a text. */
  function ReadingOf(d: Message): Reading {
    match d.err
    case None => Success(d.body)
    case Some(Reply(b)) => Success(b)
    case Some(Coded(_, text)) => Failed(text)
    case Some(Plain(text)) => Failed(text)
  }

  /** How an error value a handler returns is read at the other end: the body of a `Reply`, or the decimal code, which
      is -99 for an error without one. */
  function ReadingOfError(e: Failure): Reading {
    match e
    case Reply(b) => Success(b)
    case Coded(code, _) => Failed(FormatInt(code))
    case Plain(_) => Failed("-99")
  }

  lemma ErrorReads(to: Config, m: Message, e: Failure)
    requires PlainToken(m.wait) && !m.native
    ensures var d := Decode(to, MessageFrame(m.(err := Some(e))));
            && ReadingOf(d) == ReadingOfError(e) && d.wait == m.wait && d.noOp == m.noOp && d.binary == m.binary
            && !d.invalid && d.fromExplicit == []
            && (d.namespace == m.namespace <==> EscapeSafe(m.namespace))
            && (d.room == m.room <==> EscapeSafe(m.room)) && (d.event == m.event <==> EscapeSafe(m.event))
  {
    DecodeMessageFrame(to, m.(err := Some(e)));
    DefaultCodeText();
    UnescapeEscape(m.namespace);
    UnescapeEscape(m.room);
    UnescapeEscape(m.event);
  }

  predicate CustomEvent(event: Bytes) {
    !IsNamespaceEvent(event) && event !in ROOM_EVENTS && event !in PARTY_EVENTS
  }

  /** A handler of the event, by name or the catch-all, refuses it. */
  predicate Refuses(events: set<Bytes>, event: Bytes, o: Outcome) {
    (event in events || ANY_EVENT in events) && o.Reject?
  }

  /** The message claims to come from this very connection. */
  predicate FromItself(cfg: Config, m: Message) {
    m.fromExplicit != [] && m.fromExplicit == cfg.id
  }

  /** End to end: what a custom event of a connected namespace draws, asked with a token or emitted without. If the
      handler refuses, exactly one frame goes back, unless the message claims to come from this connection; it
      is decoded under the token of the message, if any, to the body of a `Reply` or to the error's decimal
      code. If a handler registered by name accepts a message with a token, exactly one empty reply goes back.
      In all other cases nothing does. */
  lemma CustomEventOutcome(cfg: Config, to: Config, connected: set<Bytes>, m: Message, a: Answers)
    requires PlainToken(m.wait) && !m.native && m.namespace in connected && CustomEvent(m.event)
    ensures var h := Dispatch(cfg, connected, m, a);
            var events := EventsOf(cfg, m.namespace);
            && h.connected == connected
            && if Refuses(events, m.event, a.first) && !FromItself(cfg, m) then
                 && |h.sent| == 1
                 && var d := Decode(to, h.sent[0]);
                    && ReadingOf(d) == ReadingOfError(a.first.err) && d.wait == m.wait && !d.invalid
                    && (EscapeSafe(m.namespace) && EscapeSafe(m.room) && EscapeSafe(m.event) ==>
                          d.namespace == m.namespace && d.room == m.room && d.event == m.event)
               else if m.event in events && a.first.Accept? && m.wait != [] then
                 |h.sent| == 1 && Decode(to, h.sent[0]) == EMPTY.(wait := m.wait, binary := true)
               else h.sent == []
  {
    DecodeEmptyFrame(to, m.wait, true);
    if a.first.Reject? { ErrorReads(to, m, a.first.err); }
  }

  /** In particular an ask draws exactly one frame if a handler of the event is registered or the catch-all refuses, and
      none otherwise. */
  lemma CustomAskOutcome(cfg: Config, to: Config, connected: set<Bytes>, m: Message, a: Answers)
    requires Request(m) && m.namespace in connected && CustomEvent(m.event)
    ensures var sent := Dispatch(cfg, connected, m, a).sent;
            var events := EventsOf(cfg, m.namespace);
            var answers := m.event in events || (ANY_EVENT in events && a.first.Reject?);
            && |sent| == (if answers then 1 else 0)
            && (answers ==>
                  var d := Decode(to, sent[0]);
                  && d.wait == m.wait && !d.invalid
                  && ReadingOf(d) == if a.first.Accept? then Success([]) else ReadingOfError(a.first.err))
  {
    CustomEventOutcome(cfg, to, connected, m, a);
  }

  /** Room events, and events other than connect and disconnect of a namespace that is not connected, change nothing
      and draw nothing. Party events of a connected one draw what the party operations write. */
  lemma OtherEvents(cfg: Config, connected: set<Bytes>, m: Message, a: Answers)
    requires !IsNamespaceEvent(m.event)
    ensures m.event in ROOM_EVENTS || m.namespace !in connected ==>
              Dispatch(cfg, connected, m, a) == Handled(connected, [])
    ensures m.event in PARTY_EVENTS && m.namespace in connected ==>
              Dispatch(cfg, connected, m, a) == Handled(connected, a.party)
  {
    assert forall e | e in ROOM_EVENTS :: e[3] == 'R';
    assert forall e | e in PARTY_EVENTS :: e[3] == 'P';
  }

  lemma DefaultCodeText()
    ensures FormatInt(DEFAULT_CODE) == "-99"
  {
    assert Digits(9) == "9" && Digits(99) == Digits(9) + [Digit(9)];
  }
}
