/** What the client of a party operation gets to see (conn_party.go): the replies under its token, one by one, and the
    notices that a party was joined or left, for each event and every answer of the handlers. */
module PartyReplies {
  import opened Text
  import opened Escaping
  import opened Codec
  import opened Protocol
  import opened PartyFrames

  function ReadUnder(ms: seq<Message>, wait: Bytes): seq<Reading> {
    if ms == [] then []
    else (if ms[0].wait == wait then [ReadingOf(ms[0])] else []) + ReadUnder(ms[1..], wait)
  }

  /** The replies under a token, as the requester reads them, in order; a request returns the first. */
  function Readings(to: Config, frames: seq<Frame>, wait: Bytes): seq<Reading> {
    ReadUnder(DecodeAll(to, frames), wait)
  }

  lemma {:induction false} ReadUnderConcat(x: seq<Message>, y: seq<Message>, wait: Bytes)
    ensures ReadUnder(x + y, wait) == ReadUnder(x, wait) + ReadUnder(y, wait)
  {
    if x == [] {
      assert x + y == y;
    } else {
      assert (x + y)[0] == x[0] && (x + y)[1..] == x[1..] + y;
      ReadUnderConcat(x[1..], y, wait);
      var head := if x[0].wait == wait then [ReadingOf(x[0])] else [];
      assert head + (ReadUnder(x[1..], wait) + ReadUnder(y, wait))
          == head + ReadUnder(x[1..], wait) + ReadUnder(y, wait);
    }
  }

  lemma ReadingsConcat(to: Config, x: seq<Frame>, y: seq<Frame>, wait: Bytes)
    ensures Readings(to, x + y, wait) == Readings(to, x, wait) + Readings(to, y, wait)
  {
    DecodeAllConcat(to, x, y);
    ReadUnderConcat(DecodeAll(to, x), DecodeAll(to, y), wait);
  }

  lemma One(to: Config, f: Frame, d: Message, wait: Bytes)
    requires d == Decode(to, f)
    ensures Readings(to, [f], wait) == if d.wait == wait then [ReadingOf(d)] else []
  {
    Single(DecodeAll(to, [f]), d, wait);
  }

  lemma Single(ms: seq<Message>, d: Message, wait: Bytes)
    requires |ms| == 1 && ms[0] == d
    ensures ReadUnder(ms, wait) == if d.wait == wait then [ReadingOf(d)] else []
  {
    assert ms[1..] == [];
  }

  // ---- the replies ----

  /** The reply a handler registered by name sends by itself when it accepts. */
  function OwnReply(events: set<Bytes>, event: Bytes, o: Outcome): seq<Reading> {
    if event in events && o.Accept? then [Success([])] else []
  }

  const FAILED := [Failed("-99")]

  function LeaveReadings(events: set<Bytes>, event: Bytes, body: Bytes, inParty: bool, o: Outcome): seq<Reading> {
    if !inParty then FAILED
    else if Refuses(events, event, o) then [ReadingOfError(o.err)]
    else OwnReply(events, event, o) + [Success(body)]
  }

  /** Create lets a `Reply` through as a success and goes on. */
  function CreateReadings(events: set<Bytes>, event: Bytes, inParty: bool, o: Outcome, installs: bool): seq<Reading> {
    if inParty then FAILED
    else if Refuses(events, event, o) && !o.err.Reply? then [ReadingOfError(o.err)]
    else
      (if Refuses(events, event, o) then [ReadingOfError(o.err)] else OwnReply(events, event, o))
      + if installs then [] else FAILED
  }

  function JoinFreshReadings(events: set<Bytes>, event: Bytes, o: Outcome, installs: bool): seq<Reading> {
    if Refuses(events, event, o) then [ReadingOfError(o.err)]
    else OwnReply(events, event, o) + if installs then [] else FAILED
  }

  function JoinReadings(events: set<Bytes>, event: Bytes, inParty: bool, forced: bool, leaving: Outcome, o: Outcome,
                        installs: bool): seq<Reading>
  {
    if inParty && !forced then [Failed("1")]
    else if inParty && Refuses(events, "_OnPartyLeave", leaving) then [ReadingOfError(leaving.err)]
    else JoinFreshReadings(events, event, o, installs)
  }

  /** An invitation that has to create a party first draws the replies of the create, too. */
  function InviteReadings(events: set<Bytes>, event: Bytes, creates: bool, create: Outcome, installs: bool, o: Outcome)
    : seq<Reading>
  {
    var created := if creates then CreateReadings(events, "_OnPartyCreate", false, create, installs) else [];
    var failed := creates && (!installs || (Refuses(events, "_OnPartyCreate", create) && !create.err.Reply?));
    created
    + if failed then FAILED
      else if Refuses(events, event, o) then [ReadingOfError(o.err)]
      else OwnReply(events, event, o) + [Success([])]
  }

  /** The error of a failed join is written twice: as one of the join message and as one of the invitation. */
  function AcceptReadings(events: set<Bytes>, wait: Bytes, inParty: bool, leaving: Outcome, hook: JoinMessage,
                          join: Outcome, installs: bool): seq<Reading>
  {
    if inParty && Refuses(events, "_OnPartyLeave", leaving) then [ReadingOfError(leaving.err)]
    else if hook.NoJoin? then [ReadingOfError(hook.err)]
    else
      (if hook.m.wait == wait then JoinFreshReadings(events, hook.m.event, join, installs) else [])
      + if Refuses(events, hook.m.event, join) then [ReadingOfError(join.err)]
        else if installs then [] else FAILED
  }

  /** All replies to a party request, by the name of its event, the party it finds and what the handlers answer. */
  function AnswerReadings(events: set<Bytes>, m: Message, inParty: bool, first: Outcome, c: Choices, installs: bool)
    : seq<Reading>
  {
    if m.event == "_OnPartyCreate" then CreateReadings(events, m.event, inParty, first, installs)
    else if m.event == "_OnPartyJoin" then
      JoinReadings(events, m.event, inParty, c.forced, c.leaving, first, installs)
    else if m.event == "_OnPartyLeave" then LeaveReadings(events, m.event, m.body, inParty, first)
    else if m.event == "_OnPartyInvite" then
      InviteReadings(events, m.event, !inParty && c.autoCreate, c.create, installs, first)
    else if Refuses(events, m.event, first) then [ReadingOfError(first.err)]
    else
      OwnReply(events, m.event, first) + AcceptReadings(events, m.wait, inParty, c.leaving, c.hook, c.join, installs)
  }

  predicate Token(wait: Bytes) {
    wait != [] && PlainToken(wait)
  }

  /** A message under the token or without one, and not native, as party operations write them. */
  predicate Written(p: Message, wait: Bytes) {
    !p.native && (p.wait == wait || p.wait == [])
  }

  lemma EchoReads(to: Config, p: Message, wait: Bytes)
    requires Token(wait) && Written(p, wait) && p.err.None?
    ensures Readings(to, [MessageFrame(p)], wait) == if p.wait == wait then [Success(p.body)] else []
  {
    DecodeMessageFrame(to, p);
    One(to, MessageFrame(p), Decode(to, MessageFrame(p)), wait);
  }

  lemma ErrorIsRead(to: Config, p: Message, e: Failure, wait: Bytes)
    requires Token(wait) && Written(p, wait)
    ensures Readings(to, [MessageFrame(p.(err := Some(e)))], wait)
         == if p.wait == wait then [ReadingOfError(e)] else []
  {
    ErrorReads(to, p, e);
    One(to, MessageFrame(p.(err := Some(e))), Decode(to, MessageFrame(p.(err := Some(e)))), wait);
  }

  lemma EmptyReads(to: Config, binary: bool, wait: Bytes)
    requires Token(wait)
    ensures Readings(to, [Frame(binary, EmptyReply(wait))], wait) == [Success([])]
  {
    DecodeEmptyFrame(to, wait, binary);
    One(to, Frame(binary, EmptyReply(wait)), Decode(to, Frame(binary, EmptyReply(wait))), wait);
  }

  lemma FireReads(to: Config, events: set<Bytes>, p: Message, o: Outcome, wait: Bytes)
    requires Token(wait) && Written(p, wait)
    ensures Readings(to, FireEvent(events, p, o).sent, wait)
         == if p.wait == wait then OwnReply(events, p.event, o) else []
  {
    EmptyReads(to, true, wait);
  }

  lemma RefuseReads(to: Config, sent: seq<Frame>, p: Message, e: Failure, wait: Bytes)
    requires Token(wait) && Written(p, wait)
    ensures Readings(to, Refuse(sent, p, e).sent, wait)
         == Readings(to, sent, wait) + if p.wait == wait then [ReadingOfError(e)] else []
  {
    ErrorIsRead(to, p, e, wait);
    ReadingsConcat(to, sent, [MessageFrame(p.(err := Some(e)))], wait);
  }

  /** A refusal after frames that reply nothing is the only reply. */
  lemma RefuseFirst(to: Config, sent: seq<Frame>, p: Message, e: Failure, wait: Bytes)
    requires Token(wait) && Written(p, wait) && p.wait == wait && Readings(to, sent, wait) == []
    ensures Readings(to, Refuse(sent, p, e).sent, wait) == [ReadingOfError(e)]
  {
    RefuseReads(to, sent, p, e, wait);
    NothingBefore([ReadingOfError(e)]);
  }

  lemma PlainReads(to: Config, sent: seq<Frame>, p: Message, wait: Bytes)
    requires Token(wait) && Written(p, wait) && p.err.None?
    ensures Readings(to, sent + [MessageFrame(p)], wait)
         == Readings(to, sent, wait) + if p.wait == wait then [Success(p.body)] else []
  {
    EchoReads(to, p, wait);
    ReadingsConcat(to, sent, [MessageFrame(p)], wait);
  }

  lemma LeaveReads(to: Config, ns: Bytes, events: set<Bytes>, p: Message, inParty: bool, o: Outcome, wait: Bytes)
    requires Token(wait) && Written(p, wait) && p.err.None?
    ensures Readings(to, Leave(ns, events, p, inParty, o).sent, wait)
         == if p.wait == wait then LeaveReadings(events, p.event, p.body, inParty, o) else []
  {
    var fired := FireEvent(events, p, o);
    FireOutcome(events, p, o);
    FireReads(to, events, p, o, wait);
    if !inParty {
      RefuseReads(to, [], p, NOT_IN_PARTY, wait);
    } else if fired.err.Some? {
      RefuseReads(to, fired.sent, p, fired.err.value, wait);
    } else {
      PlainReads(to, fired.sent, p, wait);
      PlainReads(to, fired.sent + [MessageFrame(p)], LeftMessage(ns), wait);
    }
  }

  /** The end of a create or join, after the replies `before`. */
  lemma EndReads(to: Config, ns: Bytes, sent: seq<Frame>, p: Message, e: Failure, info: Option<Bytes>, wait: Bytes)
    requires Token(wait) && Written(p, wait) && e.Plain?
    ensures info.None? ==>
              Readings(to, Refuse(sent, p, e).sent, wait)
              == Readings(to, sent, wait) + if p.wait == wait then FAILED else []
    ensures info.Some? ==>
              Readings(to, sent + [MessageFrame(JoinedMessage(ns, info.value))], wait) == Readings(to, sent, wait)
  {
    RefuseReads(to, sent, p, e, wait);
    if info.Some? { PlainReads(to, sent, JoinedMessage(ns, info.value), wait); }
  }

  lemma CreateReads(to: Config, ns: Bytes, events: set<Bytes>, p: Message, inParty: bool, o: Outcome,
                    info: Option<Bytes>, wait: Bytes)
    requires Token(wait) && Written(p, wait) && p.wait == wait && p.err.None?
    ensures Readings(to, Create(ns, events, p, inParty, o, info).sent, wait)
         == CreateReadings(events, p.event, inParty, o, info.Some?)
    ensures Create(ns, events, p, inParty, o, info).err.None?
       <==> !inParty && !(Refuses(events, p.event, o) && !o.err.Reply?) && info.Some?
  {
    var fired := FireEvent(events, p, o);
    FireOutcome(events, p, o);
    FireReads(to, events, p, o, wait);
    if inParty {
      RefuseReads(to, [], p, IN_PARTY, wait);
    } else if fired.err.Some? && !fired.err.value.Reply? {
      RefuseReads(to, fired.sent, p, fired.err.value, wait);
    } else if fired.err.Some? {
      ReplyLetThrough(to, ns, fired.sent, p, fired.err.value.body, info, wait);
    } else {
      assert fired.sent + [] == fired.sent;
      EndReads(to, ns, fired.sent, p, NO_PARTY_CREATED, info, wait);
    }
  }

  /** A create whose handler answers with a `Reply`. */
  lemma ReplyLetThrough(to: Config, ns: Bytes, sent: seq<Frame>, p: Message, body: Bytes, info: Option<Bytes>,
                        wait: Bytes)
    requires Token(wait) && Written(p, wait) && p.wait == wait && p.err.None? && Readings(to, sent, wait) == []
    ensures var more := sent + [MessageFrame(p.(body := body))];
            Readings(to, if info.None? then Refuse(more, p, NO_PARTY_CREATED).sent
                         else more + [MessageFrame(JoinedMessage(ns, info.value))], wait)
            == [Success(body)] + if info.Some? then [] else FAILED
  {
    PlainReads(to, sent, p.(body := body), wait);
    NothingBefore([Success(body)]);
    EndReads(to, ns, sent + [MessageFrame(p.(body := body))], p, NO_PARTY_CREATED, info, wait);
  }

  lemma JoinFreshReads(to: Config, ns: Bytes, events: set<Bytes>, p: Message, o: Outcome, info: Option<Bytes>,
                       wait: Bytes)
    requires Token(wait) && Written(p, wait)
    ensures Readings(to, JoinFresh(ns, events, p, o, info).sent, wait)
         == if p.wait == wait then JoinFreshReadings(events, p.event, o, info.Some?) else []
    ensures JoinFresh(ns, events, p, o, info).err
         == if Refuses(events, p.event, o) then Some(o.err) else if info.Some? then None else Some(NO_PARTY_JOINED)
  {
    var fired := FireEvent(events, p, o);
    FireOutcome(events, p, o);
    FireReads(to, events, p, o, wait);
    if fired.err.Some? {
      RefuseReads(to, fired.sent, p, fired.err.value, wait);
    } else {
      EndReads(to, ns, fired.sent, p, NO_PARTY_JOINED, info, wait);
    }
  }

  lemma CodeOne()
    ensures FormatInt(1) == "1"
  {
  }

  /** Frames that reply nothing under the token go unnoticed before others. */
  lemma SilentReads(to: Config, x: seq<Frame>, y: seq<Frame>, wait: Bytes)
    requires Readings(to, x, wait) == []
    ensures Readings(to, x + y, wait) == Readings(to, y, wait)
  {
    ReadingsConcat(to, x, y, wait);
    NothingBefore(Readings(to, y, wait));
  }

  lemma NothingBefore(rs: seq<Reading>)
    ensures [] + rs == rs
  {
  }

  lemma JoinReads(to: Config, ns: Bytes, events: set<Bytes>, p: Message, current: Option<Bytes>, forced: bool,
                  leaving: Outcome, o: Outcome, info: Option<Bytes>, wait: Bytes)
    requires Token(wait) && Written(p, wait) && p.wait == wait
    ensures Readings(to, PartyFrames.Join(ns, events, p, current, forced, leaving, o, info).sent, wait)
         == JoinReadings(events, p.event, current.Some?, forced, leaving, o, info.Some?)
  {
    if current.None? {
      JoinFreshReads(to, ns, events, p, o, info, wait);
    } else if !forced {
      CodeOne();
      RefuseReads(to, [], p, Coded(ALREADY_IN_PARTY, "You are already in party, " + current.value), wait);
    } else {
      var left := Leave(ns, events, LeaveMessage(ns), true, leaving);
      FireOutcome(events, LeaveMessage(ns), leaving);
      LeaveReads(to, ns, events, LeaveMessage(ns), true, leaving, wait);
      if left.err.Some? {
        RefuseReads(to, left.sent, p, left.err.value, wait);
      } else {
        JoinFreshReads(to, ns, events, p, o, info, wait);
        SilentReads(to, left.sent, JoinFresh(ns, events, p, o, info).sent, wait);
      }
    }
  }

  lemma InviteReads(to: Config, ns: Bytes, events: set<Bytes>, m: Message, creates: bool, create: Outcome,
                    info: Option<Bytes>, o: Outcome)
    requires PartyRequest(m)
    ensures var created := Create(ns, events, m.(event := PARTY_CREATE), false, create, info);
            Readings(to, Invite(events, m, if creates then Some(created) else None, o), m.wait)
            == InviteReadings(events, m.event, creates, create, info.Some?, o)
  {
    CreateReads(to, ns, events, m.(event := PARTY_CREATE), false, create, info, m.wait);
    var created := Create(ns, events, m.(event := PARTY_CREATE), false, create, info);
    InviteAfter(to, events, m, if creates then Some(created) else None, o);
  }

  /** The replies of the invitation itself follow those of the create. */
  lemma InviteAfter(to: Config, events: set<Bytes>, m: Message, created: Option<Fired>, o: Outcome)
    requires PartyRequest(m)
    ensures Readings(to, Invite(events, m, created, o), m.wait)
         == (if created.Some? then Readings(to, created.value.sent, m.wait) else [])
            + if created.Some? && created.value.err.Some? then FAILED
              else if Refuses(events, m.event, o) then [ReadingOfError(o.err)]
              else OwnReply(events, m.event, o) + [Success([])]
  {
    var sent := if created.Some? then created.value.sent else [];
    FireOutcome(events, m, o);
    if created.Some? && created.value.err.Some? {
      RefuseReads(to, sent, m, CANNOT_INVITE, m.wait);
    } else {
      var fired := FireEvent(events, m, o);
      FireReads(to, events, m, o, m.wait);
      if fired.err.Some? {
        assert fired.sent == [] && sent + [] == sent;
        RefuseReads(to, sent, m, fired.err.value, m.wait);
      } else {
        InvitedReads(to, sent, fired.sent, m.wait);
      }
    }
  }

  lemma InvitedReads(to: Config, x: seq<Frame>, y: seq<Frame>, wait: Bytes)
    requires Token(wait)
    ensures Readings(to, x + y + [Frame(false, EmptyReply(wait))], wait)
         == Readings(to, x, wait) + (Readings(to, y, wait) + [Success([])])
  {
    EmptyReads(to, false, wait);
    ReadingsConcat(to, x, y, wait);
    ReadingsConcat(to, x + y, [Frame(false, EmptyReply(wait))], wait);
  }

  lemma AcceptReads(to: Config, ns: Bytes, events: set<Bytes>, m: Message, inParty: bool, leaving: Outcome,
                    hook: JoinMessage, join: Outcome, info: Option<Bytes>)
    requires PartyRequest(m) && (hook.JoinAs? ==> PartyMessage(m, hook.m))
    ensures Readings(to, AcceptFrames(ns, events, m, inParty, leaving, hook, join, info), m.wait)
         == AcceptReadings(events, m.wait, inParty, leaving, hook, join, info.Some?)
  {
    var left := if inParty then Leave(ns, events, LeaveMessage(ns), true, leaving) else Fired(None, []);
    FireOutcome(events, LeaveMessage(ns), leaving);
    if inParty { LeaveReads(to, ns, events, LeaveMessage(ns), true, leaving, m.wait); }
    if left.err.Some? {
      RefuseFirst(to, left.sent, m, left.err.value, m.wait);
    } else if hook.NoJoin? {
      RefuseFirst(to, left.sent, m, hook.err, m.wait);
    } else {
      InvitedJoinReads(to, ns, events, m, hook.m, join, info);
      SilentReads(to, left.sent, InvitedJoin(ns, events, m, hook.m, join, info), m.wait);
    }
  }

  lemma InvitedJoinReads(to: Config, ns: Bytes, events: set<Bytes>, m: Message, jm: Message, join: Outcome,
                         info: Option<Bytes>)
    requires PartyRequest(m) && PartyMessage(m, jm)
    ensures Readings(to, InvitedJoin(ns, events, m, jm, join, info), m.wait)
         == (if jm.wait == m.wait then JoinFreshReadings(events, jm.event, join, info.Some?) else [])
            + if Refuses(events, jm.event, join) then [ReadingOfError(join.err)]
              else if info.Some? then [] else FAILED
  {
    var joined := JoinFresh(ns, events, jm, join, info);
    JoinFreshReads(to, ns, events, jm, join, info, m.wait);
    if joined.err.Some? { RefuseReads(to, joined.sent, m, joined.err.value, m.wait); }
  }

  lemma ReplyInvitationReads(to: Config, ns: Bytes, events: set<Bytes>, m: Message, inParty: bool, o: Outcome,
                             leaving: Outcome, hook: JoinMessage, join: Outcome, info: Option<Bytes>)
    requires PartyRequest(m) && (hook.JoinAs? ==> PartyMessage(m, hook.m))
    ensures Readings(to, ReplyInvitation(ns, events, m, inParty, o, leaving, hook, join, info), m.wait)
         == if Refuses(events, m.event, o) then [ReadingOfError(o.err)]
            else OwnReply(events, m.event, o)
                 + AcceptReadings(events, m.wait, inParty, leaving, hook, join, info.Some?)
  {
    var fired := FireEvent(events, m, o);
    FireOutcome(events, m, o);
    FireReads(to, events, m, o, m.wait);
    AcceptReads(to, ns, events, m, inParty, leaving, hook, join, info);
    if fired.err.Some? { RefuseReads(to, fired.sent, m, fired.err.value, m.wait); }
    ReadingsConcat(to, fired.sent, AcceptFrames(ns, events, m, inParty, leaving, hook, join, info), m.wait);
  }

  /** What the requester of a party event reads under its token, reply by reply, for every event by its name. */
  lemma PartyAnswered(to: Config, ns: Bytes, events: set<Bytes>, m: Message, current: Option<Bytes>, first: Outcome,
                      c: Choices, info: Option<Bytes>)
    requires PartyRequest(m) && (c.hook.JoinAs? ==> PartyMessage(m, c.hook.m))
    ensures Readings(to, Answer(KindOf(m.event), ns, events, m, current, first, c, info), m.wait)
         == AnswerReadings(events, m, current.Some?, first, c, info.Some?)
  {
    EventNames();
    match KindOf(m.event) {
      case CreateParty => CreateReads(to, ns, events, m, current.Some?, first, info, m.wait);
      case JoinParty => JoinReads(to, ns, events, m, current, c.forced, c.leaving, first, info, m.wait);
      case LeaveParty => LeaveReads(to, ns, events, m, current.Some?, first, m.wait);
      case InviteParty => InviteReads(to, ns, events, m, current.None? && c.autoCreate, c.create, info, first);
      case AnswerInvitation =>
        ReplyInvitationReads(to, ns, events, m, current.Some?, first, c.leaving, c.hook, c.join, info);
    }
  }

  // ---- the notices ----

  predicate IsNotice(event: Bytes) {
    event == PARTY_JOINED || event == PARTY_LEFT
  }

  lemma NoticeNames()
    ensures PARTY_JOINED != PARTY_LEFT && PARTY_JOINED != [] && PARTY_LEFT != []
    ensures forall event | event in PARTY_EVENTS :: !IsNotice(event)
    ensures forall event | IsNotice(event) :: SEPARATOR !in event && REPLACEMENT[0] !in event
  {
    assert |PARTY_JOINED| == 14 && |PARTY_LEFT| == 12 && PARTY_LEFT[10] == 'f';
    assert |PARTY_JOIN| == 12 && PARTY_JOIN[8] == 'J';
    assert "_OnPartyCreate"[8] == 'C' && "_OnPartyLeave"[10] == 'a' && "_OnPartyInvite"[8] == 'I';
    assert "_OnPartyReplyInvitation"[8] == 'R' && PARTY_LEFT[8] == 'L' && PARTY_JOINED[8] == 'J';
    assert forall c | c in PARTY_JOINED :: c != SEPARATOR && c != REPLACEMENT[0];
    assert forall c | c in PARTY_LEFT :: c != SEPARATOR && c != REPLACEMENT[0];
  }

  /** How the client decodes frames. The lemmas hold for every view that keeps notices apart from the rest. */
  type Viewer = Frame -> Message

  function View(to: Config): Viewer {
    f => Decode(to, f)
  }

  /** The messages for one event among the frames, as the client sees them. */
  function Announced(view: Viewer, frames: seq<Frame>, event: Bytes): seq<Message> {
    if frames == [] then []
    else (if view(frames[0]).event == event then [view(frames[0])] else []) + Announced(view, frames[1..], event)
  }

  lemma {:induction false} AnnouncedConcat(view: Viewer, x: seq<Frame>, y: seq<Frame>, event: Bytes)
    ensures Announced(view, x + y, event) == Announced(view, x, event) + Announced(view, y, event)
  {
    if x == [] {
      assert x + y == y;
    } else {
      assert (x + y)[0] == x[0] && (x + y)[1..] == x[1..] + y;
      AnnouncedConcat(view, x[1..], y, event);
      var head := if view(x[0]).event == event then [view(x[0])] else [];
      assert head + (Announced(view, x[1..], event) + Announced(view, y, event))
          == head + Announced(view, x[1..], event) + Announced(view, y, event);
    }
  }

  lemma OneAnnounced(view: Viewer, f: Frame, event: Bytes)
    ensures Announced(view, [f], event) == if view(f).event == event then [view(f)] else []
  {
    assert [f][1..] == [];
  }

  /** A message is seen as a notice exactly if it is that notice, and an empty reply never. */
  ghost predicate Discerning(view: Viewer) {
    && (forall p: Message, event | IsNotice(event) && PlainToken(p.wait) && !p.native ::
          view(MessageFrame(p)).event == event <==> p.event == event)
    && (forall binary, wait, event | IsNotice(event) && PlainToken(wait) ::
          view(Frame(binary, EmptyReply(wait))).event != event)
  }

  lemma ClientIsDiscerning(to: Config)
    ensures Discerning(View(to))
  {
    NoticeNames();
    forall p: Message, event | IsNotice(event) && PlainToken(p.wait) && !p.native
      ensures View(to)(MessageFrame(p)).event == event <==> p.event == event
    {
      DecodeMessageFrame(to, p);
      SystemNameSurvives(p.event, event);
    }
    forall binary, wait, event | IsNotice(event) && PlainToken(wait)
      ensures View(to)(Frame(binary, EmptyReply(wait))).event != event
    {
      DecodeEmptyFrame(to, wait, binary);
    }
  }

  /** The notices of an operation, as the client sees them. */
  function JoinedSeen(view: Viewer, ns: Bytes, info: Bytes): Message {
    view(MessageFrame(JoinedMessage(ns, info)))
  }

  function LeftSeen(view: Viewer, ns: Bytes): Message {
    view(MessageFrame(LeftMessage(ns)))
  }

  /** A notice carries no token, the party's info, and the namespace exactly if its name is escape-safe. */
  lemma NoticeContents(to: Config, ns: Bytes, info: Bytes)
    ensures var joined, left := JoinedSeen(View(to), ns, info), LeftSeen(View(to), ns);
            && joined.event == "_OnPartyJoined" && joined.body == info && joined.wait == [] && joined.err.None?
            && left.event == "_OnPartyLeft" && left.body == [] && left.wait == [] && left.err.None?
            && (joined.namespace == ns <==> EscapeSafe(ns)) && (left.namespace == ns <==> EscapeSafe(ns))
  {
    NoticeNames();
    DecodeMessageFrame(to, JoinedMessage(ns, info));
    DecodeMessageFrame(to, LeftMessage(ns));
    SystemNameSurvives(PARTY_JOINED, PARTY_JOINED);
    SystemNameSurvives(PARTY_LEFT, PARTY_LEFT);
    UnescapeEscape(ns);
  }

  lemma FireAnnounced(view: Viewer, events: set<Bytes>, p: Message, o: Outcome, event: Bytes)
    requires Discerning(view) && IsNotice(event) && PlainToken(p.wait)
    ensures Announced(view, FireEvent(events, p, o).sent, event) == []
  {
    OneAnnounced(view, Frame(true, EmptyReply(p.wait)), event);
  }

  /** What is announced before stays all that is announced. */
  lemma QuietAfter(view: Viewer, sent: seq<Frame>, p: Message, event: Bytes)
    requires Discerning(view) && IsNotice(event) && PlainToken(p.wait) && !p.native && p.event != event
    ensures Announced(view, sent + [MessageFrame(p)], event) == Announced(view, sent, event)
  {
    OneAnnounced(view, MessageFrame(p), event);
    AnnouncedConcat(view, sent, [MessageFrame(p)], event);
    NothingAfter(Announced(view, sent, event));
  }

  lemma NothingAfter(ms: seq<Message>)
    ensures ms + [] == ms && [] + ms == ms
  {
  }

  lemma NoticeAfter(view: Viewer, sent: seq<Frame>, p: Message)
    requires Discerning(view) && IsNotice(p.event) && p.wait == [] && !p.native && Announced(view, sent, p.event) == []
    ensures Announced(view, sent + [MessageFrame(p)], p.event) == [view(MessageFrame(p))]
  {
    OneAnnounced(view, MessageFrame(p), p.event);
    AnnouncedConcat(view, sent, [MessageFrame(p)], p.event);
    NothingAfter([view(MessageFrame(p))]);
  }

  predicate Plain(p: Message) {
    PlainToken(p.wait) && !p.native && !IsNotice(p.event)
  }

  /** The left notice is written exactly when the party is left. */
  lemma LeaveAnnounced(view: Viewer, ns: Bytes, events: set<Bytes>, p: Message, inParty: bool, o: Outcome, event: Bytes)
    requires Discerning(view) && IsNotice(event) && Plain(p)
    ensures Announced(view, Leave(ns, events, p, inParty, o).sent, event)
         == if event == PARTY_LEFT && inParty && !Refuses(events, p.event, o) then [LeftSeen(view, ns)] else []
  {
    NoticeNames();
    FireOutcome(events, p, o);
    FireAnnounced(view, events, p, o, event);
    var fired := FireEvent(events, p, o);
    if !inParty {
      QuietAfter(view, [], p.(err := Some(NOT_IN_PARTY)), event);
    } else if fired.err.Some? {
      QuietAfter(view, fired.sent, p.(err := fired.err), event);
    } else {
      QuietAfter(view, fired.sent, p, event);
      if event == PARTY_LEFT {
        NoticeAfter(view, fired.sent + [MessageFrame(p)], LeftMessage(ns));
      } else {
        QuietAfter(view, fired.sent + [MessageFrame(p)], LeftMessage(ns), event);
      }
    }
  }

  /** The end of a create or join: the joined notice, or an error. */
  lemma EndAnnounced(view: Viewer, ns: Bytes, sent: seq<Frame>, p: Message, e: Failure, info: Option<Bytes>,
                     event: Bytes)
    requires Discerning(view) && IsNotice(event) && Plain(p) && Announced(view, sent, event) == []
    ensures info.None? ==> Announced(view, Refuse(sent, p, e).sent, event) == []
    ensures info.Some? ==>
              Announced(view, sent + [MessageFrame(JoinedMessage(ns, info.value))], event)
              == (if event == PARTY_JOINED then [JoinedSeen(view, ns, info.value)] else [])
  {
    NoticeNames();
    QuietAfter(view, sent, p.(err := Some(e)), event);
    if info.Some? {
      if event == PARTY_JOINED {
        NoticeAfter(view, sent, JoinedMessage(ns, info.value));
      } else {
        QuietAfter(view, sent, JoinedMessage(ns, info.value), event);
      }
    }
  }

  lemma CreateAnnounced(view: Viewer, ns: Bytes, events: set<Bytes>, p: Message, inParty: bool, o: Outcome,
                        info: Option<Bytes>, event: Bytes)
    requires Discerning(view) && IsNotice(event) && Plain(p)
    ensures var r := Create(ns, events, p, inParty, o, info);
            Announced(view, r.sent, event)
            == if event == PARTY_JOINED && r.err.None? then [JoinedSeen(view, ns, info.value)] else []
  {
    var fired := FireEvent(events, p, o);
    if inParty {
      QuietAfter(view, [], p.(err := Some(IN_PARTY)), event);
    } else if fired.err.Some? && !fired.err.value.Reply? {
      FireAnnounced(view, events, p, o, event);
      QuietAfter(view, fired.sent, p.(err := fired.err), event);
    } else {
      CreatedAnnounced(view, ns, events, p, o, info, event);
    }
  }

  lemma CreatedAnnounced(view: Viewer, ns: Bytes, events: set<Bytes>, p: Message, o: Outcome, info: Option<Bytes>,
                         event: Bytes)
    requires Discerning(view) && IsNotice(event) && Plain(p)
    requires var fired := FireEvent(events, p, o); fired.err.None? || fired.err.value.Reply?
    ensures Announced(view, Create(ns, events, p, false, o, info).sent, event)
         == if event == PARTY_JOINED && info.Some? then [JoinedSeen(view, ns, info.value)] else []
  {
    FireAnnounced(view, events, p, o, event);
    var fired := FireEvent(events, p, o);
    if fired.err.Some? {
      EchoAnnounced(view, ns, fired.sent, p, fired.err.value.body, info, event);
    } else {
      assert fired.sent + [] == fired.sent;
      EndAnnounced(view, ns, fired.sent, p, NO_PARTY_CREATED, info, event);
    }
  }

  lemma EchoAnnounced(view: Viewer, ns: Bytes, sent: seq<Frame>, p: Message, body: Bytes, info: Option<Bytes>,
                      event: Bytes)
    requires Discerning(view) && IsNotice(event) && Plain(p) && Announced(view, sent, event) == []
    ensures var more := sent + [MessageFrame(p.(body := body))];
            && (info.None? ==> Announced(view, Refuse(more, p, NO_PARTY_CREATED).sent, event) == [])
            && (info.Some? ==>
                  Announced(view, more + [MessageFrame(JoinedMessage(ns, info.value))], event)
                  == (if event == PARTY_JOINED then [JoinedSeen(view, ns, info.value)] else []))
  {
    QuietAfter(view, sent, p.(body := body), event);
    EndAnnounced(view, ns, sent + [MessageFrame(p.(body := body))], p, NO_PARTY_CREATED, info, event);
  }

  lemma JoinFreshAnnounced(view: Viewer, ns: Bytes, events: set<Bytes>, p: Message, o: Outcome, info: Option<Bytes>,
                           event: Bytes)
    requires Discerning(view) && IsNotice(event) && Plain(p)
    ensures var r := JoinFresh(ns, events, p, o, info);
            Announced(view, r.sent, event)
            == if event == PARTY_JOINED && r.err.None? then [JoinedSeen(view, ns, info.value)] else []
  {
    FireAnnounced(view, events, p, o, event);
    var fired := FireEvent(events, p, o);
    if fired.err.Some? {
      QuietAfter(view, fired.sent, p.(err := fired.err), event);
    } else {
      EndAnnounced(view, ns, fired.sent, p, NO_PARTY_JOINED, info, event);
    }
  }

  /** A party is left, and one is joined: first the one notice, then the other. */
  lemma JoinAnnounced(view: Viewer, ns: Bytes, events: set<Bytes>, p: Message, current: Option<Bytes>, forced: bool,
                      leaving: Outcome, o: Outcome, info: Option<Bytes>, event: Bytes)
    requires Discerning(view) && IsNotice(event) && Plain(p)
    ensures var leaves := forced && !Refuses(events, PARTY_LEAVE, leaving);
            var enters := (current.None? || leaves) && info.Some? && !Refuses(events, p.event, o);
            Announced(view, PartyFrames.Join(ns, events, p, current, forced, leaving, o, info).sent, event)
            == if event == PARTY_JOINED && enters then [JoinedSeen(view, ns, info.value)]
               else if event == PARTY_LEFT && current.Some? && leaves then [LeftSeen(view, ns)] else []
  {
    NoticeNames();
    if current.None? {
      JoinFreshEnters(view, ns, events, p, o, info, event);
    } else if forced {
      JoinForcedAnnounced(view, ns, events, p, current, leaving, o, info, event);
    } else {
      var e := Coded(ALREADY_IN_PARTY, "You are already in party, " + current.value);
      QuietAfter(view, [], p.(err := Some(e)), event);
    }
  }

  lemma JoinForcedAnnounced(view: Viewer, ns: Bytes, events: set<Bytes>, p: Message, current: Option<Bytes>,
                            leaving: Outcome, o: Outcome, info: Option<Bytes>, event: Bytes)
    requires Discerning(view) && IsNotice(event) && Plain(p) && current.Some?
    ensures var leaves := !Refuses(events, PARTY_LEAVE, leaving);
            Announced(view, PartyFrames.Join(ns, events, p, current, true, leaving, o, info).sent, event)
            == if event == PARTY_JOINED && leaves && info.Some? && !Refuses(events, p.event, o)
               then [JoinedSeen(view, ns, info.value)]
               else if event == PARTY_LEFT && leaves then [LeftSeen(view, ns)] else []
  {
    var left := Leave(ns, events, LeaveMessage(ns), true, leaving);
    var joined := JoinFresh(ns, events, p, o, info);
    LeaveThen(view, ns, events, leaving, event);
    if left.err.Some? {
      QuietAfter(view, left.sent, p.(err := left.err), event);
    } else {
      JoinFreshEnters(view, ns, events, p, o, info, event);
      AnnouncedConcat(view, left.sent, joined.sent, event);
    }
  }

  /** Leaving on the way to another party. */
  lemma LeaveThen(view: Viewer, ns: Bytes, events: set<Bytes>, leaving: Outcome, event: Bytes)
    requires Discerning(view) && IsNotice(event)
    ensures var left := Leave(ns, events, LeaveMessage(ns), true, leaving);
            && (left.err.Some? <==> Refuses(events, PARTY_LEAVE, leaving))
            && Announced(view, left.sent, event)
               == (if event == PARTY_LEFT && left.err.None? then [LeftSeen(view, ns)] else [])
            && PARTY_JOINED != PARTY_LEFT
  {
    NoticeNames();
    LeaveEventIsPlain(ns);
    FireOutcome(events, LeaveMessage(ns), leaving);
    LeaveAnnounced(view, ns, events, LeaveMessage(ns), true, leaving, event);
  }

  lemma JoinFreshEnters(view: Viewer, ns: Bytes, events: set<Bytes>, p: Message, o: Outcome, info: Option<Bytes>,
                        event: Bytes)
    requires Discerning(view) && IsNotice(event) && Plain(p)
    ensures Announced(view, JoinFresh(ns, events, p, o, info).sent, event)
         == if event == PARTY_JOINED && info.Some? && !Refuses(events, p.event, o)
            then [JoinedSeen(view, ns, info.value)] else []
  {
    FireOutcome(events, p, o);
    JoinFreshAnnounced(view, ns, events, p, o, info, event);
  }

  lemma LeaveEventIsPlain(ns: Bytes)
    ensures Plain(LeaveMessage(ns))
  {
    NoticeNames();
    LeaveKind();
  }

  lemma InviteAnnounced(view: Viewer, events: set<Bytes>, m: Message, created: Option<Fired>, o: Outcome, event: Bytes)
    requires Discerning(view) && IsNotice(event) && Plain(m)
    ensures Announced(view, Invite(events, m, created, o), event)
         == if created.Some? then Announced(view, created.value.sent, event) else []
  {
    var sent := if created.Some? then created.value.sent else [];
    var fired := FireEvent(events, m, o);
    FireAnnounced(view, events, m, o, event);
    AnnouncedConcat(view, sent, fired.sent, event);
    NothingAfter(Announced(view, sent, event));
    if created.Some? && created.value.err.Some? {
      QuietAfter(view, sent, m.(err := Some(CANNOT_INVITE)), event);
    } else if fired.err.Some? {
      QuietAfter(view, sent + fired.sent, m.(err := fired.err), event);
    } else {
      OneAnnounced(view, Frame(false, EmptyReply(m.wait)), event);
      AnnouncedConcat(view, sent + fired.sent, [Frame(false, EmptyReply(m.wait))], event);
    }
  }

  /** What an accepted invitation joins. */
  predicate Joins(events: set<Bytes>, hook: JoinMessage, join: Outcome, info: Option<Bytes>) {
    hook.JoinAs? && !Refuses(events, hook.m.event, join) && info.Some?
  }

  lemma AcceptAnnounced(view: Viewer, ns: Bytes, events: set<Bytes>, m: Message, inParty: bool, leaving: Outcome,
                        hook: JoinMessage, join: Outcome, info: Option<Bytes>, event: Bytes)
    requires Discerning(view) && IsNotice(event) && Plain(m) && (hook.JoinAs? ==> Plain(hook.m))
    ensures var stays := inParty && Refuses(events, PARTY_LEAVE, leaving);
            Announced(view, AcceptFrames(ns, events, m, inParty, leaving, hook, join, info), event)
            == if event == PARTY_JOINED && !stays && Joins(events, hook, join, info)
               then [JoinedSeen(view, ns, info.value)]
               else if event == PARTY_LEFT && inParty && !stays then [LeftSeen(view, ns)] else []
  {
    NoticeNames();
    var left := if inParty then Leave(ns, events, LeaveMessage(ns), true, leaving) else Fired(None, []);
    if inParty { LeaveThen(view, ns, events, leaving, event); }
    if left.err.Some? {
      QuietAfter(view, left.sent, m.(err := left.err), event);
    } else {
      HookAnnounced(view, ns, events, left.sent, m, hook, join, info, event);
    }
  }

  /** What follows the leave. */
  lemma HookAnnounced(view: Viewer, ns: Bytes, events: set<Bytes>, sent: seq<Frame>, m: Message, hook: JoinMessage,
                      join: Outcome, info: Option<Bytes>, event: Bytes)
    requires Discerning(view) && IsNotice(event) && Plain(m) && (hook.JoinAs? ==> Plain(hook.m))
    ensures var rest := if hook.NoJoin? then Refuse(sent, m, hook.err).sent
                        else sent + InvitedJoin(ns, events, m, hook.m, join, info);
            Announced(view, rest, event) == Announced(view, sent, event)
              + if event == PARTY_JOINED && Joins(events, hook, join, info)
                then [JoinedSeen(view, ns, info.value)] else []
  {
    if hook.NoJoin? {
      QuietAfter(view, sent, m.(err := Some(hook.err)), event);
    } else {
      InvitedJoinAnnounced(view, ns, events, m, hook.m, join, info, event);
      AnnouncedConcat(view, sent, InvitedJoin(ns, events, m, hook.m, join, info), event);
    }
  }

  lemma InvitedJoinAnnounced(view: Viewer, ns: Bytes, events: set<Bytes>, m: Message, jm: Message, join: Outcome,
                             info: Option<Bytes>, event: Bytes)
    requires Discerning(view) && IsNotice(event) && Plain(m) && Plain(jm)
    ensures Announced(view, InvitedJoin(ns, events, m, jm, join, info), event)
         == if event == PARTY_JOINED && !Refuses(events, jm.event, join) && info.Some?
            then [JoinedSeen(view, ns, info.value)] else []
  {
    var joined := JoinFresh(ns, events, jm, join, info);
    FireOutcome(events, jm, join);
    JoinFreshAnnounced(view, ns, events, jm, join, info, event);
    if joined.err.Some? { QuietAfter(view, joined.sent, m.(err := joined.err), event); }
  }

  lemma ReplyInvitationAnnounced(view: Viewer, ns: Bytes, events: set<Bytes>, m: Message, inParty: bool, o: Outcome,
                                 leaving: Outcome, hook: JoinMessage, join: Outcome, info: Option<Bytes>, event: Bytes)
    requires Discerning(view) && IsNotice(event) && Plain(m) && (hook.JoinAs? ==> Plain(hook.m))
    ensures Announced(view, ReplyInvitation(ns, events, m, inParty, o, leaving, hook, join, info), event)
         == if Refuses(events, m.event, o) then []
            else Announced(view, AcceptFrames(ns, events, m, inParty, leaving, hook, join, info), event)
  {
    var fired := FireEvent(events, m, o);
    FireOutcome(events, m, o);
    FireAnnounced(view, events, m, o, event);
    if fired.err.Some? {
      QuietAfter(view, fired.sent, m.(err := fired.err), event);
    } else {
      var rest := AcceptFrames(ns, events, m, inParty, leaving, hook, join, info);
      AnnouncedConcat(view, fired.sent, rest, event);
      NothingAfter(Announced(view, rest, event));
    }
  }

  // ---- which party is left and joined ----

  /** Whether a party event leaves the current party, by its name ... */
  predicate Leaves(events: set<Bytes>, m: Message, inParty: bool, first: Outcome, c: Choices) {
    && inParty
    && if m.event == "_OnPartyCreate" || m.event == "_OnPartyInvite" then false
       else if m.event == "_OnPartyJoin" then c.forced && !Refuses(events, "_OnPartyLeave", c.leaving)
       else if m.event == "_OnPartyLeave" then !Refuses(events, "_OnPartyLeave", first)
       else !Refuses(events, m.event, first) && !Refuses(events, "_OnPartyLeave", c.leaving)
  }

  /** A create handler fails with an error that is not a `Reply`. */
  predicate CreateFails(events: set<Bytes>, o: Outcome) {
    Refuses(events, "_OnPartyCreate", o) && !o.err.Reply?
  }

  /** ... and whether it enters the one its handler installs. */
  predicate Enters(events: set<Bytes>, m: Message, inParty: bool, first: Outcome, c: Choices, info: Option<Bytes>) {
    && info.Some? && (!inParty || Leaves(events, m, inParty, first, c))
    && if m.event == "_OnPartyCreate" then !CreateFails(events, first)
       else if m.event == "_OnPartyInvite" then c.autoCreate && !CreateFails(events, c.create)
       else if m.event == "_OnPartyJoin" then !Refuses(events, "_OnPartyJoin", first)
       else if m.event == "_OnPartyLeave" then false
       else !Refuses(events, m.event, first) && Joins(events, c.hook, c.join, info)
  }

  /** The client is told of exactly the party that was left and of exactly the one that was entered, whatever the event
      and the handlers' answers. */
  lemma PartyAnnounced(to: Config, ns: Bytes, events: set<Bytes>, m: Message, current: Option<Bytes>, first: Outcome,
                       c: Choices, info: Option<Bytes>)
    requires Plain(m) && m.event in PARTY_EVENTS && (c.hook.JoinAs? ==> Plain(c.hook.m))
    ensures var view, frames := View(to), Answer(KindOf(m.event), ns, events, m, current, first, c, info);
            && Announced(view, frames, "_OnPartyJoined")
               == (if Enters(events, m, current.Some?, first, c, info) then [JoinedSeen(view, ns, info.value)] else [])
            && Announced(view, frames, "_OnPartyLeft")
               == (if Leaves(events, m, current.Some?, first, c) then [LeftSeen(view, ns)] else [])
  {
    ClientIsDiscerning(to);
    NoticeNames();
    AnnouncedBy(View(to), ns, events, m, current, first, c, info, PARTY_JOINED);
    AnnouncedBy(View(to), ns, events, m, current, first, c, info, PARTY_LEFT);
  }

  /** The notices of one kind that the answer to a party event holds. */
  ghost predicate Told(view: Viewer, ns: Bytes, events: set<Bytes>, m: Message, current: Option<Bytes>, first: Outcome,
                       c: Choices, info: Option<Bytes>, event: Bytes)
  {
    Announced(view, Answer(KindOf(m.event), ns, events, m, current, first, c, info), event)
    == if event == PARTY_JOINED then
         (if Enters(events, m, current.Some?, first, c, info) then [JoinedSeen(view, ns, info.value)] else [])
       else (if Leaves(events, m, current.Some?, first, c) then [LeftSeen(view, ns)] else [])
  }

  lemma AnnouncedBy(view: Viewer, ns: Bytes, events: set<Bytes>, m: Message, current: Option<Bytes>, first: Outcome,
                    c: Choices, info: Option<Bytes>, event: Bytes)
    requires Discerning(view) && Plain(m) && (c.hook.JoinAs? ==> Plain(c.hook.m)) && IsNotice(event)
    ensures Told(view, ns, events, m, current, first, c, info, event)
  {
    if KindOf(m.event).AnswerInvitation? {
      InvitationTold(view, ns, events, m, current, first, c, info, event);
    } else if KindOf(m.event).JoinParty? {
      JoinTold(view, ns, events, m, current, first, c, info, event);
    } else {
      NoticeNames();
      EventNames();
      match KindOf(m.event) {
        case CreateParty => CreateEnters(view, ns, events, m, current.Some?, first, info, event);
        case LeaveParty => LeaveAnnounced(view, ns, events, m, current.Some?, first, event);
        case InviteParty =>
          InviteCreates(view, ns, events, m, current.None? && c.autoCreate, c.create, info, first, event);
      }
    }
  }

  lemma JoinTold(view: Viewer, ns: Bytes, events: set<Bytes>, m: Message, current: Option<Bytes>, first: Outcome,
                 c: Choices, info: Option<Bytes>, event: Bytes)
    requires Discerning(view) && Plain(m) && IsNotice(event) && KindOf(m.event).JoinParty?
    ensures Told(view, ns, events, m, current, first, c, info, event)
  {
    NoticeNames();
    EventNames();
    JoinAnnounced(view, ns, events, m, current, c.forced, c.leaving, first, info, event);
  }

  lemma InvitationTold(view: Viewer, ns: Bytes, events: set<Bytes>, m: Message, current: Option<Bytes>,
                       first: Outcome, c: Choices, info: Option<Bytes>, event: Bytes)
    requires Discerning(view) && Plain(m) && (c.hook.JoinAs? ==> Plain(c.hook.m)) && IsNotice(event)
    requires KindOf(m.event).AnswerInvitation?
    ensures Told(view, ns, events, m, current, first, c, info, event)
  {
    NoticeNames();
    EventNames();
    ReplyInvitationAnnounced(view, ns, events, m, current.Some?, first, c.leaving, c.hook, c.join, info, event);
    AcceptAnnounced(view, ns, events, m, current.Some?, c.leaving, c.hook, c.join, info, event);
  }

  lemma CreateEnters(view: Viewer, ns: Bytes, events: set<Bytes>, p: Message, inParty: bool, o: Outcome,
                     info: Option<Bytes>, event: Bytes)
    requires Discerning(view) && IsNotice(event) && Plain(p) && p.event == PARTY_CREATE
    ensures Announced(view, Create(ns, events, p, inParty, o, info).sent, event)
         == if event == PARTY_JOINED && !inParty && info.Some? && !CreateFails(events, o)
            then [JoinedSeen(view, ns, info.value)] else []
  {
    FireOutcome(events, p, o);
    CreateAnnounced(view, ns, events, p, inParty, o, info, event);
  }

  lemma InviteCreates(view: Viewer, ns: Bytes, events: set<Bytes>, m: Message, creates: bool, create: Outcome,
                      info: Option<Bytes>, o: Outcome, event: Bytes)
    requires Discerning(view) && Plain(m) && IsNotice(event)
    ensures var created := Create(ns, events, m.(event := PARTY_CREATE), false, create, info);
            Announced(view, Invite(events, m, if creates then Some(created) else None, o), event)
            == if event == PARTY_JOINED && creates && info.Some? && !CreateFails(events, create)
               then [JoinedSeen(view, ns, info.value)] else []
  {
    NoticeNames();
    assert PARTY_CREATE in PARTY_EVENTS;
    var p := m.(event := PARTY_CREATE);
    CreateEnters(view, ns, events, p, false, create, info, event);
    var created := if creates then Some(Create(ns, events, p, false, create, info)) else None;
    InviteAnnounced(view, events, m, created, o, event);
  }

  /** The notice of the outcome comes last, after everything written to the requester and after the leave on the way. */
  lemma NoticeIsLast(ns: Bytes, events: set<Bytes>, m: Message, current: Option<Bytes>, first: Outcome, c: Choices,
                     info: Option<Bytes>)
    requires m.event in PARTY_EVENTS && m.event != "_OnPartyInvite"
    ensures var frames := Answer(KindOf(m.event), ns, events, m, current, first, c, info);
            && (Enters(events, m, current.Some?, first, c, info) ==>
                  frames != [] && frames[|frames| - 1] == MessageFrame(JoinedMessage(ns, info.value)))
            && (m.event == "_OnPartyLeave" && Leaves(events, m, current.Some?, first, c) ==>
                  frames != [] && frames[|frames| - 1] == MessageFrame(LeftMessage(ns)))
  {
    EventNames();
    FireOutcome(events, m, first);
    if KindOf(m.event).AnswerInvitation? {
      AcceptEndsJoined(ns, events, m, current.Some?, c, info);
    } else if KindOf(m.event).JoinParty? {
      JoinEndsJoined(ns, events, m, current, first, c, info);
    }
  }

  lemma JoinEndsJoined(ns: Bytes, events: set<Bytes>, m: Message, current: Option<Bytes>, o: Outcome, c: Choices,
                       info: Option<Bytes>)
    ensures var frames := PartyFrames.Join(ns, events, m, current, c.forced, c.leaving, o, info).sent;
            (current.None? || (c.forced && !Refuses(events, "_OnPartyLeave", c.leaving)))
            && info.Some? && !Refuses(events, m.event, o) ==>
              frames != [] && frames[|frames| - 1] == MessageFrame(JoinedMessage(ns, info.value))
  {
    FireOutcome(events, m, o);
    FireOutcome(events, LeaveMessage(ns), c.leaving);
  }

  lemma AcceptEndsJoined(ns: Bytes, events: set<Bytes>, m: Message, inParty: bool, c: Choices, info: Option<Bytes>)
    ensures var frames := AcceptFrames(ns, events, m, inParty, c.leaving, c.hook, c.join, info);
            !(inParty && Refuses(events, "_OnPartyLeave", c.leaving)) && Joins(events, c.hook, c.join, info) ==>
              frames != [] && frames[|frames| - 1] == MessageFrame(JoinedMessage(ns, info.value))
  {
    FireOutcome(events, LeaveMessage(ns), c.leaving);
    if c.hook.JoinAs? { FireOutcome(events, c.hook.m, c.join); }
  }
}
