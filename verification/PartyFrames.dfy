/** What the party operations write (conn_party.go), as functions of the message handled, the current party and
    the handlers' answers. A result holds the frames written, in order, and the error returned. */
module PartyFrames {
  import opened Text
  import opened Escaping
  import opened Codec
  import opened Protocol
  import Room = PartyState

  const PARTY_CREATE: Bytes := "_OnPartyCreate"
  const PARTY_JOIN: Bytes := "_OnPartyJoin"
  const PARTY_JOINED: Bytes := "_OnPartyJoined"
  const PARTY_LEAVE: Bytes := "_OnPartyLeave"
  const PARTY_LEFT: Bytes := "_OnPartyLeft"
  const PARTY_INVITE: Bytes := "_OnPartyInvite"

  const NOT_IN_PARTY := Plain("You are not in party ")
  const IN_PARTY := Plain("you already in party")
  const NO_PARTY_CREATED := Plain("the party is not available, please assign the Party in the OnCreateParty event")
  const NO_PARTY_JOINED := Plain("The party is not available, please assign the Party in the OnJoinParty event")
  const CANNOT_INVITE := Plain("cannot invite at this time")
  const ALREADY_IN_PARTY := 1

  function LeaveMessage(ns: Bytes): Message {
    EMPTY.(namespace := ns, event := PARTY_LEAVE)
  }

  function LeftMessage(ns: Bytes): Message {
    EMPTY.(namespace := ns, event := PARTY_LEFT, binary := true)
  }

  function JoinedMessage(ns: Bytes, info: Bytes): Message {
    EMPTY.(namespace := ns, event := PARTY_JOINED, body := info, binary := true)
  }

  /** The message again, with an error, which is also returned. */
  function Refuse(sent: seq<Frame>, m: Message, e: Failure): Fired {
    Fired(Some(e), sent + [MessageFrame(m.(err := Some(e)))])
  }

  /** The message again, without an error, and the notice that the party was left. */
  function Left(ns: Bytes, sent: seq<Frame>, m: Message): Fired {
    Fired(None, sent + [MessageFrame(m)] + [MessageFrame(LeftMessage(ns))])
  }

  function Leave(ns: Bytes, events: set<Bytes>, m: Message, inParty: bool, o: Outcome): Fired {
    if !inParty then Refuse([], m, NOT_IN_PARTY)
    else
      var fired := FireEvent(events, m, o);
      if fired.err.Some? then Refuse(fired.sent, m, fired.err.value)
      else Left(ns, fired.sent, m)
  }

  /** A create handler may answer with a `Reply`, which is written and does not stop the creation. */
  function Create(ns: Bytes, events: set<Bytes>, m: Message, inParty: bool, o: Outcome, info: Option<Bytes>): Fired {
    if inParty then Refuse([], m, IN_PARTY)
    else
      var fired := FireEvent(events, m, o);
      if fired.err.Some? && !fired.err.value.Reply? then Refuse(fired.sent, m, fired.err.value)
      else
        var sent := fired.sent + if fired.err.Some? then [MessageFrame(m.(body := fired.err.value.body))] else [];
        if info.None? then Refuse(sent, m, NO_PARTY_CREATED)
        else Fired(None, sent + [MessageFrame(JoinedMessage(ns, info.value))])
  }

  /** `info` describes the party that the handler installed, if it did. */
  function JoinFresh(ns: Bytes, events: set<Bytes>, m: Message, o: Outcome, info: Option<Bytes>): Fired {
    var fired := FireEvent(events, m, o);
    if fired.err.Some? then Refuse(fired.sent, m, fired.err.value)
    else if info.None? then Refuse(fired.sent, m, NO_PARTY_JOINED)
    else Fired(None, fired.sent + [MessageFrame(JoinedMessage(ns, info.value))])
  }

  function Join(ns: Bytes, events: set<Bytes>, m: Message, current: Option<Bytes>, forced: bool, leaving: Outcome,
                o: Outcome, info: Option<Bytes>): Fired
  {
    if current.None? then JoinFresh(ns, events, m, o, info)
    else if !forced then Refuse([], m, Coded(ALREADY_IN_PARTY, "You are already in party, " + current.value))
    else
      var left := Leave(ns, events, LeaveMessage(ns), true, leaving);
      if left.err.Some? then Refuse(left.sent, m, left.err.value)
      else
        var joined := JoinFresh(ns, events, m, o, info);
        Fired(joined.err, left.sent + joined.sent)
  }

  /** `created` is the result of creating a party first, if one had to be created. */
  function Invite(events: set<Bytes>, m: Message, created: Option<Fired>, o: Outcome): seq<Frame> {
    var sent := if created.Some? then created.value.sent else [];
    if created.Some? && created.value.err.Some? then Refuse(sent, m, CANNOT_INVITE).sent
    else
      var fired := FireEvent(events, m, o);
      if fired.err.Some? then Refuse(sent + fired.sent, m, fired.err.value).sent
      else sent + fired.sent + [Frame(false, EmptyReply(m.wait))]
  }

  /** What the join message hook makes of an invitation. */
  datatype JoinMessage = NoJoin(err: Failure) | JoinAs(m: Message)

  /** The join of an accepted invitation; its error is also written as one of the invitation. */
  function InvitedJoin(ns: Bytes, events: set<Bytes>, m: Message, jm: Message, join: Outcome, info: Option<Bytes>)
    : seq<Frame>
  {
    var joined := JoinFresh(ns, events, jm, join, info);
    if joined.err.Some? then Refuse(joined.sent, m, joined.err.value).sent else joined.sent
  }

  /** An accepted invitation: leave the current party, then join. */
  function AcceptFrames(ns: Bytes, events: set<Bytes>, m: Message, inParty: bool, leaving: Outcome, hook: JoinMessage,
                        join: Outcome, info: Option<Bytes>): seq<Frame>
  {
    var left := if inParty then Leave(ns, events, LeaveMessage(ns), true, leaving) else Fired(None, []);
    if left.err.Some? then Refuse(left.sent, m, left.err.value).sent
    else if hook.NoJoin? then Refuse(left.sent, m, hook.err).sent
    else left.sent + InvitedJoin(ns, events, m, hook.m, join, info)
  }

  function ReplyInvitation(ns: Bytes, events: set<Bytes>, m: Message, inParty: bool, o: Outcome, leaving: Outcome,
                           hook: JoinMessage, join: Outcome, info: Option<Bytes>): seq<Frame>
  {
    var fired := FireEvent(events, m, o);
    if fired.err.Some? then Refuse(fired.sent, m, fired.err.value).sent
    else fired.sent + AcceptFrames(ns, events, m, inParty, leaving, hook, join, info)
  }

  /** The handlers' answers other than the first, and the two package-level settings. */
  datatype Choices = Choices(forced: bool, autoCreate: bool, leaving: Outcome, create: Outcome, hook: JoinMessage,
                             join: Outcome)

  datatype Kind = CreateParty | JoinParty | LeaveParty | InviteParty | AnswerInvitation

  /** The operation that a party event calls for. */
  function KindOf(event: Bytes): Kind {
    if event == PARTY_CREATE then CreateParty
    else if event == PARTY_JOIN then JoinParty
    else if event == PARTY_LEAVE then LeaveParty
    else if event == PARTY_INVITE then InviteParty
    else AnswerInvitation
  }

  /** What a party operation writes; `current` is the current party. */
  function Answer(kind: Kind, ns: Bytes, events: set<Bytes>, m: Message, current: Option<Bytes>, first: Outcome,
                  c: Choices, info: Option<Bytes>): seq<Frame>
  {
    match kind
    case CreateParty => Create(ns, events, m, current.Some?, first, info).sent
    case JoinParty => Join(ns, events, m, current, c.forced, c.leaving, first, info).sent
    case LeaveParty => Leave(ns, events, m, current.Some?, first).sent
    case InviteParty =>
      var created := Create(ns, events, m.(event := PARTY_CREATE), false, c.create, info);
      Invite(events, m, if current.None? && c.autoCreate then Some(created) else None, first)
    case AnswerInvitation => ReplyInvitation(ns, events, m, current.Some?, first, c.leaving, c.hook, c.join, info)
  }

  /** The event names are different, and each leads to its own operation. */
  lemma EventNames()
    ensures KindOf("_OnPartyCreate") == CreateParty && KindOf("_OnPartyJoin") == JoinParty
    ensures KindOf("_OnPartyLeave") == LeaveParty && KindOf("_OnPartyInvite") == InviteParty
    ensures KindOf("_OnPartyReplyInvitation") == AnswerInvitation
    ensures forall event: Bytes ::
              event !in {"_OnPartyCreate", "_OnPartyJoin", "_OnPartyLeave", "_OnPartyInvite"} ==>
                KindOf(event) == AnswerInvitation
    ensures forall event | event in PARTY_EVENTS :: !IsNamespaceEvent(event) && event !in ROOM_EVENTS
    ensures NAMESPACE_CONNECT != NAMESPACE_DISCONNECT && NAMESPACE_DISCONNECT !in ROOM_EVENTS
  {
    assert PARTY_CREATE[8] == 'C' && PARTY_JOIN[8] == 'J' && PARTY_LEAVE[8] == 'L' && PARTY_INVITE[8] == 'I';
    assert "_OnPartyReplyInvitation"[8] == 'R';
    assert forall e | e in PARTY_EVENTS :: e[3] == 'P';
    assert forall e | e in ROOM_EVENTS :: e[3] == 'R';
    assert NAMESPACE_CONNECT[3] == 'N' && NAMESPACE_DISCONNECT[3] == 'N';
    assert |NAMESPACE_CONNECT| != |NAMESPACE_DISCONNECT|;
  }

  // ---- every operation writes what a party operation may write ----

  /** A message handled for a party: a party event as it comes off the wire. */
  predicate PartyEvent(m: Message) {
    m.event in PARTY_EVENTS && !m.native
  }

  lemma PartyEventNames(event: Bytes)
    requires event in PARTY_EVENTS || event == PARTY_JOINED || event == PARTY_LEFT
    ensures !IsNamespaceEvent(event) && event != NATIVE_MESSAGE
  {
    assert forall e | e in PARTY_EVENTS :: e[3] == 'P';
    assert event[3] == 'P' && NAMESPACE_CONNECT[3] == 'N' && NAMESPACE_DISCONNECT[3] == 'N' && NATIVE_MESSAGE[3] == 'N';
  }

  lemma MessageFits(m: Message, p: Message)
    requires PartyMessage(m, p)
    ensures PartyFits(m, [MessageFrame(p)])
  {
  }

  lemma FitsConcat(m: Message, x: seq<Frame>, y: seq<Frame>)
    requires PartyFits(m, x) && PartyFits(m, y)
    ensures PartyFits(m, x + y)
  {
  }

  lemma RefuseFits(m: Message, sent: seq<Frame>, p: Message, e: Failure)
    requires PartyFits(m, sent) && PartyMessage(m, p)
    ensures PartyFits(m, Refuse(sent, p, e).sent)
  {
    MessageFits(m, p.(err := Some(e)));
    FitsConcat(m, sent, [MessageFrame(p.(err := Some(e)))]);
  }

  lemma FireFits(m: Message, events: set<Bytes>, p: Message, o: Outcome)
    requires p.wait == [] || (m.event in PARTY_EVENTS && p.wait == m.wait)
    ensures PartyFits(m, FireEvent(events, p, o).sent)
  {
  }

  lemma NoticeFits(m: Message, ns: Bytes, info: Bytes)
    ensures PartyFits(m, [MessageFrame(LeftMessage(ns))]) && PartyFits(m, [MessageFrame(JoinedMessage(ns, info))])
    ensures PartyMessage(m, LeaveMessage(ns))
  {
    PartyEventNames(PARTY_LEFT);
    PartyEventNames(PARTY_JOINED);
    PartyEventNames(PARTY_LEAVE);
    MessageFits(m, LeftMessage(ns));
    MessageFits(m, JoinedMessage(ns, info));
  }

  /** A leave answers under the token of its own message, which is that of the message handled or none. */
  lemma LeaveFits(m: Message, ns: Bytes, events: set<Bytes>, p: Message, inParty: bool, o: Outcome)
    requires PartyMessage(m, p)
    ensures PartyFits(m, Leave(ns, events, p, inParty, o).sent)
  {
    var fired := FireEvent(events, p, o);
    FireFits(m, events, p, o);
    NoticeFits(m, ns, []);
    MessageFits(m, p);
    FitsConcat(m, fired.sent, [MessageFrame(p)]);
    FitsConcat(m, fired.sent + [MessageFrame(p)], [MessageFrame(LeftMessage(ns))]);
    RefuseFits(m, [], p, NOT_IN_PARTY);
    if fired.err.Some? { RefuseFits(m, fired.sent, p, fired.err.value); }
  }

  /** A forced leave writes nothing under a token, whatever is being handled. */
  lemma ForcedLeaveFits(m: Message, ns: Bytes, events: set<Bytes>, inParty: bool, o: Outcome)
    ensures PartyFits(m, Leave(ns, events, LeaveMessage(ns), inParty, o).sent)
  {
    NoticeFits(m, ns, []);
    LeaveFits(m, ns, events, LeaveMessage(ns), inParty, o);
  }

  lemma CreateFits(m: Message, ns: Bytes, events: set<Bytes>, p: Message, inParty: bool, o: Outcome,
                   info: Option<Bytes>)
    requires PartyMessage(m, p)
    ensures PartyFits(m, Create(ns, events, p, inParty, o, info).sent)
  {
    var fired := FireEvent(events, p, o);
    FireFits(m, events, p, o);
    RefuseFits(m, [], p, IN_PARTY);
    if !inParty {
      if fired.err.Some? && !fired.err.value.Reply? {
        RefuseFits(m, fired.sent, p, fired.err.value);
      } else {
        var more := if fired.err.Some? then [MessageFrame(p.(body := fired.err.value.body))] else [];
        if fired.err.Some? { MessageFits(m, p.(body := fired.err.value.body)); }
        FitsConcat(m, fired.sent, more);
        EndFits(m, ns, fired.sent + more, p, NO_PARTY_CREATED, info);
      }
    }
  }

  /** The end of a create or join: the joined notice, or the error for a missing party. */
  lemma EndFits(m: Message, ns: Bytes, sent: seq<Frame>, p: Message, e: Failure, info: Option<Bytes>)
    requires PartyFits(m, sent) && PartyMessage(m, p)
    ensures info.None? ==> PartyFits(m, Refuse(sent, p, e).sent)
    ensures info.Some? ==> PartyFits(m, sent + [MessageFrame(JoinedMessage(ns, info.value))])
  {
    RefuseFits(m, sent, p, e);
    if info.Some? {
      NoticeFits(m, ns, info.value);
      FitsConcat(m, sent, [MessageFrame(JoinedMessage(ns, info.value))]);
    }
  }

  lemma JoinFreshFits(m: Message, ns: Bytes, events: set<Bytes>, p: Message, o: Outcome, info: Option<Bytes>)
    requires PartyMessage(m, p)
    ensures PartyFits(m, JoinFresh(ns, events, p, o, info).sent)
  {
    var fired := FireEvent(events, p, o);
    FireFits(m, events, p, o);
    if fired.err.Some? { RefuseFits(m, fired.sent, p, fired.err.value); }
    EndFits(m, ns, fired.sent, p, NO_PARTY_JOINED, info);
  }

  lemma JoinFits(m: Message, ns: Bytes, events: set<Bytes>, p: Message, current: Option<Bytes>, forced: bool,
                 leaving: Outcome, o: Outcome, info: Option<Bytes>)
    requires PartyMessage(m, p)
    ensures PartyFits(m, Join(ns, events, p, current, forced, leaving, o, info).sent)
  {
    JoinFreshFits(m, ns, events, p, o, info);
    if current.Some? {
      RefuseFits(m, [], p, Coded(ALREADY_IN_PARTY, "You are already in party, " + current.value));
      var left := Leave(ns, events, LeaveMessage(ns), true, leaving);
      ForcedLeaveFits(m, ns, events, true, leaving);
      if left.err.Some? { RefuseFits(m, left.sent, p, left.err.value); }
      FitsConcat(m, left.sent, JoinFresh(ns, events, p, o, info).sent);
    }
  }

  lemma InviteFits(m: Message, events: set<Bytes>, created: Option<Fired>, o: Outcome)
    requires PartyEvent(m) && (created.Some? ==> PartyFits(m, created.value.sent))
    ensures PartyFits(m, Invite(events, m, created, o))
  {
    PartyEventNames(m.event);
    var sent := if created.Some? then created.value.sent else [];
    var fired := FireEvent(events, m, o);
    FireFits(m, events, m, o);
    FitsConcat(m, sent, fired.sent);
    RefuseFits(m, sent, m, CANNOT_INVITE);
    if fired.err.Some? { RefuseFits(m, sent + fired.sent, m, fired.err.value); }
    FitsConcat(m, sent + fired.sent, [Frame(false, EmptyReply(m.wait))]);
  }

  lemma AcceptFits(m: Message, ns: Bytes, events: set<Bytes>, inParty: bool, leaving: Outcome, hook: JoinMessage,
                   join: Outcome, info: Option<Bytes>)
    requires PartyEvent(m) && (hook.JoinAs? ==> PartyMessage(m, hook.m))
    ensures PartyFits(m, AcceptFrames(ns, events, m, inParty, leaving, hook, join, info))
  {
    PartyEventNames(m.event);
    var left := if inParty then Leave(ns, events, LeaveMessage(ns), true, leaving) else Fired(None, []);
    ForcedLeaveFits(m, ns, events, true, leaving);
    if left.err.Some? {
      RefuseFits(m, left.sent, m, left.err.value);
    } else if hook.NoJoin? {
      RefuseFits(m, left.sent, m, hook.err);
    } else {
      var joined := JoinFresh(ns, events, hook.m, join, info);
      JoinFreshFits(m, ns, events, hook.m, join, info);
      if joined.err.Some? { RefuseFits(m, joined.sent, m, joined.err.value); }
      FitsConcat(m, left.sent, InvitedJoin(ns, events, m, hook.m, join, info));
    }
  }

  lemma ReplyInvitationFits(m: Message, ns: Bytes, events: set<Bytes>, inParty: bool, o: Outcome, leaving: Outcome,
                            hook: JoinMessage, join: Outcome, info: Option<Bytes>)
    requires PartyEvent(m) && (hook.JoinAs? ==> PartyMessage(m, hook.m))
    ensures PartyFits(m, ReplyInvitation(ns, events, m, inParty, o, leaving, hook, join, info))
  {
    PartyEventNames(m.event);
    var fired := FireEvent(events, m, o);
    FireFits(m, events, m, o);
    if fired.err.Some? { RefuseFits(m, fired.sent, m, fired.err.value); }
    AcceptFits(m, ns, events, inParty, leaving, hook, join, info);
    FitsConcat(m, fired.sent, AcceptFrames(ns, events, m, inParty, leaving, hook, join, info));
  }

  /** Whatever a party event leads to, only party frames are written: under its own token or without one. */
  lemma AnswerFits(kind: Kind, ns: Bytes, events: set<Bytes>, m: Message, current: Option<Bytes>, first: Outcome,
                   c: Choices, info: Option<Bytes>)
    requires PartyEvent(m) && (c.hook.JoinAs? ==> PartyMessage(m, c.hook.m))
    ensures PartyFits(m, Answer(kind, ns, events, m, current, first, c, info))
  {
    PartyEventNames(m.event);
    match kind {
      case CreateParty => CreateFits(m, ns, events, m, current.Some?, first, info);
      case JoinParty => JoinFits(m, ns, events, m, current, c.forced, c.leaving, first, info);
      case LeaveParty => LeaveFits(m, ns, events, m, current.Some?, first);
      case InviteParty =>
        PartyEventNames(PARTY_CREATE);
        CreateFits(m, ns, events, m.(event := PARTY_CREATE), false, c.create, info);
        var created := Create(ns, events, m.(event := PARTY_CREATE), false, c.create, info);
        InviteFits(m, events, if current.None? && c.autoCreate then Some(created) else None, first);
      case AnswerInvitation =>
        ReplyInvitationFits(m, ns, events, current.Some?, first, c.leaving, c.hook, c.join, info);
    }
  }

  // ---- what the requester reads ----

  /** A party request as it comes off the wire with a token. */
  predicate PartyRequest(m: Message) {
    PartyEvent(m) && m.wait != [] && PlainToken(m.wait) && m.err.None?
  }

  /** The replies under the token of `m` among the frames written, as the requester decodes them. */
  function Replies(to: Config, frames: seq<Frame>, m: Message): seq<Message> {
    Tagged(DecodeAll(to, frames), m.wait)
  }

  predicate Successes(replies: seq<Message>) {
    forall d | d in replies :: d.err.None?
  }

  lemma RepliesConcat(to: Config, x: seq<Frame>, y: seq<Frame>, m: Message)
    ensures Replies(to, x + y, m) == Replies(to, x, m) + Replies(to, y, m)
  {
    DecodeAllConcat(to, x, y);
    TaggedConcat(DecodeAll(to, x), DecodeAll(to, y), m.wait);
  }

  lemma RepliesOne(to: Config, f: Frame, m: Message)
    ensures Replies(to, [f], m) == if Decode(to, f).wait == m.wait then [Decode(to, f)] else []
  {
    TaggedSingle(DecodeAll(to, [f]), m.wait);
  }

  lemma TaggedSingle(ms: seq<Message>, wait: Bytes)
    requires |ms| == 1
    ensures Tagged(ms, wait) == if ms[0].wait == wait then [ms[0]] else []
  {
    assert ms[1..] == [];
  }

  /** A message under the token is one reply; a `Reply` error reads as a success. */
  lemma EchoReplies(to: Config, p: Message, m: Message)
    requires PartyRequest(m) && p.wait == m.wait
    ensures var r := Replies(to, [MessageFrame(p)], m);
            |r| == 1 && (r[0].err.None? <==> p.err.None? || p.err.value.Reply?)
  {
    DecodeMessageFrame(to, p);
    RepliesOne(to, MessageFrame(p), m);
  }

  lemma NoticeReplies(to: Config, p: Message, m: Message)
    requires PartyRequest(m) && p.wait == [] && !p.native
    ensures Replies(to, [MessageFrame(p)], m) == []
  {
    DecodeMessageFrame(to, p);
    RepliesOne(to, MessageFrame(p), m);
  }

  /** An accepting handler of the event is one success; nothing else replies by itself. */
  lemma FireReplies(to: Config, events: set<Bytes>, m: Message, o: Outcome)
    requires PartyRequest(m)
    ensures var r := Replies(to, FireEvent(events, m, o).sent, m);
            Successes(r) && |r| == if m.event in events && o.Accept? then 1 else 0
  {
    if m.event in events && o.Accept? {
      DecodeEmptyFrame(to, m.wait, true);
      RepliesOne(to, Frame(true, EmptyReply(m.wait)), m);
      SuccessesAppend([], [EMPTY.(wait := m.wait, binary := true)]);
    }
  }

  lemma RefuseReplies(to: Config, sent: seq<Frame>, m: Message, e: Failure)
    requires PartyRequest(m)
    ensures var r := Replies(to, Refuse(sent, m, e).sent, m);
            && |r| == |Replies(to, sent, m)| + 1 && r[..|r| - 1] == Replies(to, sent, m)
            && (r[|r| - 1].err.None? <==> e.Reply?)
  {
    EchoReplies(to, m.(err := Some(e)), m);
    RepliesConcat(to, sent, [MessageFrame(m.(err := Some(e)))], m);
  }

  /** A forced leave replies to nobody. */
  lemma ForcedLeaveReplies(to: Config, ns: Bytes, events: set<Bytes>, o: Outcome, m: Message)
    requires PartyRequest(m)
    ensures Replies(to, Leave(ns, events, LeaveMessage(ns), true, o).sent, m) == []
  {
    var p := LeaveMessage(ns);
    var fired := FireEvent(events, p, o);
    assert fired.sent == [];
    if fired.err.Some? {
      NoticeReplies(to, p.(err := fired.err), m);
      assert Leave(ns, events, p, true, o).sent == [MessageFrame(p.(err := fired.err))];
    } else {
      NoticeReplies(to, p, m);
      NoticeReplies(to, LeftMessage(ns), m);
      RepliesConcat(to, [], [MessageFrame(p)], m);
      RepliesConcat(to, [] + [MessageFrame(p)], [MessageFrame(LeftMessage(ns))], m);
    }
  }

  /** One or two replies, all successes or a single error, and successes exactly when nothing is returned but
      possibly a `Reply`. */
  predicate Consistent(replies: seq<Message>, err: Option<Failure>) {
    && 1 <= |replies| <= 2
    && (Successes(replies) || (|replies| == 1 && replies[0].err.Some?))
    && (Successes(replies) <==> err.None? || err.value.Reply?)
  }

  /** A party that was left: the handler's reply, if any, and the message again. */
  lemma LeftReplies(to: Config, ns: Bytes, sent: seq<Frame>, m: Message)
    requires PartyRequest(m) && Successes(Replies(to, sent, m)) && |Replies(to, sent, m)| <= 1
    ensures Consistent(Replies(to, Left(ns, sent, m).sent, m), None)
  {
    EchoReply(to, sent, m);
    NoticeReplies(to, LeftMessage(ns), m);
    RepliesConcat(to, sent + [MessageFrame(m)], [MessageFrame(LeftMessage(ns))], m);
  }

  lemma EchoReply(to: Config, sent: seq<Frame>, m: Message)
    requires PartyRequest(m) && Successes(Replies(to, sent, m))
    ensures var r := Replies(to, sent + [MessageFrame(m)], m); |r| == |Replies(to, sent, m)| + 1 && Successes(r)
  {
    EchoReplies(to, m, m);
    AddSuccess(to, sent, MessageFrame(m), m);
  }

  lemma AddSuccess(to: Config, sent: seq<Frame>, f: Frame, m: Message)
    requires Successes(Replies(to, sent, m))
    requires var r := Replies(to, [f], m); |r| == 1 && r[0].err.None?
    ensures var r := Replies(to, sent + [f], m); |r| == |Replies(to, sent, m)| + 1 && Successes(r)
  {
    RepliesConcat(to, sent, [f], m);
    SuccessesAppend(Replies(to, sent, m), Replies(to, [f], m));
  }

  lemma SuccessesAppend(x: seq<Message>, y: seq<Message>)
    requires Successes(x) && |y| == 1 && y[0].err.None?
    ensures |x + y| == |x| + 1 && Successes(x + y)
  {
  }

  lemma RefusedAlone(to: Config, sent: seq<Frame>, m: Message, e: Failure)
    requires PartyRequest(m) && Replies(to, sent, m) == []
    ensures Consistent(Replies(to, Refuse(sent, m, e).sent, m), Some(e))
  {
    RefuseReplies(to, sent, m, e);
    OneReply(Replies(to, Refuse(sent, m, e).sent, m), e);
  }

  lemma OneReply(replies: seq<Message>, e: Failure)
    requires |replies| == 1 && (replies[0].err.None? <==> e.Reply?)
    ensures Consistent(replies, Some(e))
  {
    assert Successes(replies) <==> replies[0].err.None? by { assert replies[0] in replies; }
  }

  /** A leave request draws one or two replies, all successes or a single error; they are successes exactly when
      the party was left, or when the handler refused with a `Reply`. */
  lemma LeaveVerdict(to: Config, ns: Bytes, events: set<Bytes>, m: Message, inParty: bool, o: Outcome)
    requires PartyRequest(m)
    ensures var r := Leave(ns, events, m, inParty, o); Consistent(Replies(to, r.sent, m), r.err)
  {
    var fired := FireEvent(events, m, o);
    FireReplies(to, events, m, o);
    if !inParty {
      RefusedAlone(to, [], m, NOT_IN_PARTY);
    } else if fired.err.Some? {
      RefusedAlone(to, fired.sent, m, fired.err.value);
    } else {
      LeftReplies(to, ns, fired.sent, m);
    }
  }

  /** A handler refuses the event with a `Reply`. */
  predicate RefusesWithReply(events: set<Bytes>, event: Bytes, o: Outcome) {
    Refuses(events, event, o) && o.err.Reply?
  }

  lemma FireOutcome(events: set<Bytes>, m: Message, o: Outcome)
    ensures FireEvent(events, m, o).err == if Refuses(events, m.event, o) then Some(o.err) else None
  {
  }

  /** The handler of the event accepts it by name without installing a party. */
  predicate AcceptsNothing(events: set<Bytes>, event: Bytes, o: Outcome, info: Option<Bytes>) {
    event in events && o.Accept? && info.None?
  }

  /** What the requester of a join is told: a success only if the handler is registered by name, and an error, or
      what reads as a success although it is none. */
  predicate Told(replies: seq<Message>, joined: bool, named: bool, misread: bool) {
    && (joined ==> Successes(replies) && |replies| == if named then 1 else 0)
    && (!joined ==> |replies| >= 1 && (replies[0].err.None? <==> misread))
  }

  lemma JoinFreshVerdict(to: Config, ns: Bytes, events: set<Bytes>, m: Message, o: Outcome, info: Option<Bytes>)
    requires PartyRequest(m)
    ensures var r := JoinFresh(ns, events, m, o, info);
            && (r.err.None? <==> !Refuses(events, m.event, o) && info.Some?)
            && Told(Replies(to, r.sent, m), r.err.None?, m.event in events,
                    RefusesWithReply(events, m.event, o) || AcceptsNothing(events, m.event, o, info))
  {
    var fired := FireEvent(events, m, o);
    FireReplies(to, events, m, o);
    FireOutcome(events, m, o);
    if fired.err.Some? {
      RefuseReplies(to, fired.sent, m, fired.err.value);
    } else if info.None? {
      RefuseReplies(to, fired.sent, m, NO_PARTY_JOINED);
      var replies := Replies(to, Refuse(fired.sent, m, NO_PARTY_JOINED).sent, m);
      if m.event in events { assert replies[0] == replies[..|replies| - 1][0]; }
    } else {
      NoticeReplies(to, JoinedMessage(ns, info.value), m);
      RepliesConcat(to, fired.sent, [MessageFrame(JoinedMessage(ns, info.value))], m);
    }
  }

  /** What the first reply to a join request says, which is the one the request returns. The join succeeds exactly
      when its handler is reached, does not refuse and installs a party; it is then answered exactly when the
      handler is registered by name, with a success. A join that fails is always answered, and read as a
      success exactly when the leave or join handler refuses with a `Reply`, or when the join handler is
      reached and accepts without installing a party: its own success reply comes before the error. */
  lemma JoinVerdict(to: Config, ns: Bytes, events: set<Bytes>, m: Message, current: Option<Bytes>, forced: bool,
                    leaving: Outcome, o: Outcome, info: Option<Bytes>)
    requires PartyRequest(m)
    ensures var r := Join(ns, events, m, current, forced, leaving, o, info);
            var reached := current.None? || (forced && !Refuses(events, PARTY_LEAVE, leaving));
            && (r.err.None? <==> reached && !Refuses(events, m.event, o) && info.Some?)
            && Told(Replies(to, r.sent, m), r.err.None?, m.event in events,
                    if reached then RefusesWithReply(events, m.event, o) || AcceptsNothing(events, m.event, o, info)
                    else forced && RefusesWithReply(events, PARTY_LEAVE, leaving))
  {
    if current.None? {
      JoinFreshVerdict(to, ns, events, m, o, info);
    } else if !forced {
      RefusedTold(to, [], m, Coded(ALREADY_IN_PARTY, "You are already in party, " + current.value), m.event in events);
    } else {
      FireOutcome(events, LeaveMessage(ns), leaving);
      ForcedLeaveReplies(to, ns, events, leaving, m);
      var left := Leave(ns, events, LeaveMessage(ns), true, leaving);
      if left.err.Some? {
        RefusedTold(to, left.sent, m, left.err.value, m.event in events);
      } else {
        JoinFreshVerdict(to, ns, events, m, o, info);
        SilentBefore(to, left.sent, JoinFresh(ns, events, m, o, info).sent, m);
      }
    }
  }

  lemma RefusedTold(to: Config, sent: seq<Frame>, m: Message, e: Failure, named: bool)
    requires PartyRequest(m) && Replies(to, sent, m) == []
    ensures Told(Replies(to, Refuse(sent, m, e).sent, m), false, named, e.Reply?)
  {
    RefuseReplies(to, sent, m, e);
  }

  lemma SilentBefore(to: Config, x: seq<Frame>, y: seq<Frame>, m: Message)
    requires Replies(to, x, m) == []
    ensures Replies(to, x + y, m) == Replies(to, y, m)
  {
    RepliesConcat(to, x, y, m);
    assert [] + Replies(to, y, m) == Replies(to, y, m);
  }

  // ---- a forced leave comes back ----

  /** A forced join whose leave is not refused writes a leave event without a token. */
  lemma ForcedJoinWrites(ns: Bytes, events: set<Bytes>, m: Message, current: Bytes, leaving: Outcome, o: Outcome,
                         info: Option<Bytes>)
    requires !Refuses(events, PARTY_LEAVE, leaving)
    ensures MessageFrame(LeaveMessage(ns)) in Join(ns, events, m, Some(current), true, leaving, o, info).sent
  {
    var left := Leave(ns, events, LeaveMessage(ns), true, leaving);
    FireOutcome(events, LeaveMessage(ns), leaving);
    assert left == Left(ns, [], LeaveMessage(ns));
    assert left.sent[0] == MessageFrame(LeaveMessage(ns));
    assert (left.sent + JoinFresh(ns, events, m, o, info).sent)[0] == left.sent[0];
  }

  /** A client that runs this code is in no party, so it refuses the event as a leave request of its own. A frame comes
      back exactly when the client holds the namespace it reads, which is the server's exactly when the name is
      escape-safe; and what the server decodes of it is a leave request again. */
  lemma ForcedLeaveComesBack(server: Config, client: Config, held: set<Bytes>, ns: Bytes, a: Answers, c: Choices)
    requires var d := Decode(client, MessageFrame(LeaveMessage(ns)));
             a.party == Answer(KindOf(d.event), d.namespace, EventsOf(client, d.namespace), d, None, a.first, c, None)
    ensures var d := Decode(client, MessageFrame(LeaveMessage(ns)));
            var back := Dispatch(client, held, d, a).sent;
            && (d.namespace == ns <==> EscapeSafe(ns))
            && |back| == (if d.namespace in held then 1 else 0)
            && (back != [] && EscapeSafe(ns) ==>
                  var e := Decode(server, back[0]);
                  && KindOf(e.event) == LeaveParty && e.event in PARTY_EVENTS && e.namespace == ns
                  && e.wait == [] && !e.invalid && !e.native)
  {
    var d := Decode(client, MessageFrame(LeaveMessage(ns)));
    LeaveSurvives(client, LeaveMessage(ns));
    LeaveKind();
    LeaveDispatched(client, held, d, a);
    assert a.party == [MessageFrame(d.(err := Some(NOT_IN_PARTY)))];
    if EscapeSafe(ns) { LeaveSurvives(server, d.(err := Some(NOT_IN_PARTY))); }
  }

  lemma LeaveDispatched(cfg: Config, held: set<Bytes>, m: Message, a: Answers)
    requires m.event == PARTY_LEAVE
    ensures Dispatch(cfg, held, m, a).sent == if m.namespace in held then a.party else []
  {
    PartyEventNames(PARTY_LEAVE);
    assert PARTY_LEAVE[3] == 'P' && forall e | e in ROOM_EVENTS :: e[3] == 'R';
    LeaveKind();
  }

  /** After a forced join has installed a party, the returned leave request takes the server out of the new party
      exactly when its leave handler does not refuse. */
  lemma ReturnedLeaveUndoesJoin(s: Room.State, h: Room.Installing, events: set<Bytes>, e: Message, o: Outcome)
    requires s.party.Some? && h.Installs? && e.event == PARTY_LEAVE
    ensures var joined := Room.AskPartyJoin(s, true, false, h).0;
            var after := Room.AskPartyLeave(joined, FireEvent(events, e, o).err.Some?).0;
            && joined.party == Some(h.id)
            && (after.party.None? <==> !Refuses(events, PARTY_LEAVE, o))
            && (Refuses(events, PARTY_LEAVE, o) ==> after == joined)
  {
    FireOutcome(events, e, o);
  }

  lemma LeaveKind()
    ensures KindOf(PARTY_LEAVE) == LeaveParty && PARTY_LEAVE in PARTY_EVENTS && PARTY_LEAVE != NATIVE_MESSAGE
  {
    assert PARTY_LEAVE[8] == 'L' && PARTY_CREATE[8] == 'C' && PARTY_JOIN[8] == 'J';
    PartyEventNames(PARTY_LEAVE);
  }

  lemma LeaveSurvives(to: Config, m: Message)
    requires m == LeaveMessage(m.namespace).(err := m.err)
    ensures var d := Decode(to, MessageFrame(m));
            && (d.namespace == m.namespace <==> EscapeSafe(m.namespace))
            && d.event == PARTY_LEAVE && d.wait == [] && !d.invalid && !d.native
            && (m.err.None? ==> d == LeaveMessage(d.namespace))
  {
    DecodeMessageFrame(to, m);
    UnescapeEscape(m.namespace);
    LeaveName();
    LeaveKind();
  }

  lemma LeaveName()
    ensures Unescape(Escape(PARTY_LEAVE)) == PARTY_LEAVE && Unescape(Escape([])) == []
  {
    assert forall ch | ch in PARTY_LEAVE :: ch != SEPARATOR && ch != REPLACEMENT[0];
    SystemNameSurvives(PARTY_LEAVE, PARTY_LEAVE);
  }
}
