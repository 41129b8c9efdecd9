/** The objects behind the party and chat state machine: the exchange's record for one connection, a party,
    and a connected namespace whose methods change them in place and write frames. */
module Party {
  import opened Text
  import opened Codec
  import opened Protocol
  import opened PartyState
  import Frames = PartyFrames

  /** A message published to all subscribers of a channel. */
  datatype Broadcast = Broadcast(channel: Bytes, event: Bytes, body: Bytes)

  const SOMEBODY_JOINED: Bytes := "_OnPartySomebodyJoined"
  const SOMEBODY_LEFT: Bytes := "_OnPartySomebodyLeft"

  /** The channels the exchange has recorded for one connection, and what the connection published. */
  class Exchange {
    var recorded: set<Bytes>
    var published: seq<Broadcast>

    constructor ()
      ensures recorded == {} && published == []
    {
      recorded, published := {}, [];
    }

    method Subscribe(channel: Bytes)
      modifies this`recorded
      ensures recorded == old(recorded) + {channel}
    {
      recorded := recorded + {channel};
    }

    method Unsubscribe(channel: Bytes)
      modifies this`recorded
      ensures recorded == old(recorded) - {channel}
    {
      recorded := recorded - {channel};
    }

    method Publish(b: Broadcast)
      modifies this`published
      ensures published == old(published) + [b]
    {
      published := published + [b];
    }
  }

  class BaseParty {
    const id: Bytes
    var nsConn: NSConn?

    constructor (id: Bytes)
      ensures this.id == id && nsConn == null
    {
      this.id := id;
      nsConn := null;
    }

    method Create(ns: NSConn)
      modifies this, ns.exchange`recorded
      ensures nsConn == ns && ns.exchange.recorded == old(ns.exchange.recorded) + {PartyChannel(id)}
    {
      nsConn := ns;
      nsConn.exchange.Subscribe(PartyChannel(id));
    }

    /** Tells the members, then subscribes. */
    method Join(ns: NSConn, info: Bytes)
      modifies this, ns.exchange
      ensures nsConn == ns && ns.exchange.recorded == old(ns.exchange.recorded) + {PartyChannel(id)}
      ensures ns.exchange.published
           == old(ns.exchange.published) + [Broadcast(PartyChannel(id), SOMEBODY_JOINED, info)]
    {
      nsConn := ns;
      nsConn.exchange.Publish(Broadcast(PartyChannel(id), SOMEBODY_JOINED, info));
      nsConn.exchange.Subscribe(PartyChannel(id));
    }

    /** Unsubscribes, then tells the members which connection left. The source dereferences the namespace
        connection, so the party must be joined. */
    method Leave()
      requires nsConn != null
      modifies this, nsConn.exchange
      ensures nsConn == null
      ensures old(nsConn).exchange.recorded == old(nsConn.exchange.recorded) - {PartyChannel(id)}
      ensures old(nsConn).exchange.published
           == old(nsConn.exchange.published) + [Broadcast(PartyChannel(id), SOMEBODY_LEFT, old(nsConn).connID)]
    {
      nsConn.exchange.Unsubscribe(PartyChannel(id));
      nsConn.exchange.Publish(Broadcast(PartyChannel(id), SOMEBODY_LEFT, nsConn.connID));
      nsConn := null;
    }
  }

  datatype RoomChat = RoomChat(id: Bytes, channel: Channel)

  /** `NewRoomChat`, with the id that would be generated as a parameter. */
  function NewRoomChat(id: Bytes, generated: Bytes, channel: Channel): RoomChat {
    RoomChat(if id == [] then generated else id, channel)
  }

  /** What the create or join handler does to the party; it may join the party it installs by itself. `info` is
      what the party says of itself, and `generated` the id its chat room gets if its own is empty. */
  datatype Handler = InstallNone | InstallParty(party: BaseParty, joins: bool, info: Bytes, generated: Bytes)

  function Effect(h: Handler): Installing {
    match h
    case InstallNone => InstallsNone
    case InstallParty(p, _, _, generated) => Installs(p.id, generated)
  }

  /** What the joined notice says of an installed party: its info, or its id if that is empty. */
  function Info(h: Handler): Option<Bytes> {
    match h
    case InstallNone => None
    case InstallParty(p, _, info, _) => Some(if info == [] then p.id else info)
  }

  function Installed(h: Handler): set<object> {
    if h.InstallParty? then {h.party} else {}
  }

  /** A create handler fails with an error that is not a `Reply`. */
  predicate Fails(fired: Fired) {
    fired.err.Some? && !fired.err.value.Reply?
  }

  /** A handler that ran and did not fail may install a party that is not joined yet. */
  ghost predicate Fresh(h: Handler, fails: bool)
    reads if h.InstallParty? then {h.party} else {}
  {
    h.InstallParty? ==> !fails && h.party.nsConn == null
  }

  /** What the members hear when a party is joined: from the handler that joins the party it installs ... */
  function HandlerNews(h: Handler): seq<Broadcast> {
    if h.InstallParty? && h.joins then JoinNews(h) else []
  }

  /** ... or in any case. */
  function JoinNews(h: Handler): seq<Broadcast> {
    if h.InstallParty? then [Broadcast(PartyChannel(h.party.id), SOMEBODY_JOINED, [])] else []
  }

  class NSConn {
    const namespace: Bytes
    const events: set<Bytes>
    const connID: Bytes
    const exchange: Exchange
    var party: BaseParty?
    var roomsChat: map<Channel, RoomChat>

    constructor (namespace: Bytes, events: set<Bytes>, connID: Bytes, exchange: Exchange)
      ensures this.namespace == namespace && this.exchange == exchange
      ensures this.events == events && this.connID == connID
      ensures party == null && roomsChat == map[] && Valid()
    {
      this.namespace, this.events, this.connID, this.exchange := namespace, events, connID, exchange;
      party := null;
      roomsChat := map[];
    }

    ghost predicate Valid()
      reads this, party
    {
      && (party != null ==> party.nsConn == this)
      && forall c | c in roomsChat :: roomsChat[c].channel == c
    }

    ghost function Local(): (s: State)
      reads this
    {
      State(if party == null then None else Some(party.id), map c | c in roomsChat :: roomsChat[c].id, {})
    }

    ghost function Abs(): (s: State)
      reads this, exchange
    {
      Local().(recorded := exchange.recorded)
    }

    /** Whether an operation leaves the current party. */
    ghost predicate Leaves(op: Op)
      reads this
    {
      && party != null
      && match op
         case Join(forced, veto, _) => forced && !veto
         case ReplyInvitation(accepted, veto, _, _) => accepted && !veto
         case Leave(veto) => !veto
         case ForceLeaveAll(veto) => !veto
         case _ => false
    }

    /** Whether it then joins or creates the one its handler installs. */
    ghost predicate Enters(op: Op)
      reads this
    {
      && (party == null || Leaves(op))
      && match op
         case Create(_) => true
         case Join(_, _, _) => true
         case Invite(autoCreate, _) => autoCreate
         case ReplyInvitation(accepted, _, joinMsgOk, _) => accepted && joinMsgOk
         case _ => false
    }

    /** The party afterwards ... */
    ghost function NextParty(op: Op, h: Handler): BaseParty?
      reads this
    {
      if Enters(op) then (if h.InstallParty? then h.party else null) else if Leaves(op) then null else party
    }

    /** ... and what the members of the parties concerned hear, in order. */
    ghost function News(op: Op, h: Handler): seq<Broadcast>
      reads this
    {
      (if Leaves(op) then [Broadcast(PartyChannel(party.id), SOMEBODY_LEFT, connID)] else [])
      + (if !Enters(op) then [] else if op.Create? || op.Invite? then HandlerNews(h) else JoinNews(h))
    }

    method JoinRoomChat(room: RoomChat) returns (ok: bool)
      requires Valid()
      modifies this`roomsChat, exchange`recorded
      ensures Valid() && ok == (room.channel !in old(roomsChat))
      ensures Abs() == PartyState.JoinRoomChat(old(Abs()), room.channel, room.id)
    {
      ok := room.channel !in roomsChat;
      if ok {
        roomsChat := roomsChat[room.channel := room];
        exchange.Subscribe(ChatChannel(room.id));
        assert Abs().rooms == old(Abs()).rooms[room.channel := room.id];
      }
    }

    method LeaveRoomChat(channel: Channel) returns (ok: bool)
      requires Valid()
      modifies this`roomsChat, exchange`recorded
      ensures Valid() && ok == (channel in old(roomsChat))
      ensures Abs() == PartyState.LeaveRoomChat(old(Abs()), channel)
    {
      ok := channel in roomsChat;
      if ok {
        exchange.Unsubscribe(ChatChannel(roomsChat[channel].id));
        roomsChat := roomsChat - {channel};
        assert Abs().rooms == old(Abs()).rooms - {channel};
      }
    }

    /** Leaves the rooms one by one, in any order. */
    method LeaveAllRoomChat()
      requires Valid()
      modifies this`roomsChat, exchange`recorded
      ensures Valid() && Abs() == PartyState.LeaveAllRoomChat(old(Abs()))
    {
      ghost var gone: set<Bytes> := {};
      while roomsChat.Keys != {}
        invariant Valid()
        invariant roomsChat.Keys <= old(roomsChat.Keys)
        invariant forall c | c in roomsChat :: roomsChat[c] == old(roomsChat)[c]
        invariant forall c | c in old(roomsChat) :: c in roomsChat || ChatChannel(old(roomsChat)[c].id) in gone
        invariant forall g | g in gone :: exists c | c in old(roomsChat) :: g == ChatChannel(old(roomsChat)[c].id)
        invariant exchange.recorded == old(exchange.recorded) - gone
        decreases roomsChat.Keys
      {
        var c :| c in roomsChat.Keys;
        var channel := ChatChannel(roomsChat[c].id);
        exchange.Unsubscribe(channel);
        gone := gone + {channel};
        roomsChat := roomsChat - {c};
      }
      ghost var rooms := old(Abs()).rooms;
      assert forall c :: c in rooms <==> c in old(roomsChat);
      assert forall c | c in rooms :: rooms[c] == old(roomsChat)[c].id;
      assert gone == set c | c in rooms :: ChatChannel(rooms[c]);
      assert Abs().rooms == map[];
    }

    /** What the handler of an event that may install a party does. */
    method RunInstalling(h: Handler)
      requires party == null && Fresh(h, false)
      modifies this`party, exchange, Installed(h)
      ensures party == if h.InstallParty? then h.party else null
      ensures h.InstallParty? ==> h.party.nsConn == if h.joins then this else null
      ensures exchange.recorded ==
                if h.InstallParty? && h.joins then old(exchange.recorded) + {PartyChannel(h.party.id)}
                else old(exchange.recorded)
      ensures exchange.published == old(exchange.published) + HandlerNews(h)
    {
      if h.InstallParty? {
        party := h.party;
        if h.joins { party.Join(this, []); }
      }
    }

    method ReplyJoined(info: Bytes, generated: Bytes) returns (sent: seq<Frame>)
      requires Valid() && party != null
      modifies this`roomsChat, exchange`recorded
      ensures Valid()
      ensures Abs() == PartyState.JoinRoomChat(old(Abs()), PARTY_CHAT, NewRoomChat(party.id, generated, PARTY_CHAT).id)
      ensures sent == [MessageFrame(Frames.JoinedMessage(namespace, if info == [] then party.id else info))]
    {
      var _ := JoinRoomChat(NewRoomChat(party.id, generated, PARTY_CHAT));
      sent := [MessageFrame(Frames.JoinedMessage(namespace, if info == [] then party.id else info))];
    }

    method ReplyLeft() returns (sent: seq<Frame>)
      requires Valid()
      modifies this`roomsChat, exchange`recorded
      ensures Valid() && Abs() == PartyState.LeaveRoomChat(old(Abs()), PARTY_CHAT)
      ensures sent == [MessageFrame(Frames.LeftMessage(namespace))]
    {
      var _ := LeaveRoomChat(PARTY_CHAT);
      sent := [MessageFrame(Frames.LeftMessage(namespace))];
    }

    /** The end of a create: the installed party is subscribed, its chat room joined and the notice written. `s` is the
        state before the party was installed. */
    method Found(info: Bytes, generated: Bytes, ghost s: State) returns (sent: seq<Frame>)
      requires party != null && forall c | c in roomsChat :: roomsChat[c].channel == c
      requires s.party.None? && Abs() == State(Some(party.id), s.rooms, exchange.recorded)
      requires exchange.recorded == s.recorded || exchange.recorded == s.recorded + {PartyChannel(party.id)}
      modifies this`roomsChat, party, exchange`recorded
      ensures Valid() && Abs() == PartyState.Install(s, Installs(party.id, generated)).0
      ensures sent == [MessageFrame(Frames.JoinedMessage(namespace, if info == [] then party.id else info))]
    {
      party.Create(this);
      assert exchange.recorded == s.recorded + {PartyChannel(party.id)};
      sent := ReplyJoined(info, generated);
    }

    /** A create while in no party. */
    method CreateFresh(m: Message, o: Outcome, h: Handler) returns (r: Fired)
      requires Valid() && party == null && Fresh(h, Fails(FireEvent(events, m, o)))
      modifies this, exchange, Installed(h)
      ensures Valid() && (Abs(), r.err.None?) == PartyState.Install(old(Abs()), Effect(h))
      ensures r == Frames.Create(namespace, events, m, false, o, Info(h))
      ensures party == (if h.InstallParty? then h.party else null)
      ensures exchange.published == old(exchange.published) + HandlerNews(h)
    {
      var fired := FireEvent(events, m, o);
      RunInstalling(h);
      var sent := fired.sent;
      if fired.err.Some? {
        if !fired.err.value.Reply? {
          return Frames.Refuse(sent, m, fired.err.value);
        }
        sent := sent + [MessageFrame(m.(body := fired.err.value.body))];
      }
      if party == null {
        return Frames.Refuse(sent, m, Frames.NO_PARTY_CREATED);
      }
      var notice := Found(h.info, h.generated, old(Abs()));
      r := Fired(None, sent + notice);
    }

    method AskPartyCreate(m: Message, o: Outcome, h: Handler) returns (r: Fired)
      requires Valid() && Fresh(h, Fails(FireEvent(events, m, o)))
      modifies this, exchange, Installed(h)
      ensures Valid() && (Abs(), r.err.None?) == PartyState.AskPartyCreate(old(Abs()), Effect(h))
      ensures r == Frames.Create(namespace, events, m, old(party) != null, o, Info(h))
      ensures party == old(NextParty(Op.Create(Effect(h)), h))
      ensures exchange.published == old(exchange.published) + old(News(Op.Create(Effect(h)), h))
    {
      if party != null {
        r := Frames.Refuse([], m, Frames.IN_PARTY);
      } else {
        r := CreateFresh(m, o, h);
      }
    }

    method AskPartyLeave(m: Message, o: Outcome) returns (r: Fired)
      requires Valid()
      modifies this, party, exchange
      ensures Valid()
      ensures (Abs(), r.err.None?) == PartyState.AskPartyLeave(old(Abs()), FireEvent(events, m, o).err.Some?)
      ensures party == if r.err.None? then null else old(party)
      ensures r == Frames.Leave(namespace, events, m, old(party) != null, o)
      ensures exchange.published == old(exchange.published)
                + if r.err.None? then [Broadcast(PartyChannel(old(party).id), SOMEBODY_LEFT, connID)] else []
    {
      if party == null {
        return Frames.Refuse([], m, Frames.NOT_IN_PARTY);
      }
      var fired := FireEvent(events, m, o);
      if fired.err.Some? {
        return Frames.Refuse(fired.sent, m, fired.err.value);
      }
      party.Leave();
      party := null;
      var notice := ReplyLeft();
      r := Fired(None, fired.sent + [MessageFrame(m)] + notice);
    }

    /** The part of a join after the current party was left. */
    method JoinFresh(m: Message, o: Outcome, h: Handler) returns (r: Fired)
      requires Valid() && party == null && Fresh(h, FireEvent(events, m, o).err.Some?)
      modifies this, exchange, Installed(h)
      ensures Valid() && (Abs(), r.err.None?) == PartyState.Install(old(Abs()), Effect(h))
      ensures r == Frames.JoinFresh(namespace, events, m, o, Info(h))
      ensures party == (if h.InstallParty? then h.party else null)
      ensures exchange.published == old(exchange.published) + JoinNews(h)
    {
      var fired := FireEvent(events, m, o);
      RunInstalling(h);
      if fired.err.Some? {
        return Frames.Refuse(fired.sent, m, fired.err.value);
      }
      if party == null {
        return Frames.Refuse(fired.sent, m, Frames.NO_PARTY_JOINED);
      }
      if party.nsConn == null { party.Join(this, []); }
      var notice := ReplyJoined(h.info, h.generated);
      r := Fired(None, fired.sent + notice);
    }

    /** A forced join: leave the current party, then join. */
    method JoinForced(m: Message, leaving: Outcome, o: Outcome, h: Handler) returns (r: Fired)
      requires Valid() && party != null && Fresh(h, FireEvent(events, m, o).err.Some?)
      modifies this, party, exchange, Installed(h)
      ensures Valid()
      ensures var veto := FireEvent(events, Frames.LeaveMessage(namespace), leaving).err.Some?;
              && (Abs(), r.err.None?) == PartyState.AskPartyJoin(old(Abs()), true, veto, Effect(h))
              && party == (if veto then old(party) else if h.InstallParty? then h.party else null)
              && exchange.published == (if veto then old(exchange.published)
                                        else old(exchange.published) + old(Farewell()) + JoinNews(h))
      ensures r == Frames.Join(namespace, events, m, old(Abs().party), true, leaving, o, Info(h))
    {
      var left := AskPartyLeave(Frames.LeaveMessage(namespace), leaving);
      if left.err.Some? {
        return Frames.Refuse(left.sent, m, left.err.value);
      }
      r := JoinFresh(m, o, h);
      r := Fired(r.err, left.sent + r.sent);
    }

    /** What the members of the current party hear when it is left. */
    ghost function Farewell(): seq<Broadcast>
      requires party != null
      reads this
    {
      [Broadcast(PartyChannel(party.id), SOMEBODY_LEFT, connID)]
    }

    lemma ForcedNews(published: seq<Broadcast>, veto: bool, h: Handler)
      requires party != null
      ensures published + News(Op.Join(true, veto, Effect(h)), h)
           == if veto then published else published + Farewell() + JoinNews(h)
    {
      if !veto { assert published + Farewell() + JoinNews(h) == published + (Farewell() + JoinNews(h)); }
    }

    method AskPartyJoin(m: Message, forced: bool, leaving: Outcome, o: Outcome, h: Handler) returns (r: Fired)
      requires Valid() && Fresh(h, FireEvent(events, m, o).err.Some?)
      modifies this, party, exchange, Installed(h)
      ensures Valid()
      ensures var veto := FireEvent(events, Frames.LeaveMessage(namespace), leaving).err.Some?;
              var op := Op.Join(forced, veto, Effect(h));
              && (Abs(), r.err.None?) == PartyState.AskPartyJoin(old(Abs()), forced, op.veto, Effect(h))
              && party == old(NextParty(op, h)) && exchange.published == old(exchange.published) + old(News(op, h))
      ensures r == Frames.Join(namespace, events, m, old(Abs().party), forced, leaving, o, Info(h))
    {
      if party == null {
        r := JoinFresh(m, o, h);
      } else if forced {
        ForcedNews(exchange.published, FireEvent(events, Frames.LeaveMessage(namespace), leaving).err.Some?, h);
        r := JoinForced(m, leaving, o, h);
      } else {
        r := Frames.Refuse([], m, Coded(Frames.ALREADY_IN_PARTY, "You are already in party, " + party.id));
      }
    }

    method AskPartyInvite(m: Message, autoCreate: bool, create: Outcome, h: Handler, o: Outcome)
        returns (sent: seq<Frame>)
      requires Valid()
      requires Fresh(h, Fails(FireEvent(events, m.(event := Frames.PARTY_CREATE), create)))
      modifies this, exchange, Installed(h)
      ensures Valid() && Abs() == PartyState.AskPartyInvite(old(Abs()), autoCreate, Effect(h))
      ensures party == old(NextParty(Op.Invite(autoCreate, Effect(h)), h))
      ensures exchange.published == old(exchange.published) + old(News(Op.Invite(autoCreate, Effect(h)), h))
      ensures var msgCreate := m.(event := Frames.PARTY_CREATE);
              sent == Frames.Invite(events, m,
                                    if old(party) == null && autoCreate
                                    then Some(Frames.Create(namespace, events, msgCreate, false, create, Info(h)))
                                    else None, o)
    {
      sent := [];
      if party == null && autoCreate {
        var created := AskPartyCreate(m.(event := Frames.PARTY_CREATE), create, h);
        sent := created.sent;
        if created.err.Some? {
          return Frames.Refuse(sent, m, Frames.CANNOT_INVITE).sent;
        }
      }
      var fired := FireEvent(events, m, o);
      if fired.err.Some? {
        return Frames.Refuse(sent + fired.sent, m, fired.err.value).sent;
      }
      sent := sent + fired.sent + [Frame(false, EmptyReply(m.wait))];
    }

    /** Leaves the current party, if there is one. */
    method LeaveFirst(o: Outcome) returns (r: Fired)
      requires Valid()
      modifies this, party, exchange
      ensures Valid()
      ensures var veto := FireEvent(events, Frames.LeaveMessage(namespace), o).err.Some?;
              && (r.err.Some? <==> old(party) != null && veto)
              && Abs() == PartyState.AskPartyLeave(old(Abs()), veto).0
              && party == (if r.err.None? then null else old(party))
              && exchange.published == (if old(party) == null || veto then old(exchange.published)
                                        else old(exchange.published) + old(Farewell()))
      ensures r == if old(party) != null then Frames.Leave(namespace, events, Frames.LeaveMessage(namespace), true, o)
                   else Fired(None, [])
    {
      if party != null {
        r := AskPartyLeave(Frames.LeaveMessage(namespace), o);
      } else {
        r := Fired(None, []);
      }
    }

    /** What was published after an accepted invitation. */
    ghost function InvitedNews(published: seq<Broadcast>, veto: bool, joins: bool, h: Handler): seq<Broadcast>
      reads this
    {
      if party != null && veto then published
      else (if party != null then published + Farewell() else published) + (if joins then JoinNews(h) else [])
    }

    /** What an answered invitation leads to, spelled out. */
    lemma InvitationOutcome(published: seq<Broadcast>, accepted: bool, veto: bool, joins: bool, h: Handler)
      ensures var op := Op.ReplyInvitation(accepted, veto, joins, Effect(h));
              && published + News(op, h) == (if accepted then InvitedNews(published, veto, joins, h) else published)
              && NextParty(op, h) == (if !accepted || (party != null && veto) then party
                                      else if joins && h.InstallParty? then h.party else null)
    {
      if accepted && party != null && !veto && joins {
        assert published + Farewell() + JoinNews(h) == published + (Farewell() + JoinNews(h));
      }
    }

    /** What follows an accepted invitation: leave the current party, then join. */
    method AcceptInvitation(m: Message, leaving: Outcome, hook: Frames.JoinMessage, join: Outcome, h: Handler)
        returns (sent: seq<Frame>)
      requires Valid() && (hook.JoinAs? ==> Fresh(h, FireEvent(events, hook.m, join).err.Some?))
      modifies this, party, exchange, Installed(h)
      ensures Valid()
      ensures var veto := FireEvent(events, Frames.LeaveMessage(namespace), leaving).err.Some?;
              && Abs() == PartyState.ReplyPartyInvitation(old(Abs()), true, veto, hook.JoinAs?, Effect(h))
              && party == (if old(party) != null && veto then old(party)
                           else if hook.JoinAs? && h.InstallParty? then h.party else null)
              && exchange.published == old(InvitedNews(exchange.published, veto, hook.JoinAs?, h))
      ensures sent == Frames.AcceptFrames(namespace, events, m, old(party) != null, leaving, hook, join, Info(h))
    {
      var left := LeaveFirst(leaving);
      if left.err.Some? {
        return Frames.Refuse(left.sent, m, left.err.value).sent;
      }
      if hook.NoJoin? {
        return Frames.Refuse(left.sent, m, hook.err).sent;
      }
      var joined := JoinInvited(m, hook.m, leaving, join, h);
      sent := left.sent + joined;
    }

    /** The join of an accepted invitation; its error is also written as one of the invitation. */
    method JoinInvited(m: Message, jm: Message, leaving: Outcome, join: Outcome, h: Handler) returns (sent: seq<Frame>)
      requires Valid() && party == null && Fresh(h, FireEvent(events, jm, join).err.Some?)
      modifies this, exchange, Installed(h)
      ensures Valid() && Abs() == PartyState.Install(old(Abs()), Effect(h)).0
      ensures party == (if h.InstallParty? then h.party else null)
      ensures exchange.published == old(exchange.published) + JoinNews(h)
      ensures sent == Frames.InvitedJoin(namespace, events, m, jm, join, Info(h))
    {
      var joined := AskPartyJoin(jm, false, leaving, join, h);
      sent := if joined.err.Some? then Frames.Refuse(joined.sent, m, joined.err.value).sent else joined.sent;
    }

    method ReplyPartyInvitation(m: Message, o: Outcome, leaving: Outcome, hook: Frames.JoinMessage, join: Outcome,
                                h: Handler) returns (sent: seq<Frame>)
      requires Valid() && (hook.JoinAs? ==> Fresh(h, FireEvent(events, hook.m, join).err.Some?))
      modifies this, party, exchange, Installed(h)
      ensures Valid()
      ensures var accepted := FireEvent(events, m, o).err.None?;
              var veto := FireEvent(events, Frames.LeaveMessage(namespace), leaving).err.Some?;
              var op := Op.ReplyInvitation(accepted, veto, hook.JoinAs?, Effect(h));
              && Abs() == PartyState.ReplyPartyInvitation(old(Abs()), accepted, veto, hook.JoinAs?, Effect(h))
              && party == old(NextParty(op, h)) && exchange.published == old(exchange.published) + old(News(op, h))
      ensures sent == Frames.ReplyInvitation(namespace, events, m, old(party) != null, o, leaving, hook, join, Info(h))
    {
      var fired := FireEvent(events, m, o);
      InvitationOutcome(exchange.published, fired.err.None?,
                        FireEvent(events, Frames.LeaveMessage(namespace), leaving).err.Some?, hook.JoinAs?, h);
      if fired.err.Some? {
        return Frames.Refuse(fired.sent, m, fired.err.value).sent;
      }
      sent := AcceptInvitation(m, leaving, hook, join, h);
      sent := fired.sent + sent;
    }

    /** What the handlers of a party operation may install, given how they answer. */
    ghost predicate Able(kind: Frames.Kind, m: Message, first: Outcome, c: Frames.Choices, h: Handler)
      reads if h.InstallParty? then {h.party} else {}
    {
      match kind
      case CreateParty => Fresh(h, Fails(FireEvent(events, m, first)))
      case JoinParty => Fresh(h, FireEvent(events, m, first).err.Some?)
      case LeaveParty => Fresh(h, false)
      case InviteParty => Fresh(h, Fails(FireEvent(events, m.(event := Frames.PARTY_CREATE), c.create)))
      case AnswerInvitation => Fresh(h, c.hook.JoinAs? && FireEvent(events, c.hook.m, c.join).err.Some?)
    }

    /** The step of the state machine that a party operation is. */
    ghost function Operation(kind: Frames.Kind, m: Message, first: Outcome, c: Frames.Choices, h: Handler): Op {
      var refused := FireEvent(events, m, first).err.Some?;
      var veto := FireEvent(events, Frames.LeaveMessage(namespace), c.leaving).err.Some?;
      match kind
      case CreateParty => Op.Create(Effect(h))
      case JoinParty => Op.Join(c.forced, veto, Effect(h))
      case LeaveParty => Op.Leave(refused)
      case InviteParty => Op.Invite(c.autoCreate, Effect(h))
      case AnswerInvitation => Op.ReplyInvitation(!refused, veto, c.hook.JoinAs?, Effect(h))
    }

    /** The party cases of `handleMessage`: create, join and leave ... */
    method HandleMembership(kind: Frames.Kind, m: Message, first: Outcome, c: Frames.Choices, h: Handler)
        returns (sent: seq<Frame>)
      requires Valid() && Able(kind, m, first, c, h) && !kind.InviteParty? && !kind.AnswerInvitation?
      modifies this, party, exchange, Installed(h)
      ensures Valid() && Abs() == Apply(old(Abs()), Operation(kind, m, first, c, h))
      ensures party == old(NextParty(Operation(kind, m, first, c, h), h))
      ensures exchange.published == old(exchange.published) + old(News(Operation(kind, m, first, c, h), h))
      ensures sent == Frames.Answer(kind, namespace, events, m, old(Abs().party), first, c, Info(h))
    {
      var r;
      match kind {
        case CreateParty => r := AskPartyCreate(m, first, h);
        case JoinParty => r := AskPartyJoin(m, c.forced, c.leaving, first, h);
        case LeaveParty => r := AskPartyLeave(m, first);
      }
      sent := r.sent;
    }

    /** ... and the two that concern invitations. */
    method HandleParty(kind: Frames.Kind, m: Message, first: Outcome, c: Frames.Choices, h: Handler)
        returns (sent: seq<Frame>)
      requires Valid() && Able(kind, m, first, c, h)
      modifies this, party, exchange, Installed(h)
      ensures Valid() && Abs() == Apply(old(Abs()), Operation(kind, m, first, c, h))
      ensures party == old(NextParty(Operation(kind, m, first, c, h), h))
      ensures exchange.published == old(exchange.published) + old(News(Operation(kind, m, first, c, h), h))
      ensures sent == Frames.Answer(kind, namespace, events, m, old(Abs().party), first, c, Info(h))
    {
      if kind.InviteParty? {
        sent := AskPartyInvite(m, c.autoCreate, c.create, h, first);
      } else if kind.AnswerInvitation? {
        sent := ReplyPartyInvitation(m, first, c.leaving, c.hook, c.join, h);
      } else {
        sent := HandleMembership(kind, m, first, c, h);
      }
    }

    method ForceLeaveAll(o: Outcome) returns (sent: seq<Frame>)
      requires Valid()
      modifies this, party, exchange
      ensures Valid()
      ensures var veto := FireEvent(events, Frames.LeaveMessage(namespace), o).err.Some?;
              && Abs() == ForceLeave(old(Abs()), veto) && party == (if veto then old(party) else null)
              && exchange.published == (if veto || old(party) == null then old(exchange.published)
                                        else old(exchange.published) + old(Farewell()))
      ensures sent == Frames.Leave(namespace, events, Frames.LeaveMessage(namespace), old(party) != null, o).sent
    {
      var left := AskPartyLeave(Frames.LeaveMessage(namespace), o);
      sent := left.sent;
      LeaveAllRoomChat();
    }

    /** What a forced leave does to the record: it lets go exactly what this namespace accounts for, but for the
        channel of a party whose handler refuses. */
    method ForceRelease(o: Outcome) returns (sent: seq<Frame>)
      requires Valid()
      modifies this, party, exchange
      ensures Valid()
      ensures var veto := FireEvent(events, Frames.LeaveMessage(namespace), o).err.Some?;
              forall channel :: channel in exchange.recorded
                           <==> channel in old(exchange.recorded) && !Releases(old(Local()), veto, channel)
      ensures sent == Frames.Leave(namespace, events, Frames.LeaveMessage(namespace), old(party) != null, o).sent
    {
      ghost var s := Abs();
      ghost var veto := FireEvent(events, Frames.LeaveMessage(namespace), o).err.Some?;
      sent := ForceLeaveAll(o);
      forall channel
        ensures channel in exchange.recorded <==> channel in s.recorded && !Releases(old(Local()), veto, channel)
      {
        ForceLeaveExact(s, veto, channel);
        assert Releases(s, veto, channel) <==> Releases(old(Local()), veto, channel);
      }
    }
  }
}
