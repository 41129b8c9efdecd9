/** Parties and chat rooms of one connected namespace against the channels the exchange has recorded for its
    connection (conn_party.go, party.go, conn_room_chat.go, room_chat.go), as a state machine. */
module PartyState {
  import opened Text
  import opened Codec

  type Channel = nat

  const PARTY_CHAT: Channel := 1

  /** The party's id if in one, the id of the chat room joined on each channel, and the exchange's record. */
  datatype State = State(party: Option<Bytes>, rooms: map<Channel, Bytes>, recorded: set<Bytes>)

  /** What the create or join handler does to the party: nothing, or install one. A chat room built for an empty
      id gets a generated id instead. */
  datatype Installing = InstallsNone | Installs(id: Bytes, generated: Bytes)

  /** The id of the chat room that is joined for an installed party. */
  function ChatId(h: Installing): Bytes
    requires h.Installs?
  {
    if h.id == [] then h.generated else h.id
  }

  datatype Op =
    | Create(h: Installing)
    | Join(forced: bool, veto: bool, h: Installing)
    | Invite(autoCreate: bool, h: Installing)
    | ReplyInvitation(accepted: bool, veto: bool, joinMsgOk: bool, h: Installing)
    | Leave(veto: bool)
    | ForceLeaveAll(veto: bool)
    | JoinRoom(channel: Channel, id: Bytes)
    | LeaveRoom(channel: Channel)

  function PartyChannel(id: Bytes): Bytes {
    "party." + id
  }

  function ChatChannel(id: Bytes): Bytes {
    "chat." + id
  }

  /** The channels this model is about; a connection's own id is recorded too. */
  predicate IsTopic(channel: Bytes) {
    "party." <= channel || "chat." <= channel
  }

  // ---- operations ----

  function JoinRoomChat(s: State, channel: Channel, id: Bytes): State {
    if channel in s.rooms then s
    else s.(rooms := s.rooms[channel := id], recorded := s.recorded + {ChatChannel(id)})
  }

  function LeaveRoomChat(s: State, channel: Channel): State {
    if channel !in s.rooms then s
    else s.(rooms := s.rooms - {channel}, recorded := s.recorded - {ChatChannel(s.rooms[channel])})
  }

  function LeaveAllRoomChat(s: State): State {
    s.(rooms := map[], recorded := s.recorded - set c | c in s.rooms :: ChatChannel(s.rooms[c]))
  }

  /** Run the handler of an event that installs a party, subscribe to it and join its chat room. */
  function Install(s: State, h: Installing): (State, bool)
    requires s.party.None?
  {
    if !h.Installs? then (s, false)
    else
      var entered := s.(party := Some(h.id), recorded := s.recorded + {PartyChannel(h.id)});
      (JoinRoomChat(entered, PARTY_CHAT, ChatId(h)), true)
  }

  function AskPartyCreate(s: State, h: Installing): (State, bool) {
    if s.party.Some? then (s, false) else Install(s, h)
  }

  function AskPartyLeave(s: State, veto: bool): (State, bool) {
    if s.party.None? || veto then (s, false)
    else
      (LeaveRoomChat(s.(party := None, recorded := s.recorded - {PartyChannel(s.party.value)}), PARTY_CHAT), true)
  }

  function AskPartyJoin(s: State, forced: bool, veto: bool, h: Installing): (State, bool) {
    if s.party.None? then Install(s, h)
    else if !forced || veto then (s, false)
    else Install(AskPartyLeave(s, false).0, h)
  }

  function AskPartyInvite(s: State, autoCreate: bool, h: Installing): State {
    if s.party.None? && autoCreate then AskPartyCreate(s, h).0 else s
  }

  /** Accepting an invitation leaves the current party first, so the join finds none. */
  function ReplyPartyInvitation(s: State, accepted: bool, veto: bool, joinMsgOk: bool, h: Installing): State {
    if !accepted || (s.party.Some? && veto) then s
    else
      var left := if s.party.Some? then AskPartyLeave(s, false).0 else s;
      if !joinMsgOk then left else AskPartyJoin(left, false, false, h).0
  }

  function ForceLeave(s: State, veto: bool): State {
    LeaveAllRoomChat(AskPartyLeave(s, veto).0)
  }

  function Apply(s: State, op: Op): State {
    match op
    case Create(h) => AskPartyCreate(s, h).0
    case Join(forced, veto, h) => AskPartyJoin(s, forced, veto, h).0
    case Invite(autoCreate, h) => AskPartyInvite(s, autoCreate, h)
    case ReplyInvitation(accepted, veto, joinMsgOk, h) => ReplyPartyInvitation(s, accepted, veto, joinMsgOk, h)
    case Leave(veto) => AskPartyLeave(s, veto).0
    case ForceLeaveAll(veto) => ForceLeave(s, veto)
    case JoinRoom(channel, id) => JoinRoomChat(s, channel, id)
    case LeaveRoom(channel) => LeaveRoomChat(s, channel)
  }

  // ---- what the operations do ----

  /** The party after an operation, from who was in which party and what the handlers answered. */
  lemma PartyAfter(s: State, op: Op)
    ensures var installed := (h: Installing) => if h.Installs? then Some(h.id) else None;
            Apply(s, op).party ==
              match op
              case Create(h) => if s.party.None? then installed(h) else s.party
              case Join(forced, veto, h) => if s.party.None? || (forced && !veto) then installed(h) else s.party
              case Invite(autoCreate, h) => if s.party.None? && autoCreate then installed(h) else s.party
              case ReplyInvitation(accepted, veto, joinMsgOk, h) =>
                if !accepted || (s.party.Some? && veto) then s.party else if joinMsgOk then installed(h) else None
              case Leave(veto) => if veto then s.party else None
              case ForceLeaveAll(veto) => if veto then s.party else None
              case JoinRoom(_, _) => s.party
              case LeaveRoom(_) => s.party
  {
  }

  /** The chat room on a channel other than the party's, after an operation: only joining and leaving that room, and a
      forced leave, change it. A room that is joined is not replaced. */
  lemma RoomAfter(s: State, op: Op, c: Channel)
    requires c != PARTY_CHAT
    ensures var t := Apply(s, op);
            match op
            case JoinRoom(channel, id) =>
              if channel == c then c in t.rooms && t.rooms[c] == (if c in s.rooms then s.rooms[c] else id)
              else (c in t.rooms <==> c in s.rooms) && (c in t.rooms ==> t.rooms[c] == s.rooms[c])
            case LeaveRoom(channel) =>
              (c in t.rooms <==> c in s.rooms && channel != c) && (c in t.rooms ==> t.rooms[c] == s.rooms[c])
            case ForceLeaveAll(_) => c !in t.rooms
            case _ => (c in t.rooms <==> c in s.rooms) && (c in t.rooms ==> t.rooms[c] == s.rooms[c])
  {
  }

  // ---- agreement with the exchange ----

  /** The channels the local state calls for. */
  predicate Wanted(s: State, channel: Bytes) {
    || (s.party.Some? && channel == PartyChannel(s.party.value))
    || exists c | c in s.rooms :: channel == ChatChannel(s.rooms[c])
  }

  /** Of the party and chat channels, exactly the wanted ones are recorded. */
  ghost predicate Agrees(s: State) {
    forall channel: Bytes | IsTopic(channel) :: channel in s.recorded <==> Wanted(s, channel)
  }

  predicate DistinctRooms(s: State) {
    forall c, d | c in s.rooms && d in s.rooms && s.rooms[c] == s.rooms[d] :: c == d
  }

  /** The party chat room belongs to the current party. */
  predicate ChatOfParty(s: State) {
    PARTY_CHAT in s.rooms ==> s.party == Some(s.rooms[PARTY_CHAT])
  }

  ghost predicate Consistent(s: State) {
    Agrees(s) && DistinctRooms(s) && ChatOfParty(s)
  }

  /** In a party exactly when in its chat room. */
  predicate ChatJoined(s: State) {
    s.party.Some? <==> PARTY_CHAT in s.rooms
  }

  predicate IdInUse(s: State, id: Bytes) {
    exists c | c in s.rooms && c != PARTY_CHAT :: s.rooms[c] == id
  }

  /** A party that may be installed: its id is not empty and not the id of a joined room. */
  predicate Installable(s: State, h: Installing) {
    h.Installs? ==> h.id != [] && !IdInUse(s, h.id)
  }

  /** Users touch only channels other than the party's and use each room id once; a party's id is not empty and
      not the id of another room. */
  predicate Allowed(s: State, op: Op) {
    match op
    case JoinRoom(channel, id) =>
      channel != PARTY_CHAT && !IdInUse(s, id) && !(PARTY_CHAT in s.rooms && s.rooms[PARTY_CHAT] == id)
    case LeaveRoom(channel) => channel != PARTY_CHAT
    case Create(h) => Installable(s, h)
    case Join(_, _, h) => Installable(s, h)
    case Invite(_, h) => Installable(s, h)
    case ReplyInvitation(_, _, _, h) => Installable(s, h)
    case _ => true
  }

  lemma ChannelsDiffer(p: Bytes, q: Bytes)
    ensures PartyChannel(p) != ChatChannel(q)
    ensures PartyChannel(p) == PartyChannel(q) ==> p == q
    ensures ChatChannel(p) == ChatChannel(q) ==> p == q
    ensures IsTopic(PartyChannel(p)) && IsTopic(ChatChannel(p))
  {
    assert PartyChannel(p)[0] == 'p' && ChatChannel(q)[0] == 'c';
    assert PartyChannel(p)[6..] == p && PartyChannel(q)[6..] == q;
    assert ChatChannel(p)[5..] == p && ChatChannel(q)[5..] == q;
  }

  lemma ChannelsInjective()
    ensures forall p, q :: PartyChannel(p) != ChatChannel(q)
    ensures forall p, q :: PartyChannel(p) == PartyChannel(q) ==> p == q
    ensures forall p, q :: ChatChannel(p) == ChatChannel(q) ==> p == q
    ensures forall p :: IsTopic(PartyChannel(p)) && IsTopic(ChatChannel(p))
  {
    forall p, q
      ensures PartyChannel(p) != ChatChannel(q)
      ensures PartyChannel(p) == PartyChannel(q) ==> p == q
      ensures ChatChannel(p) == ChatChannel(q) ==> p == q
      ensures IsTopic(PartyChannel(p)) && IsTopic(ChatChannel(p))
    {
      ChannelsDiffer(p, q);
    }
  }

  lemma JoinRoomConsistent(s: State, channel: Channel, id: Bytes)
    requires Agrees(s) && DistinctRooms(s)
    requires forall c | c in s.rooms :: s.rooms[c] != id
    ensures Agrees(JoinRoomChat(s, channel, id)) && DistinctRooms(JoinRoomChat(s, channel, id))
  {
    var t := JoinRoomChat(s, channel, id);
    if channel !in s.rooms {
      assert forall c | c in s.rooms :: c in t.rooms && t.rooms[c] == s.rooms[c];
      assert t.rooms.Keys == s.rooms.Keys + {channel} && t.rooms[channel] == id;
      forall ch: Bytes
        ensures Wanted(t, ch) <==> Wanted(s, ch) || ch == ChatChannel(id)
      {
        if ch == ChatChannel(id) { assert channel in t.rooms && ch == ChatChannel(t.rooms[channel]); }
      }
    }
  }

  /** Leaving a room keeps the agreement exactly when no other room has its id. */
  lemma LeaveRoomConsistent(s: State, channel: Channel)
    requires Agrees(s) && channel in s.rooms
    ensures Agrees(LeaveRoomChat(s, channel))
       <==> forall c | c in s.rooms && c != channel :: s.rooms[c] != s.rooms[channel]
  {
    if c :| c in s.rooms && c != channel && s.rooms[c] == s.rooms[channel] {
      SharedRoomLost(s, channel, c);
    } else {
      OwnRoomLeft(s, channel);
    }
  }

  lemma SharedRoomLost(s: State, channel: Channel, c: Channel)
    requires channel in s.rooms && c in s.rooms && c != channel && s.rooms[c] == s.rooms[channel]
    ensures !Agrees(LeaveRoomChat(s, channel))
  {
    ChannelsDiffer(s.rooms[c], s.rooms[c]);
    var t := LeaveRoomChat(s, channel);
    assert c in t.rooms && Wanted(t, ChatChannel(s.rooms[c])) && ChatChannel(s.rooms[c]) !in t.recorded;
  }

  lemma OwnRoomLeft(s: State, channel: Channel)
    requires Agrees(s) && channel in s.rooms
    requires forall c | c in s.rooms && c != channel :: s.rooms[c] != s.rooms[channel]
    ensures Agrees(LeaveRoomChat(s, channel))
  {
    var t := LeaveRoomChat(s, channel);
    assert forall c | c in t.rooms :: c in s.rooms && c != channel && t.rooms[c] == s.rooms[c];
    forall ch: Bytes
      ensures Wanted(t, ch) <==> Wanted(s, ch) && ch != ChatChannel(s.rooms[channel])
    {
      ChannelsInjective();
      if Wanted(s, ch) && ch != ChatChannel(s.rooms[channel])
         && !(s.party.Some? && ch == PartyChannel(s.party.value)) {
        var c :| c in s.rooms && ch == ChatChannel(s.rooms[c]);
        assert c in t.rooms;
      }
    }
  }

  lemma LeavePartyAgrees(s: State)
    requires Agrees(s) && s.party.Some?
    ensures Agrees(s.(party := None, recorded := s.recorded - {PartyChannel(s.party.value)}))
  {
    ChannelsInjective();
  }

  lemma EnterPartyAgrees(s: State, id: Bytes)
    requires Agrees(s) && s.party.None?
    ensures Agrees(s.(party := Some(id), recorded := s.recorded + {PartyChannel(id)}))
  {
    ChannelsInjective();
  }

  lemma LeaveConsistent(s: State, veto: bool)
    requires Consistent(s)
    ensures var t := AskPartyLeave(s, veto).0;
            && Consistent(t)
            && (s.party.None? || veto ==> t == s)
            && (s.party.Some? && !veto ==> t.party.None? && t.rooms == s.rooms - {PARTY_CHAT})
  {
    if s.party.Some? && !veto {
      LeavePartyAgrees(s);
      var mid := s.(party := None, recorded := s.recorded - {PartyChannel(s.party.value)});
      if PARTY_CHAT in s.rooms {
        LeaveRoomConsistent(mid, PARTY_CHAT);
      } else {
        assert s.rooms - {PARTY_CHAT} == s.rooms;
      }
    }
  }

  lemma InstallConsistent(s: State, h: Installing)
    requires Consistent(s) && s.party.None? && Installable(s, h)
    ensures Consistent(Install(s, h).0)
    ensures h.Installs? ==> ChatJoined(Install(s, h).0) && Install(s, h).0.party == Some(h.id)
    ensures !h.Installs? ==> Install(s, h).0 == s
  {
    if h.Installs? {
      EnterPartyAgrees(s, h.id);
      JoinRoomConsistent(s.(party := Some(h.id), recorded := s.recorded + {PartyChannel(h.id)}), PARTY_CHAT, ChatId(h));
    }
  }

  lemma LeaveAllConsistent(s: State)
    requires Agrees(s)
    ensures Consistent(LeaveAllRoomChat(s))
  {
    ChannelsInjective();
  }

  /** Every allowed operation keeps the agreement; all but a vetoed forced leave keep the party chat room
      joined exactly while in a party. */
  lemma OpKeeps(s: State, op: Op)
    requires Consistent(s) && Allowed(s, op)
    ensures Consistent(Apply(s, op))
    ensures ChatJoined(s) ==>
              (ChatJoined(Apply(s, op)) <==> !(op.ForceLeaveAll? && op.veto && s.party.Some?))
  {
    match op {
      case Create(h) => if s.party.None? { InstallConsistent(s, h); }
      case Join(forced, veto, h) => JoinKeeps(s, forced, veto, h);
      case Invite(autoCreate, h) => if s.party.None? { InstallConsistent(s, h); }
      case ReplyInvitation(accepted, veto, joinMsgOk, h) =>
        LeaveConsistent(s, veto);
        JoinKeeps(AskPartyLeave(s, veto).0, false, false, h);
      case Leave(veto) => LeaveConsistent(s, veto);
      case ForceLeaveAll(veto) =>
        LeaveConsistent(s, veto);
        LeaveAllConsistent(AskPartyLeave(s, veto).0);
      case JoinRoom(channel, id) => JoinRoomConsistent(s, channel, id);
      case LeaveRoom(channel) => if channel in s.rooms { LeaveRoomConsistent(s, channel); }
    }
  }

  lemma JoinKeeps(s: State, forced: bool, veto: bool, h: Installing)
    requires Consistent(s) && Installable(s, h)
    ensures var t := AskPartyJoin(s, forced, veto, h).0;
            Consistent(t) && (ChatJoined(s) ==> ChatJoined(t))
  {
    LeaveConsistent(s, veto);
    if s.party.None? {
      InstallConsistent(s, h);
    } else if forced && !veto {
      InstallConsistent(AskPartyLeave(s, false).0, h);
    }
  }

  /** What a forced leave lets go: every wanted channel, but for the party's if its handler refuses. */
  predicate Releases(s: State, veto: bool, channel: Bytes) {
    Wanted(if veto then s.(party := None) else s, channel)
  }

  /** A forced leave lets go exactly what it should and nothing else. */
  lemma ForceLeaveExact(s: State, veto: bool, channel: Bytes)
    ensures channel in ForceLeave(s, veto).recorded <==> channel in s.recorded && !Releases(s, veto, channel)
  {
    var left := AskPartyLeave(s, veto).0;
    assert forall d | d in left.rooms :: d in s.rooms && left.rooms[d] == s.rooms[d];
    assert forall d | d in s.rooms :: d in left.rooms || (d == PARTY_CHAT && s.party.Some? && !veto);
  }

  /** No operation, allowed or not, leaves a channel recorded that the local state stopped accounting for. */
  lemma OpCovers(s: State, op: Op, channel: Bytes)
    requires channel in Apply(s, op).recorded
    ensures Wanted(Apply(s, op), channel) || (channel in s.recorded && !Wanted(s, channel))
  {
    match op {
      case Create(h) => if s.party.None? { InstallCovers(s, h, channel); }
      case Join(forced, veto, h) => JoinCovers(s, forced, veto, h, channel);
      case Invite(autoCreate, h) => if s.party.None? { InstallCovers(s, h, channel); }
      case ReplyInvitation(accepted, veto, joinMsgOk, h) =>
        if accepted && !(s.party.Some? && veto) {
          var left := if s.party.Some? then AskPartyLeave(s, false).0 else s;
          if joinMsgOk { JoinCovers(left, false, false, h, channel); }
          if channel in left.recorded && s.party.Some? { LeaveCovers(s, channel); }
        }
      case Leave(veto) => if s.party.Some? && !veto { LeaveCovers(s, channel); }
      case ForceLeaveAll(veto) =>
        ForceLeaveExact(s, veto, channel);
        if Wanted(s, channel) { ForcedLeaveCovers(s, veto, channel); }
      case JoinRoom(c, id) => JoinRoomCovers(s, c, id, channel);
      case LeaveRoom(c) => LeaveRoomCovers(s, c, channel);
    }
  }

  lemma ForcedLeaveCovers(s: State, veto: bool, channel: Bytes)
    requires !Releases(s, veto, channel) && Wanted(s, channel)
    ensures Wanted(ForceLeave(s, veto), channel)
  {
  }

  lemma JoinRoomCovers(s: State, c: Channel, id: Bytes, channel: Bytes)
    requires channel in JoinRoomChat(s, c, id).recorded
    ensures Wanted(JoinRoomChat(s, c, id), channel) || (channel in s.recorded && !Wanted(s, channel))
  {
    var t := JoinRoomChat(s, c, id);
    if c !in s.rooms {
      assert c in t.rooms && t.rooms[c] == id;
      assert forall d | d in s.rooms :: d in t.rooms && t.rooms[d] == s.rooms[d];
    }
  }

  lemma LeaveRoomCovers(s: State, c: Channel, channel: Bytes)
    requires channel in LeaveRoomChat(s, c).recorded
    ensures channel in s.recorded && (Wanted(s, channel) ==> Wanted(LeaveRoomChat(s, c), channel))
  {
    var t := LeaveRoomChat(s, c);
    assert forall d | d in s.rooms && d != c :: d in t.rooms && t.rooms[d] == s.rooms[d];
  }

  lemma InstallCovers(s: State, h: Installing, channel: Bytes)
    requires s.party.None? && channel in Install(s, h).0.recorded
    ensures Wanted(Install(s, h).0, channel) || (channel in s.recorded && !Wanted(s, channel))
  {
    if h.Installs? {
      var entered := s.(party := Some(h.id), recorded := s.recorded + {PartyChannel(h.id)});
      JoinRoomCovers(entered, PARTY_CHAT, ChatId(h), channel);
    }
  }

  lemma LeaveCovers(s: State, channel: Bytes)
    requires s.party.Some? && channel in AskPartyLeave(s, false).0.recorded
    ensures channel in s.recorded && (Wanted(s, channel) ==> Wanted(AskPartyLeave(s, false).0, channel))
  {
    LeaveRoomCovers(s.(party := None, recorded := s.recorded - {PartyChannel(s.party.value)}), PARTY_CHAT, channel);
  }

  lemma JoinCovers(s: State, forced: bool, veto: bool, h: Installing, channel: Bytes)
    requires channel in AskPartyJoin(s, forced, veto, h).0.recorded
    ensures Wanted(AskPartyJoin(s, forced, veto, h).0, channel) || (channel in s.recorded && !Wanted(s, channel))
  {
    if s.party.None? {
      InstallCovers(s, h, channel);
    } else if forced && !veto {
      var left := AskPartyLeave(s, false).0;
      InstallCovers(left, h, channel);
      if channel in left.recorded { LeaveCovers(s, channel); }
    }
  }

  // ---- runs ----

  function RunOps(s: State, ops: seq<Op>): State
    decreases |ops|
  {
    if ops == [] then s else RunOps(Apply(s, ops[0]), ops[1..])
  }

  predicate AllAllowed(s: State, ops: seq<Op>)
    decreases |ops|
  {
    ops == [] || (Allowed(s, ops[0]) && AllAllowed(Apply(s, ops[0]), ops[1..]))
  }

  /** No forced leave is vetoed while in a party. */
  predicate NoVetoedForce(s: State, ops: seq<Op>)
    decreases |ops|
  {
    ops == [] || (!(ops[0].ForceLeaveAll? && ops[0].veto && s.party.Some?) && NoVetoedForce(Apply(s, ops[0]), ops[1..]))
  }

  /** Subscription agreement over every run of allowed operations of one connected namespace: the recorded
      party and chat channels are exactly those of the current party and of the joined rooms, and, unless a
      forced leave was vetoed, the party chat room is joined exactly while in a party, under that party's id. */
  lemma {:induction false} SubscriptionsAgree(s: State, ops: seq<Op>)
    requires Consistent(s) && AllAllowed(s, ops)
    ensures Consistent(RunOps(s, ops))
    ensures ChatJoined(s) && NoVetoedForce(s, ops) ==> ChatJoined(RunOps(s, ops))
    decreases |ops|
  {
    if ops != [] {
      OpKeeps(s, ops[0]);
      SubscriptionsAgree(Apply(s, ops[0]), ops[1..]);
    }
  }

  /** The start of a namespace connection: no party, no rooms, nothing recorded but the connection's own id. */
  lemma FreshIsConsistent(own: Bytes)
    requires !IsTopic(own)
    ensures Consistent(State(None, map[], {own})) && ChatJoined(State(None, map[], {own}))
  {
  }

  /** Installing a party keeps its chat room under the party's id exactly when that id is not empty. */
  lemma ChatOfPartyExactly(s: State, h: Installing)
    requires Consistent(s) && s.party.None? && h.Installs? && h.generated != []
    ensures ChatOfParty(Install(s, h).0) <==> h.id != []
  {
    assert PARTY_CHAT !in s.rooms;
  }

  /** Without the restriction on room ids the agreement fails: a user joins a second room under the party's
      id and leaves it, and the party chat room is no longer subscribed. */
  lemma SharedRoomIdBreaks(own: Bytes)
    requires !IsTopic(own)
    ensures var s := RunOps(State(None, map[], {own}), [Create(Installs("x", "y")), JoinRoom(2, "x"), LeaveRoom(2)]);
            PARTY_CHAT in s.rooms && s.rooms[PARTY_CHAT] == "x" && ChatChannel("x") !in s.recorded
  {
    var s0 := State(None, map[], {own});
    var s1 := Apply(s0, Create(Installs("x", "y")));
    var s2 := Apply(s1, JoinRoom(2, "x"));
    var ops := [Create(Installs("x", "y")), JoinRoom(2, "x"), LeaveRoom(2)];
    assert RunOps(s0, ops) == RunOps(s1, ops[1..]) == RunOps(s2, ops[2..]) by {
      assert ops[1..][1..] == ops[2..];
    }
    assert ops[2..] == [LeaveRoom(2)] && RunOps(s2, [LeaveRoom(2)]) == Apply(s2, LeaveRoom(2));
  }
}
