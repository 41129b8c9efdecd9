/** The connection object (conn.go): its methods change the connected namespaces, the table of waiting
    messages and the exchange's record in place. What they do to the protocol state is given by the functions
    of `Protocol` and `Network`; what they do to the record is told by the channels that no connected namespace
    accounts for, which are what closing leaves behind. */
module Connection {
  import opened Text
  import opened Codec
  import opened Protocol
  import Net = Network
  import Room = PartyState
  import P = Party
  import Frames = PartyFrames
  import Replies = PartyReplies

  lemma Without(keys: set<Bytes>, n: Bytes)
    requires n in keys
    ensures multiset(keys) == multiset(keys - {n}) + multiset{n}
  {
  }

  class Conn {
    const cfg: Config
    const id: Bytes
    const exchange: P.Exchange
    const onlyNative: bool

    var connected: map<Bytes, P.NSConn>
    /** The reply channel of each waiting token; each holds at most one message. */
    var waiting: map<Bytes, Option<Message>>
    /** Everything written to the socket. */
    var sent: seq<Frame>
    var acknowledged: bool
    var closed: bool
    /** How often the close channel was closed. */
    var closes: nat

    constructor (cfg: Config, id: Bytes)
      ensures Valid() && !closed && connected == map[] && waiting == map[] && exchange.recorded == {}
      ensures this.cfg == cfg && this.id == id && !onlyNative && fresh(exchange)
    {
      this.cfg := cfg;
      this.id := id;
      exchange := new P.Exchange();
      onlyNative := false;
      connected, waiting, sent := map[], map[], [];
      acknowledged, closed, closes := false, false, 0;
    }

    ghost function Parties(): set<object>
      reads this`connected, connected.Values
    {
      set ns | ns in connected.Values && ns.party != null :: ns.party as object
    }

    /** An object for a namespace of this connection. */
    ghost predicate Belongs(ns: P.NSConn, n: Bytes)
      reads ns, ns.party
    {
      ns.namespace == n && ns.events == EventsOf(cfg, n) && ns.exchange == exchange && ns.Valid()
    }

    ghost predicate NamespacesValid()
      reads this`connected, connected.Values, Parties()
    {
      forall n | n in connected :: Belongs(connected[n], n)
    }

    ghost predicate Valid()
      reads this, connected.Values, Parties()
    {
      && NamespacesValid()
      && closes == (if closed then 1 else 0)
      && (closed && !onlyNative ==> waiting == map[] && !acknowledged)
    }

    // ---- the record ----

    /** The channels a namespace object accounts for. */
    ghost predicate Calls(ns: P.NSConn, channel: Bytes)
      reads ns
    {
      Room.Wanted(ns.Local(), channel)
    }

    /** Whether the leave handler of a namespace refuses a forced leave. */
    ghost predicate Refuses(n: Bytes, o: Outcome) {
      FireEvent(EventsOf(cfg, n), Frames.LeaveMessage(n), o).err.Some?
    }

    /** What the object of a namespace lets go when it is forced out. */
    ghost predicate LetsGo(ns: P.NSConn, n: Bytes, o: Outcome, channel: Bytes)
      reads ns
    {
      Room.Releases(ns.Local(), Refuses(n, o), channel)
    }

    /** A server with a connected namespace accounts for its own id. */
    ghost predicate Own(channel: Bytes)
      reads this`connected
    {
      channel == id && !cfg.isClient && connected.Keys != {}
    }

    /** The recorded channels that nothing accounts for. */
    ghost function Unaccounted(): set<Bytes>
      reads this`connected, connected.Values, exchange
    {
      set channel | channel in exchange.recorded && !Own(channel)
                    && forall n | n in connected :: !Calls(connected[n], channel)
    }

    /** The recorded channels that only the object of one namespace accounts for. */
    ghost function Sole(n: Bytes): set<Bytes>
      requires n in connected
      reads this`connected, connected.Values, exchange
    {
      set channel | channel in exchange.recorded && !Own(channel) && Calls(connected[n], channel)
                    && forall k | k in connected && k != n :: !Calls(connected[k], channel)
    }

    /** What stays recorded if every namespace is forced out with these answers. */
    ghost function Kept(answers: Bytes -> Outcome): set<Bytes>
      reads this`connected, connected.Values, exchange
    {
      set channel | channel in exchange.recorded && !Own(channel)
                    && forall n | n in connected :: !LetsGo(connected[n], n, answers(n), channel)
    }

    /** Without a refusal that is what nothing accounts for. */
    lemma KeptUnaccounted(answers: Bytes -> Outcome)
      requires forall n :: !Refuses(n, answers(n))
      ensures Kept(answers) == Unaccounted()
    {
    }

    // ---- answering ----

    method Send(frames: seq<Frame>)
      modifies this`sent
      ensures sent == old(sent) + frames
    {
      sent := sent + frames;
    }

    /** `ns` is the new object of the namespace, in whatever state the connect handler has left it. */
    method ReplyConnect(m: Message, a: Answers, ns: P.NSConn)
      requires Valid() && !closed && Belongs(ns, m.namespace)
      modifies this`connected, this`sent, exchange`recorded
      ensures Valid()
      ensures var h := Protocol.ReplyConnect(cfg, old(connected.Keys), m, a);
              connected.Keys == h.connected && sent == old(sent) + h.sent
      ensures connected == old(connected) || connected == old(connected)[m.namespace := ns]
      ensures forall n | n in old(connected) :: n in connected && connected[n] == old(connected)[n]
      ensures Unaccounted() <= old(Unaccounted())
      ensures connected == old(connected) ==> exchange.recorded == old(exchange.recorded)
    {
      if m.wait == [] || m.noOp {
        return;
      }
      if m.namespace in connected {
        Send([Frame(false, EmptyReply(m.wait))]);
        return;
      }
      if m.namespace !in cfg.namespaces {
        Send(Write(cfg, connected.Keys, m.(err := Some(BAD_NAMESPACE))));
        return;
      }
      var events := cfg.namespaces[m.namespace];
      var fired := FireEvent(events, m, a.first);
      if fired.err.Some? {
        Send(Write(cfg, connected.Keys, m.(err := fired.err)));
        return;
      }
      Attach(m.namespace, ns);
      Send(fired.sent + [Frame(false, EmptyReply(m.wait))]
           + FireEvent(events, m.(event := NAMESPACE_CONNECTED), a.second).sent);
    }

    /** Stores an object for a namespace, over one that is there, and on a server subscribes the connection's own id.
        What only the object that was there accounted for is accounted for no more, unless the new one does. */
    method Attach(n: Bytes, ns: P.NSConn)
      requires NamespacesValid() && Belongs(ns, n)
      modifies this`connected, exchange`recorded
      ensures NamespacesValid() && connected == old(connected)[n := ns] && connected.Keys == old(connected.Keys) + {n}
      ensures exchange.recorded == old(exchange.recorded) + if cfg.isClient then {} else {id}
      ensures forall channel :: channel in Unaccounted()
                           <==> && channel in old(Unaccounted()) + (if n in old(connected) then old(Sole(n)) else {})
                                && !Calls(ns, channel) && (cfg.isClient || channel != id)
    {
      connected := connected[n := ns];
      if !cfg.isClient {
        exchange.Subscribe(id);
      }
      StoredRecord(n);
    }

    /** What an object stored for `n` does to the account. */
    twostate lemma StoredRecord(n: Bytes)
      requires n in connected && connected == old(connected)[n := connected[n]]
      requires exchange.recorded == old(exchange.recorded) + if cfg.isClient then {} else {id}
      requires forall k | k in old(connected) && k != n :: connected[k].Local() == old(connected[k].Local())
      ensures forall channel :: channel in Unaccounted()
                           <==> && channel in old(Unaccounted()) + (if n in old(connected) then old(Sole(n)) else {})
                                && !Calls(connected[n], channel) && (cfg.isClient || channel != id)
    {
      forall channel
        ensures (forall k | k in connected :: !Calls(connected[k], channel))
           <==> && !Calls(connected[n], channel)
                && forall k | k in old(connected) && k != n :: !old(Calls(connected[k], channel))
      {
        assert forall k | k in old(connected) && k != n :: k in connected && connected[k] == old(connected)[k];
      }
    }

    function ForcedLeave(n: Bytes, inParty: bool, o: Outcome): seq<Frame> {
      Frames.Leave(n, EventsOf(cfg, n), Frames.LeaveMessage(n), inParty, o).sent
    }

    /** The objects of other namespaces share neither the object nor the party of `ns`. */
    lemma Apart(n: Bytes, ns: P.NSConn)
      requires NamespacesValid() && Belongs(ns, n)
      ensures forall k | k in connected && k != n ::
                && connected[k] != ns
                && (connected[k].party != null ==> connected[k].party != ns.party && connected[k].party.nsConn != null)
    {
    }

    /** Forces the object `ns` of a namespace to leave its party and rooms; the other objects stay as they are. */
    method ForceOut(n: Bytes, ns: P.NSConn, o: Outcome) returns (frames: seq<Frame>)
      requires NamespacesValid() && Belongs(ns, n)
      modifies exchange, ns, ns.party
      ensures Belongs(ns, n)
      ensures forall k | k in connected && k != n ::
                && Belongs(connected[k], k) && connected[k].party == old(connected[k].party)
                && connected[k].Local() == old(connected[k].Local())
      ensures forall channel :: channel in exchange.recorded
                           <==> channel in old(exchange.recorded) && !old(LetsGo(ns, n, o, channel))
      ensures frames == ForcedLeave(n, old(ns.party) != null, o)
    {
      Apart(n, ns);
      frames := ns.ForceRelease(o);
    }

    /** Removes a namespace and, on a server, unsubscribes the connection's own id. */
    method Remove(n: Bytes)
      requires forall k | k in connected && k != n :: Belongs(connected[k], k)
      modifies this`connected, exchange`recorded
      ensures NamespacesValid() && connected == old(connected) - {n} && connected.Keys == old(connected.Keys) - {n}
      ensures exchange.recorded == old(exchange.recorded) - if cfg.isClient then {} else {id}
    {
      connected := connected - {n};
      if !cfg.isClient {
        exchange.Unsubscribe(id);
      }
    }

    /** Forces the object `ns` of a namespace out and removes the namespace with the object stored for it, which may be
        another one by then. */
    method Detach(n: Bytes, ns: P.NSConn, o: Outcome) returns (frames: seq<Frame>)
      requires NamespacesValid() && Belongs(ns, n)
      modifies this`connected, exchange, ns, ns.party
      ensures NamespacesValid() && connected == old(connected) - {n} && connected.Keys == old(connected.Keys) - {n}
      ensures forall k | k in connected ::
                connected[k].party == old(connected[k].party) && connected[k].Local() == old(connected[k].Local())
      ensures forall channel :: channel in exchange.recorded
                           <==> && channel in old(exchange.recorded) && !old(LetsGo(ns, n, o, channel))
                                && (cfg.isClient || channel != id)
      ensures frames == ForcedLeave(n, old(ns.party) != null, o)
    {
      frames := ForceOut(n, ns, o);
      Remove(n);
    }

    /** What removing namespace `n` does to the account: what stays of the channels only its object accounted for. */
    twostate lemma RemovedRecord(n: Bytes)
      requires connected == old(connected) - {n} && !cfg.isClient
      requires forall k | k in connected :: connected[k].Local() == old(connected[k].Local())
      requires exchange.recorded <= old(exchange.recorded) && id !in exchange.recorded
      ensures forall channel | channel in Unaccounted() ::
                channel in old(Unaccounted()) || (n in old(connected) && old(Calls(connected[n], channel)))
    {
      forall channel | channel in Unaccounted() && (n in old(connected) ==> !old(Calls(connected[n], channel)))
        ensures channel in old(Unaccounted())
      {
        assert forall k | k in old(connected) && k != n :: k in connected && connected[k] == old(connected)[k];
      }
    }

    /** Whether a connected namespace is in a party. */
    ghost predicate InParty(n: Bytes)
      reads this`connected, connected.Values
    {
      n in connected && connected[n].party != null
    }

    /** A disconnect request forces the namespace out of its party: on a server that holds it and does not refuse. */
    ghost predicate ForcesOut(m: Message, a: Answers)
      reads this`connected
    {
      && m.wait != [] && !m.noOp && Protocol.ForcesLeave(cfg, connected.Keys, m.(event := NAMESPACE_DISCONNECT))
      && FireEvent(EventsOf(cfg, m.namespace), m, a.first).err.None?
    }

    method ReplyDisconnect(m: Message, a: Answers, leaving: Outcome) returns (ghost party: seq<Frame>)
      requires Valid() && !closed
      modifies this`connected, this`sent, exchange, connected.Values, Parties()
      ensures Valid() && PartyFits(m, party)
      ensures party == if old(ForcesOut(m, a)) then old(ForcedLeave(m.namespace, InParty(m.namespace), leaving)) else []
      ensures var h := Protocol.ReplyDisconnect(cfg, old(connected.Keys), m, a.(party := party));
              connected.Keys == h.connected && sent == old(sent) + h.sent
      ensures forall n | n in connected :: n in old(connected) && connected[n] == old(connected)[n]
      ensures !cfg.isClient && !Refuses(m.namespace, leaving) ==> Unaccounted() <= old(Unaccounted())
    {
      party := [];
      if m.wait == [] || m.noOp {
        return;
      }
      if m.namespace !in connected {
        Send([Frame(false, EmptyReply(m.wait))]);
        return;
      }
      var fired := FireEvent(EventsOf(cfg, m.namespace), m, a.first);
      if cfg.isClient {
        connected := connected - {m.namespace};
        Send([Frame(false, EmptyReply(m.wait))] + fired.sent);
        return;
      }
      if fired.err.Some? {
        Send(Write(cfg, connected.Keys, m.(err := fired.err)));
        return;
      }
      var frames := Granted(m, leaving);
      party := frames;
      Send(fired.sent + frames + [Frame(false, EmptyReply(m.wait))]);
    }

    /** A disconnect that the server's handler accepts. */
    method Granted(m: Message, leaving: Outcome) returns (frames: seq<Frame>)
      requires Valid() && !closed && m.namespace in connected && !cfg.isClient
      modifies this`connected, exchange, connected[m.namespace], connected[m.namespace].party
      ensures Valid()
      ensures connected == old(connected) - {m.namespace} && connected.Keys == old(connected.Keys) - {m.namespace}
      ensures PartyFits(m, frames) && frames == old(ForcedLeave(m.namespace, InParty(m.namespace), leaving))
      ensures !Refuses(m.namespace, leaving) ==> Unaccounted() <= old(Unaccounted())
    {
      ghost var inParty := connected[m.namespace].party != null;
      frames := Detach(m.namespace, connected[m.namespace], leaving);
      Frames.ForcedLeaveFits(m, m.namespace, EventsOf(cfg, m.namespace), inParty, leaving);
      RemovedRecord(m.namespace);
    }

    /** Runs a party operation on the object of a namespace; the other objects stay as they are. */
    method RunParty(kind: Frames.Kind, m: Message, first: Outcome, c: Frames.Choices, h: P.Handler)
        returns (frames: seq<Frame>)
      requires NamespacesValid() && m.namespace in connected && connected[m.namespace].Able(kind, m, first, c, h)
      modifies exchange, connected[m.namespace], connected[m.namespace].party, P.Installed(h)
      ensures NamespacesValid()
      ensures forall k | k in connected && k != m.namespace :: connected[k].Local() == old(connected[k].Local())
      ensures var ns := connected[m.namespace];
              var op := ns.Operation(kind, m, first, c, h);
              && ns.Abs() == Room.Apply(old(connected[m.namespace].Abs()), op)
              && ns.party == old(connected[m.namespace].NextParty(op, h))
      ensures frames == Frames.Answer(kind, m.namespace, EventsOf(cfg, m.namespace), m,
                                      old(connected[m.namespace].Abs().party), first, c, P.Info(h))
    {
      var ns := connected[m.namespace];
      Apart(m.namespace, ns);
      frames := ns.HandleParty(kind, m, first, c, h);
      OthersValid(m.namespace);
    }

    /** The objects that were not touched still belong to their namespaces. */
    twostate lemma OthersValid(new n: Bytes)
      requires old(NamespacesValid()) && connected == old(connected) && n in connected && Belongs(connected[n], n)
      requires forall k | k in connected && k != n ::
                 && connected[k].party == old(connected[k].party)
                 && connected[k].roomsChat == old(connected[k].roomsChat)
                 && (connected[k].party != null ==> connected[k].party.nsConn == old(connected[k].party.nsConn))
      ensures NamespacesValid()
    {
    }

    /** Whether a handler of the namespace refuses an event. */
    predicate Rejects(n: Bytes, event: Bytes, o: Outcome) {
      Protocol.Refuses(EventsOf(cfg, n), event, o)
    }

    /** The party a namespace is in after a party event, from the event's name, the party it was in and what the
        handlers answer: which one they install, if they are reached and do not fail. */
    ghost function PartyAfter(m: Message, was: P.BaseParty?, first: Outcome, c: Frames.Choices, h: P.Handler)
      : P.BaseParty?
    {
      var installed := if h.InstallParty? then h.party else null;
      var leaves := was != null && !Rejects(m.namespace, "_OnPartyLeave", c.leaving);
      if m.event == "_OnPartyCreate" then (if was == null then installed else was)
      else if m.event == "_OnPartyJoin" then (if was == null || (c.forced && leaves) then installed else was)
      else if m.event == "_OnPartyLeave" then (if Rejects(m.namespace, "_OnPartyLeave", first) then was else null)
      else if m.event == "_OnPartyInvite" then (if was == null && c.autoCreate then installed else was)
      else if Rejects(m.namespace, m.event, first) || (was != null && !leaves) then was
      else if c.hook.JoinAs? then installed
      else null
    }

    /** The party cases. The party afterwards is the one the event calls for, and nothing is left recorded that was
        accounted for before and is no more. */
    method HandleParty(m: Message, first: Outcome, c: Frames.Choices, h: P.Handler) returns (frames: seq<Frame>)
      requires Valid() && !closed && m.namespace in connected
      requires connected[m.namespace].Able(Frames.KindOf(m.event), m, first, c, h)
      modifies exchange, connected[m.namespace], connected[m.namespace].party, P.Installed(h)
      ensures Valid() && Unaccounted() <= old(Unaccounted())
      ensures connected[m.namespace].party == PartyAfter(m, old(connected[m.namespace].party), first, c, h)
      ensures forall n | n in connected && n != m.namespace :: connected[n].Local() == old(connected[n].Local())
      ensures frames == Frames.Answer(Frames.KindOf(m.event), m.namespace, EventsOf(cfg, m.namespace), m,
                                      old(connected[m.namespace].Abs().party), first, c, P.Info(h))
      ensures Frames.PartyRequest(m) && (c.hook.JoinAs? ==> PartyMessage(m, c.hook.m)) ==>
                AnsweredAs(frames, m, old(connected[m.namespace].party) != null, first, c, h)
    {
      ghost var current := connected[m.namespace].Abs().party;
      ghost var op := connected[m.namespace].Operation(Frames.KindOf(m.event), m, first, c, h);
      OperationParty(connected[m.namespace], m, first, c, h);
      frames := RunParty(Frames.KindOf(m.event), m, first, c, h);
      PartyOperationCovers(m.namespace, op);
      if Frames.PartyRequest(m) && (c.hook.JoinAs? ==> PartyMessage(m, c.hook.m)) {
        AnswersRead(frames, m, current, first, c, h);
      }
    }

    /** Whoever decodes the frames reads under the request's token what the event calls for. */
    ghost predicate AnsweredAs(frames: seq<Frame>, m: Message, inParty: bool, first: Outcome, c: Frames.Choices,
                               h: P.Handler)
    {
      forall to: Config ::
        Replies.Readings(to, frames, m.wait)
        == Replies.AnswerReadings(EventsOf(cfg, m.namespace), m, inParty, first, c, h.InstallParty?)
    }

    lemma AnswersRead(frames: seq<Frame>, m: Message, current: Option<Bytes>, first: Outcome, c: Frames.Choices,
                      h: P.Handler)
      requires Frames.PartyRequest(m) && (c.hook.JoinAs? ==> PartyMessage(m, c.hook.m))
      requires frames == Frames.Answer(Frames.KindOf(m.event), m.namespace, EventsOf(cfg, m.namespace), m, current,
                                       first, c, P.Info(h))
      ensures AnsweredAs(frames, m, current.Some?, first, c, h)
    {
      forall to: Config
        ensures Replies.Readings(to, frames, m.wait)
             == Replies.AnswerReadings(EventsOf(cfg, m.namespace), m, current.Some?, first, c, h.InstallParty?)
      {
        Replies.PartyAnswered(to, m.namespace, EventsOf(cfg, m.namespace), m, current, first, c, P.Info(h));
      }
    }

    /** The operation that the event's name leads to installs and leaves what it should. */
    lemma OperationParty(ns: P.NSConn, m: Message, first: Outcome, c: Frames.Choices, h: P.Handler)
      requires Belongs(ns, m.namespace)
      ensures ns.NextParty(ns.Operation(Frames.KindOf(m.event), m, first, c, h), h)
           == PartyAfter(m, ns.party, first, c, h)
    {
      Frames.EventNames();
      Frames.FireOutcome(ns.events, m, first);
      Frames.FireOutcome(ns.events, Frames.LeaveMessage(ns.namespace), c.leaving);
    }

    twostate lemma PartyOperationCovers(new n: Bytes, new op: Room.Op)
      requires n in connected && connected[n].exchange == exchange && connected == old(connected)
      requires connected[n].Abs() == Room.Apply(old(connected[n].Abs()), op)
      requires forall k | k in connected && k != n :: connected[k].Local() == old(connected[k].Local())
      ensures Unaccounted() <= old(Unaccounted())
    {
      forall channel | channel in Unaccounted()
        ensures channel in old(Unaccounted())
      {
        Room.OpCovers(old(connected[n].Abs()), op, channel);
        assert !Calls(connected[n], channel) && !Room.Wanted(connected[n].Abs(), channel);
        assert !old(Calls(connected[n], channel));
      }
    }

    /** What a message may lead to that concerns a namespace or a party: a new object for a connect, a join hook that
        keeps to the token of the message, and handlers that install only a party that is not joined yet. */
    ghost predicate Ready(m: Message, first: Outcome, c: Frames.Choices, h: P.Handler, ns: P.NSConn)
      reads this`connected, connected.Values, ns, ns.party, if h.InstallParty? then {h.party} else {}
    {
      && Belongs(ns, m.namespace)
      && (m.event in PARTY_EVENTS && m.namespace in connected ==>
            && !m.native && (c.hook.JoinAs? ==> PartyMessage(m, c.hook.m))
            && connected[m.namespace].Able(Frames.KindOf(m.event), m, first, c, h))
    }

    /** What the party operations write while a message is handled. */
    ghost function PartyWritten(m: Message, a: Answers, c: Frames.Choices, h: P.Handler): seq<Frame>
      reads this`connected, connected.Values, exchange
    {
      if m.event == NAMESPACE_DISCONNECT then
        (if ForcesOut(m, a) then ForcedLeave(m.namespace, InParty(m.namespace), c.leaving) else [])
      else if m.event in PARTY_EVENTS && m.namespace in connected then
        Frames.Answer(Frames.KindOf(m.event), m.namespace, EventsOf(cfg, m.namespace), m,
                      connected[m.namespace].Local().party, a.first, c, P.Info(h))
      else []
    }

    method AnswerParty(m: Message, a: Answers, c: Frames.Choices, h: P.Handler) returns (ghost party: seq<Frame>)
      requires Valid() && !closed && m.namespace in connected && m.event in PARTY_EVENTS && !m.native
      requires c.hook.JoinAs? ==> PartyMessage(m, c.hook.m)
      requires connected[m.namespace].Able(Frames.KindOf(m.event), m, a.first, c, h)
      modifies this`sent, exchange, connected[m.namespace], connected[m.namespace].party, P.Installed(h)
      ensures Valid() && PartyFits(m, party) && Unaccounted() <= old(Unaccounted())
      ensures party == old(PartyWritten(m, a, c, h)) && sent == old(sent) + party
    {
      Frames.EventNames();
      ghost var current := connected[m.namespace].Abs().party;
      var frames := HandleParty(m, a.first, c, h);
      party := frames;
      Frames.AnswerFits(Frames.KindOf(m.event), m.namespace, EventsOf(cfg, m.namespace), m, current, a.first, c,
                        P.Info(h));
      Send(frames);
    }

    /** The `switch` of `handleMessage`. `party` is what the party operations wrote, which is always something that
        the steps of `Network` admit. Unless a leave handler refuses, a server accounts for all it did before. */
    method Dispatch(m: Message, a: Answers, c: Frames.Choices, h: P.Handler, ns: P.NSConn)
        returns (ghost party: seq<Frame>)
      requires Valid() && !closed && Ready(m, a.first, c, h, ns)
      modifies this`connected, this`sent, exchange, connected.Values, Parties(), P.Installed(h)
      ensures Valid() && PartyFits(m, party)
      ensures var r := Protocol.Dispatch(cfg, old(connected.Keys), m, a.(party := party));
              connected.Keys == r.connected && sent == old(sent) + r.sent
      ensures party == old(PartyWritten(m, a, c, h))
      ensures !cfg.isClient && !Refuses(m.namespace, c.leaving) ==> Unaccounted() <= old(Unaccounted())
    {
      party := [];
      Frames.EventNames();
      if m.event == NAMESPACE_CONNECT {
        ReplyConnect(m, a, ns);
      } else if m.event == NAMESPACE_DISCONNECT {
        party := ReplyDisconnect(m, a, c.leaving);
      } else if m.event in ROOM_EVENTS || m.namespace !in connected {
      } else if m.event in PARTY_EVENTS {
        party := AnswerParty(m, a, c, h);
      } else {
        var fired := FireEvent(EventsOf(cfg, m.namespace), m, a.first);
        Send(if fired.err.Some? then Write(cfg, connected.Keys, m.(err := fired.err)) else fired.sent);
      }
    }

    /** The protocol state of `Network` that this object is in. */
    ghost predicate Implements(p: Net.Peer)
      reads this`connected, this`waiting
    {
      && p.connected == connected.Keys
      && (forall t :: t in waiting <==> t in p.asks && p.asks[t].registered)
      && (forall t | t in waiting :: p.asks[t].slot == waiting[t])
    }

    /** Puts a reply into the channel of its ask, or blocks on it if the channel is full. */
    method Deliver(m: Message, ghost p: Net.Peer) returns (stuck: bool)
      requires Implements(p) && p.blocked.None? && m.wait in waiting
      modifies this`waiting
      ensures var q := Net.Delivered(p, m); Implements(q) && (stuck <==> q.blocked.Some?)
    {
      stuck := waiting[m.wait].Some?;
      if !stuck { waiting := waiting[m.wait := Some(m)]; }
    }

    /** A message that does not reach the `switch`: it is invalid, native, or the reply to an ask. */
    method HandleAside(m: Message, a: Answers, ghost p: Net.Peer) returns (stuck: bool)
      requires Implements(p) && p.blocked.None? && !Net.Dispatches(cfg, p, m)
      modifies this`sent, this`waiting
      ensures var acted := Net.HandleMessage(cfg, p, m, a);
              && Implements(acted.peer) && sent == old(sent) + acted.sent && (stuck <==> acted.peer.blocked.Some?)
    {
      stuck := false;
      if !m.invalid && m.native {
        if [] in connected {
          Send(FireEvent(EventsOf(cfg, []), m, a.first).sent);
        }
      } else if !m.invalid {
        stuck := Deliver(m, p);
      }
    }

    /** `handleMessage` does what the protocol step says; `stuck` reports that the reader blocks on a full
        reply channel. */
    method HandleMessage(m: Message, a: Answers, c: Frames.Choices, h: P.Handler, ns: P.NSConn, ghost p: Net.Peer)
        returns (stuck: bool, ghost party: seq<Frame>)
      requires Valid() && !closed && Implements(p) && p.blocked.None? && Ready(m, a.first, c, h, ns)
      modifies this`connected, this`sent, this`waiting, exchange, connected.Values, Parties(), P.Installed(h)
      ensures Valid() && PartyFits(m, party)
      ensures var acted := Net.HandleMessage(cfg, p, m, a.(party := party));
              && Implements(acted.peer) && sent == old(sent) + acted.sent && (stuck <==> acted.peer.blocked.Some?)
      ensures party == if Net.Dispatches(cfg, p, m) then old(PartyWritten(m, a, c, h)) else []
      ensures !cfg.isClient && !Refuses(m.namespace, c.leaving) ==> Unaccounted() <= old(Unaccounted())
    {
      stuck, party := false, [];
      if m.invalid || m.native || (IsWait(m.wait, cfg.isClient) && m.wait in waiting) {
        stuck := HandleAside(m, a.(party := []), p);
        return;
      }
      party := Dispatch(m, a, c, h, ns);
    }

    // ---- asking ----

    /** `ask` up to its wait: on an open connection it registers the token and writes the message. */
    method BeginAsk(now: int, m: Message, ghost p: Net.Peer) returns (ok: bool)
      requires Valid() && Implements(p) && !onlyNative
      modifies this`waiting, this`sent
      ensures Valid()
      ensures closed ==> !ok && unchanged(this)
      ensures !closed ==>
                var acted := Net.StartAsk(cfg, p, now, m);
                && Implements(acted.peer) && sent == old(sent) + acted.sent && (ok <==> acted.sent != [])
    {
      if closed {
        return false;
      }
      var request := m.(wait := GenWait(cfg.isClient, now));
      waiting := waiting[request.wait := None];
      var frames := Write(cfg, connected.Keys, request);
      Send(frames);
      ok := frames != [];
    }

    /** The end of `askConnect`, also on a connection that was closed meanwhile. `ns` is the object it made before it
        asked, in whatever state the connect handler has left it; a refused ask drops it as it is. */
    method FinishConnect(t: Bytes, ghost p: Net.Peer, n: Bytes, reply: Message, ns: P.NSConn)
      requires Valid() && Implements(p) && t in p.asks && p.asks[t].phase == Net.Got(reply)
      requires p.asks[t].request.event == NAMESPACE_CONNECT && p.asks[t].request.namespace == n && Belongs(ns, n)
      modifies this`connected, exchange`recorded
      ensures Valid() && Implements(Net.FinishAsk(p, t, []).peer)
      ensures reply.err.Some? ==> unchanged(this) && unchanged(exchange)
      ensures reply.err.None? ==>
                && connected == old(connected)[n := ns]
                && exchange.recorded == old(exchange.recorded) + (if cfg.isClient then {} else {id})
                && forall channel :: channel in Unaccounted()
                     <==> && channel in old(Unaccounted()) + (if n in old(connected) then old(Sole(n)) else {})
                          && !Calls(ns, channel) && (cfg.isClient || channel != id)
    {
      Net.FinishNamespace(p, t, []);
      if reply.err.None? {
        Attach(n, ns);
      }
    }

    /** The end of `askDisconnect`, which holds on to the object `ns` it found before it asked. */
    method FinishDisconnect(t: Bytes, ghost p: Net.Peer, n: Bytes, reply: Message, ns: P.NSConn, o: Outcome)
        returns (ghost party: seq<Frame>)
      requires Valid() && Implements(p) && t in p.asks && p.asks[t].phase == Net.Got(reply)
      requires p.asks[t].request.event == NAMESPACE_DISCONNECT && p.asks[t].request.namespace == n
      requires Belongs(ns, n)
      modifies this`connected, this`sent, exchange, ns, ns.party
      ensures Valid() && PartyFits(EMPTY, party)
      ensures var acted := Net.FinishAsk(p, t, party); Implements(acted.peer) && sent == old(sent) + acted.sent
      ensures party == if reply.err.None? && !closed && n in old(connected)
                       then ForcedLeave(n, old(ns.party) != null, o) else []
      ensures reply.err.None? ==>
                forall channel :: channel in exchange.recorded
                             <==> && channel in old(exchange.recorded) && !old(LetsGo(ns, n, o, channel))
                                  && (cfg.isClient || channel != id)
    {
      party := [];
      Net.NamespaceEventsDiffer();
      if reply.err.None? {
        party := Disconnected(n, ns, o);
      }
      Net.FinishNamespace(p, t, party);
    }

    /** What is written while the object is forced out goes to the socket if the namespace can still be written. */
    method Disconnected(n: Bytes, ns: P.NSConn, o: Outcome) returns (ghost party: seq<Frame>)
      requires Valid() && Belongs(ns, n)
      modifies this`connected, this`sent, exchange, ns, ns.party
      ensures Valid() && connected.Keys == old(connected.Keys) - {n}
      ensures PartyFits(EMPTY, party) && sent == old(sent) + party
      ensures party == if !closed && n in old(connected) then ForcedLeave(n, old(ns.party) != null, o) else []
      ensures forall channel :: channel in exchange.recorded
                           <==> && channel in old(exchange.recorded) && !old(LetsGo(ns, n, o, channel))
                                && (cfg.isClient || channel != id)
    {
      party := [];
      var written := !closed && n in connected;
      ghost var inParty := ns.party != null;
      var frames := Detach(n, ns, o);
      if written {
        Frames.ForcedLeaveFits(EMPTY, n, EventsOf(cfg, n), inParty, o);
        party := frames;
        Send(frames);
      }
    }

    // ---- closing ----

    method DrainOne(n: Bytes, answers: Bytes -> Outcome)
      requires NamespacesValid() && n in connected
      modifies this`connected, exchange, connected[n], connected[n].party
      ensures NamespacesValid()
      ensures connected == old(connected) - {n} && connected.Keys == old(connected.Keys) - {n}
      ensures forall k | k in connected :: connected[k].party == old(connected[k].party)
      ensures Kept(answers) == old(Kept(answers))
    {
      var _ := Detach(n, connected[n], answers(n));
      KeptOn(n, answers);
    }

    twostate lemma KeptOn(new n: Bytes, new answers: Bytes -> Outcome)
      requires n in old(connected) && connected == old(connected) - {n}
      requires forall k | k in connected :: connected[k].Local() == old(connected[k].Local())
      requires forall channel :: channel in exchange.recorded
                            <==> && channel in old(exchange.recorded)
                                 && !old(LetsGo(connected[n], n, answers(n), channel))
                                 && (cfg.isClient || channel != id)
      ensures Kept(answers) == old(Kept(answers))
    {
      forall channel
        ensures (forall k | k in old(connected) :: !old(LetsGo(connected[k], k, answers(k), channel)))
           <==> && !old(LetsGo(connected[n], n, answers(n), channel))
                && forall k | k in connected :: !LetsGo(connected[k], k, answers(k), channel)
      {
        assert forall k | k in old(connected) && k != n :: k in connected && connected[k] == old(connected)[k];
      }
    }

    /** Releases the namespaces one by one, in any order, firing `OnNamespaceDisconnect` for each. */
    method DrainNamespaces(answers: Bytes -> Outcome) returns (fired: seq<Bytes>)
      requires NamespacesValid()
      modifies this`connected, exchange, connected.Values, Parties()
      ensures connected == map[] && NamespacesValid()
      ensures multiset(fired) == multiset(old(connected.Keys))
      ensures exchange.recorded == old(Kept(answers))
    {
      fired := [];
      while connected.Keys != {}
        invariant NamespacesValid()
        invariant forall n | n in connected ::
                    && n in old(connected) && connected[n] == old(connected)[n]
                    && connected[n].party == old(connected[n].party)
        invariant Kept(answers) == old(Kept(answers))
        invariant multiset(fired) + multiset(connected.Keys) == multiset(old(connected.Keys))
        decreases connected.Keys
      {
        var n :| n in connected.Keys;
        ghost var keys := connected.Keys;
        assert connected[n] in old(connected.Values);
        DrainOne(n, answers);
        fired := fired + [n];
        Without(keys, n);
      }
    }

    /** Closing, whatever the state and the record and however often it is called: the close channel is closed once,
        `OnNamespaceDisconnect` fires once for every connected namespace, and no waiting message and no namespace
        is left. Recorded stays exactly what no namespace lets go; if no leave handler refuses, exactly what
        nothing accounts for. So closing leaves nothing behind if and only if nothing is unaccounted for. */
    method Close(answers: Bytes -> Outcome) returns (fired: seq<Bytes>)
      requires Valid() && !onlyNative
      modifies this`connected, this`waiting, this`acknowledged, this`closed, this`closes,
               exchange, connected.Values, Parties()
      ensures Valid() && closed && closes == 1 && waiting == map[]
      ensures old(closed) ==> fired == [] && unchanged(this) && unchanged(exchange)
      ensures !old(closed) ==>
                && connected == map[] && multiset(fired) == multiset(old(connected.Keys))
                && exchange.recorded == old(Kept(answers))
      ensures !old(closed) && (forall n :: !Refuses(n, answers(n))) ==>
                exchange.recorded == old(Unaccounted()) && (exchange.recorded == {} <==> old(Unaccounted()) == {})
    {
      if closed {
        return [];
      }
      ghost var left := Unaccounted();
      if forall n :: !Refuses(n, answers(n)) { KeptUnaccounted(answers); }
      closed := true;
      fired := DrainNamespaces(answers);
      waiting := map[];
      acknowledged := false;
      closes := closes + 1;
    }
  }

  // ---- two ways to be left behind ----

  /** An object of a namespace that has joined one room. */
  method JoinedObject(conn: Conn, n: Bytes, room: P.RoomChat) returns (ns: P.NSConn)
    modifies conn.exchange
    ensures fresh(ns) && conn.Belongs(ns, n) && ns.party == null && ns.Local().rooms == map[room.channel := room.id]
    ensures conn.exchange.recorded == old(conn.exchange.recorded) + {Room.ChatChannel(room.id)}
  {
    ns := new P.NSConn(n, EventsOf(conn.cfg, n), conn.id, conn.exchange);
    var _ := ns.JoinRoomChat(room);
    assert ns.Local().rooms == map[room.channel := room.id];
  }

  /** The connects of both sides cross: the server has answered the client's connect, its object has joined a room, and
      then the server's own connect for the same namespace returns. The room is accounted for no more. */
  method CrossingConnects(cfg: Config, id: Bytes, n: Bytes, room: P.RoomChat, reply: Message) returns (conn: Conn)
    requires !cfg.isClient && Room.ChatChannel(room.id) != id && reply.err.None?
    ensures fresh(conn) && fresh(conn.exchange) && conn.Valid() && !conn.closed && !conn.onlyNative
    ensures Room.ChatChannel(room.id) in conn.Unaccounted()
    ensures conn.connected.Keys == {n} && fresh(conn.connected[n]) && conn.connected[n].party == null
  {
    conn := new Conn(cfg, id);
    var first := JoinedObject(conn, n, room);
    conn.Attach(n, first);
    assert room.channel in first.Local().rooms && conn.Calls(first, Room.ChatChannel(room.id));
    assert Room.ChatChannel(room.id) in conn.Sole(n);
    var second := new P.NSConn(n, EventsOf(cfg, n), id, conn.exchange);
    assert second.Local().rooms == map[];
    ghost var request := EMPTY.(event := NAMESPACE_CONNECT, namespace := n, wait := "1");
    ghost var p := Net.Peer({n}, map[request.wait := Net.Ask(request, None, false, Net.Got(reply), 1)], None, 1, map[]);
    conn.FinishConnect("1", p, n, reply, second);
  }

  /** A connect handler joins a room on the new object and then refuses: the object is dropped, and the room is
      accounted for by nothing. */
  method RefusedConnect(conn: Conn, m: Message, a: Answers, room: P.RoomChat)
    requires conn.Valid() && !conn.closed && conn.connected == map[]
    requires FireEvent(EventsOf(conn.cfg, m.namespace), m, a.first).err.Some?
    modifies conn, conn.exchange
    ensures conn.Valid() && conn.connected == map[]
    ensures Room.ChatChannel(room.id) in conn.Unaccounted()
  {
    var ns := JoinedObject(conn, m.namespace, room);
    conn.ReplyConnect(m, a, ns);
  }

  /** Either way the room stays recorded when the connection is closed, although no leave handler refuses. */
  method ClosedBehind(conn: Conn, channel: Bytes, answers: Bytes -> Outcome)
    requires conn.Valid() && !conn.closed && !conn.onlyNative && channel in conn.Unaccounted()
    requires forall n :: !conn.Refuses(n, answers(n))
    modifies conn, conn.exchange, conn.connected.Values, conn.Parties()
    ensures conn.closed && conn.connected == map[] && channel in conn.exchange.recorded
  {
    var _ := conn.Close(answers);
  }
}
