/** What gets through between the two peers (conn.go: ask, Write, handleMessage): an ask for a custom event reaches
    the other side, its answer reaches the asker, and an emit arrives; and a blocked reader goes on unless it is
    wedged. */
module Delivery {
  import opened Text
  import opened Escaping
  import opened Codec
  import opened Protocol
  import opened Network

  // ---- one move ----

  /** In every state of every run, starting a custom ask on a namespace the asker holds puts the request at the end of
      its link, as the other side decodes it, and leaves the ask waiting. */
  lemma AskReachesLink(ca: Config, cb: Config, nets: seq<Net>, moves: seq<Move>, i: nat, now: int, m: Message)
    requires Run(ca, cb, nets, moves) && i <= |moves|
    requires Sendable(m) && CustomEvent(m.event) && m.namespace in nets[i].a.connected && nets[i].a.clock < now
    ensures CanMove(ca, cb, nets[i], ByA(Start(now, m)))
    ensures var n, n' := nets[i], Next(ca, cb, nets[i], ByA(Start(now, m)));
            var t := GenWait(ca.isClient, now);
            && n'.ab == n.ab + [Seen(cb, m.(wait := t))] && n'.ba == n.ba && n'.b == n.b
            && t !in n.a.asks && n'.a.connected == n.a.connected && n'.a.blocked == n.a.blocked
            && n'.a.asks == n.a.asks[t := Ask(m.(wait := t), None, true, Waiting, now)]
  {
    RunKeeps(ca, cb, nets, moves, i);
    StartSends(ca, cb, nets[i].a, now, m);
    var t := GenWait(ca.isClient, now);
    StartTokens(ca, nets[i].a, now, StartAsk(ca, nets[i].a, now, m).peer.asks[t]);
  }

  /** What the asker reads in the answer of a handler registered for the event. */
  function AnswerRead(o: Outcome): Reading {
    if o.Accept? then Success([]) else ReadingOfError(o.err)
  }

  /** In every state of every run, handling a custom request of `a` at the head of the link, for a namespace `b` holds
      and an event it has a handler for, puts exactly one reply at the end of the other link: under the
      request's token, with what the handler answered. */
  lemma RequestIsAnswered(ca: Config, cb: Config, nets: seq<Net>, moves: seq<Move>, i: nat, a: Answers)
      returns (reply: Message)
    requires Run(ca, cb, nets, moves) && i <= |moves| && nets[i].ab != [] && nets[i].b.blocked.None?
    requires var m := nets[i].ab[0];
             && Own(ca.isClient, m.wait) && CustomEvent(m.event) && m.namespace in nets[i].b.connected
             && m.event in EventsOf(cb, m.namespace) && PartyFits(m, a.party)
    ensures CanMove(ca, cb, nets[i], ByB(Handle(a)))
    ensures var n, n' := nets[i], Next(ca, cb, nets[i], ByB(Handle(a)));
            && n'.ab == n.ab[1..] && n'.ba == n.ba + [reply] && n'.a == n.a && n'.b == n.b
            && reply.wait == n.ab[0].wait && ReadingOf(reply) == AnswerRead(a.first)
            && !reply.invalid && !reply.native
  {
    var n := nets[i];
    var m := n.ab[0];
    assert m in n.ab;
    RunKeeps(ca, cb, nets, moves, i);
    RequestIsNeverAReply(ca, cb, nets, moves, i, m, a);
    assert Clean(m);
    OwnIsExclusive(ca.isClient, m.wait);
    reply := AnsweredOnce(ca, cb, n.b, m, a);
  }

  lemma AnsweredOnce(ca: Config, cb: Config, p: Peer, m: Message, a: Answers) returns (reply: Message)
    requires Clean(m) && m.wait != [] && PlainToken(m.wait) && !Expected(cb, p, m) && CustomEvent(m.event)
    requires m.namespace in p.connected && m.event in EventsOf(cb, m.namespace) && PartyFits(m, a.party)
    ensures var acted := HandleMessage(cb, p, m, a);
            acted.peer == p && DecodeAll(ca, acted.sent) == [reply]
    ensures reply.wait == m.wait && ReadingOf(reply) == AnswerRead(a.first) && !reply.invalid && !reply.native
  {
    var acted := HandleMessage(cb, p, m, a);
    CustomEventOutcome(cb, ca, p.connected, m, a);
    assert acted == Acted(p, Dispatch(cb, p.connected, m, a).sent);
    reply := Decode(ca, acted.sent[0]);
    assert reply in DecodeAll(ca, acted.sent);
    HandleSends(cb, ca, p, m, a, reply);
  }

  /** An emit arrives exactly if it may be written. */
  lemma EmitReachesLink(ca: Config, cb: Config, n: Net, m: Message)
    requires Sendable(m)
    ensures CanMove(ca, cb, n, ByA(Emit(m)))
    ensures Next(ca, cb, n, ByA(Emit(m)))
         == n.(ab := n.ab + if IsNamespaceEvent(m.event) || m.namespace in n.a.connected then [Seen(cb, m)] else [])
  {
    EmitSends(ca, cb, n.a, m);
  }

  /** Any ask that waits can be given up, which changes nothing but that it waits no more. */
  lemma AnyAskCanBeGivenUp(ca: Config, cb: Config, n: Net, t: Bytes)
    requires t in n.a.asks && n.a.asks[t].phase.Waiting?
    ensures CanMove(ca, cb, n, ByA(Abandon(t)))
    ensures Next(ca, cb, n, ByA(Abandon(t))) == n.(a := SetAsk(n.a, t, n.a.asks[t].(phase := Abandoned)))
  {
    assert n.ab + DecodeAll(cb, []) == n.ab;
  }

  // ---- a whole ask ----

  /** What an undisturbed ask needs to find. */
  predicate AtRest(n: Net) {
    n.ab == [] && n.ba == [] && n.a.blocked.None? && n.b.blocked.None?
  }

  /** From every state of every run in which the links are empty, an ask for a custom event that the other side handles
      can run to its end: it returns what the handler answered, and is in the table no more. */
  lemma CustomAskReturns(ca: Config, cb: Config, nets: seq<Net>, moves: seq<Move>, now: int, m: Message, a: Answers)
      returns (nets': seq<Net>, moves': seq<Move>, reply: Message)
    requires Run(ca, cb, nets, moves) && AtRest(nets[|moves|]) && nets[|moves|].a.clock < now
    requires Sendable(m) && CustomEvent(m.event) && EscapeSafe(m.namespace) && EscapeSafe(m.event)
    requires m.namespace in nets[|moves|].a.connected && m.namespace in nets[|moves|].b.connected
    requires m.event in EventsOf(cb, m.namespace) && a.party == []
    ensures Run(ca, cb, nets', moves') && nets <= nets' && AtRest(nets'[|moves'|])
    ensures var t := GenWait(ca.isClient, now);
            && ReadingOf(reply) == AnswerRead(a.first)
            && t in nets'[|moves'|].a.asks
            && nets'[|moves'|].a.asks[t] == Ask(m.(wait := t), None, false, Finished(reply), now)
  {
    var t := GenWait(ca.isClient, now);
    nets', moves', reply := AskIsAnswered(ca, cb, nets, moves, now, m, a);
    nets', moves' := ReplyIsReturned(ca, cb, nets', moves', t, reply);
    assert nets <= nets';
  }

  /** The first half: the request goes out and is answered. */
  lemma AskIsAnswered(ca: Config, cb: Config, nets: seq<Net>, moves: seq<Move>, now: int, m: Message, a: Answers)
      returns (nets': seq<Net>, moves': seq<Move>, reply: Message)
    requires Run(ca, cb, nets, moves) && AtRest(nets[|moves|]) && nets[|moves|].a.clock < now
    requires Sendable(m) && CustomEvent(m.event) && EscapeSafe(m.namespace) && EscapeSafe(m.event)
    requires m.namespace in nets[|moves|].a.connected && m.namespace in nets[|moves|].b.connected
    requires m.event in EventsOf(cb, m.namespace) && a.party == []
    ensures Run(ca, cb, nets', moves') && nets <= nets'
    ensures var n := nets'[|moves'|];
            var t := GenWait(ca.isClient, now);
            && n.ab == [] && n.ba == [reply] && n.a.blocked.None? && n.b.blocked.None?
            && reply.wait == t && ReadingOf(reply) == AnswerRead(a.first) && !reply.invalid && !reply.native
            && t in n.a.asks && n.a.asks[t] == Ask(m.(wait := t), None, true, Waiting, now)
  {
    var t := GenWait(ca.isClient, now);
    var request := m.(wait := t);
    AskReachesLink(ca, cb, nets, moves, |moves|, now, m);
    nets', moves' := RunOn(ca, cb, nets, moves, ByA(Start(now, m)));
    RequestAsSeen(cb, request);
    assert Own(ca.isClient, t);
    var head := Seen(cb, request);
    assert nets'[|moves'|].ab == [head];
    reply := RequestIsAnswered(ca, cb, nets', moves', |moves'|, a);
    nets', moves' := RunOn(ca, cb, nets', moves', ByB(Handle(a)));
  }

  lemma RequestAsSeen(to: Config, request: Message)
    requires EscapeSafe(request.namespace) && EscapeSafe(request.event)
    ensures Seen(to, request).namespace == request.namespace && Seen(to, request).event == request.event
    ensures Seen(to, request).wait == request.wait
  {
    UnescapeEscape(request.namespace);
    UnescapeEscape(request.event);
  }

  /** The second half: the reply is delivered, taken and returned. */
  lemma ReplyIsReturned(ca: Config, cb: Config, nets: seq<Net>, moves: seq<Move>, t: Bytes, reply: Message)
      returns (nets': seq<Net>, moves': seq<Move>)
    requires Run(ca, cb, nets, moves)
    requires var n := nets[|moves|];
             && n.ab == [] && n.ba == [reply] && n.a.blocked.None? && n.b.blocked.None?
             && reply.wait == t && !reply.invalid && !reply.native && t in n.a.asks
             && n.a.asks[t].slot.None? && n.a.asks[t].registered && n.a.asks[t].phase.Waiting?
             && !IsNamespaceEvent(n.a.asks[t].request.event)
    ensures Run(ca, cb, nets', moves') && nets <= nets' && AtRest(nets'[|moves'|])
    ensures t in nets'[|moves'|].a.asks
    ensures nets'[|moves'|].a.asks[t] == nets[|moves|].a.asks[t].(registered := false, phase := Finished(reply))
  {
    RunKeeps(ca, cb, nets, moves, |moves|);
    AskTokenIsOwn(ca, nets[|moves|].a, t);
    OwnIsExclusive(ca.isClient, t);
    DeliveryStep(ca, cb, nets[|moves|]);
    nets', moves' := RunOn(ca, cb, nets, moves, ByA(Handle(ACCEPTING)));
    assert nets'[|moves'|].ab == [];
    nets', moves' := TakenAndReturned(ca, cb, nets', moves', t, reply);
  }

  lemma TakenAndReturned(ca: Config, cb: Config, nets: seq<Net>, moves: seq<Move>, t: Bytes, reply: Message)
      returns (nets': seq<Net>, moves': seq<Move>)
    requires Run(ca, cb, nets, moves) && AtRest(nets[|moves|]) && t in nets[|moves|].a.asks
    requires var ask := nets[|moves|].a.asks[t];
             && ask.slot == Some(reply) && ask.registered && ask.phase.Waiting? && !IsNamespaceEvent(ask.request.event)
    ensures Run(ca, cb, nets', moves') && nets <= nets' && AtRest(nets'[|moves'|])
    ensures t in nets'[|moves'|].a.asks
    ensures nets'[|moves'|].a.asks[t]
         == nets[|moves|].a.asks[t].(slot := None, registered := false, phase := Finished(reply))
  {
    nets', moves' := RunOn(ca, cb, nets, moves, ByA(Take(t)));
    nets', moves' := RunOn(ca, cb, nets', moves', ByA(Unregister(t)));
    FinishEffect(nets'[|moves'|].a, t, []);
    nets', moves' := RunOn(ca, cb, nets', moves', ByA(Finish(t, [])));
  }

  // ---- the reader goes on ----

  /** In every state of every run, a blocked reader that is not wedged goes on: at once, or after the ask whose
      channel is full has taken its reply. Then the message it was blocked on is in the channel. */
  lemma BlockedReaderGoesOn(ca: Config, cb: Config, nets: seq<Net>, moves: seq<Move>)
      returns (nets': seq<Net>, moves': seq<Move>)
    requires Run(ca, cb, nets, moves) && nets[|moves|].a.blocked.Some? && !Wedged(nets[|moves|].a)
    ensures Run(ca, cb, nets', moves') && nets <= nets' && nets'[|moves'|].a.blocked.None?
    ensures var m := nets[|moves|].a.blocked.value;
            m.wait in nets'[|moves'|].a.asks && nets'[|moves'|].a.asks[m.wait].slot == Some(m)
  {
    RunKeeps(ca, cb, nets, moves, |moves|);
    var m := nets[|moves|].a.blocked.value;
    nets', moves' := nets, moves;
    if nets[|moves|].a.asks[m.wait].slot.Some? {
      nets', moves' := RunOn(ca, cb, nets, moves, ByA(Take(m.wait)));
    }
    nets', moves' := RunOn(ca, cb, nets', moves', ByA(Unblock));
  }
}
