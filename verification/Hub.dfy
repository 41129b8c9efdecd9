/** The server's event loop (server.go: start, FindAndFire): the set of live connections, its index by server
    id and the connection counter. */
module Hub {
  import opened Text

  /** A connection (by its address) and its server id. */
  datatype Conn = Conn(address: nat, serverID: Bytes)

  datatype Options = Options(onDisconnect: bool, fireAlways: bool, exchange: bool)

  /** `ready` says whether the connection's readiness was reached without an error. */
  datatype Event =
    | Connect(conn: Conn)
    | Disconnect(conn: Conn, ready: bool)
    | Find(ids: seq<Bytes>)

  const WORD := 0x1_0000_0000_0000_0000

  /** `disconnected` and `left` log the calls of the server's and the exchange's OnDisconnect, `found` the
      connections a find action called its function with. */
  datatype State = State(
    connections: set<Conn>,
    connsByID: map<Bytes, Conn>,
    count: nat,
    disconnected: seq<Conn>,
    left: seq<Conn>,
    found: seq<Conn>)

  const INITIAL := State({}, map[], 0, [], [], [])

  function Lookup(index: map<Bytes, Conn>, ids: seq<Bytes>): seq<Conn> {
    if ids == [] then []
    else (if ids[0] in index then [index[ids[0]]] else []) + Lookup(index, ids[1..])
  }

  /** Whether OnDisconnect is skipped because the connection was closed during OnConnect. */
  predicate Skipped(o: Options, ready: bool) {
    o.onDisconnect && !o.fireAlways && !ready
  }

  function Step(o: Options, s: State, e: Event): State {
    match e
    case Connect(c) =>
      s.(connections := s.connections + {c}, connsByID := s.connsByID[c.serverID := c], count := (s.count + 1) % WORD)
    case Disconnect(c, ready) =>
      if c !in s.connections then s
      else
        s.(connections := s.connections - {c},
           connsByID := s.connsByID - {c.serverID},
           count := (s.count + (WORD - 1)) % WORD,
           disconnected := if o.onDisconnect && !Skipped(o, ready) then s.disconnected + [c] else s.disconnected,
           left := if o.exchange && !Skipped(o, ready) then s.left + [c] else s.left)
    case Find(ids) => s.(found := s.found + Lookup(s.connsByID, ids))
  }

  function RunEvents(o: Options, s: State, events: seq<Event>): State
    decreases |events|
  {
    if events == [] then s else RunEvents(o, Step(o, s, events[0]), events[1..])
  }

  lemma {:induction false} RunEventsSnoc(o: Options, s: State, events: seq<Event>, e: Event)
    ensures RunEvents(o, s, events + [e]) == Step(o, RunEvents(o, s, events), e)
    decreases |events|
  {
    if events == [] {
      assert [e][1..] == [];
      assert events + [e] == [e];
    } else {
      assert (events + [e])[1..] == events[1..] + [e];
      RunEventsSnoc(o, Step(o, s, events[0]), events[1..], e);
    }
  }

  // ---- the loop ----

  class Server {
    const options: Options
    var connections: set<Conn>
    var connsByID: map<Bytes, Conn>
    var count: nat
    var disconnected: seq<Conn>
    var left: seq<Conn>
    var found: seq<Conn>

    constructor (options: Options)
      ensures Abs() == INITIAL && this.options == options
    {
      this.options := options;
      connections, connsByID, count, disconnected, left, found := {}, map[], 0, [], [], [];
    }

    ghost function Abs(): State
      reads this
    {
      State(connections, connsByID, count, disconnected, left, found)
    }

    method FindAll(ids: seq<Bytes>)
      modifies this`found
      ensures found == old(found) + Lookup(connsByID, ids)
    {
      for i := 0 to |ids|
        invariant found + Lookup(connsByID, ids[i..]) == old(found) + Lookup(connsByID, ids)
      {
        assert ids[i..][0] == ids[i] && ids[i..][1..] == ids[i + 1..];
        if ids[i] in connsByID {
          found := found + [connsByID[ids[i]]];
        }
      }
    }

    /** One turn of the loop. The `continue` that skips OnDisconnect also skips the exchange. */
    method Handle(e: Event)
      modifies this
      ensures Abs() == Step(options, old(Abs()), e)
    {
      match e {
        case Connect(c) =>
          connections := connections + {c};
          connsByID := connsByID[c.serverID := c];
          count := (count + 1) % WORD;
        case Disconnect(c, ready) =>
          if c in connections {
            connections := connections - {c};
            connsByID := connsByID - {c.serverID};
            count := (count + (WORD - 1)) % WORD;
            if options.onDisconnect {
              if !options.fireAlways && !ready {
                return;
              }
              disconnected := disconnected + [c];
            }
            if options.exchange {
              left := left + [c];
            }
          }
        case Find(ids) => FindAll(ids);
      }
    }

    method Start(events: seq<Event>)
      modifies this
      ensures Abs() == RunEvents(options, old(Abs()), events)
    {
      for i := 0 to |events|
        invariant Abs() == RunEvents(options, old(Abs()), events[..i])
      {
        Handle(events[i]);
        RunEventsSnoc(options, old(Abs()), events[..i], events[i]);
        assert events[..i + 1] == events[..i] + [events[i]];
      }
      assert events[..|events|] == events;
    }

    /** `Do` calls the function on every live connection once, in any order. */
    method Do() returns (called: seq<Conn>)
      ensures multiset(called) == multiset(connections)
    {
      called := [];
      var rest := connections;
      while rest != {}
        invariant multiset(called) + multiset(rest) == multiset(connections)
        decreases rest
      {
        var c :| c in rest;
        assert multiset(rest) == multiset(rest - {c}) + multiset{c};
        rest := rest - {c};
        called := called + [c];
      }
    }
  }

  // ---- the invariant over all event sequences ----

  /** Each connection is submitted once, under a server id no other has. */
  predicate Admissible(submitted: set<Conn>, events: seq<Event>)
    decreases |events|
  {
    if events == [] then true
    else if events[0].Connect? then
      && (forall d | d in submitted :: d.serverID != events[0].conn.serverID)
      && Admissible(submitted + {events[0].conn}, events[1..])
    else Admissible(submitted, events[1..])
  }

  function Submitted(submitted: set<Conn>, events: seq<Event>): set<Conn>
    decreases |events|
  {
    if events == [] then submitted
    else Submitted(if events[0].Connect? then submitted + {events[0].conn} else submitted, events[1..])
  }

  predicate NoRepeats(cs: seq<Conn>) {
    forall i, j | 0 <= i < j < |cs| :: cs[i] != cs[j]
  }

  /** The index holds exactly the live connections, each under its own server id. */
  predicate IndexOk(s: State) {
    && (forall c | c in s.connections :: c.serverID in s.connsByID && s.connsByID[c.serverID] == c)
    && (forall id | id in s.connsByID :: s.connsByID[id] in s.connections && s.connsByID[id].serverID == id)
  }

  predicate Counted(s: State) {
    s.count == |s.connections| % WORD
  }

  predicate Inv(s: State, submitted: set<Conn>) {
    && s.connections <= submitted
    && (forall c, d | c in submitted && d in submitted && c.serverID == d.serverID :: c == d)
    && IndexOk(s)
    && Counted(s)
    && NoRepeats(s.disconnected) && (forall c | c in s.disconnected :: c in submitted && c !in s.connections)
    && NoRepeats(s.left) && (forall c | c in s.left :: c in submitted && c !in s.connections)
  }

  /** Counting up and down modulo the word size follows the size of the set. */
  lemma CountsOn(n: nat)
    ensures (n % WORD + 1) % WORD == (n + 1) % WORD
    ensures n > 0 ==> (n % WORD + (WORD - 1)) % WORD == (n - 1) % WORD
  {
    var q, r := n / WORD, n % WORD;
    assert n == WORD * q + r;
    if r == 0 && n > 0 { assert n - 1 == WORD * (q - 1) + (WORD - 1); }
  }

  lemma ConnectKeeps(o: Options, s: State, submitted: set<Conn>, c: Conn)
    requires Inv(s, submitted) && forall d | d in submitted :: d.serverID != c.serverID
    ensures Inv(Step(o, s, Connect(c)), submitted + {c})
  {
    assert c !in s.connections;
    ConnectCounts(o, s, c);
    ConnectIndexes(o, s, submitted, c);
    LogStays(s.disconnected, s.connections, submitted, c);
    LogStays(s.left, s.connections, submitted, c);
  }

  /** A new connection is in no log. */
  lemma LogStays(log: seq<Conn>, connections: set<Conn>, submitted: set<Conn>, c: Conn)
    requires c !in submitted && forall d | d in log :: d in submitted && d !in connections
    ensures forall d | d in log :: d in submitted + {c} && d !in connections + {c}
  {
  }

  lemma ConnectCounts(o: Options, s: State, c: Conn)
    requires Counted(s) && c !in s.connections
    ensures Counted(Step(o, s, Connect(c)))
  {
    assert |s.connections + {c}| == |s.connections| + 1;
    CountsOn(|s.connections|);
  }

  lemma ConnectIndexes(o: Options, s: State, submitted: set<Conn>, c: Conn)
    requires IndexOk(s) && s.connections <= submitted && forall d | d in submitted :: d.serverID != c.serverID
    ensures IndexOk(Step(o, s, Connect(c)))
  {
  }

  lemma DisconnectKeeps(o: Options, s: State, submitted: set<Conn>, c: Conn, ready: bool)
    requires Inv(s, submitted) && c in s.connections
    ensures Inv(Step(o, s, Disconnect(c, ready)), submitted)
  {
    DisconnectCounts(o, s, c, ready);
    LogKeeps(s.disconnected, c);
    LogKeeps(s.left, c);
  }

  lemma DisconnectCounts(o: Options, s: State, c: Conn, ready: bool)
    requires Counted(s) && c in s.connections
    ensures Counted(Step(o, s, Disconnect(c, ready)))
  {
    assert |s.connections - {c}| == |s.connections| - 1;
    CountsOn(|s.connections|);
  }

  lemma LogKeeps(log: seq<Conn>, c: Conn)
    requires NoRepeats(log) && c !in log
    ensures NoRepeats(log + [c])
  {
  }

  lemma StepKeeps(o: Options, s: State, submitted: set<Conn>, e: Event)
    requires Inv(s, submitted)
    requires e.Connect? ==> forall d | d in submitted :: d.serverID != e.conn.serverID
    ensures Inv(Step(o, s, e), if e.Connect? then submitted + {e.conn} else submitted)
  {
    match e {
      case Connect(c) => ConnectKeeps(o, s, submitted, c);
      case Disconnect(c, ready) => if c in s.connections { DisconnectKeeps(o, s, submitted, c, ready); }
      case Find(_) =>
    }
  }

  /** Over every admissible event sequence: the counter is the number of live connections (modulo the word
      size), the index is exactly theirs, and neither OnDisconnect is ever called twice for a connection. */
  lemma {:induction false} HubInvariant(o: Options, s: State, submitted: set<Conn>, events: seq<Event>)
    requires Inv(s, submitted) && Admissible(submitted, events)
    ensures Inv(RunEvents(o, s, events), Submitted(submitted, events))
    decreases |events|
  {
    if events != [] {
      StepKeeps(o, s, submitted, events[0]);
      var submitted' := if events[0].Connect? then submitted + {events[0].conn} else submitted;
      HubInvariant(o, Step(o, s, events[0]), submitted', events[1..]);
    }
  }

  /** With fewer than 2^64 live connections the counter is exact and its decrement never wraps. */
  lemma CounterExact(o: Options, events: seq<Event>, c: Conn, ready: bool)
    requires Admissible({}, events) && |RunEvents(o, INITIAL, events).connections| < WORD
    ensures var s := RunEvents(o, INITIAL, events);
            && s.count == |s.connections|
            && (c in s.connections ==> s.count > 0 && Step(o, s, Disconnect(c, ready)).count == s.count - 1)
  {
    HubInvariant(o, INITIAL, {}, events);
    var s := RunEvents(o, INITIAL, events);
    SmallCounter(o, s, c, ready);
  }

  lemma SmallCounter(o: Options, s: State, c: Conn, ready: bool)
    requires Counted(s) && |s.connections| < WORD
    ensures s.count == |s.connections|
    ensures c in s.connections ==> s.count > 0 && Step(o, s, Disconnect(c, ready)).count == s.count - 1
  {
    CountsOn(|s.connections|);
  }

  /** What a linear scan by server id would call. */
  ghost function Scan(connections: set<Conn>, ids: seq<Bytes>): seq<Conn> {
    if ids == [] then []
    else
      var live := set c | c in connections && c.serverID == ids[0];
      (if live == {} then [] else var c :| c in live; [c]) + Scan(connections, ids[1..])
  }

  lemma {:induction false} LookupIsScan(s: State, ids: seq<Bytes>)
    requires IndexOk(s)
    ensures Lookup(s.connsByID, ids) == Scan(s.connections, ids)
  {
    if ids != [] {
      LookupIsScan(s, ids[1..]);
      var live := set c | c in s.connections && c.serverID == ids[0];
      if ids[0] in s.connsByID {
        assert s.connsByID[ids[0]] in live;
        assert forall c | c in live :: c == s.connsByID[ids[0]];
      } else {
        assert live == {};
      }
    }
  }

  /** The index refines the scan: in every reachable state a find action calls the function on exactly the
      live connections with the requested ids, in the order and multiplicity of the request. */
  lemma FindRefinesScan(o: Options, events: seq<Event>, ids: seq<Bytes>)
    requires Admissible({}, events)
    ensures var s := RunEvents(o, INITIAL, events);
            Step(o, s, Find(ids)).found == s.found + Scan(s.connections, ids)
  {
    HubInvariant(o, INITIAL, {}, events);
    LookupIsScan(RunEvents(o, INITIAL, events), ids);
  }

  /** The disconnect of a connection was handled in the run and OnDisconnect was skipped for it. */
  predicate SkippedIn(o: Options, s: State, events: seq<Event>, c: Conn)
    decreases |events|
  {
    && events != []
    && (|| (events[0].Disconnect? && events[0].conn == c && c in s.connections && Skipped(o, events[0].ready))
        || SkippedIn(o, Step(o, s, events[0]), events[1..], c))
  }

  function SubmittedBy(submitted: set<Conn>, e: Event): set<Conn> {
    if e.Connect? then submitted + {e.conn} else submitted
  }

  /** A connection that is gone stays gone, and the exchange hears nothing more of it. */
  lemma {:induction false} GoneStaysGone(o: Options, s: State, submitted: set<Conn>, events: seq<Event>, c: Conn)
    requires Admissible(submitted, events) && c in submitted && c !in s.connections
    ensures !SkippedIn(o, s, events, c) && (c in RunEvents(o, s, events).left <==> c in s.left)
    decreases |events|
  {
    if events != [] {
      GoneStaysGone(o, Step(o, s, events[0]), SubmittedBy(submitted, events[0]), events[1..], c);
    }
  }

  lemma {:induction false} ExchangeHears(o: Options, s: State, submitted: set<Conn>, events: seq<Event>, c: Conn)
    requires Inv(s, submitted) && Admissible(submitted, events) && o.exchange
    requires c in s.connections || c !in submitted
    ensures c in Submitted(submitted, events) && c !in RunEvents(o, s, events).connections ==>
              (c in RunEvents(o, s, events).left <==> !SkippedIn(o, s, events, c))
    decreases |events|
  {
    if events != [] {
      var e := events[0];
      var s', submitted' := Step(o, s, e), SubmittedBy(submitted, e);
      StepKeeps(o, s, submitted, e);
      if e.Disconnect? && e.conn == c && c in s.connections {
        GoneStaysGone(o, s', submitted', events[1..], c);
        LeftExactlyUnskipped(o, s, c, e.ready);
      } else {
        ExchangeHears(o, s', submitted', events[1..], c);
      }
    }
  }

  lemma LeftExactlyUnskipped(o: Options, s: State, c: Conn, ready: bool)
    requires c in s.connections && o.exchange && c !in s.left
    ensures c in Step(o, s, Disconnect(c, ready)).left <==> !Skipped(o, ready)
  {
    var t := Step(o, s, Disconnect(c, ready));
    if !Skipped(o, ready) { assert t.left[|s.left|] == c; }
  }

  /** In every admissible run with an exchange, the exchange has heard that a connection left exactly when the
      connection's disconnect was not skipped: one refused during OnConnect stays in the exchange if the
      server has a callback of its own that it does not always fire. */
  lemma ExchangeMissesSkipped(o: Options, events: seq<Event>, c: Conn)
    requires Admissible({}, events) && o.exchange
    requires c in Submitted({}, events) && c !in RunEvents(o, INITIAL, events).connections
    ensures c in RunEvents(o, INITIAL, events).left <==> !SkippedIn(o, INITIAL, events, c)
  {
    ExchangeHears(o, INITIAL, {}, events, c);
  }

  // ---- the callbacks, read off the events ----

  predicate LiveSince(events: seq<Event>, c: Conn, k: nat)
    requires k < |events|
  {
    events[k] == Connect(c) && forall j | k < j < |events| :: !(events[j].Disconnect? && events[j].conn == c)
  }

  /** The connection was submitted and its disconnect has not come since. */
  ghost predicate Live(events: seq<Event>, c: Conn) {
    exists k | 0 <= k < |events| :: LiveSince(events, c, k)
  }

  /** The event at i is the disconnect of a connection that is live until then. */
  ghost predicate Closes(events: seq<Event>, c: Conn, i: nat)
    requires i < |events|
  {
    events[i].Disconnect? && events[i].conn == c && Live(events[..i], c)
  }

  /** A disconnect that reaches the callbacks: the server's own does not hold it back. */
  predicate Reaches(o: Options, e: Event)
    requires e.Disconnect?
  {
    !o.onDisconnect || o.fireAlways || e.ready
  }

  ghost predicate ClosedAndReached(o: Options, events: seq<Event>, c: Conn) {
    exists i | 0 <= i < |events| :: Closes(events, c, i) && Reaches(o, events[i])
  }

  lemma LiveSnoc(events: seq<Event>, e: Event, c: Conn)
    ensures Live(events + [e], c) <==> e == Connect(c) || (Live(events, c) && !(e.Disconnect? && e.conn == c))
  {
    var all := events + [e];
    assert all[|events|] == e && forall j | 0 <= j < |events| :: events[j] == all[j];
    if e == Connect(c) { assert LiveSince(all, c, |events|); }
    if Live(events, c) && !(e.Disconnect? && e.conn == c) {
      var k :| 0 <= k < |events| && LiveSince(events, c, k);
      assert LiveSince(all, c, k);
    }
    if Live(all, c) && e != Connect(c) {
      var k :| 0 <= k < |all| && LiveSince(all, c, k);
      assert LiveSince(events, c, k);
    }
  }

  lemma ReachedSnoc(o: Options, events: seq<Event>, e: Event, c: Conn)
    ensures ClosedAndReached(o, events + [e], c)
       <==> ClosedAndReached(o, events, c) || (e.Disconnect? && e.conn == c && Live(events, c) && Reaches(o, e))
  {
    var all := events + [e];
    assert all[|events|] == e && all[..|events|] == events;
    assert forall j | 0 <= j < |events| :: events[j] == all[j] && all[..j] == events[..j];
    if ClosedAndReached(o, events, c) {
      var i :| 0 <= i < |events| && Closes(events, c, i) && Reaches(o, events[i]);
      assert Closes(all, c, i);
    }
    if e.Disconnect? && e.conn == c && Live(events, c) && Reaches(o, e) {
      assert Closes(all, c, |events|);
    }
    if ClosedAndReached(o, all, c) {
      var i :| 0 <= i < |all| && Closes(all, c, i) && Reaches(o, all[i]);
      if i < |events| { assert Closes(events, c, i); }
    }
  }

  /** After every event sequence the live connections are those submitted and not disconnected since, and each
      OnDisconnect was called for exactly those with a disconnect that reached it. */
  lemma {:induction false} HubHistory(o: Options, events: seq<Event>, c: Conn)
    ensures var s := RunEvents(o, INITIAL, events);
            && (c in s.connections <==> Live(events, c))
            && (c in s.disconnected <==> o.onDisconnect && ClosedAndReached(o, events, c))
            && (c in s.left <==> o.exchange && ClosedAndReached(o, events, c))
  {
    if events != [] {
      var init, e := events[..|events| - 1], events[|events| - 1];
      assert events == init + [e];
      HubHistory(o, init, c);
      RunEventsSnoc(o, INITIAL, init, e);
      LiveSnoc(init, e, c);
      ReachedSnoc(o, init, e, c);
    }
  }

  lemma {:induction false} ConnectsOnce(submitted: set<Conn>, events: seq<Event>, c: Conn, i: nat, j: nat)
    requires Admissible(submitted, events) && i < |events| && j < |events|
    requires events[i] == Connect(c) && events[j] == Connect(c)
    ensures c !in submitted && i == j
    decreases |events|
  {
    var submitted' := SubmittedBy(submitted, events[0]);
    if i > 0 && j > 0 {
      ConnectsOnce(submitted', events[1..], c, i - 1, j - 1);
    } else if i > 0 {
      ConnectsOnce(submitted', events[1..], c, i - 1, i - 1);
    } else if j > 0 {
      ConnectsOnce(submitted', events[1..], c, j - 1, j - 1);
    }
  }

  lemma ClosesOnce(events: seq<Event>, c: Conn, i: nat, j: nat)
    requires Admissible({}, events) && i < j < |events| && Closes(events, c, i)
    ensures !Closes(events, c, j)
  {
    if Closes(events, c, j) {
      var k :| 0 <= k < i && LiveSince(events[..i], c, k);
      var l :| 0 <= l < j && LiveSince(events[..j], c, l);
      ConnectsOnce({}, events, c, k, l);
    }
  }

  /** When OnDisconnect is called: for the connection whose disconnect is at i, exactly if the server has the callback
      and either always fires it or the connection was ready; the exchange hears of it exactly if nothing skipped it. */
  lemma DisconnectCalledExactly(o: Options, events: seq<Event>, c: Conn, i: nat)
    requires Admissible({}, events) && i < |events| && Closes(events, c, i)
    ensures var s, ready := RunEvents(o, INITIAL, events), events[i].ready;
            && c !in s.connections
            && (c in s.disconnected <==> o.onDisconnect && (o.fireAlways || ready))
            && (c in s.left <==> o.exchange && (!o.onDisconnect || o.fireAlways || ready))
  {
    HubHistory(o, events, c);
    if ClosedAndReached(o, events, c) {
      var j :| 0 <= j < |events| && Closes(events, c, j) && Reaches(o, events[j]);
      if i < j { ClosesOnce(events, c, i, j); } else if j < i { ClosesOnce(events, c, j, i); }
    }
    if Live(events, c) {
      var k :| 0 <= k < |events| && LiveSince(events, c, k);
      var l :| 0 <= l < i && LiveSince(events[..i], c, l);
      ConnectsOnce({}, events, c, k, l);
    }
  }
}
