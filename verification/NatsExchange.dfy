/** The NATS exchange's event loop (stackexchange/nats/stackexchange_nats.go: run, getChannel) and the
    per-topic subscription gauge it keeps (metrics/metrics.go). */
module NatsExchange {
  import opened Text
  import opened Codec

  type Conn = nat

  const DOT := '.'

  /** What the broker does with a subscription: its connection is closed, it refuses, it reports an error after
      the flush, or it accepts. */
  datatype Broker = Closed | Refuses | FailsLate | Accepts

  datatype Event =
    | Add(conn: Conn)
    | Subscribe(conn: Conn, channel: Bytes, broker: Broker)
    | Unsubscribe(conn: Conn, channel: Bytes, closed: bool)
    | Remove(conn: Conn)

  /** The subjects recorded for each subscriber, and the gauge of each topic. */
  datatype State = State(subscribers: map<Conn, set<Bytes>>, gauge: Bytes -> int)

  function Subject(prefix: Bytes, channel: Bytes): Bytes {
    prefix + [DOT] + channel
  }

  /** The topic the gauge is kept under when a channel is subscribed or unsubscribed. */
  function ChannelTopic(channel: Bytes): Option<Bytes> {
    var parts := Split(channel, DOT);
    if |parts| > 1 then Some(parts[0]) else None
  }

  /** The topic it is kept under when a subscriber is removed, read off the subject. */
  function SubjectTopic(subject: Bytes): Option<Bytes> {
    var parts := Split(subject, DOT);
    if |parts| > 2 then Some(parts[1]) else None
  }

  function Under(subjects: set<Bytes>, topic: Bytes): set<Bytes> {
    set s | s in subjects && SubjectTopic(s) == Some(topic)
  }

  function Bump(gauge: Bytes -> int, topic: Option<Bytes>, delta: int): Bytes -> int {
    t => if Some(t) == topic then gauge(t) + delta else gauge(t)
  }

  function Lower(gauge: Bytes -> int, subjects: set<Bytes>): Bytes -> int {
    t => gauge(t) - |Under(subjects, t)|
  }

  function Step(prefix: Bytes, s: State, e: Event): State {
    match e
    case Add(c) => s.(subscribers := s.subscribers[c := {}])
    case Subscribe(c, channel, broker) =>
      if c !in s.subscribers || broker.Refuses? then s
      else if broker.Closed? then s.(subscribers := s.subscribers - {c})
      else
        State(if broker.FailsLate? then s.subscribers
              else s.subscribers[c := s.subscribers[c] + {Subject(prefix, channel)}],
              Bump(s.gauge, ChannelTopic(channel), 1))
    case Unsubscribe(c, channel, closed) =>
      if c !in s.subscribers then s
      else if closed then s.(subscribers := s.subscribers - {c})
      else if Subject(prefix, channel) !in s.subscribers[c] then s
      else
        State(s.subscribers[c := s.subscribers[c] - {Subject(prefix, channel)}],
              Bump(s.gauge, ChannelTopic(channel), -1))
    case Remove(c) =>
      if c !in s.subscribers then s
      else State(s.subscribers - {c}, Lower(s.gauge, s.subscribers[c]))
  }

  function RunEvents(prefix: Bytes, s: State, events: seq<Event>): State
    decreases |events|
  {
    if events == [] then s else RunEvents(prefix, Step(prefix, s, events[0]), events[1..])
  }

  lemma {:induction false} RunEventsSnoc(prefix: Bytes, s: State, events: seq<Event>, e: Event)
    ensures RunEvents(prefix, s, events + [e]) == Step(prefix, RunEvents(prefix, s, events), e)
    decreases |events|
  {
    if events == [] {
      assert [e][1..] == [];
      assert events + [e] == [e];
    } else {
      assert (events + [e])[1..] == events[1..] + [e];
      RunEventsSnoc(prefix, Step(prefix, s, events[0]), events[1..], e);
    }
  }

  // ---- the loop ----

  class Exchange {
    const prefix: Bytes
    var subscribers: map<Conn, set<Bytes>>
    var gauge: map<Bytes, int>

    constructor (prefix: Bytes)
      ensures this.prefix == prefix && subscribers == map[] && forall t :: Level(t) == 0
    {
      this.prefix := prefix;
      subscribers, gauge := map[], map[];
    }

    function Level(topic: Bytes): int
      reads this`gauge
    {
      if topic in gauge then gauge[topic] else 0
    }

    ghost predicate Implements(s: State)
      reads this
    {
      subscribers == s.subscribers && forall t :: Level(t) == s.gauge(t)
    }

    method Record(topic: Option<Bytes>, delta: int)
      modifies this`gauge
      ensures forall t :: Level(t) == if Some(t) == topic then old(Level(t)) + delta else old(Level(t))
    {
      if topic.Some? {
        gauge := gauge[topic.value := Level(topic.value) + delta];
      }
    }

    /** Lowers the gauge once for every recorded subject, in any order. */
    method LowerAll(subjects: set<Bytes>)
      modifies this`gauge
      ensures forall t :: Level(t) == old(Level(t)) - |Under(subjects, t)|
    {
      var rest := subjects;
      while rest != {}
        invariant rest <= subjects
        invariant forall t :: Level(t) - |Under(rest, t)| == old(Level(t)) - |Under(subjects, t)|
        decreases rest
      {
        var x :| x in rest;
        forall t: Bytes
          ensures |Under(rest - {x}, t)| == |Under(rest, t)| - if Some(t) == SubjectTopic(x) then 1 else 0
        {
          UnderWithout(rest, x, t);
        }
        Record(SubjectTopic(x), -1);
        rest := rest - {x};
      }
      assert forall t :: Under({}, t) == {};
    }

    method Handle(e: Event, ghost s: State)
      requires Implements(s)
      modifies this
      ensures Implements(Step(prefix, s, e))
    {
      match e {
        case Add(c) => subscribers := subscribers[c := {}];
        case Subscribe(c, channel, broker) =>
          if c in subscribers {
            if broker.Closed? {
              subscribers := subscribers - {c};
              return;
            }
            if broker.Refuses? {
              return;
            }
            Record(ChannelTopic(channel), 1);
            if broker.FailsLate? {
              return;
            }
            subscribers := subscribers[c := subscribers[c] + {Subject(prefix, channel)}];
          }
        case Unsubscribe(c, channel, closed) =>
          if c in subscribers {
            if closed {
              subscribers := subscribers - {c};
              return;
            }
            var subject := Subject(prefix, channel);
            if subject in subscribers[c] {
              subscribers := subscribers[c := subscribers[c] - {subject}];
              Record(ChannelTopic(channel), -1);
            }
          }
        case Remove(c) =>
          if c in subscribers {
            LowerAll(subscribers[c]);
            subscribers := subscribers - {c};
          }
      }
    }

    method Run(events: seq<Event>, ghost s: State)
      requires Implements(s)
      modifies this
      ensures Implements(RunEvents(prefix, s, events))
      ensures s == INITIAL ==> forall c, x :: (c in subscribers && x in subscribers[c]) <==> Kept(prefix, events, c, x)
    {
      forall c, x
        ensures Holds(RunEvents(prefix, INITIAL, events), c, x) <==> Kept(prefix, events, c, x)
      {
        RecordedExactly(prefix, events, c, x);
      }
      ghost var now := s;
      for i := 0 to |events|
        invariant Implements(now)
        invariant RunEvents(prefix, now, events[i..]) == RunEvents(prefix, s, events)
      {
        assert events[i..][1..] == events[i + 1..];
        Handle(events[i], now);
        now := Step(prefix, now, events[i]);
      }
    }
  }

  // ---- the record, read off the events ----

  /** The connection is dropped with its record: it is removed, or the broker's connection is found closed. */
  predicate Drops(e: Event, c: Conn) {
    e.conn == c && (e.Remove? || (e.Subscribe? && e.broker.Closed?) || (e.Unsubscribe? && e.closed))
  }

  predicate Subscribes(prefix: Bytes, e: Event, c: Conn, subject: Bytes) {
    e.Subscribe? && e.conn == c && e.broker.Accepts? && subject == prefix + "." + e.channel
  }

  predicate Unsubscribes(prefix: Bytes, e: Event, c: Conn, subject: Bytes) {
    e.Unsubscribe? && e.conn == c && !e.closed && subject == prefix + "." + e.channel
  }

  /** The connection was added and not dropped since. */
  ghost predicate Present(events: seq<Event>, c: Conn) {
    exists k | 0 <= k < |events| :: PresentSince(events, c, k)
  }

  predicate PresentSince(events: seq<Event>, c: Conn, k: nat)
    requires k < |events|
  {
    events[k] == Add(c) && forall j | k < j < |events| :: !Drops(events[j], c)
  }

  /** The connection, when it was present, subscribed to the subject, and since then it was neither added again nor
      dropped, and did not unsubscribe. */
  ghost predicate Kept(prefix: Bytes, events: seq<Event>, c: Conn, subject: Bytes) {
    exists i | 0 <= i < |events| :: KeptSince(prefix, events, c, subject, i)
  }

  predicate Ends(prefix: Bytes, e: Event, c: Conn, subject: Bytes) {
    Drops(e, c) || e == Add(c) || Unsubscribes(prefix, e, c, subject)
  }

  ghost predicate KeptSince(prefix: Bytes, events: seq<Event>, c: Conn, subject: Bytes, i: nat)
    requires i < |events|
  {
    && Subscribes(prefix, events[i], c, subject) && Present(events[..i], c)
    && forall j | i < j < |events| :: !Ends(prefix, events[j], c, subject)
  }

  lemma PresentSnoc(events: seq<Event>, e: Event, c: Conn)
    ensures Present(events + [e], c) <==> e == Add(c) || (Present(events, c) && !Drops(e, c))
  {
    var all := events + [e];
    if e == Add(c) { assert PresentSince(all, c, |events|); }
    if Present(events, c) && !Drops(e, c) {
      var k :| 0 <= k < |events| && PresentSince(events, c, k);
      assert PresentSince(all, c, k);
    }
    if Present(all, c) && e != Add(c) {
      var k :| 0 <= k < |all| && PresentSince(all, c, k);
      assert all[|events|] == e && forall j | 0 <= j < |events| :: events[j] == all[j];
      assert PresentSince(events, c, k);
    }
  }

  lemma KeptSnoc(prefix: Bytes, events: seq<Event>, e: Event, c: Conn, subject: Bytes)
    ensures Kept(prefix, events + [e], c, subject)
       <==> || (Subscribes(prefix, e, c, subject) && Present(events, c))
            || (Kept(prefix, events, c, subject) && !Ends(prefix, e, c, subject))
  {
    var all := events + [e];
    assert all[..|events|] == events && all[|events|] == e;
    assert forall j | 0 <= j < |events| :: events[j] == all[j] && all[..j] == events[..j];
    if Subscribes(prefix, e, c, subject) && Present(events, c) {
      assert KeptSince(prefix, all, c, subject, |events|);
    }
    if Kept(prefix, events, c, subject) && !Ends(prefix, e, c, subject) {
      var i :| 0 <= i < |events| && KeptSince(prefix, events, c, subject, i);
      assert KeptSince(prefix, all, c, subject, i);
    }
    if Kept(prefix, all, c, subject) {
      var i :| 0 <= i < |all| && KeptSince(prefix, all, c, subject, i);
      if i < |events| { assert KeptSince(prefix, events, c, subject, i); }
    }
  }

  predicate Holds(s: State, c: Conn, subject: Bytes) {
    c in s.subscribers && subject in s.subscribers[c]
  }

  /** The record after every event sequence: the subscribers are exactly the connections present, and a subject is
      recorded for one exactly if it was subscribed to and kept. */
  lemma {:induction false} RecordedExactly(prefix: Bytes, events: seq<Event>, c: Conn, subject: Bytes)
    ensures var s := RunEvents(prefix, INITIAL, events);
            && (c in s.subscribers <==> Present(events, c))
            && (Holds(s, c, subject) <==> Kept(prefix, events, c, subject))
  {
    if events != [] {
      var init, e := events[..|events| - 1], events[|events| - 1];
      assert events == init + [e];
      RecordedExactly(prefix, init, c, subject);
      RunEventsSnoc(prefix, INITIAL, init, e);
      PresentSnoc(init, e, c);
      KeptSnoc(prefix, init, e, c, subject);
    }
  }

  /** A channel's topic is what stands before its first dot, if it has one. */
  lemma TopicOf(topic: Bytes, rest: Bytes, channel: Bytes)
    requires DOT !in topic
    ensures ChannelTopic(topic + "." + rest) == Some(topic)
    ensures ChannelTopic(channel).None? <==> DOT !in channel
  {
    SplitCons(topic, rest, DOT);
    var i := IndexOf(channel, DOT);
    if i < |channel| { assert channel[i] in channel; }
    assert channel[..|channel|] == channel;
  }

  /** The gauge over every event sequence: it rises by one exactly when a present connection's subscription to a
      channel of the topic reaches the broker, falls by one exactly when a connection unsubscribes from a kept
      subject of a channel of the topic, and falls by the removed connection's recorded subjects of the topic. */
  lemma GaugeStep(prefix: Bytes, events: seq<Event>, e: Event, topic: Bytes)
    ensures var s := RunEvents(prefix, INITIAL, events);
            RunEvents(prefix, INITIAL, events + [e]).gauge(topic) - s.gauge(topic)
            == if e.Subscribe? && Present(events, e.conn) && (e.broker.Accepts? || e.broker.FailsLate?) then
                 (if ChannelTopic(e.channel) == Some(topic) then 1 else 0)
               else if e.Unsubscribe? && !e.closed && Kept(prefix, events, e.conn, prefix + "." + e.channel) then
                 (if ChannelTopic(e.channel) == Some(topic) then -1 else 0)
               else if e.Remove? && e.conn in s.subscribers then -|Under(s.subscribers[e.conn], topic)|
               else 0
  {
    RunEventsSnoc(prefix, INITIAL, events, e);
    RecordedExactly(prefix, events, e.conn, if e.Unsubscribe? then prefix + "." + e.channel else []);
  }

  // ---- conservation ----

  /** With a dot-free prefix the two ways of reading off the topic agree. */
  lemma TopicsAgree(prefix: Bytes, channel: Bytes)
    requires DOT !in prefix
    ensures SubjectTopic(Subject(prefix, channel)) == ChannelTopic(channel)
  {
    SplitCons(prefix, channel, DOT);
  }

  lemma UnderWithout(subjects: set<Bytes>, x: Bytes, topic: Bytes)
    requires x in subjects
    ensures |Under(subjects - {x}, topic)| == |Under(subjects, topic)| - if Some(topic) == SubjectTopic(x) then 1 else 0
  {
    if Some(topic) == SubjectTopic(x) {
      assert Under(subjects, topic) == Under(subjects - {x}, topic) + {x};
    } else {
      assert Under(subjects, topic) == Under(subjects - {x}, topic);
    }
  }

  /** The recorded subscriptions under a topic. */
  function Recorded(subscribers: map<Conn, set<Bytes>>, topic: Bytes): set<(Conn, Bytes)> {
    set c, x | c in subscribers && x in Under(subscribers[c], topic) :: (c, x)
  }

  function Own(c: Conn, subjects: set<Bytes>): set<(Conn, Bytes)> {
    set x | x in subjects :: (c, x)
  }

  lemma {:induction false} OwnSize(c: Conn, subjects: set<Bytes>)
    ensures |Own(c, subjects)| == |subjects|
  {
    if subjects != {} {
      var x :| x in subjects;
      OwnSize(c, subjects - {x});
      assert Own(c, subjects) == Own(c, subjects - {x}) + {(c, x)};
    }
  }

  lemma Joined(others: map<Conn, set<Bytes>>, c: Conn, subjects: set<Bytes>, topic: Bytes)
    requires c !in others
    ensures |Recorded(others[c := subjects], topic)| == |Recorded(others, topic)| + |Under(subjects, topic)|
  {
    OwnSize(c, Under(subjects, topic));
    var x, y := Recorded(others, topic), Own(c, Under(subjects, topic));
    JoinedRecord(others, c, subjects, topic);
    assert |x + y| == |x| + |y|;
  }

  lemma JoinedRecord(others: map<Conn, set<Bytes>>, c: Conn, subjects: set<Bytes>, topic: Bytes)
    requires c !in others
    ensures Recorded(others[c := subjects], topic) == Recorded(others, topic) + Own(c, Under(subjects, topic))
    ensures Recorded(others, topic) !! Own(c, Under(subjects, topic))
  {
    var all := others[c := subjects];
    assert forall d | d in others :: d != c && all[d] == others[d];
  }

  /** Replacing one subscriber's record changes the count by the difference of its own counts. */
  lemma Replaced(subscribers: map<Conn, set<Bytes>>, c: Conn, subjects: set<Bytes>, topic: Bytes)
    ensures |Recorded(subscribers[c := subjects], topic)|
         == |Recorded(subscribers - {c}, topic)| + |Under(subjects, topic)|
    ensures c in subscribers ==>
              |Recorded(subscribers, topic)| == |Recorded(subscribers - {c}, topic)| + |Under(subscribers[c], topic)|
    ensures c !in subscribers ==> subscribers - {c} == subscribers
  {
    var others := subscribers - {c};
    Joined(others, c, subjects, topic);
    assert subscribers[c := subjects] == others[c := subjects];
    if c in subscribers {
      Joined(others, c, subscribers[c], topic);
      assert subscribers == others[c := subscribers[c]];
    }
  }

  /** How much an event lets the gauge of a topic exceed the recorded subscriptions: a subscriber replaced or
      dropped with its record, a subscription that fails after it was counted, and a repeated one. */
  function Leak(prefix: Bytes, s: State, e: Event, topic: Bytes): nat {
    match e
    case Add(c) => if c in s.subscribers then |Under(s.subscribers[c], topic)| else 0
    case Subscribe(c, channel, broker) =>
      if c !in s.subscribers || broker.Refuses? then 0
      else if broker.Closed? then |Under(s.subscribers[c], topic)|
      else if ChannelTopic(channel) != Some(topic) then 0
      else if broker.FailsLate? || Subject(prefix, channel) in s.subscribers[c] then 1
      else 0
    case Unsubscribe(c, _, closed) => if c in s.subscribers && closed then |Under(s.subscribers[c], topic)| else 0
    case Remove(_) => 0
  }

  function Leaks(prefix: Bytes, s: State, events: seq<Event>, topic: Bytes): nat
    decreases |events|
  {
    if events == [] then 0
    else Leak(prefix, s, events[0], topic) + Leaks(prefix, Step(prefix, s, events[0]), events[1..], topic)
  }

  function Excess(s: State, topic: Bytes): int {
    s.gauge(topic) - |Recorded(s.subscribers, topic)|
  }

  lemma SubscribeConserves(prefix: Bytes, s: State, c: Conn, channel: Bytes, topic: Bytes)
    requires DOT !in prefix && c in s.subscribers
    ensures var e := Subscribe(c, channel, Accepts);
            Excess(Step(prefix, s, e), topic) == Excess(s, topic) + Leak(prefix, s, e, topic)
  {
    var subject := Subject(prefix, channel);
    var more := s.subscribers[c] + {subject};
    TopicsAgree(prefix, channel);
    Replaced(s.subscribers, c, more, topic);
    UnderWithout(more, subject, topic);
    if subject in s.subscribers[c] {
      assert more == s.subscribers[c];
    } else {
      assert more - {subject} == s.subscribers[c];
    }
  }

  lemma UnsubscribeConserves(prefix: Bytes, s: State, c: Conn, channel: Bytes, topic: Bytes)
    requires DOT !in prefix && c in s.subscribers && Subject(prefix, channel) in s.subscribers[c]
    ensures Excess(Step(prefix, s, Unsubscribe(c, channel, false)), topic) == Excess(s, topic)
  {
    var subject := Subject(prefix, channel);
    TopicsAgree(prefix, channel);
    Replaced(s.subscribers, c, s.subscribers[c] - {subject}, topic);
    UnderWithout(s.subscribers[c], subject, topic);
  }

  lemma StepConserves(prefix: Bytes, s: State, e: Event, topic: Bytes)
    requires DOT !in prefix
    ensures Excess(Step(prefix, s, e), topic) == Excess(s, topic) + Leak(prefix, s, e, topic)
  {
    if e.Subscribe? && e.conn in s.subscribers && e.broker.Accepts? {
      SubscribeConserves(prefix, s, e.conn, e.channel, topic);
    } else if e.Unsubscribe? && !e.closed && e.conn in s.subscribers
              && Subject(prefix, e.channel) in s.subscribers[e.conn] {
      UnsubscribeConserves(prefix, s, e.conn, e.channel, topic);
    } else {
      Replaced(s.subscribers, e.conn, {}, topic);
      assert Under({}, topic) == {};
    }
  }

  /** Gauge conservation over every event sequence, with a dot-free prefix: each topic's gauge is the number of
      recorded subscriptions under it plus what leaked, so it is never below that number, and it is equal to
      it exactly in the runs in which nothing leaked. */
  lemma {:induction false} GaugeConserved(prefix: Bytes, s: State, events: seq<Event>, topic: Bytes)
    requires DOT !in prefix
    ensures Excess(RunEvents(prefix, s, events), topic) == Excess(s, topic) + Leaks(prefix, s, events, topic)
    decreases |events|
  {
    if events != [] {
      StepConserves(prefix, s, events[0], topic);
      GaugeConserved(prefix, Step(prefix, s, events[0]), events[1..], topic);
    }
  }

  const INITIAL := State(map[], t => 0)

  lemma GaugeFromStart(prefix: Bytes, events: seq<Event>, topic: Bytes)
    requires DOT !in prefix
    ensures var s := RunEvents(prefix, INITIAL, events);
            && s.gauge(topic) >= |Recorded(s.subscribers, topic)| >= 0
            && (s.gauge(topic) == |Recorded(s.subscribers, topic)| <==> Leaks(prefix, INITIAL, events, topic) == 0)
  {
    GaugeConserved(prefix, INITIAL, events, topic);
    assert Recorded(map[], topic) == {};
  }

  /** Where the two readings of the topic disagree, subscribing once and removing the subscriber lowers the gauge
      of a topic that was never raised. */
  lemma MisreadTopicBreaks(prefix: Bytes, channel: Bytes, topic: Bytes)
    requires SubjectTopic(Subject(prefix, channel)) == Some(topic) && ChannelTopic(channel) != Some(topic)
    ensures RunEvents(prefix, INITIAL, [Add(0), Subscribe(0, channel, Accepts), Remove(0)]).gauge(topic) == -1
  {
    var e := [Add(0), Subscribe(0, channel, Accepts), Remove(0)];
    var s1 := Step(prefix, INITIAL, e[0]);
    var s2 := Step(prefix, s1, e[1]);
    assert e[1..][1..] == e[2..] && e[2..][1..] == [];
    assert RunEvents(prefix, INITIAL, e) == RunEvents(prefix, s1, e[1..]) == RunEvents(prefix, s2, e[2..]);
    assert RunEvents(prefix, s2, e[2..]) == Step(prefix, s2, e[2]);
    assert s2.subscribers[0] == {Subject(prefix, channel)} && s2.gauge(topic) == 0;
    assert Under(s2.subscribers[0], topic) == {Subject(prefix, channel)};
  }

  lemma Reassociate(x: Bytes, y: Bytes, z: Bytes)
    ensures x + [DOT] + y + [DOT] + z == x + [DOT] + (y + [DOT] + z)
  {
  }

  /** The first piece of a text is also the first piece of any extension after a dot. */
  lemma FirstPiece(s: Bytes, more: Bytes)
    ensures Split(s + [DOT] + more, DOT)[0] == Split(s, DOT)[0] && |Split(s + [DOT] + more, DOT)| >= 2
  {
    var i := IndexOf(s, DOT);
    if i == |s| {
      assert s[..i] == s;
      SplitCons(s, more, DOT);
    } else {
      var rest := s[i + 1..];
      assert s == s[..i] + [DOT] + rest;
      Reassociate(s[..i], rest, more);
      SplitCons(s[..i], rest, DOT);
      SplitCons(s[..i], rest + [DOT] + more, DOT);
    }
  }

  /** A prefix with dots is misread: its second part is taken for the topic of every channel. */
  lemma DottedPrefixMisread(prefix: Bytes, channel: Bytes)
    requires DOT in prefix
    ensures |Split(prefix, DOT)| >= 2 && SubjectTopic(Subject(prefix, channel)) == Some(Split(prefix, DOT)[1])
  {
    var i := IndexOf(prefix, DOT);
    assert prefix[..|prefix|] == prefix;
    var rest := prefix[i + 1..];
    assert prefix == prefix[..i] + [DOT] + rest;
    Reassociate(prefix[..i], rest, channel);
    SplitCons(prefix[..i], rest, DOT);
    SplitCons(prefix[..i], rest + [DOT] + channel, DOT);
    FirstPiece(rest, channel);
  }

  ghost predicate GaugeCovers(prefix: Bytes, events: seq<Event>, topic: Bytes) {
    var s := RunEvents(prefix, INITIAL, events); s.gauge(topic) >= |Recorded(s.subscribers, topic)|
  }

  /** Every gauge covers the recorded subscriptions after every event sequence exactly when the prefix has no
      dot. With a dot, one subscriber of a channel without a topic drives a gauge below zero. */
  lemma GaugeCoversExactly(prefix: Bytes)
    ensures (forall events, topic :: GaugeCovers(prefix, events, topic)) <==> DOT !in prefix
  {
    if DOT in prefix {
      DottedPrefixMisread(prefix, []);
      var topic := Split(prefix, DOT)[1];
      assert ChannelTopic([]) == None;
      MisreadTopicBreaks(prefix, [], topic);
      assert !GaugeCovers(prefix, [Add(0), Subscribe(0, [], Accepts), Remove(0)], topic);
    } else {
      forall events, topic
        ensures GaugeCovers(prefix, events, topic)
      {
        GaugeFromStart(prefix, events, topic);
      }
    }
  }
}
