/** The wire format of a message (message.go), with the error texts of wserror/error.go. */
module Codec {
  import opened Text
  import opened Escaping

  datatype Option<+T> = None | Some(value: T)

  /** The error value a handler returns: the `Reply` of event.go, an error that carries a code
      (wserror.WSError), or any other error. */
  datatype Failure =
    | Reply(body: Bytes)
    | Coded(code: int, text: Bytes)
    | Plain(text: Bytes)

  datatype Message = Message(
    wait: Bytes,
    namespace: Bytes,
    room: Bytes,
    event: Bytes,
    body: Bytes,
    err: Option<Failure>,
    noOp: bool,
    invalid: bool,
    fromExplicit: Bytes,
    fromExchange: bool,
    native: bool,
    binary: bool)

  const EMPTY := Message([], [], [], [], [], None, false, false, [], false, false, false)

  const NAMESPACE_CONNECT: Bytes := "_OnNamespaceConnect"
  const NAMESPACE_CONNECTED: Bytes := "_OnNamespaceConnected"
  const NAMESPACE_DISCONNECT: Bytes := "_OnNamespaceDisconnect"
  const ANY_EVENT: Bytes := "_OnAnyEvent"
  const NATIVE_MESSAGE: Bytes := "_OnNativeMessage"
  const PARTY_EVENTS: set<Bytes> := {
    "_OnPartyCreate", "_OnPartyJoin", "_OnPartyLeave", "_OnPartyInvite", "_OnPartyReplyInvitation"}
  const ROOM_EVENTS: set<Bytes> := {"_OnRoomJoin", "_OnRoomLeave"}

  const FIELDS := 7
  const DEFAULT_CODE := -99
  const TRUE_FIELD: Bytes := "1"
  const FALSE_FIELD: Bytes := "0"

  // ---- wait tokens ----

  const CONFIRMATION_PREFIX := '#'
  const CLIENT_PREFIX := '$'
  const EXCHANGE_MARK := '!'
  const SERVER_ID_PREFIX: Bytes := "neffos(0x"

  predicate IsServerConnID(s: Bytes) {
    SERVER_ID_PREFIX <= s
  }

  predicate ExchangeMarked(wait: Bytes) {
    |wait| > 2 && wait[1] == EXCHANGE_MARK
  }

  /** A token the decoder hands on as it stands. */
  predicate PlainToken(wait: Bytes) {
    SEPARATOR !in wait && !IsServerConnID(wait) && !ExchangeMarked(wait)
  }

  /** `genWait`, with the clock reading as a parameter. */
  function GenWait(isClient: bool, now: int): (wait: Bytes)
    ensures wait != [] && PlainToken(wait)
    ensures isClient <==> wait[0] == CLIENT_PREFIX
  {
    assert SERVER_ID_PREFIX[0] == 'n';
    (if isClient then [CLIENT_PREFIX] else []) + FormatInt(now)
  }

  predicate IsWait(wait: Bytes, isClient: bool) {
    if wait == [] then false
    else if wait[0] == CONFIRMATION_PREFIX then true
    else if wait[0] == CLIENT_PREFIX then isClient
    else true
  }

  /** Two generated tokens are the same exactly when one side generated both from the same clock reading. */
  lemma GenWaitInjective(c: bool, m: int, d: bool, n: int)
    ensures GenWait(c, m) == GenWait(d, n) <==> c == d && m == n
  {
    if GenWait(c, m) == GenWait(d, n) {
      if c {
        assert GenWait(c, m)[1..] == FormatInt(m) && GenWait(d, n)[1..] == FormatInt(n);
      } else {
        assert GenWait(c, m) == FormatInt(m) && GenWait(d, n) == FormatInt(n);
      }
      FormatInjective(m, n);
    }
  }

  /** The clock reading can be read back from a token. */
  lemma GenWaitReadsBack(isClient: bool, now: int)
    ensures var wait := GenWait(isClient, now); ParseInt(if isClient then wait[1..] else wait) == now
  {
    FormatRoundTrip(now);
    assert (if isClient then GenWait(isClient, now)[1..] else GenWait(isClient, now)) == FormatInt(now);
  }

  /** A side looks for a waiting ask under every token but one the other role may have made: only a server leaves
      out the client's. */
  lemma ReplyTokens(made: bool, now: int, isClient: bool)
    ensures IsWait(GenWait(made, now), isClient) <==> made ==> isClient
    ensures !IsWait([], isClient) && IsWait([CONFIRMATION_PREFIX] + GenWait(made, now), isClient)
  {
    assert ([CONFIRMATION_PREFIX] + GenWait(made, now))[0] == CONFIRMATION_PREFIX;
    assert FormatInt(now)[0] != CONFIRMATION_PREFIX;
  }

  // ---- encoding ----

  /** `wserror.Error(err).Bytes()`: the decimal error code. */
  function ErrorText(e: Failure): (text: Bytes)
    ensures text != []
  {
    FormatInt(if e.Coded? then e.code else DEFAULT_CODE)
  }

  function SerializeOutput(wait: Bytes, namespace: Bytes, room: Bytes, event: Bytes,
                           body: Bytes, err: Option<Failure>, noOp: bool): Bytes
  {
    Join(Fields(wait, namespace, room, event, body, err, noOp), SEPARATOR)
  }

  function Fields(wait: Bytes, namespace: Bytes, room: Bytes, event: Bytes,
                  body: Bytes, err: Option<Failure>, noOp: bool): seq<Bytes>
  {
    var failed := err.Some? && !err.value.Reply?;
    var content := if err.None? then body else if err.value.Reply? then err.value.body else ErrorText(err.value);
    [wait, namespace, room, event, Flag(failed), Flag(noOp), content]
  }

  function Flag(b: bool): Bytes {
    if b then TRUE_FIELD else FALSE_FIELD
  }

  /** `serializeMessage`; a message with both a token and an explicit sender makes the source panic. */
  function SerializeMessage(m: Message): Bytes
    requires m.wait == [] || m.fromExplicit == []
  {
    if m.native && m.wait == [] then m.body
    else
      SerializeOutput(if m.fromExplicit != [] then m.fromExplicit else m.wait,
                      Escape(m.namespace), Escape(m.room), Escape(m.event), m.body, m.err, m.noOp)
  }

  /** `genEmptyReplyToWait`. */
  function EmptyReply(wait: Bytes): Bytes {
    wait + Separators(FIELDS - 1)
  }

  function Separators(n: nat): Bytes {
    if n == 0 then [] else [SEPARATOR] + Separators(n - 1)
  }

  // ---- decoding ----

  datatype Input = Input(wait: Bytes, namespace: Bytes, room: Bytes, event: Bytes,
                         body: Bytes, err: Option<Failure>, noOp: bool, invalid: bool)

  const NO_INPUT := Input([], [], [], [], [], None, false, false)

  function DeserializeInput(b: Bytes, allowNative: bool, onlyNative: bool): Input {
    if b == [] then NO_INPUT.(invalid := true)
    else if onlyNative then NO_INPUT.(event := NATIVE_MESSAGE, body := b)
    else
      var dts := SplitN(b, SEPARATOR, FIELDS);
      if |dts| != FIELDS then
        if !allowNative then NO_INPUT.(invalid := true)
        else NO_INPUT.(event := NATIVE_MESSAGE, body := b)
      else
        var failed := dts[4] == TRUE_FIELD;
        Input(dts[0], dts[1], dts[2], dts[3],
              if failed then [] else dts[6],
              if failed && dts[6] != [] then Some(Plain(dts[6])) else None,
              dts[5] == TRUE_FIELD, false)
  }

  function DeserializeMessage(binary: bool, b: Bytes, allowNative: bool, onlyNative: bool): Message {
    FromInput(DeserializeInput(b, allowNative, onlyNative), binary, allowNative)
  }

  function FromInput(i: Input, binary: bool, allowNative: bool): Message {
    var explicit := if IsServerConnID(i.wait) then i.wait else [];
    var wait := if IsServerConnID(i.wait) then [] else i.wait;
    var marked := ExchangeMarked(wait);
    Message(if marked then [wait[0]] + wait[2..] else wait,
            Unescape(i.namespace), Unescape(i.room), Unescape(i.event),
            i.body, i.err, i.noOp, i.invalid, explicit, marked,
            allowNative && i.event == NATIVE_MESSAGE, binary)
  }

  // ---- proofs ----

  lemma DecodeFields(fields: seq<Bytes>, allowNative: bool)
    requires |fields| == FIELDS && forall i | 0 <= i < FIELDS - 1 :: SEPARATOR !in fields[i]
    ensures DeserializeInput(Join(fields, SEPARATOR), allowNative, false)
         == Input(fields[0], fields[1], fields[2], fields[3],
                  if fields[4] == TRUE_FIELD then [] else fields[6],
                  if fields[4] == TRUE_FIELD && fields[6] != [] then Some(Plain(fields[6])) else None,
                  fields[5] == TRUE_FIELD, false)
  {
    SplitNJoin(fields, SEPARATOR);
    JoinNonEmpty(fields);
  }

  lemma JoinNonEmpty(fields: seq<Bytes>)
    requires |fields| > 1
    ensures Join(fields, SEPARATOR) != []
  {
  }

  /** What decoding an encoded message gives, field by field, for every separator-free first field. */
  lemma DecodeOutput(wait: Bytes, namespace: Bytes, room: Bytes, event: Bytes,
                     body: Bytes, err: Option<Failure>, noOp: bool, allowNative: bool)
    requires SEPARATOR !in wait && SEPARATOR !in namespace && SEPARATOR !in room && SEPARATOR !in event
    ensures DeserializeInput(SerializeOutput(wait, namespace, room, event, body, err, noOp), allowNative, false)
         == Input(wait, namespace, room, event,
                  if err.None? then body else if err.value.Reply? then err.value.body else [],
                  if err.None? || err.value.Reply? then None else Some(Plain(ErrorText(err.value))),
                  noOp, false)
  {
    assert TRUE_FIELD[0] != FALSE_FIELD[0];
    DecodeFields(Fields(wait, namespace, room, event, body, err, noOp), allowNative);
  }

  /** The message a receiver is expected to see for `m`. */
  function Received(m: Message, binary: bool, allowNative: bool): Message {
    Message(m.wait, Unescape(Escape(m.namespace)), Unescape(Escape(m.room)), Unescape(Escape(m.event)),
            if m.err.None? then m.body else if m.err.value.Reply? then m.err.value.body else [],
            if m.err.None? || m.err.value.Reply? then None else Some(Plain(ErrorText(m.err.value))),
            m.noOp, false, m.fromExplicit, false, allowNative && m.event == NATIVE_MESSAGE, binary)
  }

  lemma {:induction false} EscapeIdentity(s: Bytes)
    requires SEPARATOR !in s
    ensures Escape(s) == s
  {
    EscapeCopies(s, |s|);
    assert s[..|s|] == s && Escape(s[|s|..]) == [];
  }

  lemma {:induction false} EscapeMarks(s: Bytes)
    ensures REPLACEMENT[0] !in Escape(s) ==> SEPARATOR !in s
  {
    if s != [] {
      EscapeMarks(s[1..]);
      if s[0] == SEPARATOR {
        assert Escape(s)[0] == REPLACEMENT[0];
      } else {
        assert Escape(s) == [s[0]] + Escape(s[1..]);
      }
    }
  }

  lemma EscapedNativeEvent(event: Bytes)
    ensures Escape(event) == NATIVE_MESSAGE <==> event == NATIVE_MESSAGE
  {
    assert forall i | 0 <= i < |NATIVE_MESSAGE| :: NATIVE_MESSAGE[i] != SEPARATOR;
    EscapeIdentity(NATIVE_MESSAGE);
    if Escape(event) == NATIVE_MESSAGE {
      assert forall i | 0 <= i < |NATIVE_MESSAGE| :: NATIVE_MESSAGE[i] != REPLACEMENT[0];
      EscapeMarks(event);
      EscapeIdentity(event);
    }
  }

  /** Decoding an encoded message: the token or the explicit sender, the flag, the body and the error always
      arrive; the three text fields arrive through the escaping. */
  lemma DecodeSerialized(m: Message, binary: bool, allowNative: bool)
    requires m.wait == [] || m.fromExplicit == []
    requires !(m.native && m.wait == [])
    requires PlainToken(m.wait)
    requires m.fromExplicit == [] || (SEPARATOR !in m.fromExplicit && IsServerConnID(m.fromExplicit))
    ensures DeserializeMessage(binary, SerializeMessage(m), allowNative, false) == Received(m, binary, allowNative)
  {
    EscapeHasNoSeparator(m.namespace);
    EscapeHasNoSeparator(m.room);
    EscapeHasNoSeparator(m.event);
    EscapedNativeEvent(m.event);
    DecodeOutput(if m.fromExplicit != [] then m.fromExplicit else m.wait,
                 Escape(m.namespace), Escape(m.room), Escape(m.event), m.body, m.err, m.noOp, allowNative);
  }

  /** The full round trip. A message without error comes back field for field exactly when its namespace,
      room and event are escape-safe; it is never invalid. */
  lemma RoundTrip(m: Message, allowNative: bool)
    requires m.wait == [] || m.fromExplicit == []
    requires !(m.native && m.wait == [])
    requires PlainToken(m.wait)
    requires m.fromExplicit == [] || (SEPARATOR !in m.fromExplicit && IsServerConnID(m.fromExplicit))
    requires m.err.None? && !m.invalid && !m.fromExchange
    requires m.native == (allowNative && m.event == NATIVE_MESSAGE)
    ensures var d := DeserializeMessage(m.binary, SerializeMessage(m), allowNative, false);
            && !d.invalid
            && d.wait == m.wait && d.fromExplicit == m.fromExplicit && d.body == m.body && d.noOp == m.noOp
            && (d == m <==> EscapeSafe(m.namespace) && EscapeSafe(m.room) && EscapeSafe(m.event))
  {
    DecodeSerialized(m, m.binary, allowNative);
    UnescapeEscape(m.namespace);
    UnescapeEscape(m.room);
    UnescapeEscape(m.event);
  }

  /** The wire format, byte for byte: seven fields in a fixed order, the error and no-op flags as digits, and in the
      last field the body, the body of a `Reply` or the decimal error code. */
  lemma WireFormat(m: Message)
    requires m.wait == [] || m.fromExplicit == []
    requires !(m.native && m.wait == [])
    ensures SerializeMessage(m)
         == (if m.fromExplicit != [] then m.fromExplicit else m.wait) + ";" + Escape(m.namespace) + ";" + Escape(m.room)
            + ";" + Escape(m.event) + ";" + (if m.err.Some? && !m.err.value.Reply? then "1" else "0")
            + ";" + (if m.noOp then "1" else "0") + ";"
            + match m.err
              case None => m.body
              case Some(Reply(b)) => b
              case Some(Coded(code, _)) => FormatInt(code)
              case Some(Plain(_)) => FormatInt(-99)
  {
    var f := Fields(if m.fromExplicit != [] then m.fromExplicit else m.wait,
                    Escape(m.namespace), Escape(m.room), Escape(m.event), m.body, m.err, m.noOp);
    JoinSeven(f[0], f[1], f[2], f[3], f[4], f[5], f[6]);
  }

  lemma JoinSeven(a: Bytes, b: Bytes, c: Bytes, d: Bytes, e: Bytes, f: Bytes, g: Bytes)
    ensures Join([a, b, c, d, e, f, g], SEPARATOR) == a + ";" + b + ";" + c + ";" + d + ";" + e + ";" + f + ";" + g
  {
    JoinTail(a, [b, c, d, e, f, g]);
    JoinTail(b, [c, d, e, f, g]);
    JoinTail(c, [d, e, f, g]);
    JoinFour(d, e, f, g);
    Chain(a, b, c, d + ";" + e + ";" + f + ";" + g);
    assert a + ";" + b + ";" + c + ";" + (d + ";" + e + ";" + f + ";" + g)
        == a + ";" + b + ";" + c + ";" + d + ";" + e + ";" + f + ";" + g;
  }

  lemma JoinFour(d: Bytes, e: Bytes, f: Bytes, g: Bytes)
    ensures Join([d, e, f, g], SEPARATOR) == d + ";" + e + ";" + f + ";" + g
  {
    JoinTail(d, [e, f, g]);
    JoinTail(e, [f, g]);
    JoinTail(f, [g]);
    Chain(d, e, f, g);
  }

  lemma Chain(a: Bytes, b: Bytes, c: Bytes, rest: Bytes)
    ensures a + ";" + (b + ";" + (c + ";" + rest)) == a + ";" + b + ";" + c + ";" + rest
  {
  }

  lemma JoinTail(x: Bytes, rest: seq<Bytes>)
    requires rest != []
    ensures Join([x] + rest, SEPARATOR) == x + ";" + Join(rest, SEPARATOR)
  {
    assert ([x] + rest)[1..] == rest;
  }

  /** A token whose second byte is the exchange mark is decoded without the mark, and the message as coming from the
      exchange; without the mark it is not. */
  lemma MarkedToken(first: char, rest: Bytes, m: Message, binary: bool, allowNative: bool)
    requires rest != [] && SEPARATOR !in rest && first != SEPARATOR && !IsServerConnID([first, EXCHANGE_MARK] + rest)
    requires m.fromExplicit == [] && m.wait == [first, EXCHANGE_MARK] + rest
    ensures DeserializeMessage(binary, SerializeMessage(m), allowNative, false)
         == Received(m, binary, allowNative).(wait := [first] + rest, fromExchange := true)
  {
    EscapeHasNoSeparator(m.namespace);
    EscapeHasNoSeparator(m.room);
    EscapeHasNoSeparator(m.event);
    EscapedNativeEvent(m.event);
    assert EXCHANGE_MARK != SEPARATOR && SEPARATOR !in [first, EXCHANGE_MARK];
    DecodeOutput(m.wait, Escape(m.namespace), Escape(m.room), Escape(m.event), m.body, m.err, m.noOp, allowNative);
    var i := DeserializeInput(SerializeMessage(m), allowNative, false);
    FromMarked(i, first, rest, binary, allowNative);
  }

  lemma FromMarked(i: Input, first: char, rest: Bytes, binary: bool, allowNative: bool)
    requires rest != [] && i.wait == [first, EXCHANGE_MARK] + rest && !IsServerConnID(i.wait)
    ensures FromInput(i, binary, allowNative)
         == Message([first] + rest, Unescape(i.namespace), Unescape(i.room), Unescape(i.event), i.body, i.err, i.noOp,
                    i.invalid, [], true, allowNative && i.event == NATIVE_MESSAGE, binary)
  {
    assert i.wait[2..] == rest;
  }

  /** A name without `;` and `@`, such as every system event's, is decoded only from itself. */
  lemma SystemNameSurvives(s: Bytes, name: Bytes)
    requires SEPARATOR !in name && REPLACEMENT[0] !in name
    ensures Unescape(Escape(s)) == name <==> s == name
  {
    UnescapeEscape(s);
    if s == name {
      assert REPLACEMENT[0] == CLASHING[0] == '@';
      assert EscapeSafe(s);
    }
  }

  lemma {:induction false} SeparatorsJoin(n: nat)
    ensures Separators(n) == Join(seq(n + 1, i => []), SEPARATOR)
  {
    var fields: seq<Bytes> := seq(n + 1, i => []);
    if n > 0 {
      SeparatorsJoin(n - 1);
      assert fields[1..] == seq(n, i => []);
    }
  }

  lemma EmptyReplyFields(wait: Bytes) returns (fields: seq<Bytes>)
    ensures |fields| == FIELDS && fields[0] == wait && forall i | 0 < i < FIELDS :: fields[i] == []
    ensures EmptyReply(wait) == Join(fields, SEPARATOR)
  {
    var rest: seq<Bytes> := seq(FIELDS - 1, i => []);
    fields := [wait] + rest;
    SeparatorsJoin(FIELDS - 2);
    assert fields[1..] == rest;
  }

  lemma EmptyReplyInput(wait: Bytes, allowNative: bool)
    requires SEPARATOR !in wait
    ensures DeserializeInput(EmptyReply(wait), allowNative, false) == NO_INPUT.(wait := wait)
  {
    var fields := EmptyReplyFields(wait);
    DecodeFields(fields, allowNative);
  }

  lemma EmptyReplyBytesDiffer(wait: Bytes)
    requires SEPARATOR !in wait
    ensures EmptyReply(wait) != SerializeOutput(wait, [], [], [], [], None, false)
  {
    var fields := EmptyReplyFields(wait);
    var full := Fields(wait, [], [], [], [], None, false);
    assert fields[4] == [] && full[4] == FALSE_FIELD;
    if EmptyReply(wait) == Join(full, SEPARATOR) { JoinInjective(fields, full, SEPARATOR); }
  }

  /** The byte-level shortcut decodes to the message the full encoding of an otherwise empty message decodes
      to, although the bytes differ. */
  lemma EmptyReplyRefinesEncoder(wait: Bytes, binary: bool, allowNative: bool)
    requires SEPARATOR !in wait
    ensures DeserializeMessage(binary, EmptyReply(wait), allowNative, false)
         == DeserializeMessage(binary, SerializeOutput(wait, [], [], [], [], None, false), allowNative, false)
    ensures EmptyReply(wait) != SerializeOutput(wait, [], [], [], [], None, false)
  {
    EmptyReplyInput(wait, allowNative);
    DecodeOutput(wait, [], [], [], [], None, false, allowNative);
    EmptyReplyBytesDiffer(wait);
  }

  lemma DecodeEmptyReply(wait: Bytes, binary: bool, allowNative: bool)
    requires PlainToken(wait)
    ensures DeserializeMessage(binary, EmptyReply(wait), allowNative, false) == EMPTY.(wait := wait, binary := binary)
  {
    EmptyReplyInput(wait, allowNative);
  }

  /** Every payload is invalid, a raw native message or a structured message, and which one depends only on
      its length, its separators and the connection's mode. */
  lemma PayloadKinds(b: Bytes, binary: bool, allowNative: bool, onlyNative: bool)
    ensures var d := DeserializeMessage(binary, b, allowNative, onlyNative);
            var structured := b != [] && !onlyNative && Count(b, SEPARATOR) >= FIELDS - 1;
            var raw := b != [] && (onlyNative || (allowNative && Count(b, SEPARATOR) < FIELDS - 1));
            && (d.invalid <==> !structured && !raw)
            && !(structured && raw)
            && (d.invalid ==> d == EMPTY.(invalid := true, binary := binary))
            && (raw ==> d == EMPTY.(event := NATIVE_MESSAGE, body := b, native := allowNative, binary := binary))
            && (structured ==> |d.body| < |b|)
  {
    assert Unescape([]) == [];
    NativeEventUnescaped();
    if b != [] && !onlyNative {
      SplitNCount(b, SEPARATOR, FIELDS);
      SplitNLastShorter(b, SEPARATOR, FIELDS);
    }
  }

  lemma NativeEventUnescaped()
    ensures Unescape(NATIVE_MESSAGE) == NATIVE_MESSAGE
  {
    assert forall i | 0 <= i < |NATIVE_MESSAGE| :: NATIVE_MESSAGE[i] != SEPARATOR && NATIVE_MESSAGE[i] != '@';
    EscapeIdentity(NATIVE_MESSAGE);
    UnescapeEscape(NATIVE_MESSAGE);
    assert EscapeSafe(NATIVE_MESSAGE) by {
      assert REPLACEMENT[0] == '@' && CLASHING[0] == '@';
    }
  }

  /** A natively sent body comes back unchanged as a native message exactly when it is not empty and the
      connection is native-only or the body has fewer than six separators. */
  lemma NativeRecovery(m: Message, onlyNative: bool)
    requires m.native && m.wait == []
    ensures var d := DeserializeMessage(m.binary, SerializeMessage(m), true, onlyNative);
            (!d.invalid && d.native && d.body == m.body)
            <==> m.body != [] && (onlyNative || Count(m.body, SEPARATOR) < FIELDS - 1)
  {
    PayloadKinds(m.body, m.binary, true, onlyNative);
  }

  // ---- control bytes ----

  const ACK := 'M'
  const ACK_ID := 'A'
  const ACK_NOT_OK := 'H'

  predicate IsAckByte(c: char) {
    c == ACK || c == ACK_ID || c == ACK_NOT_OK
  }

  /** No encoded message, and no empty reply, that carries a generated token, a server id or no token can be
      taken for a handshake frame. */
  lemma EncodedIsNoControl(m: Message, isClient: bool, now: int)
    requires m.wait == [] || m.fromExplicit == []
    requires !(m.native && m.wait == [])
    requires m.wait == [] || m.wait == GenWait(isClient, now)
    requires m.fromExplicit == [] || IsServerConnID(m.fromExplicit)
    ensures SerializeMessage(m) != [] && !IsAckByte(SerializeMessage(m)[0])
    ensures EmptyReply(m.wait) != [] && !IsAckByte(EmptyReply(m.wait)[0])
  {
    var first := if m.fromExplicit != [] then m.fromExplicit else m.wait;
    assert first == [] || first[0] == SERVER_ID_PREFIX[0] || first[0] == GenWait(isClient, now)[0];
    assert SerializeMessage(m)[0] == if first == [] then SEPARATOR else first[0];
  }
}
