/** The reader of a connection before and after the acknowledgement (conn.go: startReader, handleACK,
    handleQueue). The code is the same for both roles. */
module Handshake {
  import opened Text
  import opened Codec

  /** The opcodes of section 5.2 of RFC 6455: 1 text, 2 binary. */
  datatype MessageType = TextMessage | BinaryMessage

  datatype Inbound = Inbound(typ: MessageType, payload: Bytes)

  /** The payloads of one type, in order; empty frames are skipped by the reader. */
  function Payloads(frames: seq<Inbound>, typ: MessageType): seq<Bytes> {
    if frames == [] then []
    else
      (if frames[0].typ == typ && frames[0].payload != [] then [frames[0].payload] else []) + Payloads(frames[1..], typ)
  }

  lemma {:induction false} PayloadsConcat(x: seq<Inbound>, y: seq<Inbound>, typ: MessageType)
    ensures Payloads(x + y, typ) == Payloads(x, typ) + Payloads(y, typ)
  {
    if x == [] {
      assert x + y == y;
    } else {
      assert (x + y)[1..] == x[1..] + y;
      PayloadsConcat(x[1..], y, typ);
    }
  }

  predicate IsControl(f: Inbound) {
    f.payload != [] && IsAckByte(f.payload[0])
  }

  /** The first control frame, if there is one. */
  function ControlIndex(frames: seq<Inbound>): (i: nat)
    ensures i <= |frames| && (i < |frames| ==> IsControl(frames[i]))
    ensures forall j | 0 <= j < i :: !IsControl(frames[j])
  {
    if frames == [] || IsControl(frames[0]) then 0 else 1 + ControlIndex(frames[1..])
  }

  /** What is handled of each type, in order, given the outcome of waiting for readiness and whether the
      acknowledgement could be written: nothing before the first control frame; at an acknowledgement request
      that finds the connection ready, everything held so far and then everything that follows. */
  function Handled(frames: seq<Inbound>, ready: Option<Bytes>, writes: bool, typ: MessageType): seq<Bytes> {
    var i := ControlIndex(frames);
    if i == |frames| then [] else HandledAt(frames, i, ready, writes, typ)
  }

  function HandledAt(frames: seq<Inbound>, i: nat, ready: Option<Bytes>, writes: bool, typ: MessageType): seq<Bytes>
    requires i < |frames| && frames[i].payload != []
  {
    Released(frames[i].payload[0], Payloads(frames[..i], typ), Payloads(frames[i + 1..], typ), ready, writes)
  }

  /** What a control byte lets through of the payloads before and after it. */
  function Released(c: char, before: seq<Bytes>, after: seq<Bytes>, ready: Option<Bytes>, writes: bool): seq<Bytes> {
    if c == ACK then
      if ready.Some? then [] else if writes then before + after else before
    else if c == ACK_ID then after
    else []
  }

  /** What was handled of one type when the frames before i were read and the control frame k among them
      was acknowledged. */
  function HandledUpTo(frames: seq<Inbound>, k: nat, i: nat, typ: MessageType): seq<Bytes>
    requires k < i <= |frames| && frames[k].payload != []
  {
    (if frames[k].payload[0] == ACK then Payloads(frames[..k], typ) else []) + Payloads(frames[k + 1..i], typ)
  }

  /** The control frames a reader with the given id writes. */
  function Answer(frames: seq<Inbound>, ready: Option<Bytes>, writes: bool, id: Bytes): seq<Bytes> {
    var i := ControlIndex(frames);
    if i == |frames| || frames[i].payload[0] != ACK || !writes then []
    else if ready.Some? then [[ACK_NOT_OK] + ready.value]
    else [[ACK_ID] + id]
  }

  /** Whether a control byte acknowledges the connection of the reader that meets it. */
  predicate Acknowledges(c: char, ready: Option<Bytes>) {
    c == ACK_ID || (c == ACK && ready.None?)
  }

  /** What a control frame tells the caller that waits for the handshake: success, or an error text. */
  function Verdict(payload: Bytes): seq<Option<Bytes>> {
    if payload == [] then []
    else if payload[0] == ACK_ID then [None]
    else if payload[0] == ACK_NOT_OK then [Some(payload[1..])]
    else []
  }

  class Reader {
    var acknowledged: bool
    var queue: map<MessageType, seq<Bytes>>
    var id: Bytes
    /** What `HandlePayload` was called with, the control frames written, and the calls of `readiness.unwait`. */
    var handled: seq<Inbound>
    var written: seq<Bytes>
    var unwaits: seq<Option<Bytes>>

    constructor (id: Bytes)
      ensures Fresh() && this.id == id
    {
      acknowledged, queue, handled, written, unwaits, this.id := false, map[], [], [], [], id;
    }

    /** Nothing was read yet. */
    ghost predicate Fresh()
      reads this
    {
      !acknowledged && queue == map[] && handled == [] && written == [] && unwaits == []
    }

    ghost function Queued(typ: MessageType): seq<Bytes>
      reads this
    {
      if typ in queue then queue[typ] else []
    }

    method HandlePayload(typ: MessageType, payload: Bytes)
      requires payload != []
      modifies this`handled
      ensures handled == old(handled) + [Inbound(typ, payload)]
    {
      handled := handled + [Inbound(typ, payload)];
    }

    /** Handles the held payloads of one type, in order. */
    method HandleHeld(typ: MessageType, q: seq<Bytes>)
      requires forall b | b in q :: b != []
      modifies this`handled
      ensures Payloads(handled, typ) == old(Payloads(handled, typ)) + q
      ensures forall t | t != typ :: Payloads(handled, t) == old(Payloads(handled, t))
    {
      for i := 0 to |q|
        invariant Payloads(handled, typ) == old(Payloads(handled, typ)) + q[..i]
        invariant forall t | t != typ :: Payloads(handled, t) == old(Payloads(handled, t))
      {
        ghost var before := handled;
        assert q[i] in q;
        HandlePayload(typ, q[i]);
        forall t: MessageType
          ensures Payloads(handled, t) == Payloads(before, t) + if t == typ then [q[i]] else []
        {
          PayloadsConcat(before, [Inbound(typ, q[i])], t);
          assert Payloads([Inbound(typ, q[i])], t) == if t == typ then [q[i]] else [];
        }
      }
    }

    /** Drains the queue type by type, in any order of types. */
    method HandleQueue()
      requires forall t | t in queue :: forall b | b in queue[t] :: b != []
      modifies this`handled, this`queue
      ensures queue == map[]
      ensures forall t: MessageType :: Payloads(handled, t) == old(Payloads(handled, t) + Queued(t))
    {
      while queue.Keys != {}
        invariant forall t | t in queue :: forall b | b in queue[t] :: b != []
        invariant forall t: MessageType :: Payloads(handled, t) + Queued(t) == old(Payloads(handled, t) + Queued(t))
        decreases queue.Keys
      {
        var typ :| typ in queue.Keys;
        ghost var all := old(Payloads(handled, typ) + Queued(typ));
        assert Payloads(handled, typ) + queue[typ] == all;
        HandleHeld(typ, queue[typ]);
        queue := queue - {typ};
        assert Payloads(handled, typ) == all && Queued(typ) == [];
        assert all + [] == all;
      }
    }

    /** One frame before the acknowledgement. `ready` is what waiting for readiness returns, `writes` whether
        a control frame can be written; the result says whether the reader goes on. */
    method HandleACK(f: Inbound, ready: Option<Bytes>, writes: bool) returns (more: bool)
      requires f.payload != [] && !acknowledged
      requires forall t | t in queue :: forall b | b in queue[t] :: b != []
      modifies this
      ensures forall t | t in queue :: forall b | b in queue[t] :: b != []
      ensures !IsControl(f) ==>
                && more && !acknowledged && handled == old(handled) && written == old(written) && id == old(id)
                && unwaits == old(unwaits)
                && forall t: MessageType :: Queued(t) == old(Queued(t)) + Payloads([f], t)
      ensures IsControl(f) ==>
                && (acknowledged <==> Acknowledges(f.payload[0], ready))
                && unwaits == old(unwaits) + Verdict(f.payload)
                && (more <==> f.payload[0] == ACK_ID || (f.payload[0] == ACK && ready.None? && writes))
                && (forall t: MessageType :: Payloads(handled, t) ==
                      old(Payloads(handled, t)) + if f.payload[0] == ACK && ready.None? then old(Queued(t)) else [])
                && written == old(written) + Answer([f], ready, writes, old(id))
                && id == if f.payload[0] == ACK_ID then f.payload[1..] else old(id)
    {
      var c := f.payload[0];
      if c == ACK {
        if ready.Some? {
          if writes { written := written + [[ACK_NOT_OK] + ready.value]; }
          return false;
        }
        acknowledged := true;
        HandleQueue();
        if writes { written := written + [[ACK_ID] + id]; }
        return writes;
      } else if c == ACK_ID {
        id := f.payload[1..];
        acknowledged := true;
        unwaits := unwaits + [None];
        return true;
      } else if c == ACK_NOT_OK {
        unwaits := unwaits + [Some(f.payload[1..])];
        return false;
      } else {
        queue := queue[f.typ := (if f.typ in queue then queue[f.typ] else []) + [f.payload]];
        more := true;
      }
    }

    /** The state of the reader after the first i frames, if it is still reading. */
    ghost predicate Progress(frames: seq<Inbound>, i: nat, ready: Option<Bytes>, writes: bool)
      requires i <= |frames|
      reads this
    {
      var k := ControlIndex(frames);
      && (forall t | t in queue :: forall b | b in queue[t] :: b != [])
      && (i <= k ==> !acknowledged && handled == [] && forall t: MessageType :: Queued(t) == Payloads(frames[..i], t))
      && (i > k ==>
            && acknowledged && frames[k].payload[0] != ACK_NOT_OK
            && (frames[k].payload[0] == ACK ==> ready.None? && writes)
            && forall t: MessageType :: Payloads(handled, t) == HandledUpTo(frames, k, i, t))
    }

    /** What the reader has written and told its caller after the first i frames, and its id, at first `own`. */
    ghost predicate Answered(frames: seq<Inbound>, i: nat, ready: Option<Bytes>, writes: bool, own: Bytes)
      reads this
    {
      var k := ControlIndex(frames);
      if i <= k || k == |frames| then written == [] && id == own && !acknowledged && unwaits == []
      else
        && (acknowledged <==> Acknowledges(frames[k].payload[0], ready)) && unwaits == Verdict(frames[k].payload)
        && written == Answer(frames, ready, writes, own)
        && id == if frames[k].payload[0] == ACK_ID then frames[k].payload[1..] else own
    }

    /** The body of the reader loop: frame i. */
    method ReadFrame(frames: seq<Inbound>, i: nat, ready: Option<Bytes>, writes: bool, ghost own: Bytes)
      returns (more: bool)
      requires i < |frames| && Progress(frames, i, ready, writes) && Answered(frames, i, ready, writes, own)
      modifies this
      ensures more ==> Progress(frames, i + 1, ready, writes)
      ensures !more ==> ControlIndex(frames) == i
      ensures !more ==> forall t: MessageType :: Payloads(handled, t) == Handled(frames, ready, writes, t)
      ensures Answered(frames, i + 1, ready, writes, own)
    {
      if frames[i].payload == [] {
        SkipKeeps(frames, i, ready, writes);
        more := true;
      } else if !acknowledged {
        more := ReadBeforeAck(frames, i, ready, writes, own);
      } else {
        ReadAfterAck(frames, i, ready, writes);
        more := true;
      }
    }

    lemma SkipKeeps(frames: seq<Inbound>, i: nat, ready: Option<Bytes>, writes: bool)
      requires i < |frames| && Progress(frames, i, ready, writes) && frames[i].payload == []
      ensures Progress(frames, i + 1, ready, writes)
    {
      var k := ControlIndex(frames);
      forall t: MessageType
        ensures Payloads(frames[..i + 1], t) == Payloads(frames[..i], t)
        ensures k < i ==> HandledUpTo(frames, k, i + 1, t) == HandledUpTo(frames, k, i, t)
      {
        PrefixStep(frames, i, t);
        if k < i { HandledStep(frames, k, i, t); }
      }
    }

    method ReadBeforeAck(frames: seq<Inbound>, i: nat, ready: Option<Bytes>, writes: bool, ghost own: Bytes)
      returns (more: bool)
      requires i < |frames| && Progress(frames, i, ready, writes) && frames[i].payload != [] && !acknowledged
      requires Answered(frames, i, ready, writes, own)
      modifies this
      ensures more ==> Progress(frames, i + 1, ready, writes)
      ensures !more ==> ControlIndex(frames) == i
      ensures !more ==> forall t: MessageType :: Payloads(handled, t) == Handled(frames, ready, writes, t)
      ensures Answered(frames, i + 1, ready, writes, own)
    {
      forall t: MessageType
        ensures Payloads(frames[..i + 1], t) == Payloads(frames[..i], t) + Payloads([frames[i]], t)
      {
        PrefixStep(frames, i, t);
      }
      assert frames[i + 1..i + 1] == [];
      more := HandleACK(frames[i], ready, writes);
    }

    method ReadAfterAck(frames: seq<Inbound>, i: nat, ready: Option<Bytes>, writes: bool)
      requires i < |frames| && Progress(frames, i, ready, writes) && frames[i].payload != [] && acknowledged
      modifies this`handled
      ensures Progress(frames, i + 1, ready, writes)
    {
      ghost var k := ControlIndex(frames);
      ghost var before := handled;
      HandlePayload(frames[i].typ, frames[i].payload);
      forall t: MessageType
        ensures Payloads(handled, t) == HandledUpTo(frames, k, i + 1, t)
      {
        HandledStep(frames, k, i, t);
        PayloadsConcat(before, [frames[i]], t);
      }
    }

    /** The whole reader loop over the frames received until the socket fails: for each type the payloads
        handled are exactly those the specification says, each once and in order, and the control frames
        written, the acknowledgement, the caller's verdict and the id are those the first control frame calls for. */
    method StartReader(frames: seq<Inbound>, ready: Option<Bytes>, writes: bool)
      requires Fresh()
      modifies this
      ensures forall t: MessageType :: Payloads(handled, t) == Handled(frames, ready, writes, t)
      ensures Answered(frames, |frames|, ready, writes, old(id))
    {
      StreamStarts(frames, ready, writes);
      var i := 0;
      while i < |frames|
        invariant 0 <= i <= |frames| && Progress(frames, i, ready, writes)
        invariant Answered(frames, i, ready, writes, old(id))
      {
        var more := ReadFrame(frames, i, ready, writes, old(id));
        if !more { return; }
        i := i + 1;
      }
      StreamEnds(frames, ready, writes);
    }

    lemma StreamEnds(frames: seq<Inbound>, ready: Option<Bytes>, writes: bool)
      requires Progress(frames, |frames|, ready, writes)
      ensures forall t: MessageType :: Payloads(handled, t) == Handled(frames, ready, writes, t)
    {
      if ControlIndex(frames) < |frames| {
        forall t: MessageType
          ensures Payloads(handled, t) == Handled(frames, ready, writes, t)
        {
          AllRead(frames, ControlIndex(frames), ready, writes, t);
        }
      }
    }

    lemma StreamStarts(frames: seq<Inbound>, ready: Option<Bytes>, writes: bool)
      requires Fresh()
      ensures Progress(frames, 0, ready, writes) && Answered(frames, 0, ready, writes, id)
    {
      assert frames[..0] == [];
    }
  }

  /** The control frames one side writes, as the other reads them. */
  function Arriving(written: seq<Bytes>): seq<Inbound> {
    seq(|written|, i requires 0 <= i < |written| => Inbound(TextMessage, written[i]))
  }

  /** The handshake of two readers. The server reads what the client sends up to its request and after it; the client
      reads what the server writes and what follows it, which is nothing if the server cannot write. The client ends
      acknowledged, under the server's id, exactly if the server was ready and could answer; it is told the server's
      reason if it was refused; and then both sides have handled everything the other sent, or the client nothing. */
  method Connect(server: Reader, client: Reader, before: seq<Inbound>, request: Inbound, after: seq<Inbound>,
                 later: seq<Inbound>, ready: Option<Bytes>, writes: bool)
    requires server != client && server.Fresh() && client.Fresh()
    requires (forall f | f in before :: !IsControl(f)) && request.payload != [] && request.payload[0] == 'M'
    requires !writes ==> later == []
    modifies server, client
    ensures server.acknowledged <==> ready.None?
    ensures client.acknowledged <==> ready.None? && writes
    ensures server.id == old(server.id)
    ensures client.id == if ready.None? && writes then old(server.id) else old(client.id)
    ensures client.unwaits == if writes then [ready] else []
    ensures server.unwaits == [] && client.written == []
    ensures ready.None? && writes ==>
              forall t: MessageType :: && Payloads(server.handled, t) == Payloads(before, t) + Payloads(after, t)
                                       && Payloads(client.handled, t) == Payloads(later, t)
    ensures ready.Some? ==>
              forall t: MessageType :: Payloads(server.handled, t) == [] && Payloads(client.handled, t) == []
  {
    var frames := before + [request] + after;
    FirstControl(before, request, after);
    server.StartReader(frames, ready, writes);
    var arriving := Arriving(server.written);
    if arriving == [] {
      assert arriving + later == [];
    } else {
      FirstControl([], arriving[0], later);
      assert [] + [arriving[0]] + later == arriving + later;
    }
    client.StartReader(arriving + later, None, true);
  }

  lemma FirstControl(before: seq<Inbound>, f: Inbound, after: seq<Inbound>)
    requires (forall g | g in before :: !IsControl(g)) && IsControl(f)
    ensures var frames := before + [f] + after;
            && ControlIndex(frames) == |before| && frames[|before|] == f
            && frames[..|before|] == before && frames[|before| + 1..] == after
  {
    var frames := before + [f] + after;
    assert frames[|before|] == f;
  }

  /** After the last frame of an acknowledged stream, what was handled is what the specification says. */
  lemma AllRead(frames: seq<Inbound>, k: nat, ready: Option<Bytes>, writes: bool, t: MessageType)
    requires k < |frames| && frames[k].payload != []
    requires frames[k].payload[0] == ACK_ID || (frames[k].payload[0] == ACK && ready.None? && writes)
    ensures HandledUpTo(frames, k, |frames|, t) == HandledAt(frames, k, ready, writes, t)
  {
    assert frames[k + 1..|frames|] == frames[k + 1..];
    ReleasedOn(frames[k].payload[0], Payloads(frames[..k], t), Payloads(frames[k + 1..], t), ready, writes);
  }

  lemma ReleasedOn(c: char, before: seq<Bytes>, after: seq<Bytes>, ready: Option<Bytes>, writes: bool)
    requires c == ACK_ID || (c == ACK && ready.None? && writes)
    ensures Released(c, before, after, ready, writes) == (if c == ACK then before else []) + after
  {
    assert [] + after == after;
  }

  lemma PrefixStep(frames: seq<Inbound>, i: nat, t: MessageType)
    requires i < |frames|
    ensures Payloads(frames[..i + 1], t) == Payloads(frames[..i], t) + Payloads([frames[i]], t)
  {
    assert frames[..i + 1] == frames[..i] + [frames[i]];
    PayloadsConcat(frames[..i], [frames[i]], t);
  }

  lemma HandledStep(frames: seq<Inbound>, k: nat, i: nat, t: MessageType)
    requires k < i < |frames| && frames[k].payload != []
    ensures HandledUpTo(frames, k, i + 1, t) == HandledUpTo(frames, k, i, t) + Payloads([frames[i]], t)
  {
    assert frames[k + 1..i + 1] == frames[k + 1..i] + [frames[i]];
    PayloadsConcat(frames[k + 1..i], [frames[i]], t);
  }

  lemma {:induction false} NothingToHandle(frames: seq<Inbound>)
    ensures AllEmpty(frames) <==> Payloads(frames, TextMessage) == [] && Payloads(frames, BinaryMessage) == []
  {
    if frames != [] {
      NothingToHandle(frames[1..]);
      assert frames == [frames[0]] + frames[1..];
    }
  }

  /** Every non-empty frame other than the control frame is handled, each once and in order within its type. */
  ghost predicate Conserved(frames: seq<Inbound>, ready: Option<Bytes>, writes: bool)
    requires ControlIndex(frames) < |frames|
  {
    forall t: MessageType :: ConservedAt(frames, ControlIndex(frames), ready, writes, t)
  }

  predicate ConservedAt(frames: seq<Inbound>, i: nat, ready: Option<Bytes>, writes: bool, t: MessageType)
    requires i < |frames| && frames[i].payload != []
  {
    HandledAt(frames, i, ready, writes, t) == Payloads(frames[..i], t) + Payloads(frames[i + 1..], t)
  }

  predicate AllEmpty(frames: seq<Inbound>) {
    forall f | f in frames :: f.payload == []
  }

  /** Conservation across the handshake, for every stream with a control frame: everything is handled exactly
      when the first control frame is an acknowledgement request that finds the connection ready and is
      answered or is followed by nothing, or when what it discards is nothing: the held frames at an
      acknowledged id, everything at a refusal. */
  lemma ConservedExactlyWhenReady(frames: seq<Inbound>, ready: Option<Bytes>, writes: bool)
    requires ControlIndex(frames) < |frames|
    ensures Conserved(frames, ready, writes) <==> Complete(frames, ControlIndex(frames), ready, writes)
  {
    var i := ControlIndex(frames);
    if Complete(frames, i, ready, writes) {
      forall t: MessageType
        ensures ConservedAt(frames, i, ready, writes, t)
      {
        CompleteConserves(frames, i, ready, writes, t);
      }
    } else {
      var t := IncompleteLoses(frames, i, ready, writes);
    }
  }

  predicate Complete(frames: seq<Inbound>, i: nat, ready: Option<Bytes>, writes: bool)
    requires i < |frames| && frames[i].payload != []
  {
    var c := frames[i].payload[0];
    if c == ACK && ready.None? then writes || AllEmpty(frames[i + 1..])
    else AllEmpty(frames[..i]) && (c == ACK_ID || AllEmpty(frames[i + 1..]))
  }

  lemma CompleteConserves(frames: seq<Inbound>, i: nat, ready: Option<Bytes>, writes: bool, t: MessageType)
    requires i < |frames| && frames[i].payload != [] && Complete(frames, i, ready, writes)
    ensures ConservedAt(frames, i, ready, writes, t)
  {
    NothingToHandle(frames[..i]);
    NothingToHandle(frames[i + 1..]);
    ReleasedAll(frames[i].payload[0], Payloads(frames[..i], t), Payloads(frames[i + 1..], t), ready, writes);
  }

  lemma ReleasedAll(c: char, before: seq<Bytes>, after: seq<Bytes>, ready: Option<Bytes>, writes: bool)
    ensures Released(c, before, after, ready, writes) == before + after
       <==> if c == ACK && ready.None? then writes || after == [] else before == [] && (c == ACK_ID || after == [])
  {
    assert |before + after| == |before| + |after|;
    if after == [] { assert before + after == before; }
    if before == [] { assert before + after == after; }
  }

  lemma IncompleteLoses(frames: seq<Inbound>, i: nat, ready: Option<Bytes>, writes: bool) returns (t: MessageType)
    requires i < |frames| && frames[i].payload != [] && !Complete(frames, i, ready, writes)
    ensures !ConservedAt(frames, i, ready, writes, t)
  {
    var c := frames[i].payload[0];
    var rest := (c == ACK && ready.None?) || AllEmpty(frames[..i]);
    t := SomethingToHandle(if rest then frames[i + 1..] else frames[..i]);
    ReleasedAll(c, Payloads(frames[..i], t), Payloads(frames[i + 1..], t), ready, writes);
  }

  lemma SomethingToHandle(frames: seq<Inbound>) returns (t: MessageType)
    requires !AllEmpty(frames)
    ensures Payloads(frames, t) != []
  {
    NothingToHandle(frames);
    t := if Payloads(frames, TextMessage) != [] then TextMessage else BinaryMessage;
  }
}
