/** The output side of common.c: a message is encoded twice, first without a buffer to measure it and then
    into a buffer that is kept and grown between messages, and the bytes go to the port. */
module PortWriter {
  import opened BoundedInts
  import opened FrameMessage
  import opened TermFormat
  import opened Wrappers

  /** `i` is where the cursor is after the tokens `ts`, and a buffer that is given holds their bytes. */
  ghost predicate At(limit: Limit, buf: array?<byte>, i: nat, ts: seq<Token>)
    reads if buf == null then {} else {buf}
  {
    && i == |Bytes(limit, ts)|
    && (buf != null ==> i <= buf.Length && buf[..i] == Bytes(limit, ts))
  }

  ghost predicate Room(limit: Limit, buf: array?<byte>, all: seq<Token>) {
    buf != null ==> |Bytes(limit, all)| <= buf.Length
  }

  method PutBytes(buf: array<byte>, i: nat, bytes: seq<byte>)
    requires i + |bytes| <= buf.Length
    modifies buf
    ensures buf[..i + |bytes|] == old(buf[..i]) + bytes
  {
    forall j | 0 <= j < |bytes| {
      buf[i + j] := bytes[j];
    }
  }

  lemma NextToken(limit: Limit, before: seq<Token>, ts: seq<Token>, k: nat)
    requires k < |ts|
    ensures Bytes(limit, before + ts[..k + 1]) == Bytes(limit, before + ts[..k]) + TokenBytes(limit, ts[k])
    ensures |Bytes(limit, before + ts[..k + 1])| <= |Bytes(limit, before + ts)|
  {
    assert before + ts[..k + 1] == (before + ts[..k]) + [ts[k]];
    assert before + ts == (before + ts[..k + 1]) + ts[k + 1..];
    BytesSnoc(limit, before + ts[..k], ts[k]);
    BytesConcat(limit, before + ts[..k + 1], ts[k + 1..]);
  }

  /** A run of ei_encode calls, `ts`, after the calls `before`. */
  method Encode(limit: Limit, buf: array?<byte>, start: nat, ts: seq<Token>, ghost before: seq<Token>) returns (i: nat)
    requires At(limit, buf, start, before) && Room(limit, buf, before + ts)
    modifies if buf == null then {} else {buf}
    ensures At(limit, buf, i, before + ts)
  {
    i := start;
    assert before + ts[..0] == before;
    for k := 0 to |ts|
      invariant At(limit, buf, i, before + ts[..k])
    {
      NextToken(limit, before, ts, k);
      var bytes := TokenBytes(limit, ts[k]);
      if buf != null {
        PutBytes(buf, i, bytes);
      }
      i := i + |bytes|;
    }
    assert ts[..|ts|] == ts;
  }

  /** encode_frame. With and without a buffer, the result is the length of the message; a buffer also
      receives the message. */
  method EncodeFrame(limit: Limit, buf: array?<byte>, f: Frame) returns (i: nat)
    requires Room(limit, buf, FrameTokens(f))
    modifies if buf == null then {} else {buf}
    ensures At(limit, buf, i, FrameTokens(f))
  {
    BytesConcat(limit, BodyTokens(f), HeaderTokens(f.metadata));
    assert [] + BodyTokens(f) == BodyTokens(f);
    i := Encode(limit, buf, 0, BodyTokens(f), []);
    i := Encode(limit, buf, i, HeaderTokens(f.metadata), BodyTokens(f));
  }

  /** encode_done: an atom by itself. */
  function DoneTokens(name: string): seq<Token> {
    [VersionToken, AtomToken(Ascii(name))]
  }

  method EncodeDone(limit: Limit, buf: array?<byte>, name: string) returns (i: nat)
    requires Room(limit, buf, DoneTokens(name))
    modifies if buf == null then {} else {buf}
    ensures At(limit, buf, i, DoneTokens(name))
  {
    assert [] + DoneTokens(name) == DoneTokens(name);
    i := Encode(limit, buf, 0, DoneTokens(name), []);
  }

  /** A function's static output_buffer and buffer_size. */
  class StaticBuffer {
    var buffer: array?<byte>
    var size: nat

    ghost predicate Valid()
      reads this
    {
      size == if buffer == null then 0 else buffer.Length
    }

    constructor ()
      ensures Valid() && buffer == null
    {
      buffer, size := null, 0;
    }

    // resize_buffer
    method Resize(required: nat)
      requires Valid()
      modifies this
      ensures Valid() && if required > old(size) then fresh(buffer) else buffer == old(buffer)
      ensures size == if required > old(size) then required else old(size)
    {
      if required > size {
        buffer := new byte[required];
        size := required;
      }
    }
  }

  class PortWriter {
    const limit: Limit
    const frames: StaticBuffer        // write_frame's
    const dones: StaticBuffer         // write_done's
    var port: seq<seq<byte>>          // the messages written, one after the other

    ghost predicate Valid()
      reads this, frames, dones
    {
      frames != dones && frames.Valid() && dones.Valid() && (frames.buffer == null || frames.buffer != dones.buffer)
    }

    constructor (limit: Limit)
      ensures Valid() && port == [] && this.limit == limit
    {
      this.limit := limit;
      frames := new StaticBuffer();
      dones := new StaticBuffer();
      port := [];
    }

    // write_frame: the port gets the bytes of the message and nothing left over from longer ones
    method WriteFrame(f: Frame)
      requires Valid() && FrameFits(f)
      modifies this, frames, if frames.buffer == null then {} else {frames.buffer}
      ensures Valid() && port == old(port) + [Bytes(limit, FrameTokens(f))]
      ensures IsFrameMessage(port[|old(port)|], f)
      ensures var required := |Bytes(limit, FrameTokens(f))|;
              frames.size == if required > old(frames.size) then required else old(frames.size)
      ensures frames.buffer == old(frames.buffer) || fresh(frames.buffer)
    {
      var required := EncodeFrame(limit, null, f);
      frames.Resize(required);
      FrameIsReadBack(limit, f);
      var written := EncodeFrame(limit, frames.buffer, f);
      assert written == required;
      port := port + [frames.buffer[..required]];
    }

    // write_done
    method WriteDone(name: string)
      requires Valid() && |name| < 256
      modifies this, dones, if dones.buffer == null then {} else {dones.buffer}
      ensures Valid() && port == old(port) + [Bytes(limit, DoneTokens(name))]
      ensures IsMessage(port[|old(port)|]) && (Narrow(name) ==> IsDoneMessage(port[|old(port)|], name))
      ensures var required := |Bytes(limit, DoneTokens(name))|;
              dones.size == if required > old(dones.size) then required else old(dones.size)
    {
      var required := EncodeDone(limit, null, name);
      dones.Resize(required);
      DoneRoundTrip(limit, name);
      var written := EncodeDone(limit, dones.buffer, name);
      assert written == required;
      port := port + [dones.buffer[..required]];
    }
  }

  lemma DoneRoundTrip(limit: Limit, name: string)
    requires |name| < 256
    ensures var message := Bytes(limit, DoneTokens(name));
            && IsMessage(message) && Content(message) == Atom(Ascii(name))
            && (Narrow(name) ==> IsDoneMessage(message, name))
  {
    var t := Atom(Ascii(name));
    if Narrow(name) {
      AsciiSpells(name);
    }
    BytesConcat(limit, [VersionToken], [AtomToken(Ascii(name))]);
    SingleBytes(limit, VersionToken);
    TermBytes(limit, t);
    RoundTrip(limit, t, []);
    assert DoneTokens(name) == [VersionToken] + TermTokens(t);
    assert Bytes(limit, DoneTokens(name))[1..] == EncodeTerm(limit, t);
    assert EncodeTerm(limit, t) + [] == EncodeTerm(limit, t);
  }

  /** The two completion messages, byte by byte. */
  lemma DoneBytes(limit: Limit)
    ensures Bytes(limit, DoneTokens("frame_done"))
         == [131, 100, 0, 10] + [102, 114, 97, 109, 101, 95, 100, 111, 110, 101]
    ensures Bytes(limit, DoneTokens("flush_done"))
         == [131, 100, 0, 10] + [102, 108, 117, 115, 104, 95, 100, 111, 110, 101]
  {
    assert Ascii("frame_done") == [102, 114, 97, 109, 101, 95, 100, 111, 110, 101];
    assert Ascii("flush_done") == [102, 108, 117, 115, 104, 95, 100, 111, 110, 101];
    AtomBytes(limit, "frame_done");
    AtomBytes(limit, "flush_done");
  }

  lemma AtomBytes(limit: Limit, name: string)
    requires |name| == 10
    ensures Bytes(limit, DoneTokens(name)) == [131, 100, 0, 10] + Ascii(name)
  {
    var a := Ascii(name);
    SingleBytes(limit, VersionToken);
    SingleBytes(limit, AtomToken(a));
    BytesConcat(limit, [VersionToken], [AtomToken(a)]);
    assert DoneTokens(name) == [VersionToken] + [AtomToken(a)];
    TwoDigits(10);
    assert [131] + ([100] + [0, 10] + a) == [131, 100, 0, 10] + a;
  }

  lemma TwoDigits(n: nat)
    requires n < 256
    ensures BigEndian(n, 2) == [0, n]
  {
    assert BigEndian(n, 2) == BigEndian(0, 1) + [n];
    assert BigEndian(0, 1) == BigEndian(0, 0) + [0];
  }
}
