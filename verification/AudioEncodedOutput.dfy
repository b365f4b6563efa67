/** audio_encoded_output.c: frames of any size are cut into the blocks of exactly `frameSize` samples that
    the encoder wants, through a buffer that grows when it has to, and every block gets a timestamp. A
    sample here is one sample of all channels. */
module AudioEncodedOutput {
  import opened FrameInfoQueue
  import opened Sequences
  import opened Wrappers

  type Sample = int

  datatype Block = Block(samples: seq<Sample>, pts: int)

  // ---------- what the blocks are ----------

  /** The blocks of a stream, and what is left over. */
  function Blocks(stream: seq<Sample>, size: nat): seq<seq<Sample>>
    requires size > 0
    decreases |stream|
  {
    if |stream| < size then [] else [stream[..size]] + Blocks(stream[size..], size)
  }

  function Remainder(stream: seq<Sample>, size: nat): seq<Sample>
    requires size > 0
    decreases |stream|
  {
    if |stream| < size then stream else Remainder(stream[size..], size)
  }

  function SamplesOf(blocks: seq<Block>): seq<Sample> {
    if |blocks| == 0 then [] else SamplesOf(blocks[..|blocks| - 1]) + blocks[|blocks| - 1].samples
  }

  lemma SamplesOfSnoc(blocks: seq<Block>, b: Block)
    ensures SamplesOf(blocks + [b]) == SamplesOf(blocks) + b.samples
  {
    assert (blocks + [b])[..|blocks|] == blocks;
  }

  lemma {:induction false} SamplesOfCons(blocks: seq<Block>)
    requires |blocks| > 0
    ensures SamplesOf(blocks) == blocks[0].samples + SamplesOf(blocks[1..])
  {
    var n := |blocks| - 1;
    if n > 0 {
      SamplesOfCons(blocks[..n]);
      assert blocks[..n][1..] == blocks[1..][..n - 1];
      Associate(blocks[0].samples, SamplesOf(blocks[..n][1..]), blocks[n].samples);
    } else {
      assert blocks[..0] == [] && [] + blocks[0].samples == blocks[0].samples + [];
    }
  }

  ghost predicate AllOfSize(blocks: seq<Block>, size: nat) {
    forall k :: 0 <= k < |blocks| ==> |blocks[k].samples| == size
  }

  /** Blocks of the right size with a short enough rest can be cut from a stream in one way only. */
  lemma {:induction false} CutIsUnique(blocks: seq<Block>, rest: seq<Sample>, size: nat)
    requires size > 0 && |rest| < size && AllOfSize(blocks, size)
    ensures var stream := SamplesOf(blocks) + rest;
            && |Blocks(stream, size)| == |blocks|
            && (forall k :: 0 <= k < |blocks| ==> Blocks(stream, size)[k] == blocks[k].samples)
            && Remainder(stream, size) == rest
    decreases |blocks|
  {
    var stream := SamplesOf(blocks) + rest;
    if |blocks| == 0 {
      assert stream == rest;
    } else {
      SamplesOfCons(blocks);
      CutIsUnique(blocks[1..], rest, size);
      assert stream == blocks[0].samples + (SamplesOf(blocks[1..]) + rest);
      assert stream[..size] == blocks[0].samples && stream[size..] == SamplesOf(blocks[1..]) + rest;
    }
  }

  // ---------- what the timestamps are ----------

  const TICKS: int := 90000

  /** The timestamp of the `k`-th block that one frame completes, when `carry` samples were buffered. */
  function Stamp(pts: int, carry: nat, k: nat, size: nat, rate: nat): int
    requires rate > 0
  {
    pts - TICKS * carry / rate + k * (TICKS * size / rate)
  }

  /** The error of a timestamp against the exact rational time comes from rounding each division down:
      the offset's once, the block length's once per block. Neither product leaves a 32-bit int exactly
      when a block has at most 23860 samples. */
  lemma StampError(pts: int, carry: nat, k: nat, size: nat, rate: nat)
    requires rate > 0 && carry < size
    ensures rate * (Stamp(pts, carry, k, size, rate) - pts) - 90000 * (k * size - carry)
         == (90000 * carry) % rate - k * ((90000 * size) % rate)
    ensures var exact := pts as real + (90000 * (k * size - carry)) as real / rate as real;
            var error := Stamp(pts, carry, k, size, rate) as real - exact;
            if k == 0 then 0.0 <= error < 1.0 else -(k as real) < error < 1.0
    ensures 90000 * carry <= 0x7fff_ffff && 90000 * size <= 0x7fff_ffff <==> size <= 23860
  {
    var a, b := TICKS * carry, TICKS * size;
    var s := Stamp(pts, carry, k, size, rate);
    assert rate * (s - pts) == k * (rate * (b / rate)) - rate * (a / rate);
    assert TICKS * (k * size - carry) == k * b - a;
    assert rate * (b / rate) == b - b % rate && rate * (a / rate) == a - a % rate;
    assert k * (b - b % rate) == k * b - k * (b % rate);
    var x := a % rate - k * (b % rate);
    RemainderBounds(k, b % rate, rate);
    ErrorAsReal(s - pts, k * b - a, x, rate, k);
    assert s as real == pts as real + (s - pts) as real;
  }

  /** The blocks from `first` on carry the timestamps of one frame's blocks. */
  ghost predicate Stamped(blocks: seq<Block>, first: nat, pts: int, carry: nat, size: nat, rate: nat)
    requires rate > 0
  {
    forall k :: first <= k < |blocks| ==> blocks[k].pts == Stamp(pts, carry, k - first, size, rate)
  }

  lemma StampNext(pts: int, carry: nat, k: nat, size: nat, rate: nat)
    requires rate > 0
    ensures Stamp(pts, carry, k + 1, size, rate) == Stamp(pts, carry, k, size, rate) + TICKS * size / rate
  {
  }

  lemma RemainderBounds(k: nat, r: nat, rate: nat)
    requires r < rate
    ensures k > 0 ==> 0 <= k * r <= k * rate - k
  {
    if k > 0 {
      assert k * r <= k * (rate - 1);
    }
  }

  lemma ErrorAsReal(d: int, n: int, x: int, rate: nat, k: nat)
    requires rate > 0 && rate * d - n == x
    requires x < rate && (if k == 0 then 0 <= x else -(k * rate) < x)
    ensures var error := d as real - n as real / rate as real;
            if k == 0 then 0.0 <= error < 1.0 else -(k as real) < error < 1.0
  {
    var r := rate as real;
    var error := d as real - n as real / r;
    assert error * r == d as real * r - n as real;
    assert (rate * d) as real == r * d as real;
    assert error * r == x as real;
    assert (k * rate) as real == k as real * r;
    Cancel(error, 1.0, r);
    Cancel(-(k as real), error, r);
    Cancel(error, 0.0, r);
  }

  lemma Cancel(a: real, b: real, r: real)
    requires r > 0.0
    ensures a * r < b * r <==> a < b
  {
    if a < b {
      assert (b - a) * r > 0.0;
    } else {
      assert (a - b) * r >= 0.0;
    }
  }

  // ---------- the encoder ----------

  // A packet on its way to the port, with the information it is written with.
  datatype Written = Written(packet: int, info: FrameInfo)

  /** Any encoder whose calls succeed: each block it is given may yield a packet, or none. */
  class Encoder {
    var given: seq<Block>
    var yielded: seq<int>             // the packets it has returned

    constructor ()
      ensures given == [] && yielded == []
    {
      given, yielded := [], [];
    }

    // avcodec_encode_audio2
    method Encode(block: Block) returns (packet: Option<int>)
      modifies this
      ensures given == old(given) + [block]
      ensures yielded == old(yielded) + (if packet.Some? then [packet.value] else [])
    {
      given := given + [block];
      packet := None;
      var ready := *;
      if ready {
        var p: int := *;
        packet := Some(p);
        yielded := yielded + [p];
      }
    }
  }

  /** What was written is what the encoder returned, in order, less the first `withheld` packets. */
  ghost predicate WrittenAre(written: seq<Written>, yielded: seq<int>, withheld: nat) {
    && |yielded| == |written| + withheld
    && forall k :: 0 <= k < |written| ==> written[k].packet == yielded[withheld + k]
  }

  lemma WriteNext(written: seq<Written>, yielded: seq<int>, withheld: nat, w: Written)
    requires WrittenAre(written, yielded, withheld)
    ensures WrittenAre(written + [w], yielded + [w.packet], withheld)
  {
  }

  /** The packets from `first` on were written with this information. */
  ghost predicate WrittenWith(written: seq<Written>, first: nat, info: FrameInfo) {
    forall k :: first <= k < |written| ==> written[k].info == info
  }

  // ---------- the filter ----------

  // av_samples_copy: the ranges lie inside the buffers and do not overlap
  method CopySamples(dst: array<Sample>, src: array<Sample>, dstOffset: nat, srcOffset: nat, n: nat)
    requires dstOffset + n <= dst.Length && srcOffset + n <= src.Length
    requires dst == src ==> n == 0 || dstOffset == srcOffset || dstOffset + n <= srcOffset || srcOffset + n <= dstOffset
    modifies dst
    ensures dst[dstOffset..dstOffset + n] == old(src[srcOffset..srcOffset + n])
    ensures dst[..dstOffset] == old(dst[..dstOffset])
    ensures dst[dstOffset + n..] == old(dst[dstOffset + n..])
  {
    forall i | 0 <= i < n {
      dst[dstOffset + i] := src[srcOffset + i];
    }
  }

  class AudioEncodedOutput {
    const frameSize: nat
    const sampleRate: nat
    const usingLibfdk: bool
    var frame: array<Sample>          // the encoder's input frame
    var buffer: array<Sample>         // operating_buffer
    var offset: nat                   // current_sample_offset
    var timestamp: int                // operating_timestamp
    var badFrames: nat                // libfdk_bad_frame_counter
    const encoder: Encoder
    var written: seq<Written>         // the packets written to the port
    ghost var stream: seq<Sample>     // all samples received
    ghost var maxInput: nat           // the longest frame received, or 1

    ghost predicate Objects()
      reads this
    {
      frameSize > 0 && sampleRate > 0 && frame != buffer && frame.Length == frameSize && offset <= buffer.Length
    }

    /** Nothing is lost or reordered, every block has the right size, less than a block is left, and the
        buffer stays small. */
    ghost predicate Valid()
      reads this, buffer, encoder
    {
      && Objects()
      && SamplesOf(encoder.given) + buffer[..offset] == stream
      && AllOfSize(encoder.given, frameSize)
      && offset < frameSize
      && 1 <= maxInput && frameSize <= buffer.Length <= frameSize + 2 * maxInput - 2
      && Counted()
    }

    /** Only libfdk's first two packets are withheld; all others have been written, in order. */
    ghost predicate Counted()
      reads this, encoder
    {
      badFrames == Withheld(|encoder.yielded|) && WrittenAre(written, encoder.yielded, badFrames)
    }

    /** How many of the first `n` packets are not written: of libfdk's, the first two. */
    ghost function Withheld(n: nat): nat {
      if !usingLibfdk then 0 else if n < 2 then n else 2
    }

    // init
    constructor (frameSize: nat, sampleRate: nat, usingLibfdk: bool)
      requires frameSize > 0 && sampleRate > 0
      ensures Valid() && fresh(buffer) && fresh(frame) && fresh(encoder)
      ensures encoder.given == [] && encoder.yielded == [] && written == [] && stream == []
      ensures this.frameSize == frameSize && this.sampleRate == sampleRate && this.usingLibfdk == usingLibfdk
      ensures buffer.Length == frameSize && offset == 0 && maxInput == 1
    {
      this.frameSize, this.sampleRate, this.usingLibfdk := frameSize, sampleRate, usingLibfdk;
      frame := new Sample[frameSize];
      buffer := new Sample[frameSize];
      offset, timestamp, badFrames := 0, 0, 0;
      encoder := new Encoder();
      written := [];
      stream, maxInput := [], 1;
    }

    // resize_buffer
    method ResizeBuffer(n: nat)
      requires Objects()
      modifies this`buffer
      ensures Objects() && if old(buffer.Length) - offset < n then fresh(buffer) else buffer == old(buffer)
      ensures buffer.Length == old(buffer.Length) + (if old(buffer.Length) - offset < n then n else 0)
      ensures buffer[..offset] == old(buffer[..offset])
    {
      if buffer.Length - offset < n {
        var grown := new Sample[buffer.Length + n];
        CopySamples(grown, buffer, 0, 0, offset);
        buffer := grown;
      }
    }

    // copy_frame_to_operating_buffer
    method CopyFrame(data: array<Sample>, n: nat, pts: int)
      requires Objects() && n <= data.Length && data != buffer
      modifies this`buffer, this`timestamp, this`offset, buffer
      ensures Objects() && (buffer == old(buffer) || fresh(buffer))
      ensures buffer.Length == old(buffer.Length) + (if old(buffer.Length) - old(offset) < n then n else 0)
      ensures offset == old(offset) + n
      ensures buffer[..offset] == old(buffer[..offset]) + old(data[..n])
      ensures timestamp == pts - TICKS * old(offset) / sampleRate
    {
      ResizeBuffer(n);
      ghost var kept := buffer[..offset];
      CopySamples(buffer, data, offset, 0, n);
      timestamp := pts - (TICKS * offset / sampleRate);
      assert buffer[..offset + n] == buffer[..offset] + buffer[offset..offset + n];
      offset := offset + n;
    }

    // should_send, for the latest packet: libfdk's first two are withheld, all others are written
    method ShouldSend() returns (send: bool)
      requires |encoder.yielded| > 0 && badFrames == Withheld(|encoder.yielded| - 1)
      modifies this`badFrames
      ensures send <==> !usingLibfdk || |encoder.yielded| > 2
      ensures badFrames == Withheld(|encoder.yielded|)
    {
      if usingLibfdk && badFrames < 2 {
        badFrames := badFrames + 1;
        return false;
      }
      return true;
    }

    // one pass of the encoding loop, for the block that starts at `used`; `info` is the input frame's
    method EncodeBlock(used: nat, info: FrameInfo)
      requires Objects() && used + frameSize <= offset && Counted() && AllOfSize(encoder.given, frameSize)
      modifies this`timestamp, this`written, this`badFrames, frame, encoder
      ensures Objects() && Counted() && AllOfSize(encoder.given, frameSize)
      ensures encoder.given == old(encoder.given) + [Block(buffer[used..used + frameSize], old(timestamp))]
      ensures SamplesOf(encoder.given) + buffer[used + frameSize..offset]
           == SamplesOf(old(encoder.given)) + buffer[used..offset]
      ensures timestamp == old(timestamp) + TICKS * frameSize / sampleRate
      ensures old(encoder.yielded) <= encoder.yielded
      ensures old(written) <= written && WrittenWith(written, |old(written)|, info)
    {
      ghost var block, after := buffer[used..used + frameSize], buffer[used + frameSize..offset];
      assert buffer[used..offset] == block + after;
      CopySamples(frame, buffer, 0, used, frameSize);
      assert frame[..] == frame[0..0 + frameSize] == block;
      assert buffer[used..offset] == block + after;
      SamplesOfSnoc(encoder.given, Block(block, timestamp));
      Associate(SamplesOf(encoder.given), block, after);
      EncodeAndWrite(Block(frame[..], timestamp), info);
      timestamp := timestamp + TICKS * frame.Length / sampleRate;
    }

    // the encoder's call and what is done with its packet
    method EncodeAndWrite(block: Block, info: FrameInfo)
      requires Counted()
      modifies this`written, this`badFrames, encoder
      ensures Counted() && encoder.given == old(encoder.given) + [block]
      ensures old(encoder.yielded) <= encoder.yielded
      ensures old(written) <= written && WrittenWith(written, |old(written)|, info)
    {
      var packet := encoder.Encode(block);
      if packet.Some? {
        var send := ShouldSend();
        if send {
          WriteNext(written, old(encoder.yielded), badFrames, Written(packet.value, info));
          written := written + [Written(packet.value, info)];
        }
      }
    }

    // the encoding loop of process; `carry` samples were buffered before the frame came
    method EncodeBlocks(info: FrameInfo, ghost pts: int, ghost carry: nat) returns (used: nat)
      requires Objects() && Counted() && AllOfSize(encoder.given, frameSize)
      requires timestamp == Stamp(pts, carry, 0, frameSize, sampleRate)
      modifies this`timestamp, this`written, this`badFrames, frame, encoder
      ensures Objects() && Counted() && AllOfSize(encoder.given, frameSize) && old(encoder.given) <= encoder.given
      ensures used <= offset < used + frameSize && (used == 0 || frameSize <= used)
      ensures SamplesOf(encoder.given) + buffer[used..offset] == SamplesOf(old(encoder.given)) + buffer[..offset]
      ensures Stamped(encoder.given, |old(encoder.given)|, pts, carry, frameSize, sampleRate)
      ensures old(encoder.yielded) <= encoder.yielded
      ensures old(written) <= written && WrittenWith(written, |old(written)|, info)
    {
      used := 0;
      while offset - used >= frameSize
        invariant Objects() && Counted() && AllOfSize(encoder.given, frameSize) && old(encoder.given) <= encoder.given
        invariant used <= offset && (used == 0 || frameSize <= used)
        invariant SamplesOf(encoder.given) + buffer[used..offset] == SamplesOf(old(encoder.given)) + buffer[..offset]
        invariant timestamp == Stamp(pts, carry, |encoder.given| - |old(encoder.given)|, frameSize, sampleRate)
        invariant Stamped(encoder.given, |old(encoder.given)|, pts, carry, frameSize, sampleRate)
        invariant old(encoder.yielded) <= encoder.yielded
        invariant old(written) <= written && WrittenWith(written, |old(written)|, info)
        decreases offset - used
      {
        StampNext(pts, carry, |encoder.given| - |old(encoder.given)|, frameSize, sampleRate);
        EncodeBlock(used, info);
        used := used + frameSize;
      }
    }

    // the end of process: what was not encoded moves to the start of the buffer
    method Compact(used: nat)
      requires Objects() && used <= offset && offset - used < frameSize && (used == 0 || frameSize <= used)
      modifies this`offset, buffer
      ensures Objects() && offset == old(offset) - used && buffer[..offset] == old(buffer[used..offset])
    {
      CopySamples(buffer, buffer, 0, used, offset - used);
      offset := offset - used;
      assert buffer[..offset] == buffer[0..0 + offset];
    }

    // process; `info` is the frame's information
    method Process(data: array<Sample>, n: nat, pts: int, info: FrameInfo)
      requires Valid() && n <= data.Length && data != buffer && data != frame
      modifies this, buffer, frame, encoder
      ensures Valid() && (buffer == old(buffer) || fresh(buffer)) && frame == old(frame)
      ensures stream == old(stream) + old(data[..n])
      ensures maxInput == if n > old(maxInput) then n else old(maxInput)
      ensures old(encoder.given) <= encoder.given
      ensures Stamped(encoder.given, |old(encoder.given)|, pts, old(offset), frameSize, sampleRate)
      ensures old(encoder.yielded) <= encoder.yielded
      ensures old(written) <= written && WrittenWith(written, |old(written)|, info)
    {
      ghost var carry := offset;
      Associate(SamplesOf(encoder.given), buffer[..offset], data[..n]);
      CopyFrame(data, n, pts);
      stream := stream + old(data[..n]);
      maxInput := if n > maxInput then n else maxInput;
      var used := EncodeBlocks(info, pts, carry);
      Compact(used);
    }

    /** The blocks encoded so far are the blocks of the stream received so far. */
    lemma BlocksOfStream()
      requires Valid()
      ensures |Blocks(stream, frameSize)| == |encoder.given|
      ensures forall k :: 0 <= k < |encoder.given| ==> Blocks(stream, frameSize)[k] == encoder.given[k].samples
      ensures Remainder(stream, frameSize) == buffer[..offset]
    {
      CutIsUnique(encoder.given, buffer[..offset], frameSize);
    }
  }

  /** How a stream is split into frames does not matter: two filters that have received the same samples
      have encoded the same blocks and buffer the same rest. */
  lemma SplitDoesNotMatter(a: AudioEncodedOutput, b: AudioEncodedOutput)
    requires a.Valid() && b.Valid() && a.frameSize == b.frameSize && a.stream == b.stream
    ensures |a.encoder.given| == |b.encoder.given| && a.buffer[..a.offset] == b.buffer[..b.offset]
    ensures forall k :: 0 <= k < |a.encoder.given| ==> a.encoder.given[k].samples == b.encoder.given[k].samples
  {
    a.BlocksOfStream();
    b.BlocksOfStream();
  }
}
