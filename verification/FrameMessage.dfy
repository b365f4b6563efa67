/** The messages that common.c puts on the port, as the sequence of tokens it encodes and as the one term
    those tokens spell. */
module FrameMessage {
  import opened BoundedInts
  import opened Sequences
  import opened TermFormat
  import opened Wrappers

  // One call of an ei_encode function.
  datatype Token =
    | VersionToken
    | TupleToken(arity: nat)
    | AtomToken(name: seq<byte>)
    | BinaryToken(data: seq<byte>)
    | LongToken(value: int)

  datatype Header =
    | Audio(sampleRate: int, sampleFormat: seq<byte>, channelLayout: seq<byte>)
    | Video(keyframe: bool, interlaced: bool, width: int, height: int, pixelFormat: seq<byte>,
            aspectNum: int, aspectDen: int, timeBaseNum: int, timeBaseDen: int)

  datatype Metadata = Metadata(pinName: seq<byte>, flags: int, pts: int, dts: int, duration: int,
                               codecName: seq<byte>, profile: int, level: int, extradata: seq<byte>, header: Header)

  datatype Frame = Frame(metadata: Metadata, info: seq<byte>, data: seq<byte>)

  function Ascii(s: string): (b: seq<byte>)
    ensures |b| == |s|
  {
    seq(|s|, i requires 0 <= i < |s| => s[i] as int % 256)
  }

  predicate TokenFits(t: Token) {
    match t
    case VersionToken => true
    case TupleToken(arity) => arity < 256
    case AtomToken(name) => |name| < 256
    case BinaryToken(data) => |data| < 0x1_0000_0000
    case LongToken(v) => FitsLong(v)
  }

  /** What the call appends; a token that does not fit has no encoding. */
  function TokenBytes(limit: Limit, t: Token): seq<byte> {
    if !TokenFits(t) then [] else
    match t
    case VersionToken => [131]
    case TupleToken(arity) => [104, arity]
    case AtomToken(name) => [100] + BigEndian(|name|, 2) + name
    case BinaryToken(data) => [109] + BigEndian(|data|, 4) + data
    case LongToken(v) => LongBytes(limit, v)
  }

  ghost predicate AllFit(ts: seq<Token>) {
    forall k :: 0 <= k < |ts| ==> TokenFits(ts[k])
  }

  function Bytes(limit: Limit, ts: seq<Token>): seq<byte> {
    Join(Pieces(limit, ts))
  }

  function Pieces(limit: Limit, ts: seq<Token>): seq<seq<byte>> {
    seq(|ts|, k requires 0 <= k < |ts| => TokenBytes(limit, ts[k]))
  }

  function Join(pieces: seq<seq<byte>>): seq<byte> {
    if |pieces| == 0 then [] else Join(pieces[..|pieces| - 1]) + pieces[|pieces| - 1]
  }

  lemma {:induction false} JoinConcat(a: seq<seq<byte>>, b: seq<seq<byte>>)
    ensures Join(a + b) == Join(a) + Join(b)
  {
    if |b| == 0 {
      assert a + b == a;
    } else {
      JoinConcat(a, b[..|b| - 1]);
      assert (a + b)[..|a + b| - 1] == a + b[..|b| - 1];
    }
  }

  lemma BytesConcat(limit: Limit, a: seq<Token>, b: seq<Token>)
    ensures Bytes(limit, a + b) == Bytes(limit, a) + Bytes(limit, b)
  {
    JoinConcat(Pieces(limit, a), Pieces(limit, b));
    assert Pieces(limit, a + b) == Pieces(limit, a) + Pieces(limit, b);
  }

  lemma BytesSnoc(limit: Limit, ts: seq<Token>, t: Token)
    ensures Bytes(limit, ts + [t]) == Bytes(limit, ts) + TokenBytes(limit, t)
  {
    BytesConcat(limit, ts, [t]);
    SingleBytes(limit, t);
  }

  // ---------- what is encoded ----------

  /** encode_frame up to the header. */
  function BodyTokens(f: Frame): seq<Token> {
    [VersionToken, TupleToken(3), AtomToken(Ascii("output_frame")), AtomToken(f.metadata.pinName),
     TupleToken(8), AtomToken(Ascii("frame")), BinaryToken(f.info), LongToken(f.metadata.pts),
     LongToken(f.metadata.dts), LongToken(f.metadata.duration), LongToken(f.metadata.flags), BinaryToken(f.data)]
  }

  /** encode_audio_header and encode_video_header. */
  function HeaderTokens(m: Metadata): seq<Token> {
    match m.header
    case Audio(rate, format, layout) =>
      [TupleToken(7), AtomToken(Ascii("audio_frame")), AtomToken(m.codecName),
       TupleToken(2), LongToken(m.profile), LongToken(m.level),
       LongToken(rate), AtomToken(format), AtomToken(layout), BinaryToken(m.extradata)]
    case Video(key, interlaced, width, height, format, aspectNum, aspectDen, baseNum, baseDen) =>
      [TupleToken(12), AtomToken(Ascii("video_frame")), AtomToken(m.codecName),
       TupleToken(2), LongToken(m.profile), LongToken(m.level),
       AtomToken(Ascii(if key then "iframe" else "bp_frame")), AtomToken(Ascii(if interlaced then "true" else "false")),
       LongToken(width), LongToken(height), AtomToken(format),
       TupleToken(2), LongToken(aspectNum), LongToken(aspectDen), AtomToken(Ascii("undefined")),
       TupleToken(2), LongToken(baseDen), LongToken(baseNum), BinaryToken(m.extradata)]
  }

  function FrameTokens(f: Frame): seq<Token> {
    BodyTokens(f) + HeaderTokens(f.metadata)
  }

  /** Every field fits its place in the format. */
  ghost predicate FrameFits(f: Frame) {
    AllFit(FrameTokens(f))
  }

  // ---------- the term it spells ----------

  function Pair(a: int, b: int): Term { Tuple([Int(a), Int(b)]) }

  function HeaderTerm(m: Metadata): Term {
    match m.header
    case Audio(rate, format, layout) =>
      Tuple([Atom(Ascii("audio_frame")), Atom(m.codecName), Pair(m.profile, m.level),
             Int(rate), Atom(format), Atom(layout), Binary(m.extradata)])
    case Video(key, interlaced, width, height, format, aspectNum, aspectDen, baseNum, baseDen) =>
      Tuple([Atom(Ascii("video_frame")), Atom(m.codecName), Pair(m.profile, m.level),
             Atom(Ascii(if key then "iframe" else "bp_frame")), Atom(Ascii(if interlaced then "true" else "false")),
             Int(width), Int(height), Atom(format), Pair(aspectNum, aspectDen), Atom(Ascii("undefined")),
             Pair(baseDen, baseNum), Binary(m.extradata)])
  }

  function FrameTerm(f: Frame): Term {
    Envelope(f, HeaderTerm(f.metadata))
  }

  function Envelope(f: Frame, header: Term): Term {
    Tuple([Atom(Ascii("output_frame")), Atom(f.metadata.pinName),
           Tuple([Atom(Ascii("frame")), Binary(f.info), Int(f.metadata.pts), Int(f.metadata.dts),
                  Int(f.metadata.duration), Int(f.metadata.flags), Binary(f.data), header])])
  }

  /** The tokens of a term, every tuple header directly before the tokens of exactly its elements. */
  function TermTokens(t: Term): seq<Token>
    decreases t, 0
  {
    match t
    case Int(v) => [LongToken(v)]
    case Atom(name) => [AtomToken(name)]
    case Binary(data) => [BinaryToken(data)]
    case Tuple(es) => [TupleToken(|es|)] + TokensOf(es)
  }

  function TokensOf(es: seq<Term>): seq<Token>
    decreases es, 1
  {
    if |es| == 0 then [] else TermTokens(es[0]) + TokensOf(es[1..])
  }

  lemma {:induction false} TokensOfConcat(a: seq<Term>, b: seq<Term>)
    ensures TokensOf(a + b) == TokensOf(a) + TokensOf(b)
  {
    if |a| == 0 {
      assert a + b == b;
    } else {
      TokensOfConcat(a[1..], b);
      assert (a + b)[1..] == a[1..] + b && (a + b)[0] == a[0];
      Associate(TermTokens(a[0]), TokensOf(a[1..]), TokensOf(b));
    }
  }

  function Leaf(t: Term): Token
    requires !t.Tuple?
  {
    match t
    case Int(v) => LongToken(v)
    case Atom(name) => AtomToken(name)
    case Binary(data) => BinaryToken(data)
  }

  ghost predicate AllLeaves(es: seq<Term>) {
    forall k :: 0 <= k < |es| ==> !es[k].Tuple?
  }

  lemma {:induction false} TokensOfLeaves(es: seq<Term>)
    requires AllLeaves(es)
    ensures |TokensOf(es)| == |es|
    ensures forall k :: 0 <= k < |es| ==> TokensOf(es)[k] == Leaf(es[k])
  {
    if |es| > 0 {
      TokensOfLeaves(es[1..]);
    }
  }

  /** Leaves, then one tuple, then whatever is left. */
  lemma TokensOfGroup(leaves: seq<Term>, t: Term, others: seq<Term>)
    requires AllLeaves(leaves)
    ensures TokensOf(leaves + [t] + others) == TokensOf(leaves) + TermTokens(t) + TokensOf(others)
  {
    TokensOfConcat(leaves + [t], others);
    TokensOfConcat(leaves, [t]);
    assert TokensOf([t]) == TermTokens(t) + [] == TermTokens(t);
  }

  lemma PairTokens(a: int, b: int)
    ensures TermTokens(Pair(a, b)) == [TupleToken(2), LongToken(a), LongToken(b)]
  {
    TokensOfLeaves([Int(a), Int(b)]);
  }

  lemma AudioTokensMatch(m: Metadata)
    requires m.header.Audio?
    ensures TermTokens(HeaderTerm(m)) == HeaderTokens(m)
  {
    var h := m.header;
    var a, b := [Atom(Ascii("audio_frame")), Atom(m.codecName)],
                [Int(h.sampleRate), Atom(h.sampleFormat), Atom(h.channelLayout), Binary(m.extradata)];
    TokensOfLeaves(a);
    TokensOfLeaves(b);
    PairTokens(m.profile, m.level);
    TokensOfGroup(a, Pair(m.profile, m.level), b);
    assert HeaderTerm(m).elements == a + [Pair(m.profile, m.level)] + b;
  }

  // The last three elements of a video header, and the six before them.
  function VideoTail(h: Header, extradata: seq<byte>): seq<Term>
    requires h.Video?
  {
    [Atom(Ascii("undefined")), Pair(h.timeBaseDen, h.timeBaseNum), Binary(extradata)]
  }

  function VideoMiddle(h: Header): seq<Term>
    requires h.Video?
  {
    [Atom(Ascii(if h.keyframe then "iframe" else "bp_frame")), Atom(Ascii(if h.interlaced then "true" else "false")),
     Int(h.width), Int(h.height), Atom(h.pixelFormat)]
  }

  function VideoTailTokens(h: Header, extradata: seq<byte>): seq<Token>
    requires h.Video?
  {
    [AtomToken(Ascii("undefined")), TupleToken(2), LongToken(h.timeBaseDen), LongToken(h.timeBaseNum),
     BinaryToken(extradata)]
  }

  function VideoMiddleTokens(h: Header): seq<Token>
    requires h.Video?
  {
    [AtomToken(Ascii(if h.keyframe then "iframe" else "bp_frame")),
     AtomToken(Ascii(if h.interlaced then "true" else "false")),
     LongToken(h.width), LongToken(h.height), AtomToken(h.pixelFormat),
     TupleToken(2), LongToken(h.aspectNum), LongToken(h.aspectDen)]
  }

  lemma VideoTailMatches(h: Header, extradata: seq<byte>)
    requires h.Video?
    ensures TokensOf(VideoTail(h, extradata)) == VideoTailTokens(h, extradata)
  {
    var a, p, b := [Atom(Ascii("undefined"))], Pair(h.timeBaseDen, h.timeBaseNum), [Binary(extradata)];
    TokensOfLeaves(a);
    TokensOfLeaves(b);
    PairTokens(h.timeBaseDen, h.timeBaseNum);
    TokensOfGroup(a, p, b);
    assert a + [p] + b == VideoTail(h, extradata);
  }

  lemma VideoMiddleMatches(h: Header, others: seq<Term>)
    requires h.Video?
    ensures TokensOf(VideoMiddle(h) + [Pair(h.aspectNum, h.aspectDen)] + others)
         == VideoMiddleTokens(h) + TokensOf(others)
  {
    TokensOfLeaves(VideoMiddle(h));
    PairTokens(h.aspectNum, h.aspectDen);
    TokensOfGroup(VideoMiddle(h), Pair(h.aspectNum, h.aspectDen), others);
    assert TokensOf(VideoMiddle(h)) + [TupleToken(2), LongToken(h.aspectNum), LongToken(h.aspectDen)]
        == VideoMiddleTokens(h);
  }

  lemma VideoTokensMatch(m: Metadata)
    requires m.header.Video?
    ensures TermTokens(HeaderTerm(m)) == HeaderTokens(m)
  {
    var h := m.header;
    var a, p := [Atom(Ascii("video_frame")), Atom(m.codecName)], Pair(m.profile, m.level);
    var others := VideoMiddle(h) + [Pair(h.aspectNum, h.aspectDen)] + VideoTail(h, m.extradata);
    TokensOfLeaves(a);
    PairTokens(m.profile, m.level);
    VideoMiddleMatches(h, VideoTail(h, m.extradata));
    VideoTailMatches(h, m.extradata);
    TokensOfGroup(a, p, others);
    assert HeaderTerm(m).elements == a + [p] + others;
    FlattenVideo(m, TokensOf(a), TermTokens(p));
  }

  lemma FlattenVideo(m: Metadata, a: seq<Token>, p: seq<Token>)
    requires m.header.Video? && a == [AtomToken(Ascii("video_frame")), AtomToken(m.codecName)]
    requires p == [TupleToken(2), LongToken(m.profile), LongToken(m.level)]
    ensures HeaderTokens(m)
         == [TupleToken(12)] + (a + p + (VideoMiddleTokens(m.header) + VideoTailTokens(m.header, m.extradata)))
  {
  }

  /** encode_frame spells exactly one term: every tuple it announces is filled exactly. */
  lemma FrameTokensMatch(f: Frame)
    ensures FrameTokens(f) == [VersionToken] + TermTokens(FrameTerm(f))
  {
    var m := f.metadata;
    if m.header.Audio? { AudioTokensMatch(m); } else { VideoTokensMatch(m); }
    var a, b := [Atom(Ascii("output_frame")), Atom(m.pinName)],
                [Atom(Ascii("frame")), Binary(f.info), Int(m.pts), Int(m.dts), Int(m.duration), Int(m.flags),
                 Binary(f.data)];
    TokensOfLeaves(a);
    TokensOfLeaves(b);
    TokensOfGroup(b, HeaderTerm(m), []);
    TokensOfGroup(a, FrameTerm(f).elements[2], []);
    assert FrameTerm(f).elements[2].elements == b + [HeaderTerm(m)] + [];
    assert FrameTerm(f).elements == a + [FrameTerm(f).elements[2]] + [];
    FlattenFrame(f, TokensOf(a), TokensOf(b));
  }

  lemma FlattenFrame(f: Frame, a: seq<Token>, b: seq<Token>)
    requires a == [AtomToken(Ascii("output_frame")), AtomToken(f.metadata.pinName)]
    requires b == [AtomToken(Ascii("frame")), BinaryToken(f.info), LongToken(f.metadata.pts), LongToken(f.metadata.dts),
                   LongToken(f.metadata.duration), LongToken(f.metadata.flags), BinaryToken(f.data)]
    ensures FrameTokens(f)
         == [VersionToken] + ([TupleToken(3)] + (a + ([TupleToken(8)] + (b + HeaderTokens(f.metadata) + [])) + []))
  {
    assert BodyTokens(f) == [VersionToken] + ([TupleToken(3)] + (a + ([TupleToken(8)] + b)));
  }

  lemma {:induction false} TermBytes(limit: Limit, t: Term)
    requires Fits(t)
    ensures Bytes(limit, TermTokens(t)) == EncodeTerm(limit, t)
    decreases t, 0
  {
    if t.Tuple? {
      TermsBytes(limit, t.elements);
      BytesConcat(limit, [TupleToken(|t.elements|)], TokensOf(t.elements));
      SingleBytes(limit, TupleToken(|t.elements|));
    } else {
      SingleBytes(limit, Leaf(t));
    }
  }

  lemma SingleBytes(limit: Limit, t: Token)
    ensures Bytes(limit, [t]) == TokenBytes(limit, t)
  {
    var p := Pieces(limit, [t]);
    assert |p| == 1 && p[..0] == [] && p[0] == TokenBytes(limit, t);
    assert Join(p) == Join(p[..0]) + p[0] == [] + p[0] == p[0];
  }

  lemma {:induction false} TermsBytes(limit: Limit, es: seq<Term>)
    requires forall e :: e in es ==> Fits(e)
    ensures Bytes(limit, TokensOf(es)) == EncodeTerms(limit, es)
    decreases es, 1
  {
    if |es| > 0 {
      TermBytes(limit, es[0]);
      TermsBytes(limit, es[1..]);
      BytesConcat(limit, TermTokens(es[0]), TokensOf(es[1..]));
    }
  }

  lemma PairFits(a: int, b: int)
    requires FitsLong(a) && FitsLong(b)
    ensures Fits(Pair(a, b))
  {
    assert forall e :: e in Pair(a, b).elements ==> e == Int(a) || e == Int(b);
  }

  lemma AudioTermFits(m: Metadata)
    requires m.header.Audio? && AllFit(HeaderTokens(m))
    ensures Fits(HeaderTerm(m))
  {
    var h := HeaderTokens(m);
    assert TokenFits(h[2]) && TokenFits(h[4]) && TokenFits(h[5]) && TokenFits(h[6]);
    assert TokenFits(h[7]) && TokenFits(h[8]) && TokenFits(h[9]);
    PairFits(m.profile, m.level);
  }

  lemma VideoTermFits(m: Metadata)
    requires m.header.Video? && AllFit(HeaderTokens(m))
    ensures Fits(HeaderTerm(m))
  {
    var h := HeaderTokens(m);
    assert TokenFits(h[2]) && TokenFits(h[4]) && TokenFits(h[5]);
    assert TokenFits(h[8]) && TokenFits(h[9]) && TokenFits(h[10]);
    assert TokenFits(h[12]) && TokenFits(h[13]) && TokenFits(h[16]) && TokenFits(h[17]) && TokenFits(h[18]);
    PairFits(m.profile, m.level);
    PairFits(m.header.aspectNum, m.header.aspectDen);
    PairFits(m.header.timeBaseDen, m.header.timeBaseNum);
  }

  lemma FrameTermFits(f: Frame)
    requires FrameFits(f)
    ensures Fits(FrameTerm(f))
  {
    var b, h := BodyTokens(f), HeaderTokens(f.metadata);
    forall k | 0 <= k < |h| ensures TokenFits(h[k]) {
      assert FrameTokens(f)[|b| + k] == h[k];
    }
    if f.metadata.header.Audio? { AudioTermFits(f.metadata); } else { VideoTermFits(f.metadata); }
    forall k | 0 <= k < |b| ensures TokenFits(b[k]) {
      assert FrameTokens(f)[k] == b[k];
    }
    assert TokenFits(b[3]) && TokenFits(b[6]) && TokenFits(b[7]) && TokenFits(b[8]);
    assert TokenFits(b[9]) && TokenFits(b[10]) && TokenFits(b[11]);
    var inner := FrameTerm(f).elements[2];
    assert Fits(inner) by {
      forall e | e in inner.elements ensures Fits(e) {
      }
    }
  }

  /** The bytes of a frame message are the version byte and one complete term, from which a decoder gets
      back the term of the frame. */
  lemma MessageRoundTrip(limit: Limit, f: Frame)
    requires FrameFits(f)
    ensures var message := Bytes(limit, FrameTokens(f));
            |message| > 0 && message[0] == 131 && Decode(message[1..]) == Some((FrameTerm(f), []))
  {
    FrameTokensMatch(f);
    FrameTermFits(f);
    TermBytes(limit, FrameTerm(f));
    SingleBytes(limit, VersionToken);
    BytesConcat(limit, [VersionToken], TermTokens(FrameTerm(f)));
    RoundTrip(limit, FrameTerm(f), []);
    var term := EncodeTerm(limit, FrameTerm(f));
    assert Bytes(limit, FrameTokens(f))[1..] == term && term + [] == term;
  }

  /** And every field can be told from the term. */
  lemma MessageDeterminesFrame(limit: Limit, f: Frame, g: Frame)
    requires FrameFits(f) && FrameFits(g)
    requires Bytes(limit, FrameTokens(f)) == Bytes(limit, FrameTokens(g))
    ensures f == g
  {
    MessageRoundTrip(limit, f);
    MessageRoundTrip(limit, g);
    TermDeterminesFrame(f, g);
  }

  lemma TermDeterminesFrame(f: Frame, g: Frame)
    requires FrameTerm(f) == FrameTerm(g)
    ensures f == g
  {
    var a, b := FrameTerm(f).elements, FrameTerm(g).elements;
    assert a[1] == b[1] && a[2] == b[2];
    var x, y := a[2].elements, b[2].elements;
    assert x[1] == y[1] && x[2] == y[2] && x[3] == y[3] && x[4] == y[4] && x[5] == y[5] && x[6] == y[6] && x[7] == y[7];
    HeaderTermDetermines(f.metadata, g.metadata);
  }

  lemma HeaderTermDetermines(m: Metadata, n: Metadata)
    requires HeaderTerm(m) == HeaderTerm(n)
    ensures m.header == n.header && m.codecName == n.codecName && m.extradata == n.extradata
    ensures m.profile == n.profile && m.level == n.level
  {
    var a, b := HeaderTerm(m).elements, HeaderTerm(n).elements;
    assert forall k :: 0 <= k < |a| ==> a[k] == b[k];
    assert a[2].elements[0] == b[2].elements[0] && a[2].elements[1] == b[2].elements[1];
  }

  // ---------- what a reader of the port finds ----------

  /** The bytes are the codes of the characters. */
  ghost predicate Spells(b: seq<byte>, s: string) {
    |b| == |s| && forall i :: 0 <= i < |s| ==> b[i] as int == s[i] as int
  }

  ghost predicate Narrow(s: string) {
    forall i :: 0 <= i < |s| ==> s[i] as int < 256
  }

  lemma AsciiSpells(s: string)
    requires Narrow(s)
    ensures Spells(Ascii(s), s)
  {
  }

  ghost predicate IsAtom(t: Term, name: string) { t.Atom? && Spells(t.name, name) }

  predicate IsPair(t: Term, a: int, b: int) { t == Tuple([Int(a), Int(b)]) }

  /** A version byte and one term with nothing behind it. */
  ghost predicate IsMessage(b: seq<byte>) {
    |b| > 0 && b[0] == 131 && Decode(b[1..]).Some? && Decode(b[1..]).value.1 == []
  }

  function Content(b: seq<byte>): Term
    requires IsMessage(b)
  {
    Decode(b[1..]).value.0
  }

  ghost predicate IsDoneMessage(b: seq<byte>, name: string) {
    IsMessage(b) && IsAtom(Content(b), name)
  }

  ghost predicate IsFrameMessage(b: seq<byte>, f: Frame) {
    IsMessage(b) && IsFrameTerm(Content(b), f)
  }

  /** {output_frame, Pin, {frame, Info, Pts, Dts, Duration, Flags, Data, Header}} */
  ghost predicate IsFrameTerm(t: Term, f: Frame) {
    && t.Tuple? && |t.elements| == 3
    && IsAtom(t.elements[0], "output_frame") && t.elements[1] == Atom(f.metadata.pinName)
    && var body := t.elements[2];
       && body.Tuple? && |body.elements| == 8
       && IsAtom(body.elements[0], "frame")
       && body.elements[1] == Binary(f.info)
       && body.elements[2] == Int(f.metadata.pts)
       && body.elements[3] == Int(f.metadata.dts)
       && body.elements[4] == Int(f.metadata.duration)
       && body.elements[5] == Int(f.metadata.flags)
       && body.elements[6] == Binary(f.data)
       && IsHeader(body.elements[7], f.metadata)
  }

  /** {audio_frame, Codec, {Profile, Level}, Rate, SampleFormat, Layout, Extradata} or
      {video_frame, Codec, {Profile, Level}, FrameType, Interlaced, Width, Height, PixelFormat,
       {AspectNum, AspectDen}, undefined, {RateNum, RateDen}, Extradata} */
  ghost predicate IsHeader(t: Term, m: Metadata) {
    && t.Tuple? && |t.elements| == (if m.header.Audio? then 7 else 12)
    && if m.header.Audio? then IsAtom(t.elements[0], "audio_frame") && HasAudioFields(t.elements, m)
       else HasVideoAtoms(t.elements, m.header) && HasVideoFields(t.elements, m)
  }

  predicate HasAudioFields(es: seq<Term>, m: Metadata)
    requires m.header.Audio? && |es| == 7
  {
    && es[1] == Atom(m.codecName) && IsPair(es[2], m.profile, m.level)
    && es[3] == Int(m.header.sampleRate) && es[4] == Atom(m.header.sampleFormat)
    && es[5] == Atom(m.header.channelLayout) && es[6] == Binary(m.extradata)
  }

  ghost predicate HasVideoAtoms(es: seq<Term>, h: Header)
    requires h.Video? && |es| == 12
  {
    && IsAtom(es[0], "video_frame")
    && (if h.keyframe then IsAtom(es[3], "iframe") else IsAtom(es[3], "bp_frame"))
    && (if h.interlaced then IsAtom(es[4], "true") else IsAtom(es[4], "false"))
    && IsAtom(es[9], "undefined")
  }

  predicate HasVideoFields(es: seq<Term>, m: Metadata)
    requires m.header.Video? && |es| == 12
  {
    && es[1] == Atom(m.codecName) && IsPair(es[2], m.profile, m.level)
    && es[5] == Int(m.header.width) && es[6] == Int(m.header.height) && es[7] == Atom(m.header.pixelFormat)
    && IsPair(es[8], m.header.aspectNum, m.header.aspectDen)
    && IsPair(es[10], m.header.timeBaseDen, m.header.timeBaseNum)
    && es[11] == Binary(m.extradata)
  }

  lemma AudioIsSpelled(m: Metadata)
    requires m.header.Audio?
    ensures IsHeader(HeaderTerm(m), m)
  {
    AsciiSpells("audio_frame");
  }

  lemma VideoAtomsAreSpelled(m: Metadata)
    requires m.header.Video?
    ensures HasVideoAtoms(HeaderTerm(m).elements, m.header)
  {
    AsciiSpells("video_frame");
    if m.header.keyframe { AsciiSpells("iframe"); } else { AsciiSpells("bp_frame"); }
    if m.header.interlaced { AsciiSpells("true"); } else { AsciiSpells("false"); }
    AsciiSpells("undefined");
  }

  lemma VideoFieldsAreThere(m: Metadata)
    requires m.header.Video?
    ensures HasVideoFields(HeaderTerm(m).elements, m)
  {
  }

  lemma VideoIsSpelled(m: Metadata)
    requires m.header.Video?
    ensures IsHeader(HeaderTerm(m), m)
  {
    VideoAtomsAreSpelled(m);
    VideoFieldsAreThere(m);
  }

  lemma FrameIsSpelled(f: Frame)
    ensures IsFrameTerm(FrameTerm(f), f)
  {
    if f.metadata.header.Audio? { AudioIsSpelled(f.metadata); } else { VideoIsSpelled(f.metadata); }
    EnvelopeIsSpelled(f, HeaderTerm(f.metadata));
  }

  lemma EnvelopeIsSpelled(f: Frame, header: Term)
    requires IsHeader(header, f.metadata)
    ensures IsFrameTerm(Envelope(f, header), f)
  {
    AsciiSpells("output_frame");
    AsciiSpells("frame");
  }

  /** Every field of the frame is where a reader of the message looks for it, and every fixed atom is
      spelled as it should be, character by character. */
  lemma FrameIsReadBack(limit: Limit, f: Frame)
    requires FrameFits(f)
    ensures IsFrameMessage(Bytes(limit, FrameTokens(f)), f)
  {
    MessageRoundTrip(limit, f);
    FrameIsSpelled(f);
  }
}
