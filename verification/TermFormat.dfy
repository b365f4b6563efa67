/** The part of the Erlang External Term Format (ERTS User's Guide, chapter "External Term Format") that
    the port messages use: SMALL_TUPLE_EXT, ATOM_EXT, BINARY_EXT, SMALL_INTEGER_EXT, INTEGER_EXT and
    SMALL_BIG_EXT. It is given as an encoder and an independent decoder. */
module TermFormat {
  import opened BoundedInts
  import opened Wrappers

  // Integers in [-limit, limit) that are no small integers are sent as INTEGER_EXT, which holds 32 bits;
  // the encoding library chooses the limit.
  type Limit = n: nat | n <= 0x8000_0000

  datatype Term = Int(value: int) | Atom(name: seq<byte>) | Binary(data: seq<byte>) | Tuple(elements: seq<Term>)

  /** The term fits the size fields of the format, and its integers fit a C long. */
  ghost predicate Fits(t: Term) {
    match t
    case Int(v) => FitsLong(v)
    case Atom(name) => |name| < 256
    case Binary(data) => |data| < 0x1_0000_0000
    case Tuple(es) => |es| < 256 && forall e :: e in es ==> Fits(e)
  }

  predicate FitsLong(v: int) { -0x8000_0000_0000_0000 <= v < 0x8000_0000_0000_0000 }

  // ---------- numbers ----------

  function BigEndian(n: nat, width: nat): (b: seq<byte>)
    ensures |b| == width
  {
    if width == 0 then [] else BigEndian(n / 256, width - 1) + [n % 256]
  }

  function FromBigEndian(b: seq<byte>): nat {
    if |b| == 0 then 0 else FromBigEndian(b[..|b| - 1]) * 256 + b[|b| - 1]
  }

  function Pow256(k: nat): (p: nat)
    ensures p > 0
  {
    if k == 0 then 1 else 256 * Pow256(k - 1)
  }

  lemma {:induction false} BigEndianRoundTrip(n: nat, width: nat)
    requires n < Pow256(width)
    ensures FromBigEndian(BigEndian(n, width)) == n
  {
    if width > 0 {
      BigEndianRoundTrip(n / 256, width - 1);
      assert BigEndian(n, width)[..width - 1] == BigEndian(n / 256, width - 1);
    }
  }

  function LittleEndian(n: nat): seq<byte> {
    if n == 0 then [] else [n % 256] + LittleEndian(n / 256)
  }

  function FromLittleEndian(b: seq<byte>): nat {
    if |b| == 0 then 0 else b[0] + 256 * FromLittleEndian(b[1..])
  }

  lemma {:induction false} LittleEndianRoundTrip(n: nat)
    ensures FromLittleEndian(LittleEndian(n)) == n
  {
    if n > 0 {
      LittleEndianRoundTrip(n / 256);
      assert LittleEndian(n)[1..] == LittleEndian(n / 256);
    }
  }

  lemma {:induction false} LittleEndianLength(n: nat, k: nat)
    requires n < Pow256(k)
    ensures |LittleEndian(n)| <= k
  {
    if n > 0 {
      LittleEndianLength(n / 256, k - 1);
    }
  }

  function Abs(v: int): nat { if v < 0 then -v else v }

  lemma LongHasEightDigits(v: int)
    requires FitsLong(v)
    ensures |LittleEndian(Abs(v))| <= 8
  {
    assert Pow256(8) == 256 * (256 * (256 * (256 * (256 * (256 * (256 * (256 * 1))))))) by {
      assert Pow256(4) == 256 * (256 * (256 * (256 * Pow256(0))));
      assert Pow256(8) == 256 * (256 * (256 * (256 * Pow256(4))));
    }
    LittleEndianLength(Abs(v), 8);
  }

  // ---------- encoding ----------

  /** ei_encode_long and ei_encode_longlong. */
  function LongBytes(limit: Limit, v: int): seq<byte>
    requires FitsLong(v)
  {
    if 0 <= v < 256 then [97, v]
    else if -(limit as int) <= v < limit then [98] + BigEndian(if v < 0 then v + 0x1_0000_0000 else v, 4)
    else
      LongHasEightDigits(v);
      [110, |LittleEndian(Abs(v))|, if v < 0 then 1 else 0] + LittleEndian(Abs(v))
  }

  lemma {:induction false} LittleEndianIsShortest(n: nat)
    requires n > 0
    ensures |LittleEndian(n)| > 0 && Pow256(|LittleEndian(n)| - 1) <= n
  {
    if n >= 256 {
      LittleEndianIsShortest(n / 256);
    } else {
      assert LittleEndian(n / 256) == [];
    }
  }

  /** Which form an integer takes: a byte, 32 bits, or as few bytes as it needs. */
  lemma LongForm(limit: Limit, v: int)
    requires FitsLong(v)
    ensures var b := LongBytes(limit, v);
            if 0 <= v <= 255 then b == [97, v]
            else if -(limit as int) <= v < limit then |b| == 5 && b[0] == 98
            else |b| > 3 && b[0] == 110 && b[1] == |b| - 3 <= 8 && Pow256(|b| - 4) <= Abs(v)
  {
    LongHasEightDigits(v);
    if Abs(v) > 0 {
      LittleEndianIsShortest(Abs(v));
    }
  }

  function EncodeTerm(limit: Limit, t: Term): seq<byte>
    requires Fits(t)
    decreases t, 0
  {
    match t
    case Int(v) => LongBytes(limit, v)
    case Atom(name) => [100] + BigEndian(|name|, 2) + name
    case Binary(data) => [109] + BigEndian(|data|, 4) + data
    case Tuple(es) => [104, |es|] + EncodeTerms(limit, es)
  }

  function EncodeTerms(limit: Limit, es: seq<Term>): seq<byte>
    requires forall e :: e in es ==> Fits(e)
    decreases es, 1
  {
    if |es| == 0 then [] else EncodeTerm(limit, es[0]) + EncodeTerms(limit, es[1..])
  }

  // ---------- decoding ----------

  /** Reads one term and returns it with the bytes that follow it. */
  function Decode(b: seq<byte>): (r: Option<(Term, seq<byte>)>)
    ensures r.Some? ==> |r.value.1| < |b|
    decreases |b|, 0, 0
  {
    if |b| == 0 then None
    else match b[0]
      case 97 => if |b| < 2 then None else Some((Int(b[1]), b[2..]))
      case 98 =>
        if |b| < 5 then None
        else
          var n := FromBigEndian(b[1..5]);
          Some((Int(if n >= 0x8000_0000 then n - 0x1_0000_0000 else n), b[5..]))
      case 110 =>
        if |b| < 3 || |b| < 3 + (b[1] as int) then None
        else
          var n := FromLittleEndian(b[3..3 + (b[1] as int)]);
          Some((Int(if b[2] == 0 then n else -(n as int)), b[3 + (b[1] as int)..]))
      case 100 =>
        if |b| < 3 then None
        else
          var n := FromBigEndian(b[1..3]);
          if |b| < 3 + n then None else Some((Atom(b[3..3 + n]), b[3 + n..]))
      case 109 =>
        if |b| < 5 then None
        else
          var n := FromBigEndian(b[1..5]);
          if |b| < 5 + n then None else Some((Binary(b[5..5 + n]), b[5 + n..]))
      case 104 =>
        if |b| < 2 then None
        else
          var es := DecodeMany(b[2..], b[1]);
          if es.None? then None else Some((Tuple(es.value.0), es.value.1))
      case _ => None
  }

  function DecodeMany(b: seq<byte>, n: nat): (r: Option<(seq<Term>, seq<byte>)>)
    ensures r.Some? ==> |r.value.1| <= |b|
    decreases |b|, 1, n
  {
    if n == 0 then Some(([], b))
    else
      var first := Decode(b);
      if first.None? then None
      else
        var others := DecodeMany(first.value.1, n - 1);
        if others.None? then None else Some(([first.value.0] + others.value.0, others.value.1))
  }

  lemma SmallPowers()
    ensures Pow256(2) == 0x1_0000 && Pow256(4) == 0x1_0000_0000
  {
    assert Pow256(2) == 256 * (256 * Pow256(0));
    assert Pow256(4) == 256 * (256 * Pow256(2));
  }

  lemma LongRoundTrip(limit: Limit, v: int, rest: seq<byte>)
    requires FitsLong(v)
    ensures Decode(LongBytes(limit, v) + rest) == Some((Int(v), rest))
  {
    var b := LongBytes(limit, v) + rest;
    if 0 <= v < 256 {
      assert b[2..] == rest;
    } else if -(limit as int) <= v < limit {
      var n: nat := if v < 0 then v + 0x1_0000_0000 else v;
      SmallPowers();
      BigEndianRoundTrip(n, 4);
      assert b[1..5] == BigEndian(n, 4) && b[5..] == rest;
    } else {
      LongHasEightDigits(v);
      LittleEndianRoundTrip(Abs(v));
      var d := LittleEndian(Abs(v));
      assert b[3..3 + |d|] == d && b[3 + |d|..] == rest;
    }
  }

  lemma SizedRoundTrip(tag: byte, width: nat, data: seq<byte>, rest: seq<byte>)
    requires (tag == 100 && width == 2 && |data| < 256) || (tag == 109 && width == 4 && |data| < 0x1_0000_0000)
    ensures Decode([tag] + BigEndian(|data|, width) + data + rest)
         == Some((if tag == 100 then Atom(data) else Binary(data), rest))
  {
    var b := [tag] + BigEndian(|data|, width) + data + rest;
    SmallPowers();
    BigEndianRoundTrip(|data|, width);
    assert b[1..1 + width] == BigEndian(|data|, width);
    assert b[1 + width..1 + width + |data|] == data && b[1 + width + |data|..] == rest;
  }

  /** Whatever follows it, an encoded term is read back as it was, and nothing more is consumed. */
  lemma {:induction false} RoundTrip(limit: Limit, t: Term, rest: seq<byte>)
    requires Fits(t)
    ensures Decode(EncodeTerm(limit, t) + rest) == Some((t, rest))
    decreases t, 0
  {
    match t
    case Int(v) => LongRoundTrip(limit, v, rest);
    case Atom(name) => SizedRoundTrip(100, 2, name, rest);
    case Binary(data) => SizedRoundTrip(109, 4, data, rest);
    case Tuple(es) =>
      RoundTrips(limit, es, rest);
      TupleRoundTrip(es, EncodeTerms(limit, es), rest);
  }

  lemma TupleRoundTrip(es: seq<Term>, body: seq<byte>, rest: seq<byte>)
    requires |es| < 256 && DecodeMany(body + rest, |es|) == Some((es, rest))
    ensures Decode([104, |es|] + body + rest) == Some((Tuple(es), rest))
  {
    assert ([104, |es|] + body + rest)[2..] == body + rest;
  }

  lemma {:induction false} RoundTrips(limit: Limit, es: seq<Term>, rest: seq<byte>)
    requires forall e :: e in es ==> Fits(e)
    ensures DecodeMany(EncodeTerms(limit, es) + rest, |es|) == Some((es, rest))
    decreases es, 1
  {
    if |es| == 0 {
      assert EncodeTerms(limit, es) + rest == rest;
    } else {
      var others := EncodeTerms(limit, es[1..]);
      RoundTrip(limit, es[0], others + rest);
      RoundTrips(limit, es[1..], rest);
      assert EncodeTerms(limit, es) + rest == EncodeTerm(limit, es[0]) + (others + rest);
      DecodeManyStep(EncodeTerms(limit, es) + rest, es[0], others + rest, es[1..], rest);
      assert [es[0]] + es[1..] == es;
    }
  }

  lemma DecodeManyStep(b: seq<byte>, t: Term, after: seq<byte>, ts: seq<Term>, rest: seq<byte>)
    requires Decode(b) == Some((t, after)) && DecodeMany(after, |ts|) == Some((ts, rest))
    ensures DecodeMany(b, |ts| + 1) == Some(([t] + ts, rest))
  {
  }
}
