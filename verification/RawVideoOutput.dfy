/** video_raw_output.c: the three planes of a YUV420P frame, each with its own stride, are packed into one
    array that is kept and grown between frames. */
module RawVideoOutput {
  import opened BoundedInts
  import opened Planes
  import opened Sequences

  datatype Picture = Picture(width: nat, height: nat, y: Plane, u: Plane, v: Plane)

  ghost predicate Complete(f: Picture) {
    && InPlane(f.y, f.width, f.height)
    && InPlane(f.u, f.width / 2, f.height / 2)
    && InPlane(f.v, f.width / 2, f.height / 2)
  }

  /** The visible part of a plane, row after row. */
  function Rows(p: Plane, width: nat, height: nat): seq<byte>
    requires InPlane(p, width, height)
  {
    if height == 0 then []
    else Rows(p, width, height - 1) + p.data[Row(p, height - 1)..Row(p, height - 1) + width]
  }

  function Packed(f: Picture): seq<byte>
    requires Complete(f)
  {
    Rows(f.y, f.width, f.height) + Rows(f.u, f.width / 2, f.height / 2) + Rows(f.v, f.width / 2, f.height / 2)
  }

  lemma {:induction false} RowsLength(p: Plane, width: nat, height: nat)
    requires InPlane(p, width, height)
    ensures |Rows(p, width, height)| == height * width
  {
    if height > 0 {
      RowsLength(p, width, height - 1);
      assert height * width == (height - 1) * width + width;
    }
  }

  lemma RowsGrow(p: Plane, width: nat, height: nat, i: nat)
    requires InPlane(p, width, height) && i < height
    ensures |Rows(p, width, i)| + width == |Rows(p, width, i + 1)| <= |Rows(p, width, height)|
    ensures Rows(p, width, i + 1) == Rows(p, width, i) + p.data[Row(p, i)..Row(p, i) + width]
  {
    RowsLength(p, width, i);
    RowsLength(p, width, i + 1);
    RowsLength(p, width, height);
    Monotone(i + 1, height, width);
    assert (i + 1) * width == i * width + width;
  }

  lemma Monotone(a: nat, b: nat, width: nat)
    requires a <= b
    ensures a * width <= b * width
  {
  }

  /** Each byte of the rows of a plane is its stride-indexed byte. */
  lemma {:induction false} RowsAt(p: Plane, width: nat, height: nat, i: nat, j: nat)
    requires InPlane(p, width, height) && i < height && j < width
    ensures 0 <= i * width + j < |Rows(p, width, height)|
    ensures Row(p, i) == i * p.linesize
    ensures Rows(p, width, height)[i * width + j] == p.data[Row(p, i) + j]
  {
    RowsLength(p, width, height - 1);
    RowsLength(p, width, height);
    if i < height - 1 {
      RowsAt(p, width, height - 1, i, j);
      assert i * width + j < |Rows(p, width, height - 1)|;
    }
  }

  // ---------- sizes ----------

  function Written(width: nat, height: nat): nat {
    width * height + (height / 2) * (width / 2) + (height / 2) * (width / 2)
  }

  function Announced(width: nat, height: nat): nat { width * height * 12 / 8 }

  lemma PackedLength(f: Picture)
    requires Complete(f)
    ensures |Packed(f)| == Written(f.width, f.height)
  {
    RowsLength(f.y, f.width, f.height);
    RowsLength(f.u, f.width / 2, f.height / 2);
    RowsLength(f.v, f.width / 2, f.height / 2);
  }

  /** Each packed byte is the stride-indexed byte of its plane: luma first, then the two chroma planes. */
  lemma PackedAt(f: Picture, i: nat, j: nat)
    requires Complete(f)
    ensures var w, h := f.width, f.height;
            var packed := Packed(f);
            && (i < h && j < w ==>
                 && 0 <= i * w + j < |packed| && Row(f.y, i) == i * f.y.linesize
                 && packed[i * w + j] == f.y.data[Row(f.y, i) + j])
            && (i < h / 2 && j < w / 2 ==>
                 var u, v := h * w, h * w + (h / 2) * (w / 2);
                 && 0 <= u + i * (w / 2) + j < v + i * (w / 2) + j < |packed|
                 && Row(f.u, i) == i * f.u.linesize && Row(f.v, i) == i * f.v.linesize
                 && packed[u + i * (w / 2) + j] == f.u.data[Row(f.u, i) + j]
                 && packed[v + i * (w / 2) + j] == f.v.data[Row(f.v, i) + j])
  {
    var w, h := f.width / 2, f.height / 2;
    RowsLength(f.y, f.width, f.height);
    RowsLength(f.u, w, h);
    RowsLength(f.v, w, h);
    if i < f.height && j < f.width {
      RowsAt(f.y, f.width, f.height, i, j);
    }
    if i < h && j < w {
      RowsAt(f.u, w, h, i, j);
      RowsAt(f.v, w, h, i, j);
      ChromaAt(Rows(f.y, f.width, f.height), Rows(f.u, w, h), Rows(f.v, w, h), i * w + j);
    }
  }

  lemma ChromaAt(y: seq<byte>, u: seq<byte>, v: seq<byte>, k: nat)
    requires k < |u| == |v|
    ensures (y + u + v)[|y| + k] == u[k] && (y + u + v)[|y| + |u| + k] == v[k]
  {
  }

  /** Packing never writes past the array, and it fills the size it announces exactly when both
      dimensions are even, or nothing is visible, or the picture is a single pixel. */
  lemma FillsAnnouncedIff(width: nat, height: nat)
    ensures Written(width, height) <= Announced(width, height)
    ensures Written(width, height) == Announced(width, height) <==>
      (width % 2 == 0 && height % 2 == 0) || width == 0 || height == 0 || (width == 1 && height == 1)
  {
    var a, b := width / 2, height / 2;
    var r, s := width % 2, height % 2;
    assert width == 2 * a + r && height == 2 * b + s;
    assert width * height == 4 * (a * b) + 2 * a * s + 2 * b * r + r * s by {
      assert (2 * a + r) * (2 * b + s) == 2 * a * (2 * b) + 2 * a * s + r * (2 * b) + r * s;
      assert 2 * a * (2 * b) == 4 * (a * b);
    }
    assert b * a == a * b;
  }

  // ---------- the packing ----------

  class RawVideoOutput {
    var outputData: array?<byte>
    var bufferSize: nat               // output_data_buffer_size
    var outputSize: nat               // output_data_size

    ghost predicate Valid()
      reads this
    {
      bufferSize == if outputData == null then 0 else outputData.Length
    }

    // init
    constructor ()
      ensures Valid() && outputData == null
    {
      outputData, bufferSize, outputSize := null, 0, 0;
    }

    // one of the three copy loops: `rows` rows of `width` bytes, from position `start` on
    method CopyPlane(out: array<byte>, start: nat, plane: Plane, width: nat, rows: nat) returns (p: nat)
      requires InPlane(plane, width, rows) && start + |Rows(plane, width, rows)| <= out.Length
      modifies out
      ensures p == start + |Rows(plane, width, rows)|
      ensures out[..p] == old(out[..start]) + Rows(plane, width, rows)
    {
      p := start;
      for i := 0 to rows
        invariant p == start + |Rows(plane, width, i)| <= out.Length
        invariant out[..p] == old(out[..start]) + Rows(plane, width, i)
      {
        RowsGrow(plane, width, rows, i);
        var row := plane.data[Row(plane, i)..Row(plane, i) + width];
        CopyRow(out, p, row);
        Associate(old(out[..start]), Rows(plane, width, i), row);
        p := p + width;
      }
    }

    // memcpy
    method CopyRow(out: array<byte>, p: nat, row: seq<byte>)
      requires p + |row| <= out.Length
      modifies out
      ensures out[..p + |row|] == old(out[..p]) + row
    {
      forall k | 0 <= k < |row| {
        out[p + k] := row[k];
      }
    }

    // the three loops
    method Pack(out: array<byte>, f: Picture)
      requires Complete(f) && |Packed(f)| <= out.Length
      modifies out
      ensures out[..|Packed(f)|] == Packed(f)
    {
      var w, h := f.width / 2, f.height / 2;
      ghost var y, u, v := Rows(f.y, f.width, f.height), Rows(f.u, w, h), Rows(f.v, w, h);
      assert Packed(f) == y + u + v;
      var p := CopyPlane(out, 0, f.y, f.width, f.height);
      assert out[..p] == y;
      p := CopyPlane(out, p, f.u, w, h);
      assert out[..p] == y + u;
      p := CopyPlane(out, p, f.v, w, h);
    }

    // frame_to_array for YUV420P
    method FrameToArray(f: Picture)
      requires Valid() && Complete(f)
      modifies this, if outputData == null then {} else {outputData}
      ensures Valid() && if outputSize > old(bufferSize) then fresh(outputData) else outputData == old(outputData)
      ensures outputSize == Announced(f.width, f.height) <= bufferSize
      ensures bufferSize == if outputSize > old(bufferSize) then outputSize else old(bufferSize)
      ensures outputData != null ==> |Packed(f)| <= outputSize && outputData[..|Packed(f)|] == Packed(f)
      ensures outputData == null ==> Packed(f) == []
    {
      FillsAnnouncedIff(f.width, f.height);
      PackedLength(f);
      var size := f.width * f.height * 12 / 8;
      if bufferSize < size {
        outputData := new byte[size];
        bufferSize := size;
      }
      outputSize := size;
      if outputData != null {
        Pack(outputData, f);
      }
    }
  }

  /** Unpacking restores every visible byte: two pictures of the same size that pack to the same bytes
      agree on all planes. For even dimensions the chroma part is the whole subsampled picture. */
  lemma PackingIsInjective(f: Picture, g: Picture, i: nat, j: nat)
    requires Complete(f) && Complete(g) && f.width == g.width && f.height == g.height && Packed(f) == Packed(g)
    ensures i < f.height && j < f.width ==> f.y.data[Row(f.y, i) + j] == g.y.data[Row(g.y, i) + j]
    ensures i < f.height / 2 && j < f.width / 2 ==> f.u.data[Row(f.u, i) + j] == g.u.data[Row(g.u, i) + j]
    ensures i < f.height / 2 && j < f.width / 2 ==> f.v.data[Row(f.v, i) + j] == g.v.data[Row(g.v, i) + j]
  {
    SamePlanes(f, g);
    SameBytes(f.y, g.y, f.width, f.height, i, j);
    SameBytes(f.u, g.u, f.width / 2, f.height / 2, i, j);
    SameBytes(f.v, g.v, f.width / 2, f.height / 2, i, j);
  }

  lemma SameBytes(p: Plane, q: Plane, width: nat, height: nat, i: nat, j: nat)
    requires InPlane(p, width, height) && InPlane(q, width, height) && Rows(p, width, height) == Rows(q, width, height)
    ensures i < height && j < width ==> p.data[Row(p, i) + j] == q.data[Row(q, i) + j]
  {
    if i < height && j < width {
      RowsAt(p, width, height, i, j);
      RowsAt(q, width, height, i, j);
    }
  }

  lemma SamePlanes(f: Picture, g: Picture)
    requires Complete(f) && Complete(g) && f.width == g.width && f.height == g.height && Packed(f) == Packed(g)
    ensures Rows(f.y, f.width, f.height) == Rows(g.y, f.width, f.height)
    ensures Rows(f.u, f.width / 2, f.height / 2) == Rows(g.u, f.width / 2, f.height / 2)
    ensures Rows(f.v, f.width / 2, f.height / 2) == Rows(g.v, f.width / 2, f.height / 2)
  {
    var w, h := f.width / 2, f.height / 2;
    RowsLength(f.y, f.width, f.height);
    RowsLength(g.y, f.width, f.height);
    RowsLength(f.u, w, h);
    RowsLength(g.u, w, h);
    PartsCancel(Rows(f.y, f.width, f.height), Rows(f.u, w, h), Rows(f.v, w, h),
                Rows(g.y, f.width, f.height), Rows(g.u, w, h), Rows(g.v, w, h));
  }

  lemma PartsCancel(a: seq<byte>, b: seq<byte>, c: seq<byte>, x: seq<byte>, y: seq<byte>, z: seq<byte>)
    requires a + b + c == x + y + z && |a| == |x| && |b| == |y|
    ensures a == x && b == y && c == z
  {
    var s, t := a + b + c, x + y + z;
    assert a == s[..|a|] && x == t[..|a|];
    assert b == s[|a|..|a| + |b|] && y == t[|a|..|a| + |b|];
    assert c == s[|a| + |b|..] && z == t[|a| + |b|..];
  }
}
