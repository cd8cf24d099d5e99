/** Repacking a strided YUV_420_888 image into one NV21 buffer (CameraSource::copyImage), for any even frame size. */
module Nv21 {
  import opened Wrappers

  type Byte = x: int | 0 <= x < 256

  /** The three planes with their strides; u and v share theirs. */
  datatype Planes = Planes(
    y: seq<Byte>, u: seq<Byte>, v: seq<Byte>,
    yStride: nat, uvStride: nat, uvPixelStride: nat)

  /** An AImage: `planes` is None when the plane data cannot be read. */
  datatype Image = Image(width: int, height: int, planes: Option<Planes>)

  /** Offset of the sample at a row and column of a plane. */
  function Offset(row: nat, col: nat, rowStride: nat, pixelStride: nat): nat {
    row * rowStride + col * pixelStride
  }

  /** Every sample of a rows-by-cols plane lies inside its data. */
  ghost predicate Covers(data: seq<Byte>, rows: nat, cols: nat, rowStride: nat, pixelStride: nat) {
    forall r: nat, c: nat :: r < rows && c < cols ==> Offset(r, c, rowStride, pixelStride) < |data|
  }

  ghost predicate ValidPlanes(w: nat, h: nat, p: Planes) {
    && Covers(p.y, h, w, p.yStride, 1)
    && Covers(p.u, h / 2, w / 2, p.uvStride, p.uvPixelStride)
    && Covers(p.v, h / 2, w / 2, p.uvStride, p.uvPixelStride)
  }

  ghost predicate EvenSize(w: nat, h: nat) {
    w > 0 && h > 0 && w % 2 == 0 && h % 2 == 0
  }

  ghost function Y(p: Planes, w: nat, h: nat, row: nat, col: nat): Byte
    requires ValidPlanes(w, h, p) && row < h && col < w
  {
    p.y[Offset(row, col, p.yStride, 1)]
  }

  ghost function U(p: Planes, w: nat, h: nat, row: nat, col: nat): Byte
    requires ValidPlanes(w, h, p) && row < h / 2 && col < w / 2
  {
    p.u[Offset(row, col, p.uvStride, p.uvPixelStride)]
  }

  ghost function V(p: Planes, w: nat, h: nat, row: nat, col: nat): Byte
    requires ValidPlanes(w, h, p) && row < h / 2 && col < w / 2
  {
    p.v[Offset(row, col, p.uvStride, p.uvPixelStride)]
  }

  /** A nonzero multiple of n is at least n away from zero. */
  lemma MultipleBound(n: nat, d: int)
    ensures d > 0 ==> n * d >= n
    ensures d < 0 ==> n * d + n <= 0
  {
  }

  lemma DivMod(q: nat, r: nat, n: nat)
    requires r < n
    ensures (q * n + r) / n == q && (q * n + r) % n == r
  {
    var x := q * n + r;
    var d := x / n - q;
    assert n * d == r - x % n by { assert x == n * (x / n) + x % n; }
    MultipleBound(n, d);
  }

  /** Rows and columns of an index into an n-column table with m rows. */
  lemma RowInRange(i: nat, n: nat, m: nat)
    requires n > 0 && i < n * m
    ensures i / n < m && i % n < n && i == (i / n) * n + i % n
  {
    assert n * (m - i / n) > 0 by { assert i == n * (i / n) + i % n; }
  }

  lemma ChromaInRange(w: nat, h: nat, i: nat)
    requires EvenSize(w, h) && i < w * (h / 2)
    ensures i / w < h / 2 && i % w / 2 < w / 2
  {
    RowInRange(i, w, h / 2);
  }

  /** Size of an NV21 frame: luma, then half as much interleaved chroma. */
  function Size(w: nat, h: nat): nat {
    w * h + w * (h / 2)
  }

  lemma SizeIsThreeHalves(w: nat, h: nat)
    requires EvenSize(w, h)
    ensures Size(w, h) == w * h * 3 / 2
  {
    var k := h / 2;
    assert w * h == w * k * 2 by { assert h == k * 2; }
  }

  /** The byte at an index of the luma part: rows of w samples without padding. */
  ghost function LumaAt(p: Planes, w: nat, h: nat, i: nat): Byte
    requires ValidPlanes(w, h, p) && w > 0 && i < w * h
  {
    RowInRange(i, w, h);
    Y(p, w, h, i / w, i % w)
  }

  /** The byte at an index of the chroma part: rows of w / 2 pairs, V before U. */
  ghost function ChromaAt(p: Planes, w: nat, h: nat, i: nat): Byte
    requires ValidPlanes(w, h, p) && EvenSize(w, h) && i < w * (h / 2)
  {
    ChromaInRange(w, h, i);
    if i % 2 == 0 then V(p, w, h, i / w, i % w / 2) else U(p, w, h, i / w, i % w / 2)
  }

  ghost predicate IsNv21(data: seq<Byte>, p: Planes, w: nat, h: nat)
    requires ValidPlanes(w, h, p) && EvenSize(w, h)
  {
    && |data| == Size(w, h)
    && (forall i: nat :: i < w * h ==> data[i] == LumaAt(p, w, h, i))
    && (forall i: nat :: i < w * (h / 2) ==> data[w * h + i] == ChromaAt(p, w, h, i))
  }

  /** Where the sample of a luma byte lies in its plane. */
  lemma LumaSource(p: Planes, w: nat, h: nat, row: nat, col: nat)
    requires ValidPlanes(w, h, p) && row < h && col < w && row * w + col < w * h
    ensures row * p.yStride + col < |p.y|
    ensures LumaAt(p, w, h, row * w + col) == p.y[row * p.yStride + col]
  {
    assert Offset(row, col, p.yStride, 1) < |p.y|;
    DivMod(row, col, w);
  }

  /** memcpy of one luma row, which starts at `base` in the buffer. */
  method CopyLumaRow(dst: array<Byte>, p: Planes, w: nat, h: nat, row: nat, base: nat)
    requires ValidPlanes(w, h, p) && w > 0 && row < h && base == row * w && base + w <= w * h <= dst.Length
    modifies dst
    ensures forall i: nat :: base <= i < base + w ==> dst[i] == LumaAt(p, w, h, i)
    ensures forall i: nat :: i < base || base + w <= i < dst.Length ==> dst[i] == old(dst[i])
  {
    var col := 0;
    while col < w
      invariant 0 <= col <= w
      invariant forall i: nat :: base <= i < base + col ==> dst[i] == LumaAt(p, w, h, i)
      invariant forall i: nat :: i < base || base + col <= i < dst.Length ==> dst[i] == old(dst[i])
    {
      LumaSource(p, w, h, row, col);
      dst[base + col] := p.y[row * p.yStride + col];
      col := col + 1;
    }
  }

  /** One chroma row, written through the running pointer `vu`. */
  method CopyChromaRow(dst: array<Byte>, p: Planes, w: nat, h: nat, row: nat, ghost base: nat, vu0: nat)
    returns (vu: nat)
    requires ValidPlanes(w, h, p) && EvenSize(w, h) && row < h / 2 && row * w + w <= w * (h / 2)
    requires vu0 == base + row * w && vu0 + w <= dst.Length
    modifies dst
    ensures vu == vu0 + w
    ensures forall i: nat :: row * w <= i < row * w + w ==> dst[base + i] == ChromaAt(p, w, h, i)
    ensures forall i: nat :: i < vu0 || vu0 + w <= i < dst.Length ==> dst[i] == old(dst[i])
  {
    vu := vu0;
    var col := 0;
    while col < w / 2
      invariant 0 <= col <= w / 2 && vu == vu0 + 2 * col
      invariant forall i: nat :: row * w <= i < row * w + 2 * col ==> dst[base + i] == ChromaAt(p, w, h, i)
      invariant forall i: nat :: i < vu0 || vu <= i < dst.Length ==> dst[i] == old(dst[i])
    {
      assert Offset(row, col, p.uvStride, p.uvPixelStride) < |p.v|;
      assert Offset(row, col, p.uvStride, p.uvPixelStride) < |p.u|;
      ghost var i := row * w + 2 * col;
      ChromaIndex(w, row, col);
      dst[vu] := p.v[row * p.uvStride + col * p.uvPixelStride];
      vu := vu + 1;
      dst[vu] := p.u[row * p.uvStride + col * p.uvPixelStride];
      vu := vu + 1;
      assert ChromaAt(p, w, h, i) == V(p, w, h, row, col) && ChromaAt(p, w, h, i + 1) == U(p, w, h, row, col);
      col := col + 1;
    }
  }

  lemma ChromaIndex(w: nat, row: nat, col: nat)
    requires w % 2 == 0 && col < w / 2
    ensures var i := row * w + 2 * col;
            && i % 2 == 0 && i / w == row && i % w / 2 == col
            && (i + 1) % 2 == 1 && (i + 1) / w == row && (i + 1) % w / 2 == col
  {
    DivMod(row, 2 * col, w);
    DivMod(row, 2 * col + 1, w);
    var k := w / 2;
    assert row * w == row * k * 2 by { assert w == k * 2; }
    assert (row * w + 2 * col) % 2 == 0;
  }

  method CopyLuma(dst: array<Byte>, p: Planes, w: nat, h: nat)
    requires ValidPlanes(w, h, p) && EvenSize(w, h) && dst.Length == Size(w, h)
    modifies dst
    ensures forall i: nat :: i < w * h ==> dst[i] == LumaAt(p, w, h, i)
  {
    var row := 0;
    ghost var done := 0;
    while row < h
      invariant 0 <= row <= h && done == row * w <= w * h
      invariant forall i: nat :: i < done ==> dst[i] == LumaAt(p, w, h, i)
    {
      RowsFit(row, h, w);
      CopyLumaRow(dst, p, w, h, row, row * w);
      row := row + 1;
      done := done + w;
    }
  }

  /** The chroma half, whose pointer starts at `base` and is never recomputed from the row. */
  method CopyChroma(dst: array<Byte>, p: Planes, w: nat, h: nat, base: nat)
    requires ValidPlanes(w, h, p) && EvenSize(w, h) && dst.Length == base + w * (h / 2)
    modifies dst
    ensures forall i: nat :: i < w * (h / 2) ==> dst[base + i] == ChromaAt(p, w, h, i)
    ensures forall i: nat :: i < base ==> dst[i] == old(dst[i])
  {
    var vu := base;
    var row := 0;
    ghost var done := 0;
    while row < h / 2
      invariant 0 <= row <= h / 2 && done == row * w <= w * (h / 2)
      invariant vu == base + done
      invariant forall i: nat :: i < base ==> dst[i] == old(dst[i])
      invariant forall i: nat :: i < done ==> dst[base + i] == ChromaAt(p, w, h, i)
    {
      RowsFit(row, h / 2, w);
      vu := CopyChromaRow(dst, p, w, h, row, base, vu);
      row := row + 1;
      done := done + w;
    }
  }

  /** copyImage: false, and no buffer, unless the image has the expected size and readable planes. */
  method CopyImage(image: Image, w: nat, h: nat) returns (ok: bool, nv21: array<Byte>)
    requires EvenSize(w, h)
    requires image.width == w && image.height == h && image.planes.Some? ==> ValidPlanes(w, h, image.planes.value)
    ensures ok <==> image.width == w && image.height == h && image.planes.Some?
    ensures fresh(nv21)
    ensures if ok then IsNv21(nv21[..], image.planes.value, w, h) else nv21.Length == 0
  {
    nv21 := new Byte[0];
    if image.width != w || image.height != h || image.planes.None? { return false, nv21; }
    nv21 := new Byte[Size(w, h)];
    CopyLuma(nv21, image.planes.value, w, h);
    CopyChroma(nv21, image.planes.value, w, h, w * h);
    ok := true;
  }

  lemma RowsFit(row: nat, rows: nat, w: nat)
    requires row < rows
    ensures (row + 1) * w == row * w + w && (row + 1) * w <= w * rows
  {
  }

  // ----- Reading the buffer back

  function UnpackY(data: seq<Byte>, w: nat, h: nat, row: nat, col: nat): Option<Byte> {
    var i := row * w + col;
    if i < |data| then Some(data[i]) else None
  }

  function UnpackV(data: seq<Byte>, w: nat, h: nat, row: nat, col: nat): Option<Byte> {
    var i := w * h + row * w + 2 * col;
    if i < |data| then Some(data[i]) else None
  }

  function UnpackU(data: seq<Byte>, w: nat, h: nat, row: nat, col: nat): Option<Byte> {
    var i := w * h + row * w + 2 * col + 1;
    if i < |data| then Some(data[i]) else None
  }

  lemma LumaUnpacked(data: seq<Byte>, p: Planes, w: nat, h: nat, r: nat, c: nat)
    requires ValidPlanes(w, h, p) && EvenSize(w, h) && IsNv21(data, p, w, h) && r < h && c < w
    ensures UnpackY(data, w, h, r, c) == Some(Y(p, w, h, r, c))
  {
    RowsFit(r, h, w);
    DivMod(r, c, w);
    assert data[r * w + c] == LumaAt(p, w, h, r * w + c);
  }

  lemma ChromaUnpacked(data: seq<Byte>, p: Planes, w: nat, h: nat, r: nat, c: nat)
    requires ValidPlanes(w, h, p) && EvenSize(w, h) && IsNv21(data, p, w, h) && r < h / 2 && c < w / 2
    ensures UnpackV(data, w, h, r, c) == Some(V(p, w, h, r, c))
    ensures UnpackU(data, w, h, r, c) == Some(U(p, w, h, r, c))
  {
    RowsFit(r, h / 2, w);
    ChromaIndex(w, r, c);
    var i := r * w + 2 * c;
    assert data[w * h + i] == ChromaAt(p, w, h, i);
    assert data[w * h + (i + 1)] == ChromaAt(p, w, h, i + 1);
  }

  /** Unpacking an NV21 buffer recovers every sample of the three planes. */
  lemma UnpackRecoversPlanes(data: seq<Byte>, p: Planes, w: nat, h: nat)
    requires ValidPlanes(w, h, p) && EvenSize(w, h) && IsNv21(data, p, w, h)
    ensures |data| == w * h * 3 / 2
    ensures forall r: nat, c: nat :: r < h && c < w ==> UnpackY(data, w, h, r, c) == Some(Y(p, w, h, r, c))
    ensures forall r: nat, c: nat :: r < h / 2 && c < w / 2 ==>
              UnpackV(data, w, h, r, c) == Some(V(p, w, h, r, c)) && UnpackU(data, w, h, r, c) == Some(U(p, w, h, r, c))
  {
    SizeIsThreeHalves(w, h);
    forall r: nat, c: nat | r < h && c < w
      ensures UnpackY(data, w, h, r, c) == Some(Y(p, w, h, r, c))
    {
      LumaUnpacked(data, p, w, h, r, c);
    }
    forall r: nat, c: nat | r < h / 2 && c < w / 2
      ensures UnpackV(data, w, h, r, c) == Some(V(p, w, h, r, c)) && UnpackU(data, w, h, r, c) == Some(U(p, w, h, r, c))
    {
      ChromaUnpacked(data, p, w, h, r, c);
    }
  }

  /** Nothing else is in the buffer: it is determined by the planes. */
  lemma Nv21IsUnique(a: seq<Byte>, b: seq<Byte>, p: Planes, w: nat, h: nat)
    requires ValidPlanes(w, h, p) && EvenSize(w, h) && IsNv21(a, p, w, h) && IsNv21(b, p, w, h)
    ensures a == b
  {
    forall i: nat | i < |a|
      ensures a[i] == b[i]
    {
      if i >= w * h {
        var k := i - w * h;
        assert a[w * h + k] == ChromaAt(p, w, h, k) && b[w * h + k] == ChromaAt(p, w, h, k);
      }
    }
  }
}
