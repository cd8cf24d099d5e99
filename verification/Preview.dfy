/**
 The preview: a mirrored, upright, centre-cropped square drawn from an NV21 frame (CameraSource::renderPreview), for
 any frame size. Output pixels are (u, v); frame samples are (x, y).
 */
module Preview {
  import opened Wrappers
  import opened Nv21

  datatype Point = Point(x: int, y: int)

  function Side(w: nat, h: nat): nat {
    if w <= h then w else h
  }

  function Rotation(sensorOrientation: int): int {
    (360 - sensorOrientation % 360) % 360
  }

  /** The frame sample behind output pixel (u, v), as the renderer computes it. */
  function Sample(rotation: int, w: nat, h: nat, p: Point): Point {
    var side := Side(w, h);
    var rotatedWidth := if rotation % 180 != 0 then h else w;
    var rotatedHeight := if rotation % 180 != 0 then w else h;
    var rx := p.x + (rotatedWidth - side) / 2;
    var ry := p.y + (rotatedHeight - side) / 2;
    var m :=
      if rotation == 90 then Point(ry, h - 1 - rx)
      else if rotation == 180 then Point(w - 1 - rx, h - 1 - ry)
      else if rotation == 270 then Point(w - 1 - ry, rx)
      else Point(rx, ry);
    Point(w - 1 - m.x, m.y)
  }

  predicate InSquare(n: nat, p: Point) {
    0 <= p.x < n && 0 <= p.y < n
  }

  predicate InFrame(w: nat, h: nat, p: Point) {
    0 <= p.x < w && 0 <= p.y < h
  }

  predicate QuarterTurn(rotation: int) {
    rotation == 0 || rotation == 90 || rotation == 180 || rotation == 270
  }

  // ----- The geometry in the square's own coordinates

  /** The square turned by k quarter turns. */
  function Turn(n: nat, k: nat, p: Point): Point {
    if k % 4 == 0 then p
    else if k % 4 == 1 then Point(p.y, n - 1 - p.x)
    else if k % 4 == 2 then Point(n - 1 - p.x, n - 1 - p.y)
    else Point(n - 1 - p.y, p.x)
  }

  function Mirror(n: nat, p: Point): Point {
    Point(n - 1 - p.x, p.y)
  }

  /** The turns are a cyclic group of order four; a quarter turn generates it. */
  lemma TurnsCompose(n: nat, i: nat, j: nat, p: Point)
    ensures Turn(n, i, Turn(n, j, p)) == Turn(n, i + j, p)
    ensures Turn(n, 4, p) == p
    ensures Turn(n, 1, Turn(n, 1, p)) == Turn(n, 2, p)
    ensures InSquare(n, p) ==> InSquare(n, Turn(n, i, p))
  {
    var a, b := i % 4, j % 4;
    assert (i + j) % 4 == (a + b) % 4;
  }

  /** Turns of a square with more than one pixel are different maps. */
  lemma TurnsDiffer(n: nat, i: nat, j: nat)
    requires n > 1
    ensures Turn(n, i, Point(0, 0)) == Turn(n, j, Point(0, 0)) <==> i % 4 == j % 4
  {
  }

  /**
   The mirrored maps that the preview uses compose like reflections, not like turns: doing one after another is a
   plain turn by the difference, so each undoes itself.
   */
  lemma MirroredTurnsCompose(n: nat, i: nat, j: nat, p: Point)
    ensures Mirror(n, Turn(n, i, Mirror(n, Turn(n, j, p)))) == Turn(n, j + 3 * i, p)
    ensures Mirror(n, Turn(n, i, Mirror(n, Turn(n, i, p)))) == p
  {
    var a, b := i % 4, j % 4;
    assert (j + 3 * i) % 4 == (b + 3 * a) % 4;
    assert (i + 3 * i) % 4 == 0;
  }

  /** The square as displayed after k quarter turns. */
  function Display(n: nat, k: nat, p: Point): Point {
    Mirror(n, Turn(n, k, p))
  }

  /** A corner of a square of more than one pixel, or its neighbour, at which a turn and a mirrored turn differ. */
  function Apart(n: nat, i: nat, k: nat): (p: Point)
    requires n > 1
    ensures InSquare(n, p) && Turn(n, i, p) != Display(n, k, p)
  {
    if Turn(n, i, Point(0, 0)) != Display(n, k, Point(0, 0)) then Point(0, 0)
    else if Turn(n, i, Point(1, 0)) != Display(n, k, Point(1, 0)) then Point(1, 0)
    else Point(0, 1)
  }

  /**
   The mirrored maps are not the cyclic group their turns are: doing any two of them in a row is one of them again
   exactly for a square of at most one pixel. In particular 90 degrees twice is not 180 degrees.
   */
  lemma DisplaysComposeIff(n: nat, i: nat, j: nat, k: nat)
    ensures (forall p :: InSquare(n, p) ==> Display(n, i, Display(n, j, p)) == Display(n, k, p)) <==> n <= 1
  {
    if n > 1 {
      var p := Apart(n, j + 3 * i, k);
      MirroredTurnsCompose(n, i, j, p);
      assert Display(n, i, Display(n, j, p)) != Display(n, k, p);
    }
  }

  lemma DisplayIsInvolution(n: nat, k: nat, p: Point)
    ensures Display(n, k, Display(n, k, p)) == p
    ensures InSquare(n, p) <==> InSquare(n, Display(n, k, p))
  {
    MirroredTurnsCompose(n, k, k, p);
  }

  function CropOrigin(w: nat, h: nat): Point {
    Point((w - Side(w, h)) / 2, (h - Side(w, h)) / 2)
  }

  function Plus(p: Point, q: Point): Point {
    Point(p.x + q.x, p.y + q.y)
  }

  function Minus(p: Point, q: Point): Point {
    Point(p.x - q.x, p.y - q.y)
  }

  /** The centred square of the frame. */
  predicate InCrop(w: nat, h: nat, p: Point) {
    InSquare(Side(w, h), Minus(p, CropOrigin(w, h)))
  }

  /** For even W - H the renderer's arithmetic is: turn, mirror, and move onto the centred square. */
  lemma SampleIsDisplay(rotation: int, w: nat, h: nat, p: Point)
    requires QuarterTurn(rotation) && (w - h) % 2 == 0
    ensures Sample(rotation, w, h, p) == Plus(CropOrigin(w, h), Display(Side(w, h), rotation / 90, p))
  {
    var n := Side(w, h);
    assert (w - n) / 2 * 2 == w - n && (h - n) / 2 * 2 == h - n;
  }

  /** The output pixel that shows a sample of the crop. */
  function Shows(rotation: int, w: nat, h: nat, s: Point): Point
    requires QuarterTurn(rotation)
  {
    Display(Side(w, h), rotation / 90, Minus(s, CropOrigin(w, h)))
  }

  /** Each of the four rotations maps the output square one-to-one onto the same centred square of the frame. */
  lemma SampleIsBijection(rotation: int, w: nat, h: nat, p: Point)
    requires QuarterTurn(rotation) && (w - h) % 2 == 0
    ensures InSquare(Side(w, h), p) <==> InCrop(w, h, Sample(rotation, w, h, p))
    ensures Shows(rotation, w, h, Sample(rotation, w, h, p)) == p
    ensures Sample(rotation, w, h, Shows(rotation, w, h, p)) == p
    ensures InCrop(w, h, p) <==> InSquare(Side(w, h), Shows(rotation, w, h, p))
  {
    var n, k, origin := Side(w, h), rotation / 90, CropOrigin(w, h);
    SampleIsDisplay(rotation, w, h, p);
    SampleIsDisplay(rotation, w, h, Shows(rotation, w, h, p));
    DisplayIsInvolution(n, k, p);
    DisplayIsInvolution(n, k, Minus(p, origin));
    assert Minus(Plus(origin, Display(n, k, p)), origin) == Display(n, k, p);
    assert Plus(origin, Minus(p, origin)) == p;
  }

  /** All four rotations stay inside the centred square exactly when W - H is even. */
  lemma CropsAgreeIff(w: nat, h: nat)
    requires w > 0 && h > 0
    ensures (forall rotation, p :: QuarterTurn(rotation) && InSquare(Side(w, h), p) ==>
               InCrop(w, h, Sample(rotation, w, h, p)))
            <==> (w - h) % 2 == 0
  {
    if (w - h) % 2 == 0 {
      forall rotation, p | QuarterTurn(rotation) && InSquare(Side(w, h), p)
        ensures InCrop(w, h, Sample(rotation, w, h, p))
      {
        SampleIsBijection(rotation, w, h, p);
      }
    } else {
      OddCropsDiffer(w, h);
      assert InSquare(Side(w, h), Point(0, 0));
    }
  }

  /** For odd W - H the first pixel leaves the centred square either unturned or turned by 180 degrees. */
  lemma OddCropsDiffer(w: nat, h: nat)
    requires w > 0 && h > 0 && (w - h) % 2 != 0
    ensures !InCrop(w, h, Sample(0, w, h, Point(0, 0))) || !InCrop(w, h, Sample(180, w, h, Point(0, 0)))
  {
  }

  // ----- Reads

  /** Every pixel reads inside the frame, for every frame size and rotation value. */
  lemma SampleInFrame(rotation: int, w: nat, h: nat, p: Point)
    requires InSquare(Side(w, h), p)
    requires rotation % 180 != 0 ==> QuarterTurn(rotation)
    ensures InFrame(w, h, Sample(rotation, w, h, p))
  {
  }

  function LumaIndex(w: nat, s: Point): int {
    s.y * w + s.x
  }

  /** Index of V in the chroma part; U follows it. */
  function ChromaIndexOf(w: nat, s: Point): int {
    s.y / 2 * w + (s.x - s.x % 2)
  }

  lemma ReadsInBounds(w: nat, h: nat, s: Point)
    requires EvenSize(w, h) && InFrame(w, h, s)
    ensures 0 <= LumaIndex(w, s) < w * h
    ensures 0 <= ChromaIndexOf(w, s) && ChromaIndexOf(w, s) + 1 < w * (h / 2)
  {
    RowsFit(s.y, h, w);
    RowsFit(s.y / 2, h / 2, w);
  }

  function Clamp8(v: int): int {
    if v < 0 then 0 else if v > 255 then 255 else v
  }

  /** Fixed-point full-range YCbCr to a packed R8G8B8A8 word; the shifts round towards minus infinity. */
  function Colour(luma: Byte, v: Byte, u: Byte): int {
    var cr, cb := v - 128, u - 128;
    0xff00_0000
    + Clamp8(luma + 116130 * cb / 0x1_0000) * 0x1_0000
    + Clamp8(luma - (22554 * cb + 46802 * cr) / 0x1_0000) * 0x100
    + Clamp8(luma + 91881 * cr / 0x1_0000)
  }

  /** The word drawn at output pixel p. */
  function Pixel(nv21: seq<Byte>, rotation: int, w: nat, h: nat, p: Point): int
    requires EvenSize(w, h) && |nv21| == Size(w, h) && QuarterTurn(rotation) && InSquare(Side(w, h), p)
  {
    SampleInFrame(rotation, w, h, p);
    var s := Sample(rotation, w, h, p);
    ReadsInBounds(w, h, s);
    var c := w * h + ChromaIndexOf(w, s);
    Colour(nv21[LumaIndex(w, s)], nv21[c], nv21[c + 1])
  }

  /** From the planes to the screen: each output pixel shows the luma and the 2-by-2 chroma of its sample. */
  lemma PixelShowsPlanes(nv21: seq<Byte>, planes: Planes, rotation: int, w: nat, h: nat, p: Point)
    requires EvenSize(w, h) && ValidPlanes(w, h, planes) && IsNv21(nv21, planes, w, h)
    requires QuarterTurn(rotation) && InSquare(Side(w, h), p)
    ensures var s := Sample(rotation, w, h, p);
            && InFrame(w, h, s)
            && Pixel(nv21, rotation, w, h, p) ==
               Colour(Y(planes, w, h, s.y, s.x), V(planes, w, h, s.y / 2, s.x / 2), U(planes, w, h, s.y / 2, s.x / 2))
  {
    SampleInFrame(rotation, w, h, p);
    var s := Sample(rotation, w, h, p);
    ReadsInBounds(w, h, s);
    LumaUnpacked(nv21, planes, w, h, s.y, s.x);
    ChromaUnpacked(nv21, planes, w, h, s.y / 2, s.x / 2);
    assert w * h + ChromaIndexOf(w, s) == w * h + s.y / 2 * w + 2 * (s.x / 2);
  }

  // ----- From the sensor's orientation

  /** The frame sample behind output pixel p, for a sensor mounted at `orientation` degrees. */
  function SensorSample(orientation: int, w: nat, h: nat, p: Point): Point {
    var side := Side(w, h);
    match orientation % 360
    case 90 => Point(p.y + (w - side) / 2, p.x + (h - side) / 2)
    case 180 => Point(p.x + (w - side) / 2, h - 1 - (p.y + (h - side) / 2))
    case 270 => Point(w - 1 - (p.y + (w - side) / 2), h - 1 - (p.x + (h - side) / 2))
    case _ => Point(w - 1 - (p.x + (w - side) / 2), p.y + (h - side) / 2)
  }

  /** The renderer's rotation turns the picture back by as much as the sensor is turned. */
  lemma RotationUndoesSensor(n: nat, orientation: int, p: Point)
    requires orientation % 90 == 0
    ensures QuarterTurn(Rotation(orientation))
    ensures Turn(n, orientation % 360 / 90, Turn(n, Rotation(orientation) / 90, p)) == p
    ensures (orientation + Rotation(orientation)) % 360 == 0
  {
    var k := orientation / 90;
    assert orientation % 360 == 90 * (k % 4);
  }

  lemma RotationOfSensor(orientation: int)
    requires orientation % 90 == 0
    ensures var o := orientation % 360;
            || (o == 0 && Rotation(orientation) == 0) || (o == 90 && Rotation(orientation) == 270)
            || (o == 180 && Rotation(orientation) == 180) || (o == 270 && Rotation(orientation) == 90)
  {
    var k := orientation / 90;
    assert orientation % 360 == 90 * (k % 4);
  }

  /** The four index formulas, said of the sensor's orientation. */
  lemma SampleOfSensor(orientation: int, w: nat, h: nat, p: Point)
    requires orientation % 90 == 0
    ensures Sample(Rotation(orientation), w, h, p) == SensorSample(orientation, w, h, p)
  {
    RotationOfSensor(orientation);
    SampleFormulas(w, h, p);
  }

  lemma SampleFormulas(w: nat, h: nat, p: Point)
    ensures var x, y := (w - Side(w, h)) / 2, (h - Side(w, h)) / 2;
            && Sample(0, w, h, p) == Point(w - 1 - (p.x + x), p.y + y)
            && Sample(90, w, h, p) == Point(w - 1 - (p.y + x), h - 1 - (p.x + y))
            && Sample(180, w, h, p) == Point(p.x + x, h - 1 - (p.y + y))
            && Sample(270, w, h, p) == Point(p.y + x, p.x + y)
  {
  }

  /** The word for a frame sample: its luma, and the V and U bytes of its 2-by-2 block. */
  function WordAt(nv21: seq<Byte>, w: nat, h: nat, s: Point): int
    requires EvenSize(w, h) && |nv21| == Size(w, h) && InFrame(w, h, s)
  {
    ReadsInBounds(w, h, s);
    var v := w * h + s.y / 2 * w + (s.x - s.x % 2);
    Colour(nv21[s.y * w + s.x], nv21[v], nv21[v + 1])
  }

  lemma SensorPixel(nv21: seq<Byte>, orientation: int, w: nat, h: nat, p: Point)
    requires EvenSize(w, h) && |nv21| == Size(w, h) && orientation % 90 == 0 && InSquare(Side(w, h), p)
    ensures QuarterTurn(Rotation(orientation)) && InFrame(w, h, SensorSample(orientation, w, h, p))
    ensures Pixel(nv21, Rotation(orientation), w, h, p) == WordAt(nv21, w, h, SensorSample(orientation, w, h, p))
  {
    RotationUndoesSensor(1, orientation, p);
    SampleOfSensor(orientation, w, h, p);
    SampleInFrame(Rotation(orientation), w, h, p);
  }

  // ----- Drawing

  /** What the preview puts at index i of a buffer with the given stride; None outside the square. */
  function Drawn(nv21: seq<Byte>, rotation: int, w: nat, h: nat, stride: nat, i: nat): Option<int>
    requires EvenSize(w, h) && |nv21| == Size(w, h) && QuarterTurn(rotation)
  {
    if stride == 0 then None
    else
      var p := Point(i % stride, i / stride);
      if InSquare(Side(w, h), p) then Some(Pixel(nv21, rotation, w, h, p)) else None
  }

  /** Index i of a buffer with the given stride lies in the square. */
  predicate Inside(w: nat, h: nat, stride: nat, i: nat) {
    stride > 0 && i % stride < Side(w, h) && i / stride < Side(w, h)
  }

  /** What the preview shows there: the frame sample for the sensor's orientation. */
  function SensorWord(nv21: seq<Byte>, orientation: int, w: nat, h: nat, stride: nat, i: nat): int
    requires EvenSize(w, h) && |nv21| == Size(w, h) && orientation % 90 == 0 && Inside(w, h, stride, i)
  {
    var p := Point(i % stride, i / stride);
    SensorPixel(nv21, orientation, w, h, p);
    WordAt(nv21, w, h, SensorSample(orientation, w, h, p))
  }

  /** The drawn word at row v, column u, and none beyond the side. */
  lemma DrawnAt(nv21: seq<Byte>, rotation: int, w: nat, h: nat, stride: nat, v: nat, u: nat)
    requires EvenSize(w, h) && |nv21| == Size(w, h) && QuarterTurn(rotation)
    requires v < Side(w, h) && u < stride
    ensures Drawn(nv21, rotation, w, h, stride, v * stride + u) ==
            if u < Side(w, h) then Some(Pixel(nv21, rotation, w, h, Point(u, v))) else None
  {
    DivMod(v, u, stride);
  }

  method DrawRow(bits: array<int>, nv21: seq<Byte>, rotation: int, w: nat, h: nat, stride: nat, v: nat)
    requires EvenSize(w, h) && |nv21| == Size(w, h) && QuarterTurn(rotation)
    requires v < Side(w, h) <= stride && v * stride + Side(w, h) <= bits.Length
    modifies bits
    ensures forall i: nat :: v * stride <= i < v * stride + Side(w, h) ==>
              Drawn(nv21, rotation, w, h, stride, i) == Some(bits[i])
    ensures forall i: nat :: i < v * stride || v * stride + Side(w, h) <= i < bits.Length ==> bits[i] == old(bits[i])
  {
    var side := Side(w, h);
    var row := v * stride;
    var u := 0;
    while u < side
      invariant 0 <= u <= side
      invariant forall i: nat :: row <= i < row + u ==> Drawn(nv21, rotation, w, h, stride, i) == Some(bits[i])
      invariant forall i: nat :: i < row || row + u <= i < bits.Length ==> bits[i] == old(bits[i])
    {
      bits[row + u] := ShadePixel(nv21, rotation, w, h, u, v);
      DrawnAt(nv21, rotation, w, h, stride, v, u);
      u := u + 1;
    }
  }

  /** The body of the inner loop. */
  method ShadePixel(nv21: seq<Byte>, rotation: int, w: nat, h: nat, u: nat, v: nat) returns (word: int)
    requires EvenSize(w, h) && |nv21| == Size(w, h) && QuarterTurn(rotation)
    requires InSquare(Side(w, h), Point(u, v))
    ensures word == Pixel(nv21, rotation, w, h, Point(u, v))
  {
    var s := Sample(rotation, w, h, Point(u, v));
    SampleInFrame(rotation, w, h, Point(u, v));
    ReadsInBounds(w, h, s);
    var vu := w * h + ChromaIndexOf(w, s);
    word := Colour(nv21[LumaIndex(w, s)], nv21[vu], nv21[vu + 1]);
  }

  /** The double loop: exactly the pixels of the square are drawn, and the padding of each row keeps its content. */
  method DrawSquare(bits: array<int>, nv21: seq<Byte>, rotation: int, w: nat, h: nat, stride: nat)
    requires EvenSize(w, h) && |nv21| == Size(w, h) && QuarterTurn(rotation)
    requires Side(w, h) <= stride && (Side(w, h) - 1) * stride + Side(w, h) <= bits.Length
    modifies bits
    ensures forall i: nat :: i < bits.Length ==>
              var d := Drawn(nv21, rotation, w, h, stride, i);
              bits[i] == if d.Some? then d.value else old(bits[i])
  {
    var side := Side(w, h);
    var v := 0;
    ghost var drawn := 0;
    while v < side
      invariant 0 <= v <= side && drawn == v * stride
      invariant forall i: nat :: i < bits.Length ==>
                  var d := Drawn(nv21, rotation, w, h, stride, i);
                  bits[i] == if i < drawn && d.Some? then d.value else old(bits[i])
    {
      LastRowFits(v, side, stride);
      DrawRow(bits, nv21, rotation, w, h, stride, v);
      forall i: nat | drawn + side <= i < drawn + stride
        ensures Drawn(nv21, rotation, w, h, stride, i).None?
      {
        DrawnAt(nv21, rotation, w, h, stride, v, i - drawn);
      }
      v := v + 1;
      drawn := drawn + stride;
    }
    forall i: nat | drawn <= i
      ensures Drawn(nv21, rotation, w, h, stride, i).None?
    {
      BeyondLastRow(i, side, stride);
    }
  }

  lemma DrawnOfSensor(nv21: seq<Byte>, orientation: int, w: nat, h: nat, stride: nat, i: nat)
    requires EvenSize(w, h) && |nv21| == Size(w, h) && orientation % 90 == 0
    ensures QuarterTurn(Rotation(orientation))
    ensures Drawn(nv21, Rotation(orientation), w, h, stride, i) ==
            if Inside(w, h, stride, i) then Some(SensorWord(nv21, orientation, w, h, stride, i)) else None
  {
    RotationOfSensor(orientation);
    if Inside(w, h, stride, i) { SensorPixel(nv21, orientation, w, h, Point(i % stride, i / stride)); }
  }

  /**
   renderPreview into a locked buffer of any stride of at least the side: exactly the pixels of the square show the
   frame as the sensor's orientation asks, and nothing happens if the window cannot be locked.
   */
  method RenderPreview(bits: array<int>, nv21: seq<Byte>, sensorOrientation: int, w: nat, h: nat, stride: nat,
                       locked: bool)
    requires EvenSize(w, h) && |nv21| == Size(w, h) && sensorOrientation % 90 == 0
    requires locked ==> Side(w, h) <= stride && (Side(w, h) - 1) * stride + Side(w, h) <= bits.Length
    modifies bits
    ensures forall i: nat :: i < bits.Length ==>
              bits[i] == if locked && Inside(w, h, stride, i)
                         then SensorWord(nv21, sensorOrientation, w, h, stride, i)
                         else old(bits[i])
  {
    if !locked { return; }
    RotationOfSensor(sensorOrientation);
    DrawSquare(bits, nv21, Rotation(sensorOrientation), w, h, stride);
    forall i: nat | i < bits.Length
      ensures bits[i] == if Inside(w, h, stride, i) then SensorWord(nv21, sensorOrientation, w, h, stride, i)
                         else old(bits[i])
    {
      DrawnOfSensor(nv21, sensorOrientation, w, h, stride, i);
    }
  }

  lemma LastRowFits(v: nat, side: nat, stride: nat)
    requires v < side
    ensures v * stride <= (side - 1) * stride && (v + 1) * stride == v * stride + stride
  {
  }

  lemma BeyondLastRow(i: nat, side: nat, stride: nat)
    requires stride > 0 && i >= side * stride
    ensures i / stride >= side
  {
    var d := i / stride - side;
    assert stride * (d + 1) > 0 by { assert i == stride * (i / stride) + i % stride; }
  }

  // ----- Colour

  /**
   The word is opaque R8G8B8A8, and its channels are luma plus 1.402 Cr, luma minus 0.344136 Cb minus 0.714136 Cr, and
   luma plus 1.772 Cb (ITU-T T.871, section 7), each off by at most one and clamped to a byte.
   */
  lemma ColourIsFullRange(luma: Byte, v: Byte, u: Byte)
    ensures exists r, g, b ::
              && Colour(luma, v, u) == ClampedWord(r, g, b)
              && -2000 < 1000 * (r - luma) - 1402 * (v - 128) < 1000
              && -1000_000 < 1000_000 * (g - luma) + 344_136 * (u - 128) + 714_136 * (v - 128) < 2000_000
              && -2000 < 1000 * (b - luma) - 1772 * (u - 128) < 1000
  {
    var cr, cb := v - 128, u - 128;
    var r := luma + 91881 * cr / 0x1_0000;
    var g := luma - (22554 * cb + 46802 * cr) / 0x1_0000;
    var b := luma + 116130 * cb / 0x1_0000;
    assert Colour(luma, v, u) == ClampedWord(r, g, b);
  }

  /** Red in the lowest byte, then green, blue and alpha 255. */
  function ClampedWord(r: int, g: int, b: int): int {
    (if r < 0 then 0 else if r > 255 then 255 else r)
    + 0x100 * (if g < 0 then 0 else if g > 255 then 255 else g)
    + 0x1_0000 * (if b < 0 then 0 else if b > 255 then 255 else b)
    + 0x100_0000 * 255
  }
}
