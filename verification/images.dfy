/** Images as the capture and image libraries hand them around: a grid of
    rows of pixels, each pixel a short sequence of 8-bit channel values. */
module Images {

  /** One 8-bit channel value. */
  type Byte = b: int | 0 <= b < 256

  /** A pixel's channel values in storage order: B, G, R, and A when present. */
  type Pixel = seq<Byte>

  /** Row-major grid of pixels: img[y][x] is the pixel in row y, column x. */
  type Image = seq<seq<Pixel>>

  /** The alpha value of a fully opaque pixel. */
  const Opaque: Byte := 255

  function Width(img: Image): (w: nat) {
    if |img| == 0 then 0 else |img[0]|
  }

  function Channels(img: Image): (ch: nat) {
    if |img| == 0 || |img[0]| == 0 then 0 else |img[0][0]|
  }

  /** img has h rows of w pixels each, every pixel with ch channels
      (the shape (h, w, ch) of an array). */
  predicate HasShape(img: Image, h: nat, w: nat, ch: nat) {
    && |img| == h
    && (forall y | 0 <= y < h :: |img[y]| == w)
    && (forall y, x | 0 <= y < h && 0 <= x < w :: |img[y][x]| == ch)
  }

  /** A rectangular grid with the same channel count everywhere. */
  predicate WellFormed(img: Image) {
    HasShape(img, |img|, Width(img), Channels(img))
  }

  /** A captured frame: rectangular and three-channel (B, G, R). */
  predicate IsFrame(img: Image) {
    HasShape(img, |img|, Width(img), 3)
  }

  /** The channel permutation of BGR to RGB and of BGRA to RGBA: the first and
      third channels change places, anything after the third is kept. */
  function SwapRB(p: Pixel): (q: Pixel)
    requires |p| >= 3
    ensures |q| == |p|
  {
    [p[2], p[1], p[0]] + p[3..]
  }

  /** The BGR to BGRA promotion of one pixel: an opaque alpha is appended. */
  function AddAlpha(p: Pixel): (q: Pixel)
    requires |p| == 3
    ensures |q| == 4
  {
    p + [Opaque]
  }

  /** The alpha a pixel shows once promoted to four channels. */
  function AlphaOf(p: Pixel): (alpha: Byte)
    requires |p| >= 3
  {
    if |p| == 3 then Opaque else p[3]
  }

  /** q is the RGBA form of the colour in storage-order pixel bgr with the given alpha. */
  predicate IsRgbaOf(q: Pixel, bgr: Pixel, alpha: Byte)
    requires |bgr| >= 3
  {
    |q| == 4 && q[0] == bgr[2] && q[1] == bgr[1] && q[2] == bgr[0] && q[3] == alpha
  }

  function MapRow(row: seq<Pixel>, f: Pixel --> Pixel): (r: seq<Pixel>)
    requires forall x | 0 <= x < |row| :: f.requires(row[x])
    ensures |r| == |row|
    ensures forall x | 0 <= x < |row| :: r[x] == f(row[x])
  {
    seq(|row|, x requires 0 <= x < |row| => f(row[x]))
  }

  /** Applies a per-pixel conversion to every pixel; the grid keeps its shape
      and every pixel is replaced by its own image under f. */
  function MapPixels(img: Image, f: Pixel --> Pixel): (r: Image)
    requires forall y, x | 0 <= y < |img| && 0 <= x < |img[y]| :: f.requires(img[y][x])
    ensures |r| == |img|
    ensures forall y | 0 <= y < |img| :: |r[y]| == |img[y]|
    ensures forall y, x | 0 <= y < |img| && 0 <= x < |img[y]| :: r[y][x] == f(img[y][x])
    decreases |img|
  {
    if |img| == 0 then []
    else [MapRow(img[0], f)] + MapPixels(img[1..], f)
  }

  /** Every pixel of img has at least three channels. */
  predicate HasColour(img: Image) {
    forall y, x | 0 <= y < |img| && 0 <= x < |img[y]| :: |img[y][x]| >= 3
  }

  /** The colour conversion BGR to RGB (three channels) and BGRA to RGBA
      (four channels): same shape, every pixel with its first and third
      channel exchanged. */
  function ToRgb(img: Image): (r: Image)
    requires HasColour(img)
    ensures |r| == |img|
    ensures forall y | 0 <= y < |img| :: |r[y]| == |img[y]|
    ensures forall y, x | 0 <= y < |img| && 0 <= x < |img[y]| ::
      |r[y][x]| == |img[y][x]| &&
      r[y][x][0] == img[y][x][2] && r[y][x][1] == img[y][x][1] &&
      r[y][x][2] == img[y][x][0] && r[y][x][3..] == img[y][x][3..]
  {
    MapPixels(img, SwapRB)
  }

  /** The promotion BGR to BGRA: same rows and columns, four channels, the
      colour channels kept and an opaque alpha added. */
  function Promote(img: Image): (r: Image)
    requires Channels(img) == 3 && WellFormed(img)
    ensures HasShape(r, |img|, Width(img), 4)
    ensures forall y, x | 0 <= y < |img| && 0 <= x < |img[y]| ::
      r[y][x][..3] == img[y][x] && r[y][x][3] == Opaque
  {
    MapPixels(img, AddAlpha)
  }

  lemma SwapRBInvolution(p: Pixel)
    requires |p| >= 3
    ensures SwapRB(SwapRB(p)) == p
  {
  }

  /** Converting the channel order twice gives back the original image. */
  lemma ToRgbInvolution(img: Image)
    requires HasColour(img)
    ensures ToRgb(ToRgb(img)) == img
  {
    var once := ToRgb(img);
    var twice := ToRgb(once);
    forall y | 0 <= y < |img|
      ensures twice[y] == img[y]
    {
      forall x | 0 <= x < |img[y]|
        ensures twice[y][x] == img[y][x]
      {
        var p := img[y][x];
        assert once[y][x] == SwapRB(p);
        SwapRBInvolution(p);
      }
    }
  }
}
