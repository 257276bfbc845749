/** One timer tick of the passthrough window: read a frame from the open
    device and turn it into the image to present, either the frame itself in
    display channel order or the frame pasted into an overlay bezel. The
    frame read, the asset loader and the resize are inputs: the first two
    are optional results, the resize is constrained only by the size of what
    it returns. */
module Compositor {
  import opened Options
  import opened Catalog
  import opened Images
  import opened Controller

  /** A resize function, as far as the compositor relies on it: a frame resized
      to w columns and h rows has exactly that shape and stays three-channel. */
  ghost predicate ResizeContract(resize: (Image, nat, nat) -> Image) {
    forall img: Image, w: nat, h: nat {:trigger resize(img, w, h)} ::
      IsFrame(img) ==> HasShape(resize(img, w, h), h, w, 3)
  }

  /** An overlay asset the rectangle can be pasted into: rectangular, three
      or four channels, large enough to hold the rectangle. */
  predicate AssetFits(asset: Image, rect: Rect) {
    && WellFormed(asset)
    && Channels(asset) in {3, 4}
    && rect.Within(|asset|, Width(asset))
  }

  /** Paste the three-channel picture `cam` into rows [y1, y2) and columns
      [x1, x2) of the four-channel image `base`, colour channels only. */
  function Blit(base: Image, cam: Image, rect: Rect): (r: Image)
    requires HasShape(base, |base|, Width(base), 4)
    requires rect.Within(|base|, Width(base))
    requires HasShape(cam, rect.Height(), rect.Width(), 3)
    ensures HasShape(r, |base|, Width(base), 4)
    ensures forall y, x | 0 <= y < |base| && 0 <= x < Width(base) && rect.Contains(x, y) ::
      r[y][x][..3] == cam[y - rect.y1][x - rect.x1] && r[y][x][3] == base[y][x][3]
    ensures forall y, x | 0 <= y < |base| && 0 <= x < Width(base) && !rect.Contains(x, y) ::
      r[y][x] == base[y][x]
  {
    seq(|base|, y requires 0 <= y < |base| =>
      seq(|base[y]|, x requires 0 <= x < |base[y]| =>
        if rect.Contains(x, y) then cam[y - rect.y1][x - rect.x1] + base[y][x][3..]
        else base[y][x]))
  }

  /** The asset as four-channel BGRA: promoted with an opaque alpha when it
      has three channels, as it is when it has four. */
  function WithAlpha(asset: Image): (b: Image)
    requires WellFormed(asset) && Channels(asset) in {3, 4}
    ensures HasShape(b, |asset|, Width(asset), 4)
    ensures forall y, x | 0 <= y < |asset| && 0 <= x < Width(asset) ::
      b[y][x][..3] == asset[y][x][..3] && b[y][x][3] == AlphaOf(asset[y][x])
  {
    if Channels(asset) == 3 then Promote(asset) else asset
  }

  /** The overlay composite: the frame resized to the rectangle, pasted into
      the asset (promoted to opaque BGRA when it has no alpha), in RGBA order.
      The result has the asset's rows and columns and four channels; inside
      the rectangle it shows the resized frame with the asset's own alpha;
      outside it shows the asset unchanged. */
  function Compose(frame: Image, asset: Image, rect: Rect, resize: (Image, nat, nat) -> Image): (r: Image)
    requires IsFrame(frame)
    requires AssetFits(asset, rect)
    requires ResizeContract(resize)
    ensures HasShape(r, |asset|, Width(asset), 4)
    ensures forall y, x | 0 <= y < |asset| && 0 <= x < Width(asset) && rect.Contains(x, y) ::
      IsRgbaOf(r[y][x], resize(frame, rect.Width(), rect.Height())[y - rect.y1][x - rect.x1],
               AlphaOf(asset[y][x]))
    ensures forall y, x | 0 <= y < |asset| && 0 <= x < Width(asset) && !rect.Contains(x, y) ::
      IsRgbaOf(r[y][x], asset[y][x], AlphaOf(asset[y][x]))
  {
    var cam := resize(frame, rect.Width(), rect.Height());
    var combined := Blit(WithAlpha(asset), cam, rect);
    ComposePixels(asset, cam, rect, combined, ToRgb(combined));
    ToRgb(combined)
  }

  /** The pixel-level facts behind Compose, for a blit already made. */
  lemma ComposePixels(asset: Image, cam: Image, rect: Rect, combined: Image, r: Image)
    requires AssetFits(asset, rect)
    requires HasShape(cam, rect.Height(), rect.Width(), 3)
    requires combined == Blit(WithAlpha(asset), cam, rect)
    requires r == ToRgb(combined)
    ensures HasShape(r, |asset|, Width(asset), 4)
    ensures forall y, x | 0 <= y < |asset| && 0 <= x < Width(asset) && rect.Contains(x, y) ::
      IsRgbaOf(r[y][x], cam[y - rect.y1][x - rect.x1], AlphaOf(asset[y][x]))
    ensures forall y, x | 0 <= y < |asset| && 0 <= x < Width(asset) && !rect.Contains(x, y) ::
      IsRgbaOf(r[y][x], asset[y][x], AlphaOf(asset[y][x]))
  {
    var base := WithAlpha(asset);
    forall y, x | 0 <= y < |asset| && 0 <= x < Width(asset)
      ensures rect.Contains(x, y) ==>
        IsRgbaOf(r[y][x], cam[y - rect.y1][x - rect.x1], AlphaOf(asset[y][x]))
      ensures !rect.Contains(x, y) ==> IsRgbaOf(r[y][x], asset[y][x], AlphaOf(asset[y][x]))
    {
      var q := combined[y][x];
      assert |q| == 4;
      assert r[y][x][0] == q[2] && r[y][x][1] == q[1] && r[y][x][2] == q[0] && r[y][x][3..] == q[3..];
      if rect.Contains(x, y) {
        var c := cam[y - rect.y1][x - rect.x1];
        assert q[..3] == c && q[3] == base[y][x][3];
        assert q[0] == c[0] && q[1] == c[1] && q[2] == c[2];
      } else {
        assert q == base[y][x];
        assert q[..3] == asset[y][x][..3];
        assert q[0] == asset[y][x][0] && q[1] == asset[y][x][1] && q[2] == asset[y][x][2];
      }
      assert r[y][x][3] == r[y][x][3..][0];
    }
  }

  /** What a tick hands to the display: the image and whether it is to be
      scaled smoothly (otherwise with the fast nearest-style filter). */
  datatype Presented = Presented(image: Image, smooth: bool)

  /** One tick. `frame` is the result of reading the device (None when the
      read fails), `load` reads an asset file (None when it is missing).
      None means nothing is presented and the previous picture stays. */
  function Tick(a: App, frame: Option<Image>, load: string -> Option<Image>,
                resize: (Image, nat, nat) -> Image): (r: Option<Presented>)
    requires frame.Some? ==> IsFrame(frame.value)
    requires ResizeContract(resize)
    requires a.overlayMode.Some? && load(Lookup(a.overlayMode.value).file).Some? ==>
      AssetFits(load(Lookup(a.overlayMode.value).file).value, Lookup(a.overlayMode.value).rect)
    ensures a.cap.None? || frame.None? ==> r.None?
    ensures a.overlayMode.Some? && load(Lookup(a.overlayMode.value).file).None? ==> r.None?
    ensures r.Some? ==> r.value.smooth == a.upscaling
    ensures a.cap.Some? && frame.Some? && a.overlayMode.None? ==>
      && r.Some?
      && HasShape(r.value.image, |frame.value|, Width(frame.value), 3)
      && forall y, x | 0 <= y < |frame.value| && 0 <= x < Width(frame.value) ::
           r.value.image[y][x] == [frame.value[y][x][2], frame.value[y][x][1], frame.value[y][x][0]]
    ensures a.cap.Some? && frame.Some? && a.overlayMode.Some? &&
            load(Lookup(a.overlayMode.value).file).Some? ==>
      && r.Some?
      && r.value.image == Compose(frame.value, load(Lookup(a.overlayMode.value).file).value,
                                  Lookup(a.overlayMode.value).rect, resize)
  {
    if a.cap.None? || frame.None? then None
    else if a.overlayMode.Some? then
      var spec := Lookup(a.overlayMode.value);
      match load(spec.file)
      case None => None
      case Some(asset) => Some(Presented(Compose(frame.value, asset, spec.rect, resize), a.upscaling))
    else
      Some(Presented(ToRgb(frame.value), a.upscaling))
  }

  /** In a valid state an overlay picture is always scaled with the fast filter. */
  lemma OverlayIsNeverSmooth(a: App, frame: Option<Image>, load: string -> Option<Image>,
                             resize: (Image, nat, nat) -> Image)
    requires a.Valid() && a.overlayMode.Some?
    requires frame.Some? ==> IsFrame(frame.value)
    requires ResizeContract(resize)
    requires load(Lookup(a.overlayMode.value).file).Some? ==>
      AssetFits(load(Lookup(a.overlayMode.value).file).value, Lookup(a.overlayMode.value).rect)
    ensures Tick(a, frame, load, resize).Some? ==> !Tick(a, frame, load, resize).value.smooth
  {
  }
}
