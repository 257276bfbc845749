/** The playback controller of the passthrough window: which capture device is
    open, which resolution it was asked for, the display mode (plain,
    upscaled or an overlay) and the audio input; and the key intents that
    change them. Opening a device is an oracle: every transition that opens
    one takes the outcome as a parameter. */
module Controller {
  import opened Options
  import opened Catalog

  /** An open capture device: its index and the resolution last requested of it. */
  datatype Device = Device(index: nat, requested: Resolution)

  /** The window's mutable state. `cap` is None while no capture device is open. */
  datatype App = App(
    cap: Option<Device>,
    currentCamera: nat,
    currentResIndex: nat,
    upscaling: bool,
    overlayMode: Option<OverlayId>,
    currentMic: nat,
    audioOpen: bool)
  {
    /** The invariant every reachable state keeps: an overlay excludes
        upscaling, the resolution index addresses the table, and an open
        device is the current camera, asked for the current resolution. */
    predicate Valid() {
      && (overlayMode.Some? ==> !upscaling)
      && currentResIndex < |Resolutions|
      && (cap.Some? ==> cap.value.index == currentCamera
                        && cap.value.requested == Resolutions[currentResIndex])
    }
  }

  /** Nothing about video changes from a to b. */
  predicate SameVideo(a: App, b: App) {
    && b.cap == a.cap
    && b.currentCamera == a.currentCamera
    && b.currentResIndex == a.currentResIndex
    && b.upscaling == a.upscaling
    && b.overlayMode == a.overlayMode
  }

  /** Nothing about audio changes from a to b. */
  predicate SameAudio(a: App, b: App) {
    b.currentMic == a.currentMic && b.audioOpen == a.audioOpen
  }

  /** The state after construction: camera 0 at the first resolution (when it
      opens), plain display, mic 0 (open when its stream starts). */
  function Init(cameraSucceeded: bool, micSucceeded: bool): (a: App)
    ensures a.Valid()
    ensures a.currentCamera == 0 && a.currentResIndex == 0 && a.currentMic == 0
    ensures !a.upscaling && a.overlayMode == None
    ensures a.cap.Some? <==> cameraSucceeded
    ensures a.audioOpen <==> micSucceeded
  {
    App(if cameraSucceeded then Some(Device(0, Resolutions[0])) else None,
        0, 0, false, None, 0, micSucceeded)
  }

  /** Switch to capture device `index`. A device that fails to open leaves
      everything as it was; a device that opens replaces the old one, is asked
      for the current resolution, and ends any overlay. */
  function SelectCamera(a: App, index: nat, succeeded: bool): (b: App)
    requires a.currentResIndex < |Resolutions|
    ensures !succeeded ==> b == a
    ensures succeeded ==>
      && b.cap == Some(Device(index, Resolutions[a.currentResIndex]))
      && b.currentCamera == index
      && b.overlayMode == None
      && b.upscaling == a.upscaling
      && b.currentResIndex == a.currentResIndex
      && SameAudio(a, b)
    ensures a.Valid() ==> b.Valid()
  {
    if succeeded then
      a.(cap := Some(Device(index, Resolutions[a.currentResIndex])),
         currentCamera := index,
         overlayMode := None)
    else
      a
  }

  /** Switch the audio loopback to input `index`. The old stream is closed
      whatever happens; the new one is open exactly when opening succeeded. */
  function SelectMic(a: App, index: nat, succeeded: bool): (b: App)
    ensures SameVideo(a, b)
    ensures b.currentMic == index && b.audioOpen == succeeded
    ensures a.Valid() ==> b.Valid()
  {
    a.(currentMic := index, audioOpen := succeeded)
  }

  /** Flip upscaling, unless an overlay is showing, in which case nothing changes. */
  function ToggleUpscale(a: App): (b: App)
    ensures a.overlayMode.Some? ==> b == a
    ensures a.overlayMode.None? ==> b.upscaling == !a.upscaling
    ensures b.overlayMode == a.overlayMode && b.cap == a.cap
    ensures b.currentCamera == a.currentCamera && b.currentResIndex == a.currentResIndex
    ensures SameAudio(a, b)
    ensures a.Valid() ==> b.Valid()
  {
    if a.overlayMode.None? then a.(upscaling := !a.upscaling) else a
  }

  /** Selecting the overlay already showing turns it off; selecting any other
      overlay shows it and turns upscaling off. */
  function ToggleOverlay(a: App, id: OverlayId): (b: App)
    ensures a.overlayMode == Some(id) ==> b.overlayMode == None && b.upscaling == a.upscaling
    ensures a.overlayMode != Some(id) ==> b.overlayMode == Some(id) && !b.upscaling
    ensures b.cap == a.cap && b.currentCamera == a.currentCamera
    ensures b.currentResIndex == a.currentResIndex
    ensures SameAudio(a, b)
    ensures a.Valid() ==> b.Valid()
  {
    if a.overlayMode == Some(id) then a.(overlayMode := None)
    else a.(overlayMode := Some(id), upscaling := false)
  }

  /** Move the resolution index by `step` around the table (the source's
      modulo has a positive divisor, so its result is the Euclidean one) and
      ask an open device for the new resolution. */
  function CycleResolution(a: App, step: int): (b: App)
    ensures b.currentResIndex < |Resolutions|
    ensures (b.currentResIndex - a.currentResIndex - step) % |Resolutions| == 0
    ensures b.cap.Some? <==> a.cap.Some?
    ensures b.cap.Some? ==>
      b.cap.value == Device(a.cap.value.index, Resolutions[b.currentResIndex])
    ensures b.overlayMode == a.overlayMode && b.upscaling == a.upscaling
    ensures b.currentCamera == a.currentCamera
    ensures SameAudio(a, b)
    ensures a.Valid() ==> b.Valid()
  {
    var i := (a.currentResIndex + step) % |Resolutions|;
    var cap := match a.cap
      case None => None
      case Some(d) => Some(d.(requested := Resolutions[i]));
    a.(currentResIndex := i, cap := cap)
  }

  /** The `[` key: one entry back in the table, from the first to the last. */
  function PrevResolution(a: App): (b: App)
    ensures a.currentResIndex < |Resolutions| ==>
      b.currentResIndex == if a.currentResIndex == 0 then |Resolutions| - 1 else a.currentResIndex - 1
    ensures b.overlayMode == a.overlayMode && b.upscaling == a.upscaling
    ensures b.currentCamera == a.currentCamera && SameAudio(a, b)
    ensures b.currentResIndex < |Resolutions|
    ensures b.cap.Some? <==> a.cap.Some?
    ensures b.cap.Some? ==>
      b.cap.value == Device(a.cap.value.index, Resolutions[b.currentResIndex])
    ensures a.Valid() ==> b.Valid()
  {
    CycleResolution(a, -1)
  }

  /** The `]` key: one entry on in the table, from the last to the first. */
  function NextResolution(a: App): (b: App)
    ensures a.currentResIndex < |Resolutions| ==>
      b.currentResIndex == if a.currentResIndex == |Resolutions| - 1 then 0 else a.currentResIndex + 1
    ensures b.overlayMode == a.overlayMode && b.upscaling == a.upscaling
    ensures b.currentCamera == a.currentCamera && SameAudio(a, b)
    ensures b.currentResIndex < |Resolutions|
    ensures b.cap.Some? <==> a.cap.Some?
    ensures b.cap.Some? ==>
      b.cap.value == Device(a.cap.value.index, Resolutions[b.currentResIndex])
    ensures a.Valid() ==> b.Valid()
  {
    CycleResolution(a, 1)
  }

  /** The intents a key press can carry. */
  datatype Intent =
    | Camera(camera: nat)
    | Mic(mic: nat)
    | Upscale
    | Overlay(id: OverlayId)
    | ResolutionPrev
    | ResolutionNext
    | Fullscreen

  // Qt key codes of the keys the window reacts to.
  const KeyMinus: int := 0x2d
  const Key0: int := 0x30
  const Key1: int := 0x31
  const Key5: int := 0x35
  const Key6: int := 0x36
  const Key8: int := 0x38
  const Key9: int := 0x39
  const KeyEqual: int := 0x3d
  const KeyBracketLeft: int := 0x5b
  const KeyBracketRight: int := 0x5d
  const KeyF11: int := 0x0100_003a

  /** The intent a key carries, if any: keys 1..5 select cameras 0..4, keys
      6..8 select mics 0..2, 9 toggles upscaling, 0, - and = toggle the three
      overlays, [ and ] cycle the resolution, F11 toggles fullscreen. */
  function KeyIntent(key: int): (r: Option<Intent>)
    ensures r.Some? ==> Bound(r.value) && IntentKey(r.value) == key
    ensures r.None? ==> forall i: Intent | Bound(i) :: IntentKey(i) != key
  {
    if Key1 <= key <= Key5 then Some(Camera(key - Key1))
    else if Key6 <= key <= Key8 then Some(Mic(key - Key6))
    else if key == Key9 then Some(Upscale)
    else if key == Key0 then Some(Overlay(Vita2000))
    else if key == KeyMinus then Some(Overlay(Vita1000))
    else if key == KeyEqual then Some(Overlay(Psp))
    else if key == KeyBracketLeft then Some(ResolutionPrev)
    else if key == KeyBracketRight then Some(ResolutionNext)
    else if key == KeyF11 then Some(Fullscreen)
    else None
  }

  /** The intents some key carries: five cameras, three mics, everything else. */
  predicate Bound(i: Intent) {
    match i
    case Camera(c) => c < 5
    case Mic(m) => m < 3
    case _ => true
  }

  /** The key that carries a bound intent. */
  function IntentKey(i: Intent): (key: int)
    requires Bound(i)
  {
    match i
    case Camera(c) => Key1 + c
    case Mic(m) => Key6 + m
    case Upscale => Key9
    case Overlay(id) =>
      (match id case Vita2000 => Key0 case Vita1000 => KeyMinus case Psp => KeyEqual)
    case ResolutionPrev => KeyBracketLeft
    case ResolutionNext => KeyBracketRight
    case Fullscreen => KeyF11
  }

  /** Every key with an intent is the key of that intent, and every bound
      intent has exactly one key. */
  lemma KeyIntentRoundTrip(key: int, i: Intent)
    ensures KeyIntent(key) == Some(i) <==> Bound(i) && IntentKey(i) == key
  {
  }

  /** Apply one intent. `succeeded` is the outcome of any device the intent opens.
      Fullscreen only concerns the window, not this state. */
  function Step(a: App, i: Intent, succeeded: bool): (b: App)
    requires a.currentResIndex < |Resolutions|
    ensures a.Valid() ==> b.Valid()
    ensures !i.Camera? ==> b.currentCamera == a.currentCamera
    ensures !i.Mic? ==> SameAudio(a, b)
  {
    match i
    case Camera(c) => SelectCamera(a, c, succeeded)
    case Mic(m) => SelectMic(a, m, succeeded)
    case Upscale => ToggleUpscale(a)
    case Overlay(id) => ToggleOverlay(a, id)
    case ResolutionPrev => PrevResolution(a)
    case ResolutionNext => NextResolution(a)
    case Fullscreen => a
  }

  /** One key press together with the outcome of any device it opens. */
  datatype KeyPress = KeyPress(key: int, succeeded: bool)

  /** Handle a key press; keys without an intent change nothing. */
  function Press(a: App, p: KeyPress): (b: App)
    requires a.currentResIndex < |Resolutions|
    ensures a.Valid() ==> b.Valid()
    ensures KeyIntent(p.key).None? ==> b == a
  {
    match KeyIntent(p.key)
    case None => a
    case Some(i) => Step(a, i, p.succeeded)
  }

  /** Handle a sequence of key presses in order; the invariant holds throughout. */
  function Run(a: App, presses: seq<KeyPress>): (b: App)
    requires a.Valid()
    ensures b.Valid()
    decreases |presses|
  {
    if |presses| == 0 then a
    else Run(Press(a, presses[0]), presses[1..])
  }

  /** Every state reached from construction by any key presses is valid. */
  lemma ReachableValid(cameraSucceeded: bool, micSucceeded: bool, presses: seq<KeyPress>)
    ensures Run(Init(cameraSucceeded, micSucceeded), presses).Valid()
  {
  }

  /** Keys 1..5 select cameras 0..4: on failure nothing changes; on success
      the new device is the chosen camera at the current resolution, the
      overlay is gone, and upscaling and the resolution index are kept. */
  lemma CameraKeys(a: App, p: KeyPress)
    requires a.Valid() && Key1 <= p.key <= Key5
    ensures !p.succeeded ==> Press(a, p) == a
    ensures p.succeeded ==>
      && Press(a, p).currentCamera == p.key - Key1
      && Press(a, p).cap == Some(Device(p.key - Key1, Resolutions[a.currentResIndex]))
      && Press(a, p).overlayMode == None
      && Press(a, p).upscaling == a.upscaling
      && Press(a, p).currentResIndex == a.currentResIndex
  {
  }

  /** Keys 6..8 select mics 0..2 and change no video state. */
  lemma MicKeys(a: App, p: KeyPress)
    requires a.Valid() && Key6 <= p.key <= Key8
    ensures Press(a, p).currentMic == p.key - Key6
    ensures SameVideo(a, Press(a, p))
  {
  }

  /** The remaining keys reach their transitions: 9 toggles upscaling, 0, -
      and = toggle the three overlays, [ and ] cycle the resolution, and F11
      leaves the modelled state alone. */
  lemma OtherKeys(a: App, succeeded: bool)
    requires a.Valid()
    ensures Press(a, KeyPress(Key9, succeeded)) == ToggleUpscale(a)
    ensures Press(a, KeyPress(Key0, succeeded)) == ToggleOverlay(a, Vita2000)
    ensures Press(a, KeyPress(KeyMinus, succeeded)) == ToggleOverlay(a, Vita1000)
    ensures Press(a, KeyPress(KeyEqual, succeeded)) == ToggleOverlay(a, Psp)
    ensures Press(a, KeyPress(KeyBracketLeft, succeeded)) == PrevResolution(a)
    ensures Press(a, KeyPress(KeyBracketRight, succeeded)) == NextResolution(a)
    ensures Press(a, KeyPress(KeyF11, succeeded)) == a
  {
  }

  /** Toggling the same overlay twice from any other mode leaves no overlay
      and upscaling off, whatever upscaling was before. */
  lemma ToggleOverlayTwice(a: App, id: OverlayId)
    requires a.overlayMode != Some(id)
    ensures ToggleOverlay(ToggleOverlay(a, id), id).overlayMode == None
    ensures !ToggleOverlay(ToggleOverlay(a, id), id).upscaling
  {
  }

  /** Toggling another overlay while one is showing switches straight to it. */
  lemma ToggleOverlaySwitches(a: App, id: OverlayId)
    requires a.overlayMode.Some? && a.overlayMode != Some(id)
    ensures ToggleOverlay(a, id).overlayMode == Some(id)
  {
  }

  /** Upscale toggling twice is the identity. */
  lemma ToggleUpscaleTwice(a: App)
    ensures ToggleUpscale(ToggleUpscale(a)) == a
  {
  }

  /** `[` followed by `]`, and `]` followed by `[`, restore the state. */
  lemma PrevNextInverse(a: App)
    requires a.Valid()
    ensures NextResolution(PrevResolution(a)) == a
    ensures PrevResolution(NextResolution(a)) == a
  {
  }

  /** Three `]` presses go once around the table and restore the state. */
  lemma NextThriceIdentity(a: App)
    requires a.Valid()
    ensures NextResolution(NextResolution(NextResolution(a))) == a
  {
  }
}
