# Vita PC Passthrough — a Dafny model of the playback core

The program shows a live capture device (a PlayStation Vita or PSP video
grabber) in a window. It can paste the picture into a bezel overlay and loop
a microphone back to the speakers. Keys pick the camera, the mic, smooth
upscaling, one of three overlays, and one of three capture resolutions. A
30 ms timer reads a frame and turns it into the picture to show.

This project models the `CameraApp` class of `Vita-PC-Passthough.py` as pure
Dafny:

- `Options`: the `Option` type for "nothing this time". Examples are an
  unopened device, a failed read, a missing asset, or no picture on a tick.
- `Catalog`: the overlay table and the resolution table, with the source's
  constants. The overlays are `vita2000`, `vita1000` and `psp`. Their screen
  rectangles are (221, 64, 858, 424), (213, 53, 866, 426) and
  (238, 68, 845, 414). The resolutions are 896×504, 960×544 and 480×272.
- `Images`: pixel grids of 8-bit channels (`img[y][x][c]`, numpy's
  `(h, w, ch)` order). It holds the BGR→RGB / BGRA→RGBA channel swap and the
  BGR→BGRA promotion.
- `Controller`: the window state, meaning the open device, the current
  camera, the resolution index, upscaling, the overlay and the mic. Each key
  intent is a pure transition. Opening a camera or a mic is an oracle
  outcome (`succeeded`) passed in as a parameter. `Run` folds a sequence of
  key presses.
- `Compositor`: one timer tick. The inputs are the frame read (optional),
  the asset loader (file name to optional image) and an abstract resize
  function. The resize is constrained only by the shape of its result.

The invariant `App.Valid` holds after construction and after every key. It
says that an overlay excludes upscaling, that the resolution index addresses
the table, and that an open device is the current camera, asked for the
current resolution.

Notes on the code's behaviour, which the model follows:

- Camera switch order: the code opens the new camera before it releases the
  old one (lines 91-95). On failure it keeps the old device and changes
  nothing.
- Mic switch: the code closes the old audio stream before trying the new
  one. So after a failed mic switch, no stream is running. `SelectMic` models
  that.
- Resolution keys without a device: `[` and `]` call `cap.set` even when no
  device is open. The index still cycles, and nothing is applied.

## Model

| member | source | states |
|---|---|---|
| `Catalog.Lookup` | Vita-PC-Passthough.py:40-44 | every overlay rectangle has a positive width and height and non-negative origin |
| `Controller.Init` | Vita-PC-Passthough.py:30-48 | construction gives camera 0, resolution index 0, mic 0, no upscaling, no overlay; the device is open iff camera 0 opened; the invariant holds |
| `Controller.SelectCamera` | Vita-PC-Passthough.py:89-103 | a failed open changes nothing; a successful one installs the device with the requested resolution at the current index, sets the camera, clears the overlay, keeps upscaling, resolution and audio; the invariant is preserved |
| `Controller.SelectMic` | Vita-PC-Passthough.py:105-109 | records the mic, the stream is open iff opening succeeded, and no video state changes |
| `Controller.ToggleUpscale` | Vita-PC-Passthough.py:111-116 | with an overlay showing nothing changes; otherwise upscaling flips; nothing else changes; the invariant is preserved |
| `Controller.ToggleOverlay` | Vita-PC-Passthough.py:150-157 | the showing overlay is turned off; any other overlay is shown with upscaling forced off; device, camera, resolution and audio are kept; the invariant is preserved |
| `Controller.CycleResolution` | Vita-PC-Passthough.py:125-137 | the new index is in [0, 3) and congruent to old index plus step; an open device stays open with the same index and is asked for the new table entry; overlay, upscaling, camera and audio are kept |
| `Controller.PrevResolution` | Vita-PC-Passthough.py:125-130 | `[` moves the index one entry back, wrapping from the first entry to the last; an open device stays open with its index and is asked for the new entry, a closed one stays closed; overlay, upscaling, camera and audio are kept; the invariant is preserved |
| `Controller.NextResolution` | Vita-PC-Passthough.py:132-137 | `]` moves the index one entry on, wrapping from the last entry to the first; an open device stays open with its index and is asked for the new entry, a closed one stays closed; overlay, upscaling, camera and audio are kept; the invariant is preserved |
| `Controller.KeyIntent` | Vita-PC-Passthough.py:89-145 | a key that carries an intent is exactly that intent's key (cameras 0..4, mics 0..2); a key that carries none is the key of no intent |
| `Controller.KeyIntentRoundTrip` | Vita-PC-Passthough.py:89-145 | a key carries an intent exactly when it is that intent's key, and only cameras 0..4 and mics 0..2 have keys |
| `Controller.Step` | Vita-PC-Passthough.py:86-147 | every intent preserves the invariant; only camera intents change the camera; only mic intents change audio |
| `Controller.Press` | Vita-PC-Passthough.py:86-147 | a key press preserves the invariant; a key without an intent changes nothing |
| `Controller.Run` | Vita-PC-Passthough.py:86-157 | any sequence of key presses from a valid state ends in a valid state |
| `Controller.ReachableValid` | Vita-PC-Passthough.py:16-48 | every state reached from construction by key presses satisfies the invariant, whatever the device outcomes |
| `Controller.CameraKeys` | Vita-PC-Passthough.py:89-103 | keys 1..5 select cameras 0..4 with the failure-leaves-state rule, overlay cleared, upscaling and resolution kept, device asked for the current resolution |
| `Controller.OtherKeys` | Vita-PC-Passthough.py:111-145 | keys 9, 0, -, =, [, ] and F11 reach upscale toggling, the three overlay toggles, the two resolution steps and no state change |
| `Controller.MicKeys` | Vita-PC-Passthough.py:105-109 | keys 6..8 select mics 0..2 and change no video state |
| `Controller.ToggleOverlayTwice` | Vita-PC-Passthough.py:150-157 | toggling the same overlay twice from any other mode ends with no overlay and upscaling off, whatever upscaling was |
| `Controller.ToggleOverlaySwitches` | Vita-PC-Passthough.py:150-157 | toggling a different overlay while one shows switches straight to it |
| `Controller.ToggleUpscaleTwice` | Vita-PC-Passthough.py:111-116 | toggling upscaling twice is the identity |
| `Controller.PrevNextInverse` | Vita-PC-Passthough.py:125-137 | `[` then `]`, and `]` then `[`, restore the whole state |
| `Controller.NextThriceIdentity` | Vita-PC-Passthough.py:132-137 | three `]` presses restore the whole state |
| `Images.ToRgb` | Vita-PC-Passthough.py:182-184 | channel conversion keeps the shape and exchanges the first and third channel of every pixel, keeping the rest |
| `Images.Promote` | Vita-PC-Passthough.py:177-178 | a three-channel asset becomes four-channel with its colour kept and an opaque alpha |
| `Images.MapPixels` | Vita-PC-Passthough.py:178-184 | a per-pixel conversion keeps the grid's shape and replaces each pixel by its image |
| `Images.ToRgbInvolution` | Vita-PC-Passthough.py:184 | the channel swap applied twice gives back the original image |
| `Compositor.WithAlpha` | Vita-PC-Passthough.py:177-180 | the asset as four channels: same rows and columns, colour kept, alpha its own or opaque |
| `Compositor.Blit` | Vita-PC-Passthough.py:180-181 | inside the rectangle channels 0-2 equal the resized frame and alpha is the base's; outside every pixel equals the base |
| `Compositor.Compose` | Vita-PC-Passthough.py:173-182 | output has the asset's rows and columns and four channels; inside the rectangle it is the resized frame in RGBA order with the asset's alpha; outside it is the asset in RGBA order |
| `Compositor.Tick` | Vita-PC-Passthough.py:159-193 | no device, a failed read or a missing asset present nothing; plain mode presents the frame's shape with channels 0 and 2 exchanged; overlay mode presents the composite; scaling is smooth exactly when upscaling is on |
| `Compositor.OverlayIsNeverSmooth` | Vita-PC-Passthough.py:190-194 | in a valid state an overlay picture is never scaled smoothly |

## Left out

- Qt window, label, QImage/QPixmap conversion, aspect-ratio fitting to the label, window icon: user-interface calls. The model stops at the image and the smooth/fast flag.
- Fullscreen (F11): the key is decoded to an intent. It changes only the window, so it is the identity on the modelled state.
- `cv2.VideoCapture` open/read/set/get: the open outcome is a parameter and the frame read is an optional input. `Device.requested` is the resolution asked for. The size a DirectShow device actually clamps to is device-dependent and not modelled.
- `cv2.resize` bilinear interpolation: floating-point numerics. Only its output shape is used (`ResizeContract`).
- The `sounddevice` duplex stream and its callback (lines 66-84): foreign real-time I/O on another thread. Only "the stream is open or not" is kept.
- `resource_path` and `cv2.imread`: filesystem dependent. The loader is a parameter from file name to optional image.
- The QTimer schedule, `closeEvent` resource release and the `print` diagnostics: scheduling, teardown and logging, with no effect on the modelled state.
- Compositor.Tick: the source raises an exception for a malformed asset (one or two channels, or smaller than its rectangle) or a resize of the wrong shape. The model requires a fitting asset, a three-channel frame and a shape-correct resize instead of modelling that crash.
- Camera indices beyond 0..4 are not rejected by `Controller.SelectCamera`, because the key decoding is what bounds them (`Controller.KeyIntentRoundTrip`).
