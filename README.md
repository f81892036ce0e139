# Crosshair overlay, colour key and batch resizer: a verified model

The repository is a small desktop utility. It shows a crosshair PNG in a borderless, always-on-top,
colour-keyed transparent window the size of the screen, and a global hotkey shows or hides it.
Two offline scripts sit beside it. One turns near-white pixels transparent. The other resizes every
PNG of a folder to a "2k" and a "4k" size.

This Dafny project models the deterministic logic under the GUI and library calls:

- `overlay.dfy` (module `Overlay`) models `crosshair_overlay.py`.
  - The module globals `overlay_window`, `overlay_label`, `overlay_photo`, `overlay_visible` and
    `current_image_path` are the fields of the class `OverlayManager`.
  - Its methods `CreateOrUpdateOverlay`, `ToggleOverlay`, `ApplyCrosshair` and `OnClose` change only
    those fields.
  - Each method is proved against a pure transition function on the `OverlayState` datatype:
    `CreateOrUpdate`, `Toggle`, `Apply` and `Close`.
  - The lemmas state what the program promises about those transitions, and the invariant
    `Consistent` that every transition keeps.
  - The file also holds the PNG filter of `load_image_list` and the `"WxH+X+Y"` size parse used
    for centring the selector window.
- `color_key.dfy` (module `ColorKey`) models `trans.py`.
  - `KeyPixels` is the pixel loop, proved equal to the specification function `Keyed`.
  - `WhiteToTransparent` writes the keyed pixels back into the image buffer.
- `batch_resize.dfy` (module `BatchResize`) models `view.py`.
  - `RunBatch` is the main loop over a folder listing, and `ResizeToTargets` its inner loop over
    `target_resolutions`.
  - Together they record every `resize_image` call, the files written and `processed_count`.
  - They are proved against the specification functions `PlannedJobs`, `SavedFiles` and
    `QualifyingNames`.
- `text.dfy` (module `Text`) holds the Python string and POSIX path operations the scripts use:
  `lower`, `endswith`, `split`, `int`/`str` on decimals, `os.path.join` and `os.path.splitext`.
- `wrappers.dfy` holds `Option`.

What the libraries answer is passed in as parameters:

- `Image.open` becomes `OpenResult`: `NotFound`, `OtherError`, or `Opened(width, height)`.
- `get_screen_resolution()` becomes `screenWidth` and `screenHeight`.
- Whether `ImageTk.PhotoImage` succeeds becomes `photoOk`.
- Whether the Tk calls that build or update the overlay succeed becomes `tkOk`.
- Whether `keyboard.unhook_all()` succeeds becomes `unhookSucceeded`.
- A folder listing is a sequence of `Entry(name, isFile)`, or, for the overlay, a `Listing`.
- Whether each `resize_image` call gets through `save` (view.py:65) becomes `resizeSucceeds`.

Four points of the code's behaviour are easy to misread. The model follows the code in each:

- Resolution check. The test is equality, not a bound: any image whose width or height differs
  from the screen's is refused, a smaller one included (crosshair_overlay.py:65).
- Toggle with no window. The code's own comment outlines a recovery that would re-apply the last
  image, but that code is commented out (crosshair_overlay.py:142-147). So the toggle does nothing.
- Generic failure path. The clean-up does not clear `current_image_path`
  (crosshair_overlay.py:113-119). Line 74 runs before the window is built, so a failure while
  building the window leaves the new path remembered.
- Image list order. `load_image_list` keeps the order of `os.listdir` and does not sort
  (crosshair_overlay.py:46).

`on_close` destroys the overlay window but resets none of the other globals. So after shutdown,
`Consistent` promises only "no window": `overlay_visible` may still be true.

A file named `.png` passes the PNG test. `os.path.splitext` gives it no extension, so its stem is
`.png` and its outputs are `.png_2k.png` and `.png_4k.png` (`DotPngExample`).

## Model

| member | source | states |
|---|---|---|
| `Overlay.CreateOrUpdate` | crosshair_overlay.py:52-120 | no contract of its own: the new globals and the returned boolean of `create_or_update_overlay`, branch by branch; its properties are the lemma rows below |
| `Overlay.TornDown` | crosshair_overlay.py:113-119 | no contract of its own: the clean-up of the generic failure path; `OtherFailureTearsDown` states what it leaves |
| `Overlay.Toggle` | crosshair_overlay.py:137-159 | no contract of its own: `toggle_overlay`; its properties are the Toggle lemma rows |
| `Overlay.Apply` | crosshair_overlay.py:122-134 | no contract of its own: `apply_crosshair`, including the toggle after a success; its properties are the Apply lemma rows |
| `Overlay.Close` | crosshair_overlay.py:179-195 | no contract of its own: the effect of `on_close` on the globals; `CloseRemovesWindow` states it |
| `Overlay.CreateOrUpdateSucceedsIff` | crosshair_overlay.py:56-106 | `create_or_update_overlay` returns True exactly when the image opens with exactly the screen's width and height, the photo is made, and the Tk calls succeed |
| `Overlay.RejectedImageKeepsState` | crosshair_overlay.py:58-69 | a missing file, or an image whose width or height differs from the screen's, returns False and leaves window, visibility, photo, label and remembered path unchanged |
| `Overlay.FirstApplyCreatesHiddenWindow` | crosshair_overlay.py:73-96 | a matching image with no window present creates a window in the hidden state; the label shows the new photo, and photo and path are recorded |
| `Overlay.ReapplyReplacesOnlyImage` | crosshair_overlay.py:99-104 | a matching image with a window present keeps that window and its visibility and replaces only photo, label image and path |
| `Overlay.OtherFailureTearsDown` | crosshair_overlay.py:111-120 | an undecodable file, or a failing PhotoImage or Tk call, returns False with no window, no label, no photo and not visible; the remembered path is the new one if line 74 was reached and is otherwise unchanged |
| `Overlay.CreateOrUpdatePreservesConsistent` | crosshair_overlay.py:52-120 | every outcome keeps "visible implies a window", "the label shows the held photo" and "a photo is held exactly when a window exists" |
| `Overlay.ToggleWithoutWindowIsIgnored` | crosshair_overlay.py:140-148 | with no window, a toggle changes nothing: there is no recovery |
| `Overlay.ToggleFlipsVisibility` | crosshair_overlay.py:150-159 | with a window, a toggle flips visibility and changes nothing else |
| `Overlay.ToggleTwiceRestores` | crosshair_overlay.py:137-159 | two toggles in a row restore the original state |
| `Overlay.TogglePreservesConsistent` | crosshair_overlay.py:137-159 | a toggle keeps the overlay invariant |
| `Overlay.ApplyEmptySelectionKeepsState` | crosshair_overlay.py:124-127 | applying with an empty combobox selection changes nothing |
| `Overlay.ApplySuccessShowsOverlay` | crosshair_overlay.py:129-134 | a successful apply of `IMG_DIR/selected` leaves a window that is visible and shows the new photo, whether or not a window existed before |
| `Overlay.ApplyFailureIsCreateOrUpdate` | crosshair_overlay.py:130-134 | a failed apply has exactly the effect of the failed `create_or_update_overlay` call |
| `Overlay.ApplyPreservesConsistent` | crosshair_overlay.py:122-134 | applying keeps the overlay invariant |
| `Overlay.CloseRemovesWindow` | crosshair_overlay.py:188-191 | closing leaves no overlay window and changes no other global |
| `Overlay.ScenarioSecondImageRefused` | crosshair_overlay.py:52-159 | on a 1920x1080 screen, applying a 1920x1080 image shows it, a toggle hides it, and a 2560x1440 image is then refused, leaving the first image and the hidden state in place |
| `Overlay.OverlayManager.constructor` | crosshair_overlay.py:14-19 | the globals start with no window, not visible, no photo, no label and no path |
| `Overlay.OverlayManager.TearDown` | crosshair_overlay.py:113-119 | the clean-up clears window, label, photo and visibility and keeps the path |
| `Overlay.OverlayManager.CreateOrUpdateOverlay` | crosshair_overlay.py:52-120 | the new fields and the result are those of `CreateOrUpdate`, and the invariant holds afterwards |
| `Overlay.OverlayManager.ToggleOverlay` | crosshair_overlay.py:137-159 | the new fields are those of `Toggle`, and the invariant holds afterwards |
| `Overlay.OverlayManager.ApplyCrosshair` | crosshair_overlay.py:122-134 | the new fields are those of `Apply`; the success message is shown exactly when the selection is non-empty and the create-or-update succeeded |
| `Overlay.OverlayManager.OnClose` | crosshair_overlay.py:179-195 | the new fields are those of `Close`, whether or not unhooking the keyboard failed |
| `Overlay.PngNames` | crosshair_overlay.py:46 | the result holds exactly the listed names whose lower-cased form ends in ".png", and is no longer than the listing |
| `Overlay.PngNamesAppend` | crosshair_overlay.py:46 | the filter works piece by piece over a concatenation, so it keeps listing order and does not sort |
| `Overlay.LoadImageList` | crosshair_overlay.py:40-50 | a name is in the result exactly when the directory could be listed, the name is in the listing, and its lower-cased form ends in ".png"; so a missing or unreadable directory gives the empty list; a readable one gives the filter `PngNames` of the listing, in listing order |
| `Overlay.ParseInts` | crosshair_overlay.py:253 | the parse succeeds exactly when every piece parses (otherwise `ValueError`); then it has one integer per piece, each `int()` of its piece |
| `Overlay.GeometrySize` | crosshair_overlay.py:253 | no contract of its own: `int` of each 'x'-piece of the text before the first '+'; `GeometrySizeRoundTrip` states what it recovers |
| `Overlay.GeometrySizeRoundTrip` | crosshair_overlay.py:253 | the parse of a Tk geometry string "WxH+X+Y" gives exactly (W, H), for any offsets, negative ones included |
| `Text.PathJoin` | view.py:62 | no contract of its own: POSIX `os.path.join` of two parts (also used at crosshair_overlay.py:129 and view.py:86, 97); `OutputPathShape` and `PngFileJob` state the paths it builds |
| `Text.ParseInt` | crosshair_overlay.py:253 | no contract of its own: `int()` on an optionally signed decimal, `None` for `ValueError`; `ParseDecimalRoundTrip` states that it inverts `str` |
| `Text.Lower` | crosshair_overlay.py:46 | lower-casing keeps the length and maps each character on its own |
| `Text.IsPngNameChars` | crosshair_overlay.py:46 | a name passes the ".png" test exactly when its last four characters are '.', p or P, n or N, and g or G |
| `Text.Split` | crosshair_overlay.py:253 | `split` gives at least one piece, and no piece holds the separator |
| `Text.SplitJoin` | crosshair_overlay.py:253 | joining the pieces of `split` with the separator gives back the original string |
| `Text.ParseDecimalRoundTrip` | crosshair_overlay.py:253 | `int(str(n)) == n` for every natural number n |
| `Text.SplitExt` | view.py:93 | root and extension concatenate back to the name; the extension is empty, or starts with its only dot and holds no slash; it is split off only when something other than a dot precedes that dot in the last path component; an empty extension means every dot of the last component has only dots before it there |
| `Text.SplitExtExamples` | view.py:93 | "a.txt" splits as ("a", ".txt") and ".bashrc" as (".bashrc", "") |
| `ColorKey.KeyPixel` | trans.py:10-13 | no contract of its own: the loop body for one pixel; `KeyedPixelCases` states both cases |
| `ColorKey.Keyed` | trans.py:9-14 | no contract of its own: `newData` as the loop builds it; `KeyedAt`, `KeyedAppend` and `KeyedIdempotent` state its properties |
| `ColorKey.KeyedAt` | trans.py:9-15 | the output has as many pixels as the input, and output pixel i is the keying of input pixel i alone |
| `ColorKey.KeyedAppend` | trans.py:9-14 | keying a concatenation keys each part on its own, so no pixel influences another |
| `ColorKey.KeyedPixelCases` | trans.py:10-13 | a pixel whose R, G and B are all above 200 becomes (255,255,255,0) whatever its alpha; a pixel with any of them at 200 or below is copied unchanged, alpha included; so every output pixel is its input pixel or (255,255,255,0) |
| `ColorKey.KeyedIdempotent` | trans.py:10-13 | converting the output again changes nothing |
| `ColorKey.ThresholdIsStrict` | trans.py:10 | a channel of exactly 200 in R, G or B stops keying, and (201,201,201) is keyed |
| `ColorKey.KeyPixels` | trans.py:7-14 | the loop builds exactly `Keyed` of the pixel data, of the same length and pixel by pixel |
| `ColorKey.WhiteToTransparent` | trans.py:3-15 | the image buffer afterwards holds `Keyed` of its old contents |
| `BatchResize.OutputFilePath` | view.py:61-62 | no contract of its own: `output_file_path` from folder, stem and size name; `OutputPathShape` states the path it gives |
| `BatchResize.Stem` | view.py:93 | no contract of its own: `base_name`, the root of `os.path.splitext`; `StemOfPngName` states its value on PNG names |
| `BatchResize.JobFor` | view.py:96-98 | no contract of its own: the arguments of the `resize_image` call for one file and one target; `PngFileJob` states them |
| `BatchResize.PlannedJobs` | view.py:85-103 | no contract of its own: every `resize_image` call of the main loop, in order; `PlannedJobsCount` and `PlannedJobsAt` state their number and order |
| `BatchResize.SavedFiles` | view.py:65 | no contract of its own: the files written by the calls that get through `save`, in order; `RunBatch` is proved against it |
| `BatchResize.TargetsKeepAspect` | view.py:14-23 | there are two targets, and each has the 1920x1080 aspect ratio: 2560·1080 = 1440·1920 and 3840·1080 = 2160·1920 |
| `BatchResize.QualifyingNames` | view.py:89 | a name is counted exactly when some entry with that name is a file whose lower-cased name ends in ".png" |
| `BatchResize.SkippedEntryAddsNothing` | view.py:89-103 | a directory or a non-PNG file adds no call and no count |
| `BatchResize.TargetJobsAt` | view.py:96-98 | a file gets one call per target, the k-th call for the k-th target |
| `BatchResize.PlannedJobsCount` | view.py:96-100 | the number of calls is the number of targets times `processed_count` |
| `BatchResize.PlannedJobsAt` | view.py:85-100 | call 2m is the 2k resize and call 2m+1 the 4k resize of the m-th PNG file, in listing order |
| `BatchResize.OutputPathShape` | view.py:61-62 | a call for size name n and stem b writes "./img/n/b_n.png" |
| `BatchResize.StemOfPngName` | view.py:93 | the stem of a PNG name is the name without its last four characters, unless everything before ".png" is dots; then the stem is the whole name |
| `BatchResize.PngFileJob` | view.py:86-98 | for a PNG file f with stem b and a target n, the call reads "./img/f", resizes to n's size, and writes "./img/n/b_n.png" in folder "./img/n" |
| `BatchResize.SingleFileJobs` | view.py:96-98 | a listing of one PNG file makes its 2k call and then its 4k call, and nothing else |
| `BatchResize.HairExample` | view.py:93-98 | "hair.PNG" makes the 2k call and then the 4k call, with stem "hair" |
| `BatchResize.DotPngExample` | view.py:93 | a file named ".png" is processed and keeps ".png" as its stem |
| `BatchResize.ResizeImage` | view.py:33-75 | a call that gets through `save` (line 65) writes exactly the file `OutputFilePath(job)`, which for a call of the main loop is "./img/n/b_n.png" (n the size name, b the stem); a call that raises before `save` writes nothing, and the exception is caught |
| `BatchResize.ResizeToTargets` | view.py:96-98 | the inner loop appends exactly the calls for every target in order and records exactly the files those calls write |
| `BatchResize.RunBatch` | view.py:79-106 | if the input is no folder, nothing is done; otherwise the calls are `PlannedJobs` of the listing, the files written are those of the succeeding calls, and `processed_count` is the number of PNG files, however many calls fail |

## Left out

- Tk widgets, window geometry and attributes, `messagebox` dialogs and `print` logging: UI side effects. Only their effect on the globals is modelled.
- `get_screen_resolution` (crosshair_overlay.py:23-37) is a Tk query: its answer is a parameter.
- `Image.open`, `ImageTk.PhotoImage`, `convert`, `resize` with LANCZOS and `save` are foreign library calls, and the resampling is floating point. Their outcomes are parameters.
- Overlay.OverlayManager.CreateOrUpdateOverlay: one flag, `tkOk`, stands for all the Tk calls of the create branch (lines 78-95) or the update branch (lines 101-103). Which call fails makes no difference to the end state.
- A window that disappears on its own (`winfo_exists()` turning false without the program destroying it) is not modelled. `window` stands for "`overlay_window` is not None and still exists".
- Overlay.Consistent: the window is a flag, not an object, so "at most one overlay window" holds by construction. A destroyed-and-rebuilt window cannot be told apart from the same window.
- Overlay.OverlayManager.ToggleOverlay and Overlay.OverlayManager.OnClose: the Tk calls of `toggle_overlay` (crosshair_overlay.py:151, 155-157) and of `on_close` (191, 194) are outside any `try`. A failing one raises out of the function and leaves `overlay_visible` (or the window) as it was. The model assumes these calls always succeed.
- The `keyboard` global hotkey and `setup_hotkey` (crosshair_overlay.py:162-176): an OS hook firing on another thread. This is concurrency; only `toggle_overlay` is modelled, as a plain method.
- Overlay.OverlayManager.OnClose: `root.destroy()` and the end of the main loop are not modelled, beyond `closed`. `on_close` is modelled as running once, since the main window cannot be closed twice.
- `create_gui` and `refresh_list` (crosshair_overlay.py:199-258) are layout. The default selection of the first image is not modelled; the selection is a parameter of `ApplyCrosshair`.
- The centring arithmetic (crosshair_overlay.py:254-256) uses float division followed by `%d` formatting. Only the size parse of line 253 is modelled.
- The administrator check (crosshair_overlay.py:264-276) depends on the OS and environment, and refers to `ctypes`, which is never imported.
- Filesystem effects are not modelled: `os.listdir`, `os.path.isfile`, `os.makedirs`, and writing "6_transparent.png" (trans.py:16). Listings and outcomes are inputs.
- `ColorKey.WhiteToTransparent` starts from pixel data already converted to RGBA (trans.py:4-5).
- BatchResize.ResizeImage: the three caught failure kinds (file not found, permission denied, any other error) are one outcome, since each is only printed. An exception after `save` (from the print at view.py:66 or `img.close()` at 68) is caught too, but the file is already written, so the model counts that call as one that succeeds.
- Text.Lower: this is ASCII case mapping. Python's `str.lower` also maps non-ASCII letters, but no non-ASCII character lowers to '.', 'p', 'n' or 'g', so the ".png" test gives the same verdict.
- Text.ParseInt: this accepts an optional sign followed by ASCII digits. Python's `int()` also accepts surrounding whitespace and underscores between digits, which Tk geometry strings never contain.
- Text.PathJoin and Text.SplitExt: these follow POSIX `os.path`. The Windows forms (backslashes, drive letters) are not modelled.
