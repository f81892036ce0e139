/**
 * The overlay life cycle of crosshair_overlay.py.
 *
 * The module globals `overlay_window`, `overlay_label`, `overlay_photo`,
 * `overlay_visible` and `current_image_path` become the fields of one
 * `OverlayManager`. What the libraries answer is passed in:
 *   - `Image.open` becomes an `OpenResult` (file missing, any other failure,
 *     or an image of some size);
 *   - `get_screen_resolution()` becomes the two numbers `screenWidth`,
 *     `screenHeight`;
 *   - whether `ImageTk.PhotoImage` succeeds becomes `photoOk`, and whether the
 *     Tk calls that build or update the window succeed becomes `tkOk`; a
 *     failure of either lands in the generic `except Exception` path.
 *
 * Each method is specified by a pure transition function on `OverlayState`;
 * the lemmas below state what the program promises about those transitions.
 */
module Overlay {
  import opened Wrappers
  import opened Text

  /** `IMG_DIR`. */
  const ImgDir: string := "./img"

  /** What `Image.open(path)` followed by `.size` gives. */
  datatype OpenResult = NotFound | OtherError | Opened(width: int, height: int)

  /** A Tk photo made from the image at `path`, of its native size. */
  datatype Photo = Photo(path: string, width: int, height: int)

  /**
   * The values of the module globals. `window` stands for "`overlay_window`
   * is not None and still exists" (the test at lines 76, 114, 140 and 189);
   * `labelImage` is the photo the label widget shows, `None` when there is no
   * label; `closed` records that `on_close` has run.
   */
  datatype OverlayState = OverlayState(
    window: bool,
    visible: bool,
    photo: Option<Photo>,
    labelImage: Option<Photo>,
    currentPath: Option<string>,
    closed: bool)

  /** A new state and the boolean `create_or_update_overlay` returns. */
  datatype Outcome = Outcome(state: OverlayState, ok: bool)

  /** The globals as the module initialises them (lines 14-19). */
  const Initial: OverlayState := OverlayState(false, false, None, None, None, false)

  /**
   * The invariant of the running application: a visible overlay has a window,
   * the label always shows the photo the program keeps a reference to, and a
   * photo is held exactly when there is a window. After `on_close` only
   * "no window" is promised: `on_close` leaves the other globals as they were.
   */
  predicate Consistent(s: OverlayState)
  {
    if s.closed then !s.window
    else (s.visible ==> s.window) && s.labelImage == s.photo && (s.window <==> s.photo.Some?)
  }

  /** The clean-up of the generic failure path (lines 114-119). The path is kept. */
  function TornDown(s: OverlayState): OverlayState
  {
    s.(window := false, visible := false, photo := None, labelImage := None)
  }

  /** `create_or_update_overlay(image_path)`, lines 52-120. */
  function CreateOrUpdate(s: OverlayState, imagePath: string, img: OpenResult,
                          screenWidth: int, screenHeight: int, photoOk: bool, tkOk: bool): Outcome
  {
    match img
    case NotFound => Outcome(s, false)
    case OtherError => Outcome(TornDown(s), false)
    case Opened(w, h) =>
      if w != screenWidth || h != screenHeight then Outcome(s, false)
      else if !photoOk then Outcome(TornDown(s), false)
      else
        var p := Photo(imagePath, w, h);
        var s1 := s.(photo := Some(p), currentPath := Some(imagePath));
        if !tkOk then Outcome(TornDown(s1), false)
        else if !s.window then Outcome(s1.(window := true, labelImage := Some(p), visible := false), true)
        else Outcome(s1.(labelImage := Some(p)), true)
  }

  /** `toggle_overlay()`, lines 137-159 (the recovery at lines 142-147 is commented out). */
  function Toggle(s: OverlayState): OverlayState
  {
    if !s.window then s
    else if s.visible then s.(visible := false)
    else s.(visible := true)
  }

  /** `apply_crosshair()`, lines 122-134, for the combobox text `selected`. */
  function Apply(s: OverlayState, selected: string, img: OpenResult,
                 screenWidth: int, screenHeight: int, photoOk: bool, tkOk: bool): OverlayState
  {
    if selected == "" then s
    else
      var o := CreateOrUpdate(s, PathJoin(ImgDir, selected), img, screenWidth, screenHeight, photoOk, tkOk);
      if o.ok && !o.state.visible && o.state.window then Toggle(o.state) else o.state
  }

  /** `on_close()`, lines 179-195: the overlay window is destroyed, nothing else is reset. */
  function Close(s: OverlayState): OverlayState
  {
    s.(window := false, closed := true)
  }

  // ---------------------------------------------------------------------
  // Properties of create_or_update_overlay
  // ---------------------------------------------------------------------

  /** Success exactly when the image opens, matches the screen in both dimensions, and Tk cooperates. */
  lemma CreateOrUpdateSucceedsIff(s: OverlayState, imagePath: string, img: OpenResult,
                                  screenWidth: int, screenHeight: int, photoOk: bool, tkOk: bool)
    ensures CreateOrUpdate(s, imagePath, img, screenWidth, screenHeight, photoOk, tkOk).ok
            <==> img == Opened(screenWidth, screenHeight) && photoOk && tkOk
  {
  }

  /**
   * A missing file, or an image whose width or height differs from the
   * screen's (the test is equality, so a smaller image is refused too),
   * changes nothing at all.
   */
  lemma RejectedImageKeepsState(s: OverlayState, imagePath: string, img: OpenResult,
                                screenWidth: int, screenHeight: int, photoOk: bool, tkOk: bool)
    requires img.NotFound? || (img.Opened? && (img.width != screenWidth || img.height != screenHeight))
    ensures CreateOrUpdate(s, imagePath, img, screenWidth, screenHeight, photoOk, tkOk) == Outcome(s, false)
  {
  }

  /** The first successful apply creates the window hidden, holding the new photo and path. */
  lemma FirstApplyCreatesHiddenWindow(s: OverlayState, imagePath: string,
                                      screenWidth: int, screenHeight: int)
    requires !s.window
    ensures var p := Photo(imagePath, screenWidth, screenHeight);
            CreateOrUpdate(s, imagePath, Opened(screenWidth, screenHeight), screenWidth, screenHeight, true, true)
            == Outcome(s.(window := true, visible := false, photo := Some(p), labelImage := Some(p),
                          currentPath := Some(imagePath)), true)
  {
  }

  /**
   * A successful apply with a window already there swaps only the image:
   * the window stays, and so does its visibility.
   */
  lemma ReapplyReplacesOnlyImage(s: OverlayState, imagePath: string,
                                 screenWidth: int, screenHeight: int)
    requires s.window
    ensures var p := Photo(imagePath, screenWidth, screenHeight);
            CreateOrUpdate(s, imagePath, Opened(screenWidth, screenHeight), screenWidth, screenHeight, true, true)
            == Outcome(s.(photo := Some(p), labelImage := Some(p), currentPath := Some(imagePath)), true)
  {
  }

  /**
   * Any other failure tears the overlay down: no window, no labelImage, no photo,
   * not visible. The remembered path is not cleared; once the photo has been
   * made (line 74 runs before the window is built) it is the new path.
   */
  lemma OtherFailureTearsDown(s: OverlayState, imagePath: string, img: OpenResult,
                              screenWidth: int, screenHeight: int, photoOk: bool, tkOk: bool)
    requires img.OtherError? || (img == Opened(screenWidth, screenHeight) && !(photoOk && tkOk))
    ensures var o := CreateOrUpdate(s, imagePath, img, screenWidth, screenHeight, photoOk, tkOk);
            && !o.ok
            && !o.state.window && !o.state.visible && o.state.photo == None && o.state.labelImage == None
            && o.state.closed == s.closed
            && o.state.currentPath == (if img.Opened? && photoOk then Some(imagePath) else s.currentPath)
  {
  }

  lemma CreateOrUpdatePreservesConsistent(s: OverlayState, imagePath: string, img: OpenResult,
                                          screenWidth: int, screenHeight: int, photoOk: bool, tkOk: bool)
    requires Consistent(s) && !s.closed
    ensures Consistent(CreateOrUpdate(s, imagePath, img, screenWidth, screenHeight, photoOk, tkOk).state)
  {
  }

  // ---------------------------------------------------------------------
  // Properties of toggle_overlay
  // ---------------------------------------------------------------------

  /** Without a window a toggle is ignored: there is no recovery. */
  lemma ToggleWithoutWindowIsIgnored(s: OverlayState)
    requires !s.window
    ensures Toggle(s) == s
  {
  }

  /** With a window a toggle flips visibility and nothing else. */
  lemma ToggleFlipsVisibility(s: OverlayState)
    requires s.window
    ensures Toggle(s) == s.(visible := !s.visible)
  {
  }

  /** Two toggles in a row restore the state, with or without a window. */
  lemma ToggleTwiceRestores(s: OverlayState)
    ensures Toggle(Toggle(s)) == s
  {
  }

  lemma TogglePreservesConsistent(s: OverlayState)
    requires Consistent(s)
    ensures Consistent(Toggle(s))
  {
  }

  // ---------------------------------------------------------------------
  // Properties of apply_crosshair and on_close
  // ---------------------------------------------------------------------

  /** An empty selection only warns. */
  lemma ApplyEmptySelectionKeepsState(s: OverlayState, img: OpenResult,
                                      screenWidth: int, screenHeight: int, photoOk: bool, tkOk: bool)
    ensures Apply(s, "", img, screenWidth, screenHeight, photoOk, tkOk) == s
  {
  }

  /**
   * A successful apply leaves the overlay visible, showing the image at
   * `IMG_DIR/selected`; the window it shows in is the old one if there was one.
   */
  lemma {:induction false} ApplySuccessShowsOverlay(s: OverlayState, selected: string,
                                 screenWidth: int, screenHeight: int)
    requires Consistent(s) && !s.closed && selected != ""
    ensures var path := PathJoin(ImgDir, selected);
            var p := Photo(path, screenWidth, screenHeight);
            Apply(s, selected, Opened(screenWidth, screenHeight), screenWidth, screenHeight, true, true)
            == s.(window := true, visible := true, photo := Some(p), labelImage := Some(p), currentPath := Some(path))
  {
    var path := PathJoin(ImgDir, selected);
    if s.window {
      ReapplyReplacesOnlyImage(s, path, screenWidth, screenHeight);
    } else {
      FirstApplyCreatesHiddenWindow(s, path, screenWidth, screenHeight);
    }
  }

  /** A failed apply has exactly the effect of the failed `create_or_update_overlay`. */
  lemma ApplyFailureIsCreateOrUpdate(s: OverlayState, selected: string, img: OpenResult,
                                     screenWidth: int, screenHeight: int, photoOk: bool, tkOk: bool)
    requires selected != ""
    requires !CreateOrUpdate(s, PathJoin(ImgDir, selected), img, screenWidth, screenHeight, photoOk, tkOk).ok
    ensures Apply(s, selected, img, screenWidth, screenHeight, photoOk, tkOk)
            == CreateOrUpdate(s, PathJoin(ImgDir, selected), img, screenWidth, screenHeight, photoOk, tkOk).state
  {
  }

  lemma ApplyPreservesConsistent(s: OverlayState, selected: string, img: OpenResult,
                                 screenWidth: int, screenHeight: int, photoOk: bool, tkOk: bool)
    requires Consistent(s) && !s.closed
    ensures Consistent(Apply(s, selected, img, screenWidth, screenHeight, photoOk, tkOk))
  {
    if selected != "" {
      var o := CreateOrUpdate(s, PathJoin(ImgDir, selected), img, screenWidth, screenHeight, photoOk, tkOk);
      CreateOrUpdatePreservesConsistent(s, PathJoin(ImgDir, selected), img, screenWidth, screenHeight, photoOk, tkOk);
      TogglePreservesConsistent(o.state);
    }
  }

  /** Closing removes the window and keeps every other global as it was. */
  lemma CloseRemovesWindow(s: OverlayState)
    requires Consistent(s)
    ensures Consistent(Close(s))
    ensures !Close(s).window && Close(s).closed
    ensures Close(s).(window := s.window, closed := s.closed) == s
  {
  }

  /**
   * On a 1920x1080 screen: applying a 1920x1080 image shows it; a toggle hides
   * it; applying a 2560x1440 image is refused and the first image stays, hidden.
   */
  lemma ScenarioSecondImageRefused()
    ensures var a := Photo("./img/a.png", 1920, 1080);
            var s1 := Apply(Initial, "a.png", Opened(1920, 1080), 1920, 1080, true, true);
            var s2 := Toggle(s1);
            var s3 := Apply(s2, "b.png", Opened(2560, 1440), 1920, 1080, true, true);
            && s1 == OverlayState(true, true, Some(a), Some(a), Some("./img/a.png"), false)
            && s2 == s1.(visible := false)
            && s3 == s2
  {
    assert PathJoin(ImgDir, "a.png") == "./img/a.png";
    ApplySuccessShowsOverlay(Initial, "a.png", 1920, 1080);
  }

  // ---------------------------------------------------------------------
  // The state machine over the module globals
  // ---------------------------------------------------------------------

  class OverlayManager {
    var window: bool
    var visible: bool
    var photo: Option<Photo>
    var labelImage: Option<Photo>
    var currentPath: Option<string>
    var closed: bool

    function Snapshot(): OverlayState
      reads this
    {
      OverlayState(window, visible, photo, labelImage, currentPath, closed)
    }

    ghost predicate Valid()
      reads this
    {
      Consistent(Snapshot())
    }

    constructor ()
      ensures Valid() && Snapshot() == Initial
    {
      window, visible := false, false;
      photo, labelImage, currentPath := None, None, None;
      closed := false;
    }

    /** The body of the generic `except Exception` handler, lines 113-119. */
    method TearDown()
      modifies this
      ensures Snapshot() == TornDown(old(Snapshot()))
    {
      window := false;
      labelImage := None;
      photo := None;
      visible := false;
    }

    method CreateOrUpdateOverlay(imagePath: string, img: OpenResult,
                                 screenWidth: int, screenHeight: int, photoOk: bool, tkOk: bool)
      returns (ok: bool)
      requires Valid() && !closed
      modifies this
      ensures Valid() && !closed
      ensures Outcome(Snapshot(), ok)
              == CreateOrUpdate(old(Snapshot()), imagePath, img, screenWidth, screenHeight, photoOk, tkOk)
    {
      CreateOrUpdatePreservesConsistent(Snapshot(), imagePath, img, screenWidth, screenHeight, photoOk, tkOk);
      match img
      case NotFound =>
        return false;
      case OtherError =>
        TearDown();
        return false;
      case Opened(w, h) =>
        if w != screenWidth || h != screenHeight {
          return false;
        }
        if !photoOk {
          TearDown();
          return false;
        }
        var p := Photo(imagePath, w, h);
        photo := Some(p);
        currentPath := Some(imagePath);
        if !window {
          if !tkOk {
            TearDown();
            return false;
          }
          window := true;
          labelImage := Some(p);
          visible := false;
        } else {
          if !tkOk {
            TearDown();
            return false;
          }
          labelImage := Some(p);
        }
        return true;
    }

    method ToggleOverlay()
      requires Valid()
      modifies this
      ensures Valid()
      ensures Snapshot() == Toggle(old(Snapshot()))
    {
      TogglePreservesConsistent(Snapshot());
      if !window {
        return;
      }
      if visible {
        visible := false;
      } else {
        visible := true;
      }
    }

    /** Returns whether the "applied" message is shown. */
    method ApplyCrosshair(selected: string, img: OpenResult,
                          screenWidth: int, screenHeight: int, photoOk: bool, tkOk: bool)
      returns (applied: bool)
      requires Valid() && !closed
      modifies this
      ensures Valid() && !closed
      ensures Snapshot() == Apply(old(Snapshot()), selected, img, screenWidth, screenHeight, photoOk, tkOk)
      ensures applied <==>
                (selected != "" &&
                 CreateOrUpdate(old(Snapshot()), PathJoin(ImgDir, selected), img,
                                screenWidth, screenHeight, photoOk, tkOk).ok)
    {
      if selected == "" {
        return false;
      }
      var fullPath := PathJoin(ImgDir, selected);
      applied := CreateOrUpdateOverlay(fullPath, img, screenWidth, screenHeight, photoOk, tkOk);
      if applied {
        if !visible && window {
          ToggleOverlay();
        }
      }
    }

    /**
     * `on_close()`. `unhookSucceeded` is whether `keyboard.unhook_all()`
     * returned normally; an exception from it is caught and printed (lines
     * 182-186) and shutdown carries on, so it has no effect on the state.
     */
    method OnClose(unhookSucceeded: bool)
      requires Valid() && !closed
      modifies this
      ensures Valid()
      ensures Snapshot() == Close(old(Snapshot()))
    {
      window := false;
      closed := true;
    }
  }

  // ---------------------------------------------------------------------
  // load_image_list and the geometry parse used for centering
  // ---------------------------------------------------------------------

  /** `[f for f in names if f.lower().endswith('.png')]`, in listing order. */
  function PngNames(names: seq<string>): (r: seq<string>)
    ensures |r| <= |names|
    ensures forall f :: f in r <==> f in names && IsPngName(f)
  {
    if names == [] then []
    else (if IsPngName(names[0]) then [names[0]] else []) + PngNames(names[1..])
  }

  /** The filter keeps order: it acts on a concatenation piece by piece. */
  lemma {:induction false} PngNamesAppend(a: seq<string>, b: seq<string>)
    ensures PngNames(a + b) == PngNames(a) + PngNames(b)
  {
    if a == [] {
      assert a + b == b;
    } else {
      assert a + b != [];
      assert (a + b)[0] == a[0];
      assert (a + b)[1..] == a[1..] + b;
      PngNamesAppend(a[1..], b);
    }
  }

  /** What `os.listdir(IMG_DIR)` gives, if anything. */
  datatype Listing = Missing | Unreadable | Entries(names: seq<string>)

  /** `load_image_list()`, lines 40-50: both error cases give the empty list. */
  function LoadImageList(listing: Listing): (r: seq<string>)
    ensures forall f :: f in r <==> listing.Entries? && f in listing.names && IsPngName(f)
    ensures listing.Entries? ==> r == PngNames(listing.names)
  {
    match listing
    case Missing => []
    case Unreadable => []
    case Entries(names) => PngNames(names)
  }

  /** `int(_)` for each piece; `None` if any piece raises `ValueError`. */
  function ParseInts(pieces: seq<string>): (r: Option<seq<int>>)
    ensures r.Some? ==> |r.value| == |pieces|
    ensures r.Some? ==> forall k :: 0 <= k < |pieces| ==> ParseInt(pieces[k]) == Some(r.value[k])
    ensures r.Some? <==> forall k :: 0 <= k < |pieces| ==> ParseInt(pieces[k]).Some?
  {
    if pieces == [] then Some([])
    else
      var head, tail := ParseInt(pieces[0]), ParseInts(pieces[1..]);
      if head.Some? && tail.Some? then Some([head.value] + tail.value) else None
  }

  /** `tuple(int(_) for _ in g.split('+')[0].split('x'))`, line 253. */
  function GeometrySize(g: string): Option<seq<int>>
  {
    ParseInts(Split(Split(g, '+')[0], 'x'))
  }

  /** A Tk geometry string "WxH+X+Y"; X and Y may be negative ("+-8"). */
  function GeometryString(w: nat, h: nat, x: int, y: int): string
  {
    NatToDecimal(w) + "x" + NatToDecimal(h) + "+" + IntToDecimal(x) + "+" + IntToDecimal(y)
  }

  /** The text before the first '+' of a geometry string is its "WxH" part. */
  lemma GeometrySizePart(w: nat, h: nat, x: int, y: int)
    ensures Split(GeometryString(w, h, x, y), '+')[0] == NatToDecimal(w) + "x" + NatToDecimal(h)
  {
    var size := NatToDecimal(w) + ['x'] + NatToDecimal(h);
    var rest := IntToDecimal(x) + "+" + IntToDecimal(y);
    assert GeometryString(w, h, x, y) == size + ['+'] + rest;
    SplitAtFirst(size, rest, '+');
  }

  /** "WxH" splits at 'x' into the two numbers. */
  lemma SizePieces(w: nat, h: nat)
    ensures Split(NatToDecimal(w) + "x" + NatToDecimal(h), 'x') == [NatToDecimal(w), NatToDecimal(h)]
  {
    var ws, hs := NatToDecimal(w), NatToDecimal(h);
    assert ws + "x" + hs == ws + ['x'] + hs;
    SplitAtFirst(ws, hs, 'x');
    SplitNoSeparator(hs, 'x');
  }

  /** Both numbers parse back. */
  lemma ParseSizePieces(w: nat, h: nat)
    ensures ParseInts([NatToDecimal(w), NatToDecimal(h)]) == Some([w, h])
  {
    var ws, hs := NatToDecimal(w), NatToDecimal(h);
    ParseDecimalRoundTrip(w);
    ParseDecimalRoundTrip(h);
    assert [hs][0] == hs && ParseInt([hs][0]) == Some(h);
    assert ParseInts([hs][1..]) == Some([]);
    assert [h as int] + [] == [h];
    assert ParseInts([hs]) == Some([h]);
    assert [ws, hs][0] == ws && ParseInt([ws, hs][0]) == Some(w);
    assert ParseInts([ws, hs][1..]) == Some([h]);
    assert [w as int] + [h] == [w, h];
  }

  /** The parse at line 253 recovers exactly (width, height) from a Tk geometry string. */
  lemma GeometrySizeRoundTrip(w: nat, h: nat, x: int, y: int)
    ensures GeometrySize(GeometryString(w, h, x, y)) == Some([w, h])
  {
    GeometrySizePart(w, h, x, y);
    SizePieces(w, h);
    ParseSizePieces(w, h);
  }
}
