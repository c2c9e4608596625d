/** The pure validators of utils/validation.py: the screen-bounds check, the title rule of
    `find_window_by_title` in one scan of the window list, and `verify_window_active`. */
module Validation {
  import opened Wrappers
  import opened Text
  import BaseGrounding

  /** The default screen size of `validate_coordinates`. */
  const DEFAULT_SCREEN_WIDTH: int := 1920
  const DEFAULT_SCREEN_HEIGHT: int := 1080

  /** `validate_coordinates(x, y, screen_width, screen_height)`: x is checked first, then y. */
  function ValidateCoordinates(x: int, y: int, screenWidth: int, screenHeight: int): (ok: bool)
    ensures ok <==> 0 <= x < screenWidth && 0 <= y < screenHeight
  {
    if !(0 <= x < screenWidth) then false
    else if !(0 <= y < screenHeight) then false
    else true
  }

  /** The call with the default bounds accepts exactly the points of a 1920x1080 screen. */
  lemma DefaultBounds(x: int, y: int)
    ensures ValidateCoordinates(x, y, DEFAULT_SCREEN_WIDTH, DEFAULT_SCREEN_HEIGHT) <==> 0 <= x < 1920 && 0 <= y < 1080
  {
  }

  /** `validate_coordinates` and a strategy's `validate_result` agree on every point. */
  lemma AgreesWithValidateResult(p: BaseGrounding.Point, s: BaseGrounding.Screenshot)
    ensures ValidateCoordinates(p.x, p.y, s.width, s.height) == BaseGrounding.ValidateResult(Some(p), s)
  {
  }

  /** A desktop window; only its title matters here. */
  datatype Window = Window(title: string)

  /** The result of `gw.getAllWindows()`: the windows in enumeration order, or an exception. */
  datatype Enumeration = Windows(windows: seq<Window>) | EnumerationRaised

  /** The title test of `find_window_by_title`: equality in exact mode, otherwise a
      case-insensitive substring test. */
  predicate TitleMatches(title: string, pattern: string, exactMatch: bool) {
    if exactMatch then title == pattern else Contains(Lower(title), Lower(pattern))
  }

  /** `find_window_by_title` with `timeout <= 0`: one scan, returning the first window in
      enumeration order whose title matches; an exception while enumerating ends the search
      with None. */
  method FindWindowByTitle(scan: Enumeration, titlePattern: string, exactMatch: bool) returns (r: Option<Window>)
    ensures scan.EnumerationRaised? ==> r.None?
    ensures scan.Windows? && r.None? ==>
      forall i :: 0 <= i < |scan.windows| ==> !TitleMatches(scan.windows[i].title, titlePattern, exactMatch)
    ensures r.Some? ==> scan.Windows? && exists i ::
      && 0 <= i < |scan.windows| && r == Some(scan.windows[i])
      && TitleMatches(scan.windows[i].title, titlePattern, exactMatch)
      && forall j :: 0 <= j < i ==> !TitleMatches(scan.windows[j].title, titlePattern, exactMatch)
  {
    if scan.EnumerationRaised? {
      return None;
    }
    var allWindows := scan.windows;
    var i := 0;
    while i < |allWindows|
      invariant 0 <= i <= |allWindows|
      invariant forall j :: 0 <= j < i ==> !TitleMatches(allWindows[j].title, titlePattern, exactMatch)
    {
      var window := allWindows[i];
      if exactMatch {
        if window.title == titlePattern {
          return Some(window);
        }
      } else {
        if Contains(Lower(window.title), Lower(titlePattern)) {
          return Some(window);
        }
      }
      i := i + 1;
    }
    return None;
  }

  /** In the default mode a title matches whenever the lowercased pattern occurs in the
      lowercased title at some position. */
  lemma TitleMatchesOccurrence(title: string, pattern: string, k: int)
    requires OccursAt(Lower(title), Lower(pattern), k)
    ensures TitleMatches(title, pattern, false)
  {
    ContainsIff(Lower(title), Lower(pattern));
  }

  /** Case-insensitive matching does not depend on the case of the pattern or the title. */
  lemma TitleMatchesCaseInsensitive(title: string, pattern: string)
    ensures TitleMatches(title, pattern, false) == TitleMatches(Lower(title), Lower(pattern), false)
  {
    LowerIdempotent(title);
    LowerIdempotent(pattern);
  }

  /** The result of `gw.getActiveWindow()`: the active window, None, or an exception. */
  datatype ActiveWindow = Active(window: Window) | NoActiveWindow | ActiveRaised

  /** `verify_window_active`: an active window exists and its lowercased title contains the
      lowercased pattern; an exception gives False. */
  function VerifyWindowActive(active: ActiveWindow, titlePattern: string): (ok: bool)
    ensures ok <==> active.Active? && exists k :: OccursAt(Lower(active.window.title), Lower(titlePattern), k)
  {
    match active
    case ActiveRaised => false
    case NoActiveWindow => false
    case Active(w) =>
      ContainsIff(Lower(w.title), Lower(titlePattern));
      Contains(Lower(w.title), Lower(titlePattern))
  }

  /** `verify_window_active` applies the title rule of the default mode of `find_window_by_title`. */
  lemma ActiveUsesTitleRule(w: Window, titlePattern: string)
    ensures VerifyWindowActive(Active(w), titlePattern) == TitleMatches(w.title, titlePattern, false)
  {
    ContainsIff(Lower(w.title), Lower(titlePattern));
  }
}
