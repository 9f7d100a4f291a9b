/**
 * `src/store/modules/app.ts`: the application store, with the theme, the article view mode,
 * the article layout and the reading mode.  The browser's storage entries and the class lists
 * of the root element and of the body are fields of the store.
 */
module AppStore {
  import opened Wrappers

  /** `'list' | 'timeline'` */
  datatype ViewMode = List | Timeline

  /** `'single' | 'double'` */
  datatype Layout = Single | Double

  const ViewModeKey: string := "articleViewMode"
  const LayoutKey: string := "articleLayout"
  const ListName: string := "list"
  const TimelineName: string := "timeline"
  const SingleName: string := "single"
  const DoubleName: string := "double"

  /** The class on the root element that turns on the dark theme. */
  const DarkClass: string := "dark"
  /** The class on the body that turns on the reading mode. */
  const ReadingClass: string := "reading-mode"

  /** The text a view mode is saved as. */
  function ViewModeName(m: ViewMode): (s: string)
    ensures s == ListName || s == TimelineName
  {
    match m
    case List => ListName
    case Timeline => TimelineName
  }

  /** The text a layout is saved as. */
  function LayoutName(l: Layout): (s: string)
    ensures s == SingleName || s == DoubleName
  {
    match l
    case Single => SingleName
    case Double => DoubleName
  }

  /** The initial view mode: the saved one when it is `list` or `timeline`, otherwise `list`
      (also when nothing is saved or the storage cannot be read, `None`). */
  function InitialViewMode(stored: Option<string>): (m: ViewMode)
    ensures m == Timeline <==> stored == Some(TimelineName)
  {
    if stored == Some(ListName) then List
    else if stored == Some(TimelineName) then Timeline
    else List
  }

  /** The initial layout: the saved one when it is `single` or `double`, otherwise `single`. */
  function InitialLayout(stored: Option<string>): (l: Layout)
    ensures l == Double <==> stored == Some(DoubleName)
  {
    if stored == Some(SingleName) then Single
    else if stored == Some(DoubleName) then Double
    else Single
  }

  /** A saved view mode or layout is what the next page starts with. */
  lemma SavedModeRestored(m: ViewMode, l: Layout)
    ensures InitialViewMode(Some(ViewModeName(m))) == m
    ensures InitialLayout(Some(LayoutName(l))) == l
  {
  }

  /** The other view mode. */
  function OtherViewMode(m: ViewMode): (r: ViewMode)
    ensures r != m
  {
    if m == List then Timeline else List
  }

  /** The other layout. */
  function OtherLayout(l: Layout): (r: Layout)
    ensures r != l
  {
    if l == Single then Double else Single
  }

  /** Toggling twice gives back the mode and the layout one started with. */
  lemma ToggleTwiceIsIdentity(m: ViewMode, l: Layout)
    ensures OtherViewMode(OtherViewMode(m)) == m
    ensures OtherLayout(OtherLayout(l)) == l
  {
  }

  /** `classList.toggle(name, on)`: the class is there exactly when `on`, the others stay. */
  function WithClass(classes: set<string>, name: string, on: bool): (r: set<string>)
    ensures name in r <==> on
    ensures r - {name} == classes - {name}
  {
    if on then classes + {name} else classes - {name}
  }

  /** The state of the store, with the storage entries and class lists it writes. */
  class App {
    var isDark: bool
    var articleViewMode: ViewMode
    var articleLayout: Layout
    var readingMode: bool
    /** The storage entries `articleViewMode` and `articleLayout`. */
    var storedViewMode: Option<string>
    var storedLayout: Option<string>
    /** `document.documentElement.classList` and `document.body.classList`. */
    var rootClasses: set<string>
    var bodyClasses: set<string>

    /** The store's initial state, read from what an earlier page saved. */
    constructor(savedViewMode: Option<string>, savedLayout: Option<string>, root: set<string>, body: set<string>)
      ensures !isDark && !readingMode
      ensures articleViewMode == InitialViewMode(savedViewMode)
      ensures articleLayout == InitialLayout(savedLayout)
      ensures storedViewMode == savedViewMode && storedLayout == savedLayout
      ensures rootClasses == root && bodyClasses == body
    {
      isDark := false;
      articleViewMode := InitialViewMode(savedViewMode);
      articleLayout := InitialLayout(savedLayout);
      readingMode := false;
      storedViewMode := savedViewMode;
      storedLayout := savedLayout;
      rootClasses := root;
      bodyClasses := body;
    }

    /** `toggleTheme()`: flip the theme; the root carries `dark` exactly when it is dark. */
    method ToggleTheme()
      modifies this
      ensures isDark == !old(isDark)
      ensures rootClasses == WithClass(old(rootClasses), DarkClass, isDark)
      ensures DarkClass in rootClasses <==> isDark
      ensures articleViewMode == old(articleViewMode) && articleLayout == old(articleLayout)
      ensures readingMode == old(readingMode) && bodyClasses == old(bodyClasses)
      ensures storedViewMode == old(storedViewMode) && storedLayout == old(storedLayout)
    {
      isDark := !isDark;
      rootClasses := WithClass(rootClasses, DarkClass, isDark);
    }

    /** `toggleArticleViewMode()`: the other mode, saved. */
    method ToggleArticleViewMode()
      modifies this
      ensures articleViewMode == OtherViewMode(old(articleViewMode))
      ensures storedViewMode == Some(ViewModeName(articleViewMode))
      ensures isDark == old(isDark) && articleLayout == old(articleLayout) && readingMode == old(readingMode)
      ensures storedLayout == old(storedLayout)
      ensures rootClasses == old(rootClasses) && bodyClasses == old(bodyClasses)
    {
      articleViewMode := if articleViewMode == List then Timeline else List;
      storedViewMode := Some(ViewModeName(articleViewMode));
    }

    /** `toggleArticleLayout()`: the other layout, saved. */
    method ToggleArticleLayout()
      modifies this
      ensures articleLayout == OtherLayout(old(articleLayout))
      ensures storedLayout == Some(LayoutName(articleLayout))
      ensures isDark == old(isDark) && articleViewMode == old(articleViewMode) && readingMode == old(readingMode)
      ensures storedViewMode == old(storedViewMode)
      ensures rootClasses == old(rootClasses) && bodyClasses == old(bodyClasses)
    {
      articleLayout := if articleLayout == Single then Double else Single;
      storedLayout := Some(LayoutName(articleLayout));
    }

    /** `toggleReadingMode()`: flip the reading mode; the body carries `reading-mode` exactly
        when it is on. */
    method ToggleReadingMode()
      modifies this
      ensures readingMode == !old(readingMode)
      ensures bodyClasses == WithClass(old(bodyClasses), ReadingClass, readingMode)
      ensures ReadingClass in bodyClasses <==> readingMode
      ensures isDark == old(isDark) && articleViewMode == old(articleViewMode) && articleLayout == old(articleLayout)
      ensures rootClasses == old(rootClasses)
      ensures storedViewMode == old(storedViewMode) && storedLayout == old(storedLayout)
    {
      readingMode := !readingMode;
      if readingMode {
        bodyClasses := bodyClasses + {ReadingClass};
      } else {
        bodyClasses := bodyClasses - {ReadingClass};
      }
    }
  }
}
