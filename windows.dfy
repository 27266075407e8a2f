/** What the application coordinator sees of one browser main window.
    The window and its tab widget live in browsermainwindow.cpp and
    tabwidget.cpp, which are not part of this model; only the few facts the
    coordinator relies on are written down here: a window has a list of tabs,
    one of them is current, a new tab is appended blank and made current, and
    loading a page replaces the current tab's URL. */
module Windows {
  /** A URL as the user typed it (a QString). The empty string is QUrl(). */
  type Url = string

  const EmptyUrl: Url := ""

  /** An abstract handle for a BrowserMainWindow object. */
  type WinId = nat

  datatype WindowData = WindowData(tabs: seq<Url>, current: nat)

  /** When a window has tabs, its current index points at one of them. */
  type Window = w: WindowData | w.tabs == [] || w.current < |w.tabs| witness WindowData([], 0)

  /** The URL of the current tab (QUrl() when there is none). */
  function CurrentUrl(w: Window): Url
  {
    if w.tabs == [] then EmptyUrl else w.tabs[w.current]
  }

  /** TabWidget::newTab(): a blank tab is appended and becomes current. */
  function NewTab(w: Window): (r: Window)
    ensures |r.tabs| == |w.tabs| + 1 && r.tabs[..|w.tabs|] == w.tabs
    ensures CurrentUrl(r) == EmptyUrl && r.current == |w.tabs|
  {
    WindowData(w.tabs + [EmptyUrl], |w.tabs|)
  }

  /** BrowserMainWindow::loadPage(url): the current tab shows url; a window
      without a tab ignores the request. */
  function LoadPage(w: Window, url: Url): (r: Window)
    ensures |r.tabs| == |w.tabs| && r.current == w.current
    ensures w.tabs != [] ==> CurrentUrl(r) == url
    ensures forall i :: 0 <= i < |w.tabs| && i != w.current ==> r.tabs[i] == w.tabs[i]
    ensures w.tabs == [] ==> r == w
  {
    if w.tabs == [] then w else WindowData(w.tabs[w.current := url], w.current)
  }

  /** The named rule of session restore: one tab, and that tab shows nothing. */
  predicate HasSoleBlankTab(w: Window)
  {
    |w.tabs| == 1 && CurrentUrl(w) == EmptyUrl
  }
}
