/** The primary process's handling of a URL forwarded by a later-launched
    process (newLocalSocketConnection), and the way the text on the socket
    becomes that URL. */
module Forwarding {
  import opened Wrappers
  import opened Windows
  import opened Events
  import opened WindowRegistry

  /** The characters QTextStream skips as white space (the ASCII ones plus
      NEL and no-break space). */
  predicate IsSpace(c: char)
  {
    c == ' ' || c == '\t' || c == '\n' || c == '\r' || c == '\U{000B}' || c == '\U{000C}'
      || c == '\U{0085}' || c == '\U{00A0}'
  }

  predicate NoSpace(s: string)
  {
    forall i :: 0 <= i < |s| ==> !IsSpace(s[i])
  }

  /** The text left after skipping leading white space. */
  function SkipSpaces(s: string): (r: string)
    ensures r == [] || !IsSpace(r[0])
    ensures |r| <= |s| && r == s[|s| - |r|..]
    ensures forall i :: 0 <= i < |s| - |r| ==> IsSpace(s[i])
  {
    if s != [] && IsSpace(s[0]) then SkipSpaces(s[1..]) else s
  }

  /** The longest prefix that holds no white space. */
  function Word(s: string): (r: string)
    ensures |r| <= |s| && r == s[..|r|]
    ensures NoSpace(r)
    ensures |r| < |s| ==> IsSpace(s[|r|])
  {
    if s == [] || IsSpace(s[0]) then [] else [s[0]] + Word(s[1..])
  }

  /** Reading a string from a QTextStream: one white-space delimited word,
      taken from the text after the leading white space. */
  function ReadWord(s: string): (w: string)
    ensures |w| <= |s| && NoSpace(w)
  {
    Word(SkipSpaces(s))
  }

  /** A URL without white space arrives as it was sent. */
  lemma {:induction false} ReadWordOfNoSpace(s: string)
    requires NoSpace(s)
    ensures ReadWord(s) == s
  {
    if s != [] {
      assert NoSpace(s[1..]) by {
        forall i | 0 <= i < |s[1..]| ensures !IsSpace(s[1..][i]) {
          assert s[1..][i] == s[i + 1];
        }
      }
      ReadWordOfNoSpace(s[1..]);
      assert SkipSpaces(s[1..]) == s[1..];
    }
  }

  /** Nothing is read exactly when the received text is white space only (an
      empty payload or a timed-out read included). */
  lemma {:induction false} ReadWordEmptyIff(s: string)
    ensures ReadWord(s) == EmptyUrl <==> forall i :: 0 <= i < |s| ==> IsSpace(s[i])
  {
    if s != [] && IsSpace(s[0]) {
      ReadWordEmptyIff(s[1..]);
      assert forall i :: 1 <= i < |s| ==> s[i] == s[1..][i - 1];
    }
  }

  /** A forwarded URL with a white-space character in it is cut there:
      only the part before it is read. */
  lemma ReadWordStopsAtSpace(a: string, c: char, b: string)
    requires a != [] && NoSpace(a) && IsSpace(c)
    ensures ReadWord(a + [c] + b) == a
  {
    var s := a + [c] + b;
    assert s[0] == a[0];
    assert SkipSpaces(s) == s;
    var w := Word(s);
    assert forall k :: 0 <= k < |a| ==> s[k] == a[k];
    assert s[|a|] == c;
    assert |w| == |a|;
    assert w == s[..|a|] == a;
  }

  /** Skipping white space in front of a text that does not start with
      white space leaves exactly that text. */
  lemma {:induction false} SkipSpacesAfter(sp: string, a: string)
    requires forall i :: 0 <= i < |sp| ==> IsSpace(sp[i])
    requires a == [] || !IsSpace(a[0])
    ensures SkipSpaces(sp + a) == a
  {
    if sp == [] {
      assert sp + a == a;
    } else {
      assert (sp + a)[0] == sp[0];
      assert (sp + a)[1..] == sp[1..] + a;
      SkipSpacesAfter(sp[1..], a);
    }
  }

  /** White space sent in front of the URL is skipped: the word read is the
      one the text after it gives. */
  lemma ReadWordAfterSpaces(sp: string, a: string)
    requires forall i :: 0 <= i < |sp| ==> IsSpace(sp[i])
    requires a == [] || !IsSpace(a[0])
    ensures ReadWord(sp + a) == ReadWord(a)
  {
    SkipSpacesAfter(sp, a);
    SkipSpacesAfter([], a);
    assert [] + a == a;
  }

  /** What the openLinksIn policy asks for. */
  datatype Action = Ignore | OpenInNewWindow | OpenInNewTab

  function Decide(url: Url, openLinksIn: int): (a: Action)
    ensures a == Ignore <==> url == EmptyUrl
    ensures a == OpenInNewWindow <==> url != EmptyUrl && openLinksIn == 1
  {
    if url == EmptyUrl then Ignore
    else if openLinksIn == 1 then OpenInNewWindow
    else OpenInNewTab
  }

  /** The `if (!url.isEmpty())` block: a new window or a new tab in the main
      window, then openUrl(url). */
  function Open(r: Registry, blank: Window, url: Url, openLinksIn: int): (r': Registry)
    ensures url == EmptyUrl ==> r' == r
    ensures url != EmptyUrl ==> r'.list != [] && Front(r') in r'.windows
  {
    match Decide(url, openLinksIn)
    case Ignore => r
    case OpenInNewWindow => OpenUrl(NewWindow(r, blank), blank, url)
    case OpenInNewTab =>
      var c := MainWindow(r, blank);
      OpenUrl(c.(windows := c.windows[Front(c) := NewTab(c.windows[Front(c)])]), blank, url)
  }

  /** newLocalSocketConnection(): no pending connection does nothing at all;
      otherwise the URL is read, opened per the policy, and the main window
      is raised and activated (two further mainWindow() calls). */
  function Deliver(r: Registry, blank: Window, pending: Option<string>, openLinksIn: int): (res: (Registry, seq<Event>))
    ensures pending.None? ==> res == (r, [])
    ensures pending.Some? ==>
      && res.0.list != [] && Front(res.0) in res.0.windows
      && |res.1| == 2 && res.1[0].Raised? && res.1[1].Activated?
  {
    match pending
    case None => (r, [])
    case Some(text) =>
      var r1 := Open(r, blank, ReadWord(text), openLinksIn);
      var r2 := MainWindow(r1, blank);
      var r3 := MainWindow(r2, blank);
      (r3, [Raised(Front(r2)), Activated(Front(r3))])
  }

  /** In every case with a connection, the window raised and activated is the
      same one, the live front window of the final list. */
  lemma DeliverRaisesFront(r: Registry, blank: Window, text: string, openLinksIn: int)
    requires Valid(r)
    ensures var res := Deliver(r, blank, Some(text), openLinksIn);
      && Valid(res.0) && AllLive(res.0)
      && res.1 == [Raised(Front(res.0)), Activated(Front(res.0))]
      && Front(res.0) in res.0.windows
  {
    var r1 := Open(r, blank, ReadWord(text), openLinksIn);
    OpenValid(r, blank, ReadWord(text), openLinksIn);
    MainWindowProperties(r1, blank);
    MainWindowIdempotent(r1, blank);
  }

  lemma OpenValid(r: Registry, blank: Window, url: Url, openLinksIn: int)
    requires Valid(r)
    ensures Valid(Open(r, blank, url, openLinksIn))
  {
    match Decide(url, openLinksIn)
    case Ignore =>
    case OpenInNewWindow =>
      NewWindowPrepends(r, blank);
      OpenUrlProperties(NewWindow(r, blank), blank, url);
    case OpenInNewTab =>
      MainWindowProperties(r, blank);
      var c := MainWindow(r, blank);
      OpenUrlProperties(c.(windows := c.windows[Front(c) := NewTab(c.windows[Front(c)])]), blank, url);
  }

  /** An empty URL opens no window and no tab when a live window exists: the
      list is only cleaned, and its front window is raised. */
  lemma EmptyUrlOpensNothing(r: Registry, blank: Window, text: string, openLinksIn: int)
    requires Valid(r) && ReadWord(text) == EmptyUrl && Clean(r).list != []
    ensures Deliver(r, blank, Some(text), openLinksIn) == (Clean(r), [Raised(Front(Clean(r))), Activated(Front(Clean(r)))])
  {
    MainWindowProperties(r, blank);
    MainWindowIdempotent(r, blank);
  }

  /** With no live window left, even an empty URL ends with one new blank
      window, created by the mainWindow() call that raises it. */
  lemma EmptyUrlWithoutWindowCreatesOne(r: Registry, blank: Window, text: string, openLinksIn: int)
    requires Valid(r) && ReadWord(text) == EmptyUrl && Clean(r).list == []
    ensures var res := Deliver(r, blank, Some(text), openLinksIn);
      && res.0.list == [r.nextId] && res.0.windows == r.windows[r.nextId := blank]
      && res.1 == [Raised(r.nextId), Activated(r.nextId)]
  {
    MainWindowProperties(r, blank);
    MainWindowIdempotent(r, blank);
  }

  /** When the URL has been opened, the two mainWindow() calls that raise and
      activate the window change nothing more. */
  lemma DeliverAfterOpen(r: Registry, blank: Window, text: string, openLinksIn: int)
    ensures var r1 := Open(r, blank, ReadWord(text), openLinksIn);
      AllLive(r1) && r1.list != [] ==>
        Deliver(r, blank, Some(text), openLinksIn) == (r1, [Raised(Front(r1)), Activated(Front(r1))])
  {
    var r1 := Open(r, blank, ReadWord(text), openLinksIn);
    if AllLive(r1) && r1.list != [] {
      MainWindowOfLive(r1, blank);
    }
  }

  /** The new-window branch of Open: the new window goes in front of the
      cleaned list and loads the URL; no other window changes. */
  lemma OpenInNewWindowResult(r: Registry, blank: Window, url: Url)
    requires Valid(r) && url != EmptyUrl
    ensures var r1 := Open(r, blank, url, 1);
      && AllLive(r1)
      && r1.list == [r.nextId] + Clean(r).list
      && r1.windows == r.windows[r.nextId := LoadPage(blank, url)]
  {
    var n := NewWindow(r, blank);
    var id := r.nextId;
    NewWindowPrepends(r, blank);
    assert Clean(n).list == [id] + Clean(r).list by {
      LiveOnlyConcat([id], r.list, n.windows.Keys);
      assert n.list == [id] + r.list;
      LiveOnlySameOn(r.list, n.windows.Keys, r.windows.Keys);
    }
    MainWindowProperties(n, blank);
    OpenUrlProperties(n, blank, url);
  }

  /** openLinksIn == 1: one new window in front of the cleaned list, whose
      current tab shows the URL; no other window changes. */
  lemma NewWindowPolicy(r: Registry, blank: Window, text: string)
    requires Valid(r) && ReadWord(text) != EmptyUrl
    ensures var res := Deliver(r, blank, Some(text), 1);
      var id := r.nextId;
      && res.0.list == [id] + Clean(r).list
      && res.0.windows == r.windows[id := LoadPage(blank, ReadWord(text))]
      && res.1 == [Raised(id), Activated(id)]
  {
    OpenInNewWindowResult(r, blank, ReadWord(text));
    DeliverAfterOpen(r, blank, text, 1);
  }


  /** The new-tab branch of Open: the window mainWindow() returns gains one
      tab, which loads the URL; the list is the one mainWindow() leaves. */
  lemma OpenInNewTabResult(r: Registry, blank: Window, url: Url, openLinksIn: int)
    requires Valid(r) && url != EmptyUrl && openLinksIn != 1
    ensures var r1 := Open(r, blank, url, openLinksIn);
      var c := MainWindow(r, blank);
      var w := Front(c);
      && AllLive(r1)
      && r1.list == c.list
      && r1.windows == c.windows[w := LoadPage(NewTab(c.windows[w]), url)]
  {
    MainWindowProperties(r, blank);
    var c := MainWindow(r, blank);
    var t := c.(windows := c.windows[Front(c) := NewTab(c.windows[Front(c)])]);
    MainWindowOfLive(t, blank);
    OpenUrlProperties(t, blank, url);
  }

  /** Any other policy value, with a live window: the front window gains
      exactly one tab, which shows the URL and is current; no window is
      created and no other window changes. */
  lemma NewTabPolicy(r: Registry, blank: Window, text: string, openLinksIn: int)
    requires Valid(r) && ReadWord(text) != EmptyUrl && openLinksIn != 1 && Clean(r).list != []
    ensures var res := Deliver(r, blank, Some(text), openLinksIn);
      var w := Front(Clean(r));
      && res.0.list == Clean(r).list
      && res.0.windows == r.windows[w := LoadPage(NewTab(r.windows[w]), ReadWord(text))]
      && res.0.windows[w].tabs == r.windows[w].tabs + [ReadWord(text)]
      && CurrentUrl(res.0.windows[w]) == ReadWord(text)
      && res.1 == [Raised(w), Activated(w)]
  {
    OpenInNewTabResult(r, blank, ReadWord(text), openLinksIn);
    DeliverAfterOpen(r, blank, text, openLinksIn);
    MainWindowProperties(r, blank);
    CleanProperties(r);
  }

  /** Any other policy value when no live window is left: mainWindow()
      creates one blank window, which gains the tab that shows the URL, and
      that window is raised. */
  lemma NewTabPolicyWithoutWindow(r: Registry, blank: Window, text: string, openLinksIn: int)
    requires Valid(r) && ReadWord(text) != EmptyUrl && openLinksIn != 1 && Clean(r).list == []
    ensures var res := Deliver(r, blank, Some(text), openLinksIn);
      var id := r.nextId;
      && res.0.list == [id]
      && res.0.windows == r.windows[id := LoadPage(NewTab(blank), ReadWord(text))]
      && CurrentUrl(res.0.windows[id]) == ReadWord(text)
      && res.1 == [Raised(id), Activated(id)]
  {
    OpenInNewTabResult(r, blank, ReadWord(text), openLinksIn);
    DeliverAfterOpen(r, blank, text, openLinksIn);
    MainWindowProperties(r, blank);
    var w := r.nextId;
    assert r.windows[w := blank][w := LoadPage(NewTab(blank), ReadWord(text))]
      == r.windows[w := LoadPage(NewTab(blank), ReadWord(text))];
  }


  /** Secondary to primary: a launch URL without white space that the
      secondary writes to the socket is the URL the primary opens, in the
      current tab of the window it raises (a new window opened by the
      new-window policy needs a tab for loadPage to act on). */
  lemma {:induction false} ForwardedUrlOpens(r: Registry, blank: Window, url: Url, openLinksIn: int)
    requires Valid(r) && url != EmptyUrl && NoSpace(url)
    ensures var res := Deliver(r, blank, Some(url), openLinksIn);
      && res.0.list != [] && Front(res.0) in res.0.windows
      && res.1 == [Raised(Front(res.0)), Activated(Front(res.0))]
      && ((openLinksIn == 1 ==> blank.tabs != []) ==> CurrentUrl(res.0.windows[Front(res.0)]) == url)
  {
    ReadWordOfNoSpace(url);
    DeliverRaisesFront(r, blank, url, openLinksIn);
    if openLinksIn == 1 {
      NewWindowPolicy(r, blank, url);
      NewWindowPrepends(r, blank);
    } else if Clean(r).list != [] {
      NewTabPolicy(r, blank, url, openLinksIn);
      CleanProperties(r);
    } else {
      NewTabPolicyWithoutWindow(r, blank, url, openLinksIn);
    }
  }
}
