/** The window registry of BrowserApplication as a value: the list
    m_mainWindows of weak window pointers, the windows that are still alive,
    and the allocator of fresh window handles. An entry of the list is a null
    QPointer exactly when its window is no longer alive. */
module WindowRegistry {
  import opened Windows

  datatype Registry = Registry(list: seq<WinId>, windows: map<WinId, Window>, nextId: nat)

  /** Every handle in use was handed out before, so nextId is fresh. */
  ghost predicate Valid(r: Registry)
  {
    && (forall i :: 0 <= i < |r.list| ==> r.list[i] < r.nextId)
    && (forall id :: id in r.windows ==> id < r.nextId)
  }

  /** No entry of the list is a null pointer. */
  ghost predicate AllLive(r: Registry)
  {
    forall i :: 0 <= i < |r.list| ==> r.list[i] in r.windows
  }


  /** The entries of l whose window is alive, in their original order. */
  function LiveOnly(l: seq<WinId>, live: set<WinId>): (r: seq<WinId>)
    ensures |r| <= |l|
    ensures forall i :: 0 <= i < |r| ==> r[i] in live
    ensures forall x :: x in r ==> x in l
  {
    if l == [] then [] else (if l[0] in live then [l[0]] else []) + LiveOnly(l[1..], live)
  }

  /** clean(): the null entries are dropped; the windows and the handle
      allocator stay as they are. */
  function Clean(r: Registry): (c: Registry)
    ensures c.windows == r.windows && c.nextId == r.nextId
    ensures |c.list| <= |r.list|
  {
    r.(list := LiveOnly(r.list, r.windows.Keys))
  }

  /** The window a non-empty list starts with: the one that newMainWindow()
      and mainWindow() return. */
  function Front(r: Registry): WinId
    requires r.list != []
  {
    r.list[0]
  }

  /** newMainWindow(): a new window is created and prepended; it is Front of
      the result. */
  function NewWindow(r: Registry, blank: Window): (r': Registry)
    ensures r'.list != [] && r'.list[0] in r'.windows
  {
    var id := r.nextId;
    Registry([id] + r.list, r.windows[id := blank], id + 1)
  }

  /** mainWindow(): clean, create a window if none is left; the window
      returned is Front of the result. */
  function MainWindow(r: Registry, blank: Window): (r': Registry)
    ensures r'.list != [] && r'.list[0] in r'.windows
  {
    var c := Clean(r);
    if c.list == [] then NewWindow(c, blank) else c
  }

  /** openUrl(url): mainWindow()->loadPage(url). */
  function OpenUrl(r: Registry, blank: Window, url: Url): (r': Registry)
    ensures r'.list == MainWindow(r, blank).list && r'.windows.Keys == MainWindow(r, blank).windows.Keys
  {
    var c := MainWindow(r, blank);
    c.(windows := c.windows[Front(c) := LoadPage(c.windows[Front(c)], url)])
  }

  /** Removing the null entries commutes with concatenation: the live
      entries keep their relative order. */
  lemma {:induction false} LiveOnlyConcat(a: seq<WinId>, b: seq<WinId>, live: set<WinId>)
    ensures LiveOnly(a + b, live) == LiveOnly(a, live) + LiveOnly(b, live)
  {
    if a == [] {
      assert a + b == b;
    } else {
      assert (a + b)[0] == a[0];
      assert (a + b)[1..] == a[1..] + b;
      LiveOnlyConcat(a[1..], b, live);
    }
  }

  /** Exactly the null entries are removed: every live entry keeps all its
      occurrences and every dead one loses all of them. */
  lemma {:induction false} LiveOnlyCounts(l: seq<WinId>, live: set<WinId>, x: WinId)
    ensures multiset(LiveOnly(l, live))[x] == if x in live then multiset(l)[x] else 0
  {
    if l != [] {
      assert l == [l[0]] + l[1..];
      assert multiset(l) == multiset{l[0]} + multiset(l[1..]);
      LiveOnlyCounts(l[1..], live, x);
    }
  }

  /** A list with no null entry is left as it is. */
  lemma {:induction false} LiveOnlyOfLive(l: seq<WinId>, live: set<WinId>)
    requires forall i :: 0 <= i < |l| ==> l[i] in live
    ensures LiveOnly(l, live) == l
  {
    if l != [] {
      LiveOnlyOfLive(l[1..], live);
    }
  }

  /** Filtering only looks at the entries of the list. */
  lemma {:induction false} LiveOnlySameOn(l: seq<WinId>, a: set<WinId>, b: set<WinId>)
    requires forall i :: 0 <= i < |l| ==> (l[i] in a <==> l[i] in b)
    ensures LiveOnly(l, a) == LiveOnly(l, b)
  {
    if l != [] {
      LiveOnlySameOn(l[1..], a, b);
    }
  }

  /** One unfolding of LiveOnly at position i, as the backwards loop of
      clean() needs it. */
  lemma LiveOnlyAt(l: seq<WinId>, i: nat, live: set<WinId>)
    requires i < |l|
    ensures LiveOnly(l[i..], live) == (if l[i] in live then [l[i]] else []) + LiveOnly(l[i + 1..], live)
  {
    assert l[i..][0] == l[i];
    assert l[i..][1..] == l[i + 1..];
  }

  /** One step of clean()'s backwards loop: with the entries after i already
      cleaned, entry i is the original one, and removing it when it is null
      (keeping it otherwise) leaves the entries from i on cleaned. */
  lemma CleanStep(o: seq<WinId>, i: nat, live: set<WinId>, cur: seq<WinId>)
    requires i < |o| && cur == o[..i + 1] + LiveOnly(o[i + 1..], live)
    ensures i < |cur| && cur[i] == o[i]
    ensures o[i] in live ==> cur == o[..i] + LiveOnly(o[i..], live)
    ensures o[i] !in live ==> cur[..i] + cur[i + 1..] == o[..i] + LiveOnly(o[i..], live)
  {
    LiveOnlyAt(o, i, live);
    assert o[..i + 1] == o[..i] + [o[i]];
    assert cur[..i] == o[..i];
    assert cur[i + 1..] == LiveOnly(o[i + 1..], live);
  }

  /** clean() keeps the registry valid, leaves no null entry, changes neither
      the live windows nor the handle allocator, and a second clean() does
      nothing. */
  lemma CleanProperties(r: Registry)
    requires Valid(r)
    ensures Valid(Clean(r)) && AllLive(Clean(r))
    ensures Clean(r).windows == r.windows && Clean(r).nextId == r.nextId
    ensures Clean(Clean(r)) == Clean(r)
  {
    LiveOnlyOfLive(Clean(r).list, r.windows.Keys);
  }

  /** An entry survives clean() exactly when it is in the list and alive. */
  lemma CleanKeepsExactlyLive(r: Registry, x: WinId)
    ensures x in Clean(r).list <==> x in r.list && x in r.windows
  {
    LiveOnlyCounts(r.list, r.windows.Keys, x);
  }

  /** newMainWindow() on a valid registry: one more entry, the new window
      first and fresh, the old entries shifted unchanged, the old windows
      untouched. */
  lemma NewWindowPrepends(r: Registry, blank: Window)
    requires Valid(r)
    ensures var r' := NewWindow(r, blank);
      && Valid(r')
      && |r'.list| == |r.list| + 1
      && Front(r') == r.nextId && r'.list[1..] == r.list
      && Front(r') !in r.windows && Front(r') !in r.list
      && r'.windows == r.windows[Front(r') := blank]
  {
    assert NewWindow(r, blank).list[1..] == r.list;
  }

  /** mainWindow() returns the live entry at index 0, and creates a window
      only when no live entry is left. */
  lemma MainWindowProperties(r: Registry, blank: Window)
    requires Valid(r)
    ensures var r' := MainWindow(r, blank);
      && Valid(r') && AllLive(r') && Front(r') in r'.windows
      && (Clean(r).list != [] ==> r' == Clean(r))
      && (Clean(r).list == [] ==>
            r'.list == [r.nextId] && r.nextId !in r.windows && r'.windows == r.windows[r.nextId := blank])
  {
    CleanProperties(r);
    if Clean(r).list == [] {
      NewWindowPrepends(Clean(r), blank);
    }
  }

  /** Calling mainWindow() again right away returns the same window and
      changes nothing. */
  lemma MainWindowIdempotent(r: Registry, blank: Window)
    requires Valid(r)
    ensures MainWindow(MainWindow(r, blank), blank) == MainWindow(r, blank)
  {
    var r' := MainWindow(r, blank);
    MainWindowProperties(r, blank);
    LiveOnlyOfLive(r'.list, r'.windows.Keys);
  }

  /** With no null entry and at least one entry, mainWindow() changes
      nothing and returns the first entry. */
  lemma MainWindowOfLive(r: Registry, blank: Window)
    requires AllLive(r) && r.list != []
    ensures MainWindow(r, blank) == r
  {
    LiveOnlyOfLive(r.list, r.windows.Keys);
  }

  /** openUrl(url) loads url in the current tab of the front window and
      touches no other window. */
  lemma OpenUrlProperties(r: Registry, blank: Window, url: Url)
    requires Valid(r)
    ensures var c := MainWindow(r, blank);
      var r' := OpenUrl(r, blank, url);
      && Valid(r') && AllLive(r') && r'.list == c.list
      && r'.windows == c.windows[Front(c) := LoadPage(c.windows[Front(c)], url)]
  {
    MainWindowProperties(r, blank);
  }
}
