/** The BrowserApplication object: its fields, the constructor's startup
    sequence, and the methods that change the window list, the stored
    session and the lazily created managers. Each method is proved against
    the value-level definitions of the other modules. */
module Application {
  import opened Wrappers
  import opened Windows
  import opened Snapshot
  import opened Settings
  import opened Events
  import WindowRegistry
  import opened Session
  import opened Forwarding
  import opened Startup

  /** The QLocalServer the primary creates, and whether it ended up listening. */
  datatype LocalServer = LocalServer(name: string, listening: bool)

  class DownloadManager {
    constructor () {}
  }

  class HistoryManager {
    constructor () {}
  }

  class BookmarksManager {
    constructor () {}
  }

  class CookieJar {
    constructor () {}
  }

  class NetworkAccessManager {
    var cookieJar: CookieJar?

    constructor ()
      ensures cookieJar == null
    {
      cookieJar := null;
    }

    method SetCookieJar(jar: CookieJar)
      modifies this`cookieJar
      ensures cookieJar == jar
    {
      cookieJar := jar;
    }
  }

  class BrowserApplication {
    /** The state a newly constructed BrowserMainWindow is in. */
    const blank: Window

    var initialUrl: Url
    var correctlyInitialized: bool
    var localServer: Option<LocalServer>
    var lastSession: Stream
    /** QTimer::singleShot(0, this, SLOT(postLaunch())) was issued. */
    var postLaunchScheduled: bool
    /** The persisted QSettings store. */
    var settings: Store

    /** m_mainWindows, the live windows, and the handle allocator. */
    var mainWindows: seq<WinId>
    var windows: map<WinId, Window>
    var nextId: nat

    var events: seq<Event>

    var downloadManager: DownloadManager?
    var networkAccessManager: NetworkAccessManager?
    var historyManager: HistoryManager?
    /** QWebHistoryInterface::setDefaultInterface's current argument. */
    var defaultHistoryInterface: HistoryManager?
    var bookmarksManager: BookmarksManager?

    function Reg(): WindowRegistry.Registry
      reads this
    {
      WindowRegistry.Registry(mainWindows, windows, nextId)
    }

    ghost predicate Valid()
      reads this
    {
      WindowRegistry.Valid(Reg())
    }

    /** The order of the constructor: the server exists only once the
        command line was accepted, and the session is loaded only once the
        server exists. No method changes these fields afterwards. */
    ghost predicate Initialized()
      reads this`localServer, this`correctlyInitialized, this`lastSession
    {
      && (localServer.Some? ==> correctlyInitialized)
      && (lastSession != [] ==> localServer.Some?)
    }

    /** A primary is always a correctly initialized instance. */
    function IsTheOnlyBrowser(): (b: bool)
      requires Initialized()
      reads this
      ensures b ==> IsCorrectlyInitialized()
    {
      localServer.Some?
    }

    /** An instance that rejected its command line has neither a server nor
        a session to restore. */
    function IsCorrectlyInitialized(): (b: bool)
      requires Initialized()
      reads this
      ensures !b ==> localServer.None? && lastSession == []
    {
      correctlyInitialized
    }

    /** Only a primary can restore a session. */
    function CanRestoreSession(): (b: bool)
      requires Initialized()
      reads this
      ensures b ==> IsTheOnlyBrowser()
    {
      lastSession != []
    }

    /** The startup sequence. isValidUrl stands for
        QUrl::fromUserInput(u).isValid(), store for the settings on disk,
        blank for the state of a new main window. */
    constructor (launch: Launch, isValidUrl: Url -> bool, store: Store, blank: Window)
      ensures Valid() && Initialized() && this.blank == blank && settings == store
      ensures mainWindows == [] && windows == map[] && nextId == 0
      ensures initialUrl == LaunchUrl(launch.parsed)
      ensures IsCorrectlyInitialized() <==> ArgumentsAcceptable(launch.parsed, isValidUrl)
      ensures !IsCorrectlyInitialized() ==>
        && |events| == 1 && events[0].HelpShown?
        && (launch.parsed.None? ==> events[0].reason == InvalidArguments)
        && (launch.parsed.Some? && |launch.parsed.value| > 1 ==> events[0].reason == TooManyArguments)
        && (launch.parsed.Some? && |launch.parsed.value| <= 1 ==> events[0].reason == InvalidUrl(initialUrl))
      ensures IsCorrectlyInitialized() && launch.probeConnects ==>
        events == [UrlSent(ApplicationName, initialUrl)]
      ensures IsTheOnlyBrowser() <==> IsCorrectlyInitialized() && !launch.probeConnects
      ensures IsTheOnlyBrowser() ==>
        && localServer.value == LocalServer(ApplicationName, EndsListening(launch))
        && events == (if launch.firstListen == AddressInUse && launch.staleEndpointExists
                      then [StaleEndpointRemoved(launch.nameAfterFailure)] else [])
      ensures lastSession == (if IsTheOnlyBrowser() then BytesOf(store, LastSessionKey) else [])
      ensures CanRestoreSession() <==> IsTheOnlyBrowser() && BytesOf(store, LastSessionKey) != []
      ensures postLaunchScheduled == IsTheOnlyBrowser()
      ensures downloadManager == null && networkAccessManager == null && bookmarksManager == null
      ensures historyManager == null && defaultHistoryInterface == null
    {
      var url, help := CheckCommandLine(launch.parsed, isValidUrl);
      var server: Option<LocalServer> := None;
      var log: seq<Event> := [];
      var session: Stream := [];
      if help.Some? {
        log := [HelpShown(help.value)];
      } else if launch.probeConnects {
        // The URL goes to the running instance; this one stops here.
        log := [UrlSent(ApplicationName, url)];
      } else {
        var listening, removedStale := Listen(launch);
        if removedStale {
          log := [StaleEndpointRemoved(launch.nameAfterFailure)];
        }
        server := Some(LocalServer(ApplicationName, listening));
        session := BytesOf(store, LastSessionKey);
      }
      this.blank := blank;
      settings := store;
      initialUrl := url;
      correctlyInitialized := help.None?;
      localServer := server;
      lastSession := session;
      postLaunchScheduled := server.Some?;
      mainWindows, windows, nextId := [], map[], 0;
      events := log;
      downloadManager, networkAccessManager, bookmarksManager := null, null, null;
      historyManager, defaultHistoryInterface := null, null;
    }

    /** clean(): walks the list from the back and removes each null entry in
        place. */
    method Clean()
      requires Valid()
      modifies this`mainWindows
      ensures Valid() && WindowRegistry.AllLive(Reg())
      ensures Reg() == WindowRegistry.Clean(old(Reg()))
    {
      ghost var original := mainWindows;
      var i := |mainWindows|;
      while i > 0
        invariant 0 <= i <= |original|
        invariant mainWindows == original[..i] + WindowRegistry.LiveOnly(original[i..], windows.Keys)
      {
        i := i - 1;
        WindowRegistry.CleanStep(original, i, windows.Keys, mainWindows);
        if mainWindows[i] !in windows {
          mainWindows := mainWindows[..i] + mainWindows[i + 1..];
        }
      }
      WindowRegistry.CleanProperties(old(Reg()));
    }

    /** mainWindows(): a cleaned copy of the list. */
    method MainWindows() returns (list: seq<WinId>)
      requires Valid()
      modifies this`mainWindows
      ensures Valid() && Reg() == WindowRegistry.Clean(old(Reg()))
      ensures list == mainWindows
      ensures forall i :: 0 <= i < |list| ==> list[i] in windows
    {
      Clean();
      list := [];
      var i := 0;
      while i < |mainWindows|
        invariant 0 <= i <= |mainWindows|
        invariant list == mainWindows[..i]
      {
        list := list + [mainWindows[i]];
        i := i + 1;
      }
    }

    /** newMainWindow(): a new window, prepended. */
    method NewMainWindow() returns (id: WinId)
      requires Valid()
      modifies this`mainWindows, this`windows, this`nextId
      ensures Valid()
      ensures Reg() == WindowRegistry.NewWindow(old(Reg()), blank) && id == WindowRegistry.Front(Reg())
      ensures mainWindows == [id] + old(mainWindows) && id !in old(windows)
    {
      WindowRegistry.NewWindowPrepends(Reg(), blank);
      id := nextId;
      nextId := nextId + 1;
      windows := windows[id := blank];
      mainWindows := [id] + mainWindows;
    }

    /** mainWindow(): the live front window, created if none is left. */
    method MainWindow() returns (id: WinId)
      requires Valid()
      modifies this`mainWindows, this`windows, this`nextId
      ensures Valid() && WindowRegistry.AllLive(Reg())
      ensures Reg() == WindowRegistry.MainWindow(old(Reg()), blank) && id == WindowRegistry.Front(Reg())
      ensures id in windows
    {
      WindowRegistry.MainWindowProperties(Reg(), blank);
      Clean();
      if |mainWindows| == 0 {
        var _ := NewMainWindow();
      }
      id := mainWindows[0];
    }

    /** openUrl(url): the main window loads url. */
    method OpenUrl(url: Url)
      requires Valid()
      modifies this`mainWindows, this`windows, this`nextId
      ensures Valid()
      ensures Reg() == WindowRegistry.OpenUrl(old(Reg()), blank, url)
    {
      WindowRegistry.OpenUrlProperties(Reg(), blank, url);
      var w := MainWindow();
      windows := windows[w := LoadPage(windows[w], url)];
    }

    /** A window is deleted elsewhere (closed by the user); its entries in the
        list become null pointers. */
    method DestroyWindow(id: WinId)
      requires Valid() && id in windows
      modifies this`windows
      ensures Valid() && windows == old(windows) - {id}
    {
      windows := windows - {id};
    }

    /** Another part of the program, or another process, writes a setting.
        The store is read afresh at each use, so later reads see the value. */
    method WriteSetting(key: string, value: Value)
      requires Valid()
      modifies this`settings
      ensures Valid() && settings == old(settings)[key := value]
    {
      settings := settings[key := value];
    }

    /** saveSession(): nothing under private browsing; otherwise clean, then
        store the count and each window's state in list order. privateBrowsing
        stands for the PrivateBrowsingEnabled web setting, save for
        BrowserMainWindow::saveState. */
    method SaveSession(privateBrowsing: bool, save: Window -> Blob)
      requires Valid()
      modifies this`mainWindows, this`settings
      ensures Valid()
      ensures privateBrowsing ==> mainWindows == old(mainWindows) && settings == old(settings)
      ensures !privateBrowsing ==>
        && Reg() == WindowRegistry.Clean(old(Reg()))
        && WindowRegistry.AllLive(Reg())
        && settings == old(settings)[LastSessionKey := BytesValue(Encode(WindowStates(Reg(), save)))]
    {
      if privateBrowsing {
        return;
      }
      Clean();
      ghost var encoded := Encode(WindowStates(Reg(), save));
      var data: Stream := [Count(|mainWindows|)];
      var i := 0;
      while i < |mainWindows|
        invariant 0 <= i <= |mainWindows|
        invariant data == encoded[..i + 1]
      {
        assert encoded[i + 1] == State(save(windows[mainWindows[i]]));
        assert encoded[..i + 2] == encoded[..i + 1] + [encoded[i + 1]];
        data := data + [State(save(windows[mainWindows[i]]))];
        i := i + 1;
      }
      assert encoded[..i + 1] == encoded;
      settings := settings[LastSessionKey := BytesValue(data)];
    }

    /** The reuse test of restoreLastSession, with the side effects of the
        mainWindow() calls inside it. */
    method IsSoleBlankWindow() returns (b: bool)
      requires Valid()
      modifies this`mainWindows, this`windows, this`nextId
      ensures Valid()
      ensures (Reg(), b) == SoleBlankCheck(old(Reg()), blank)
    {
      if |mainWindows| != 1 {
        return false;
      }
      var w := MainWindow();
      if |windows[w].tabs| != 1 {
        return false;
      }
      var w2 := MainWindow();
      b := CurrentUrl(windows[w2]) == EmptyUrl;
    }

    /** One iteration of restoreLastSession's second loop. */
    method RestoreWindow(state: Blob, restore: (Window, Blob) -> Window) returns (target: WinId)
      requires Valid()
      modifies this`mainWindows, this`windows, this`nextId, this`events
      ensures Valid()
      ensures Reg() == RestoreOne(old(Reg()), blank, state, restore) && target == WindowRegistry.Front(Reg())
      ensures events == old(events) + [Restored(target, state)]
    {
      RestoreOneValid(Reg(), blank, state, restore);
      var reuse := IsSoleBlankWindow();
      if reuse {
        target := MainWindow();
      } else {
        target := NewMainWindow();
      }
      windows := windows[target := restore(windows[target], state)];
      events := events + [Restored(target, state)];
    }

    /** restoreLastSession(): read the count and that many states from the
        snapshot loaded at startup, then give each state to one window, in
        order. restore stands for BrowserMainWindow::restoreState. */
    method RestoreLastSession(restore: (Window, Blob) -> Window)
      requires Valid()
      modifies this`mainWindows, this`windows, this`nextId, this`events
      ensures Valid()
      ensures (Reg(), events) == RestoreFrom(old(Reg()), blank, Decode(lastSession), old(events), restore)
    {
      var states := ReadSession(lastSession);
      ghost var final := RestoreFrom(Reg(), blank, states, events, restore);
      assert states[0..] == states;
      var j := 0;
      while j < |states|
        invariant 0 <= j <= |states|
        invariant Valid()
        invariant RestoreFrom(Reg(), blank, states[j..], events, restore) == final
      {
        RestoreFromStep(Reg(), blank, states, j, events, restore);
        var _ := RestoreWindow(states[j], restore);
        j := j + 1;
      }
      assert states[|states|..] == [];
    }

    /** The `if (!url.isEmpty())` block of newLocalSocketConnection. */
    method OpenForwarded(url: Url, openLinksIn: int)
      requires Valid()
      modifies this`mainWindows, this`windows, this`nextId
      ensures Valid()
      ensures Reg() == Open(old(Reg()), blank, url, openLinksIn)
    {
      OpenValid(Reg(), blank, url, openLinksIn);
      if url != EmptyUrl {
        if openLinksIn == 1 {
          var _ := NewMainWindow();
        } else {
          var w := MainWindow();
          windows := windows[w := NewTab(windows[w])];
        }
        OpenUrl(url);
      }
    }

    /** newLocalSocketConnection(): pending is the next pending connection
        (None when there is none) with the text that arrived within the read
        wait. */
    method NewLocalSocketConnection(pending: Option<string>)
      requires Valid()
      modifies this`mainWindows, this`windows, this`nextId, this`events
      ensures Valid()
      ensures var res := Deliver(old(Reg()), blank, pending, OpenLinksIn(settings));
        Reg() == res.0 && events == old(events) + res.1
    {
      if pending.None? {
        return;
      }
      OpenForwarded(ReadWord(pending.value), OpenLinksIn(settings));
      RaiseMainWindow();
    }

    /** Bring the main window to the front and give it the focus; each of
        the two steps asks mainWindow() for the window afresh. */
    method RaiseMainWindow()
      requires Valid()
      modifies this`mainWindows, this`windows, this`nextId, this`events
      ensures Valid()
      ensures var r2 := WindowRegistry.MainWindow(old(Reg()), blank);
        var r3 := WindowRegistry.MainWindow(r2, blank);
        Reg() == r3 && events == old(events) + [Raised(WindowRegistry.Front(r2)), Activated(WindowRegistry.Front(r3))]
    {
      var w := MainWindow();
      events := events + [Raised(w)];
      var w2 := MainWindow();
      events := events + [Activated(w2)];
    }

    /** postLaunch(): show the launch URL or the home page in the main window,
        then make sure the history manager exists. home is the page
        BrowserMainWindow::slotHome loads. */
    method PostLaunch(home: Url)
      requires Valid()
      modifies this`mainWindows, this`windows, this`nextId, this`events
      modifies this`historyManager, this`defaultHistoryInterface
      ensures Valid()
      ensures var res := Startup.PostLaunch(old(Reg()), blank, initialUrl, home);
        Reg() == res.0 && events == old(events) + res.1
      ensures historyManager != null
      ensures old(historyManager) != null ==>
        historyManager == old(historyManager) && defaultHistoryInterface == old(defaultHistoryInterface)
      ensures old(historyManager) == null ==> fresh(historyManager) && defaultHistoryInterface == historyManager
    {
      if |mainWindows| > 0 {
        if initialUrl != EmptyUrl {
          OpenUrl(initialUrl);
        } else {
          var w := MainWindow();
          windows := windows[w := LoadPage(windows[w], home)];
          events := events + [WentHome(w)];
        }
      }
      var _ := HistoryManagerInstance();
    }

    /** downloadManager(): created on the first call, the same one after. */
    method DownloadManagerInstance() returns (m: DownloadManager)
      modifies this`downloadManager
      ensures downloadManager == m
      ensures old(downloadManager) != null ==> m == old(downloadManager)
      ensures old(downloadManager) == null ==> fresh(m)
    {
      if downloadManager == null {
        downloadManager := new DownloadManager();
      }
      m := downloadManager;
    }

    /** networkAccessManager(): created on the first call together with its
        cookie jar, the same one after. */
    method NetworkAccessManagerInstance() returns (m: NetworkAccessManager)
      modifies this`networkAccessManager
      ensures networkAccessManager == m
      ensures old(networkAccessManager) != null ==> m == old(networkAccessManager)
      ensures old(networkAccessManager) == null ==> fresh(m) && m.cookieJar != null && fresh(m.cookieJar)
    {
      if networkAccessManager == null {
        var nam := new NetworkAccessManager();
        var jar := new CookieJar();
        nam.SetCookieJar(jar);
        networkAccessManager := nam;
      }
      m := networkAccessManager;
    }

    /** cookieJar(): the jar of the network access manager. */
    method CookieJarInstance() returns (jar: CookieJar?)
      modifies this`networkAccessManager
      ensures networkAccessManager != null && jar == networkAccessManager.cookieJar
      ensures old(networkAccessManager) != null ==> jar == old(networkAccessManager.cookieJar)
      ensures old(networkAccessManager) == null ==> jar != null && fresh(jar)
    {
      var nam := NetworkAccessManagerInstance();
      jar := nam.cookieJar;
    }

    /** historyManager(): created on the first call and installed as the
        default web history interface, the same one after. */
    method HistoryManagerInstance() returns (m: HistoryManager)
      modifies this`historyManager, this`defaultHistoryInterface
      ensures historyManager == m
      ensures old(historyManager) != null ==>
        m == old(historyManager) && defaultHistoryInterface == old(defaultHistoryInterface)
      ensures old(historyManager) == null ==> fresh(m) && defaultHistoryInterface == m
    {
      if historyManager == null {
        var h := new HistoryManager();
        historyManager := h;
        defaultHistoryInterface := h;
      }
      m := historyManager;
    }

    /** bookmarksManager(): created on the first call, the same one after. */
    method BookmarksManagerInstance() returns (m: BookmarksManager)
      modifies this`bookmarksManager
      ensures bookmarksManager == m
      ensures old(bookmarksManager) != null ==> m == old(bookmarksManager)
      ensures old(bookmarksManager) == null ==> fresh(m)
    {
      if bookmarksManager == null {
        bookmarksManager := new BookmarksManager();
      }
      m := bookmarksManager;
    }
  }
}
