# 54browser application coordinator in Dafny

This project models `BrowserApplication` from 54browser, a Qt WebKit browser.
BrowserApplication is the singleton that decides at startup whether this
process is the primary instance or only forwards its URL to a running one. It
also owns the list of main windows, saves and restores the session, opens URLs
that later launches forward over a local socket, and creates the shared
managers lazily.

The model has two layers.

- **Value layer.** Pure functions over datatypes:
  - `Windows`: what the coordinator sees of a window (its tabs and the current tab).
  - `Snapshot`: the session snapshot, a window count followed by one state per window.
  - `Settings`: the QSettings store as a map.
  - `Events`: the effects that leave the object, kept as a log.
  - `WindowRegistry`: the window list and the `clean`, `newMainWindow`, `mainWindow` and `openUrl` operations.
  - `Session`: saving and restoring.
  - `Forwarding`: reading the forwarded URL and the `openLinksIn` policy.
  - `Startup`: command-line checks, the listen and retry logic, and `postLaunch`.
- **Object layer.** `Application.BrowserApplication` is a class whose fields
  are the C++ members. Each method updates those fields step by step, with the
  loops the C++ code has. Each method is proved equal to the value-layer
  function of the old state: `Reg() == WindowRegistry.Clean(old(Reg()))` and so
  on.

A main window is an abstract handle. A `QPointer` entry of `m_mainWindows` is
null exactly when its handle is no longer a key of the `windows` map.
`DestroyWindow` stands for a window being deleted behind the coordinator's
back.

The queries `isTheOnlyBrowser`, `isCorrectlyInitialized` and
`canRestoreSession` (`src/54browser/browserapplication.cpp:372-375`, `:411-423`)
read fields (`IsTheOnlyBrowser`, `IsCorrectlyInitialized`,
`CanRestoreSession`). The constructor establishes `Initialized()`, the order
in which it sets those fields, and no later method changes them; the queries'
contracts state that order.

Where the code behaves differently from a reading of its own comments, the
model follows the code:

- This point concerns an empty or whitespace-only forwarded URL. The tab
  creation is skipped, but `mainWindow()->raise()` still runs, so a window is
  created when no live window is left (`Forwarding.EmptyUrlWithoutWindowCreatesOne`).
- `m_correctlyInitialized` is already true in a secondary process that forwards
  its URL and stops.
- `m_localServer` is kept even when both listen attempts fail, so
  `isTheOnlyBrowser()` is then still true.
- `stream >> url` on the socket reads a single white-space delimited word, so
  a forwarded URL containing white space is cut there
  (`Forwarding.ReadWordStopsAtSpace`).
- Session restore tests the raw `m_mainWindows.count() == 1` before any
  `clean()`. When that single entry is null, the test's own `mainWindow()`
  calls create a window, which may then be reused
  (`Session.RestoreAfterSoleNullEntry`).

## Model

| member | source | states |
|---|---|---|
| `Windows.NewTab` | src/54browser/browserapplication.cpp:519 | The tab widget's `newTab()`, as the coordinator relies on it: the old tabs are kept, and one blank tab is appended and made current. |
| `Windows.LoadPage` | src/54browser/browserapplication.cpp:468 | `loadPage(url)` as the coordinator relies on it. The current tab shows `url` and no other tab changes. A window without tabs is left unchanged. |
| `Snapshot.ReadCount` | src/54browser/browserapplication.cpp:386-387 | Reading the count gives the stored integer when the stream starts with one, and 0 otherwise, as QDataStream does when it reads past the end. |
| `Snapshot.ReadState` | src/54browser/browserapplication.cpp:389-390 | Reading the state at position `pos` gives the stored bytes when a state is there, and an empty array otherwise. |
| `Snapshot.Decode` | src/54browser/browserapplication.cpp:386-392 | The read loop: as many states as the count says, none when the count is negative, the state stored at each position after the count, and an empty state only where none is stored. |
| `Snapshot.Encode` | src/54browser/browserapplication.cpp:361-363 | The stream written holds the count followed by one entry per window state. |
| `Snapshot.RoundTrip` | src/54browser/browserapplication.cpp:386-392 | Reading back what `saveSession` wrote gives the same states in the same order. |
| `Snapshot.EncodeNonEmpty` | src/54browser/browserapplication.cpp:361 | The count is always written, so a saved snapshot is never empty. This holds even for zero windows, so `canRestoreSession()` is then true. |
| `Snapshot.DecodeLength` | src/54browser/browserapplication.cpp:386-392 | The read loop runs the stored count times, or zero times when the count is negative. Reads past the end give empty states. |
| `WindowRegistry.LiveOnly` | src/54browser/browserapplication.cpp:336-338 | The filtered list is no longer than the input. Every entry in it is live and comes from the input. |
| `WindowRegistry.LiveOnlyConcat` | src/54browser/browserapplication.cpp:336-338 | Filtering commutes with concatenation, so the live entries keep their relative order. |
| `WindowRegistry.LiveOnlyCounts` | src/54browser/browserapplication.cpp:336-338 | Exactly the null entries are removed. A live entry keeps every occurrence; a dead one loses every occurrence. |
| `WindowRegistry.LiveOnlyOfLive` | src/54browser/browserapplication.cpp:336-338 | A list with no null entry is left unchanged. |
| `WindowRegistry.Clean` | src/54browser/browserapplication.cpp:333-339 | `clean()` drops entries from the list and nothing else: the windows and the handle allocator are unchanged, and the list never gets longer. |
| `WindowRegistry.CleanProperties` | src/54browser/browserapplication.cpp:333-339 | `clean()` keeps the registry valid and leaves no null entry. It changes neither the windows nor the handle allocator, and a second call does nothing. |
| `WindowRegistry.CleanKeepsExactlyLive` | src/54browser/browserapplication.cpp:333-339 | An entry survives `clean()` if and only if it was in the list and its window is alive. |
| `WindowRegistry.NewWindow` | src/54browser/browserapplication.cpp:475-481 | The result's first entry is a live window. |
| `WindowRegistry.NewWindowPrepends` | src/54browser/browserapplication.cpp:475-481 | The list grows by one, with a fresh window in front and the old entries unchanged behind it. The old windows are untouched. |
| `WindowRegistry.MainWindow` | src/54browser/browserapplication.cpp:487-494 | The window returned, the first entry, is live. |
| `WindowRegistry.MainWindowProperties` | src/54browser/browserapplication.cpp:487-494 | The list is cleaned. If a live entry remains, the result is the cleaned registry and its first entry is returned. Only when none remains is exactly one new blank window created. |
| `WindowRegistry.MainWindowIdempotent` | src/54browser/browserapplication.cpp:487-494 | Calling `mainWindow()` again right away changes nothing and returns the same window. |
| `WindowRegistry.MainWindowOfLive` | src/54browser/browserapplication.cpp:490-493 | On a non-empty list without null entries, `mainWindow()` changes nothing. |
| `WindowRegistry.OpenUrl` | src/54browser/browserapplication.cpp:466-469 | `openUrl` leaves the list, and the set of windows, as `mainWindow()` leaves them. |
| `WindowRegistry.OpenUrlProperties` | src/54browser/browserapplication.cpp:466-469 | `openUrl` loads the URL into the main window and changes no other window. |
| `Session.WindowStates` | src/54browser/browserapplication.cpp:362-363 | One saved state per list entry. |
| `Session.ReadSession` | src/54browser/browserapplication.cpp:382-392 | The first loop of `restoreLastSession` reads exactly the decoded snapshot. |
| `Session.SoleBlankCheck` | src/54browser/browserapplication.cpp:396-398 | The reuse test succeeds only when the raw list has exactly one entry, and after the test the front window is live. |
| `Session.SoleBlankCheckIff` | src/54browser/browserapplication.cpp:396-398 | The reuse test succeeds if and only if the raw list has one entry and the window `mainWindow()` returns has one blank tab. That window is the entry's own window when it is alive, and a new window when the entry is null. |
| `Session.RestoreFrom` | src/54browser/browserapplication.cpp:393-404 | The second loop of `restoreLastSession` logs exactly one entry for each decoded state, after the entries already logged. |
| `Session.RestoreOne` | src/54browser/browserapplication.cpp:394-403 | The window that receives the state is live and at the front of the list. |
| `Session.RestoreInto` | src/54browser/browserapplication.cpp:399-403 | Once the reuse test has been evaluated, the chosen window is live and at the front. |
| `Session.RestoreReusesSoleBlankWindow` | src/54browser/browserapplication.cpp:396-399 | With exactly one live entry that has a single blank tab, that window receives the state and nothing else changes. |
| `Session.RestorePrependsOtherwise` | src/54browser/browserapplication.cpp:400-402 | Otherwise, unless the list is a single null entry, a fresh window is prepended to the unchanged list and receives the state. |
| `Session.RestoreAfterSoleNullEntry` | src/54browser/browserapplication.cpp:396-402 | A single null entry: `mainWindow()` inside the test creates a window. That window is reused if it has a single blank tab; otherwise a second window is prepended. |
| `Session.SoleBlankCheckValid` | src/54browser/browserapplication.cpp:396-398 | The reuse test keeps the registry valid and loses no window. |
| `Session.RestoreIntoValid` | src/54browser/browserapplication.cpp:399-403 | Choosing and restoring the window keeps the registry valid and loses no window. |
| `Session.RestoreOneValid` | src/54browser/browserapplication.cpp:393-404 | One iteration keeps the registry valid and loses no window. |
| `Session.RestoreFromStep` | src/54browser/browserapplication.cpp:393-404 | The loop from index j is one iteration followed by the loop from index j+1. |
| `Session.RestoreFromValid` | src/54browser/browserapplication.cpp:393-404 | The whole restore loop keeps the registry valid and loses no window. |
| `Session.RestoreFromLogs` | src/54browser/browserapplication.cpp:393-404 | The loop keeps the earlier log and adds one `restoreState` call per state, in order. |
| `Session.SavedSessionRestoresInOrder` | src/54browser/browserapplication.cpp:361-403 | After a restart, what `saveSession` stored can be restored. Restoring it applies every saved state, in the saved order. |
| `Forwarding.SkipSpaces` | src/54browser/browserapplication.cpp:509 | The result is a suffix of the input that does not begin with white space, and everything skipped is white space. |
| `Forwarding.SkipSpacesAfter` | src/54browser/browserapplication.cpp:509 | White space in front of a text that does not start with white space is skipped, leaving exactly that text. |
| `Forwarding.ReadWordAfterSpaces` | src/54browser/browserapplication.cpp:509 | White space sent in front of the URL does not change the word read. |
| `Forwarding.Word` | src/54browser/browserapplication.cpp:509 | The result is the longest prefix of the input that contains no white space. |
| `Forwarding.ReadWord` | src/54browser/browserapplication.cpp:507-509 | The string read from the socket contains no white space and is no longer than the text received. |
| `Forwarding.ReadWordOfNoSpace` | src/54browser/browserapplication.cpp:507-509 | A URL without white space is read exactly as it was written. |
| `Forwarding.ReadWordEmptyIff` | src/54browser/browserapplication.cpp:509-510 | The URL read is empty if and only if the received text is all white space. |
| `Forwarding.ReadWordStopsAtSpace` | src/54browser/browserapplication.cpp:509 | For every non-empty text without white space followed by a white-space character, only the text before that character is read. |
| `Forwarding.Decide` | src/54browser/browserapplication.cpp:510-519 | Nothing is opened if and only if the URL is empty. A new window is opened if and only if the URL is non-empty and `openLinksIn == 1`; otherwise a new tab is opened. |
| `Forwarding.Open` | src/54browser/browserapplication.cpp:510-521 | An empty URL changes nothing. Any other URL leaves a live window at the front of the list. |
| `Forwarding.Deliver` | src/54browser/browserapplication.cpp:499-526 | Without a pending connection nothing changes. With one, a live window is left at the front of the list, and exactly one raise followed by one activate is logged. |
| `Forwarding.OpenValid` | src/54browser/browserapplication.cpp:510-521 | Opening a forwarded URL keeps the registry valid. |
| `Forwarding.DeliverAfterOpen` | src/54browser/browserapplication.cpp:524-525 | After the URL is opened, raising and activating the main window changes nothing more. The same window is raised and activated. |
| `Forwarding.DeliverRaisesFront` | src/54browser/browserapplication.cpp:522-525 | The window that is raised and activated is the same one, and it is the live front window of the final list. |
| `Forwarding.EmptyUrlOpensNothing` | src/54browser/browserapplication.cpp:510-525 | If the URL is empty and a live window exists, the list is only cleaned and its front window is raised. |
| `Forwarding.EmptyUrlWithoutWindowCreatesOne` | src/54browser/browserapplication.cpp:524-525 | If the URL is empty and no live window is left, exactly one new blank window is created and raised. |
| `Forwarding.OpenInNewWindowResult` | src/54browser/browserapplication.cpp:516-520 | The new window goes in front of the cleaned list and loads the URL. No other window changes. |
| `Forwarding.NewWindowPolicy` | src/54browser/browserapplication.cpp:513-525 | With `openLinksIn == 1`, a new window is placed in front of the cleaned list and raised, and it shows the URL. No other window changes. |
| `Forwarding.OpenInNewTabResult` | src/54browser/browserapplication.cpp:518-520 | The window `mainWindow()` returns gains one tab, which loads the URL. The list is the one `mainWindow()` leaves. |
| `Forwarding.NewTabPolicy` | src/54browser/browserapplication.cpp:513-525 | With any other policy and a live window, the front window gains exactly one tab. That tab is current and shows the URL. No window is created and no other window changes. |
| `Forwarding.NewTabPolicyWithoutWindow` | src/54browser/browserapplication.cpp:513-525 | With any other policy and no live window left, `mainWindow()` creates exactly one window. It gains the tab, which is current and shows the URL, and it is raised. |
| `Forwarding.ForwardedUrlOpens` | src/54browser/browserapplication.cpp:138-141 | The launch URL that a secondary writes to the socket is the URL the primary shows in the window it raises. This holds under every policy whenever the URL contains no white space, except that under the new-window policy a new window needs a tab to load into. The text is taken to be the same URL in both processes (see "Left out" on the QString/QUrl conversions). |
| `Startup.CheckCommandLine` | src/54browser/browserapplication.cpp:115-130 | The help dialog is shown if and only if the command line is unacceptable, with the matching reason: the parse failed, there was more than one argument, or the URL is invalid. The URL kept is the single argument. |
| `Startup.Listen` | src/54browser/browserapplication.cpp:153-163 | The server ends up listening if and only if the first listen succeeds, or if it failed with address-in-use, a file exists under the name the server then reports, and the retry succeeds. That file is removed in exactly that failure case. |
| `Startup.PostLaunch` | src/54browser/browserapplication.cpp:268-274 | With no entries nothing happens. Otherwise the list is the one `mainWindow()` leaves. A go-home entry is logged if and only if there is no launch URL. |
| `Startup.PostLaunchProperties` | src/54browser/browserapplication.cpp:268-274 | With no entries nothing happens. Otherwise the current tab of the main window loads the launch URL, or the home page when there is no launch URL; no other window changes. |
| `Startup.HomePageEndsBlankWindow` | src/54browser/browserapplication.cpp:273 | A sole blank window sent to a non-empty home page no longer has a blank tab, so a later session restore prepends a new window instead of reusing it. |
| `Application.BrowserApplication.constructor` | src/54browser/browserapplication.cpp:98-189 | The object is correctly initialized if and only if the arguments are acceptable; otherwise it shows help with the right reason. A secondary sends its URL. It is the only browser if and only if it is correctly initialized and the probe fails. It covers the server value, the removal of the file under the name the server reports after a failed listen, the session loaded, the scheduling of postLaunch, and `Initialized()`. |
| `Application.BrowserApplication.IsTheOnlyBrowser` | src/54browser/browserapplication.cpp:411-414 | Only a correctly initialized instance is the primary: the server is created after every help path has returned. |
| `Application.BrowserApplication.IsCorrectlyInitialized` | src/54browser/browserapplication.cpp:420-423 | An instance that rejected its command line has no server and no session to restore. |
| `Application.BrowserApplication.CanRestoreSession` | src/54browser/browserapplication.cpp:372-375 | Only the primary can restore a session: the snapshot is loaded after the server is created. |
| `Settings.IntOr` | src/54browser/browserapplication.cpp:513 | Reading an int setting gives the default when the key is missing, and 0 when the stored value is not an int. |
| `Settings.BytesOf` | src/54browser/browserapplication.cpp:180 | Reading a byte-array setting gives an empty array when the key is missing or the value is not a byte array. |
| `Application.NetworkAccessManager.SetCookieJar` | src/54browser/browserapplication.cpp:557 | The manager's cookie jar is the one given. |
| `Application.BrowserApplication.Clean` | src/54browser/browserapplication.cpp:333-339 | The backwards removal loop gives the same result as `WindowRegistry.Clean`. |
| `Application.BrowserApplication.MainWindows` | src/54browser/browserapplication.cpp:321-328 | The copy returned is the cleaned list, and every entry in it is live. |
| `Application.BrowserApplication.NewMainWindow` | src/54browser/browserapplication.cpp:475-481 | The fields change as `WindowRegistry.NewWindow` says, and the new window comes first. |
| `Application.BrowserApplication.MainWindow` | src/54browser/browserapplication.cpp:487-494 | The fields change as `WindowRegistry.MainWindow` says, and the window returned is live and first. |
| `Application.BrowserApplication.OpenUrl` | src/54browser/browserapplication.cpp:466-469 | The fields change as `WindowRegistry.OpenUrl` says. |
| `Application.BrowserApplication.DestroyWindow` | src/54browser/browserapplication.cpp:337 | A deleted window makes its list entries null pointers. |
| `Application.BrowserApplication.SaveSession` | src/54browser/browserapplication.cpp:344-366 | Under private browsing nothing changes. Otherwise the list is cleaned and the encoded states are stored under `sessions/lastSession`. |
| `Application.BrowserApplication.IsSoleBlankWindow` | src/54browser/browserapplication.cpp:396-398 | Gives the reuse test's value and its side effects, with the same short-circuiting. |
| `Application.BrowserApplication.RestoreWindow` | src/54browser/browserapplication.cpp:394-403 | One iteration gives the fields `RestoreOne` gives, and logs the call. |
| `Application.BrowserApplication.RestoreLastSession` | src/54browser/browserapplication.cpp:380-405 | The registry and the log end as `RestoreFrom` describes over the decoded snapshot. |
| `Application.BrowserApplication.OpenForwarded` | src/54browser/browserapplication.cpp:510-521 | The fields change as `Forwarding.Open` says. |
| `Application.BrowserApplication.NewLocalSocketConnection` | src/54browser/browserapplication.cpp:499-526 | Without a pending connection nothing changes. Otherwise the fields and the log are as `Forwarding.Deliver` gives, under the policy in the store at the time of the call. |
| `Application.BrowserApplication.WriteSetting` | src/54browser/browserapplication.cpp:511-513 | Another writer of the settings changes one key; `newLocalSocketConnection` reads the store afresh, so the next connection sees the new value. |
| `Application.BrowserApplication.RaiseMainWindow` | src/54browser/browserapplication.cpp:524-525 | Two calls to `mainWindow()`: the first window returned is raised and the second activated. |
| `Application.BrowserApplication.PostLaunch` | src/54browser/browserapplication.cpp:251-276 | The windows and the log change as `Startup.PostLaunch` says, with the home page loaded by `slotHome`. The history manager then exists and is installed as the default interface. |
| `Application.BrowserApplication.DownloadManagerInstance` | src/54browser/browserapplication.cpp:541-547 | The first call creates the download manager; later calls return the same one. |
| `Application.BrowserApplication.NetworkAccessManagerInstance` | src/54browser/browserapplication.cpp:553-560 | The first call creates the network access manager with a fresh cookie jar; later calls return the same one. |
| `Application.BrowserApplication.CookieJarInstance` | src/54browser/browserapplication.cpp:532-535 | Returns the network access manager's cookie jar, which exists once the manager has been created here. |
| `Application.BrowserApplication.HistoryManagerInstance` | src/54browser/browserapplication.cpp:566-573 | The first call creates the history manager and sets it as the default; later calls return it and change nothing. |
| `Application.BrowserApplication.BookmarksManagerInstance` | src/54browser/browserapplication.cpp:579-585 | The first call creates the bookmarks manager; later calls return the same one. |

## Left out

- Several pieces are only compiled on macOS: `event`, `lastWindowClosed` and `quitBrowser`. The platform-dependent `setQuitOnLastWindowClosed` call each primary makes is not modelled either, because it only tells Qt when to quit. In `quitBrowser`, `tabCount =+` assigns rather than adds, so only the last window's tab count is used.
- The destructor: it only deletes objects, and the model has no deallocation.
- `icon`, `loadSettings`, `installTranslator`, the OpenSSL support dialog, the `QDesktopServices` URL handler and the storage paths set in `postLaunch`. They configure WebKit and Qt, and none of it touches the coordinator's state.
- `showHelp`'s dialog text and layout. Only the reason for showing help is modelled.
- `show()`, `raise()` and `activateWindow()` on windows are visual effects. `raise` and `activateWindow` appear only as log entries.
- The 500 ms and 1000 ms socket waits and `waitForBytesWritten`. The outcome of a wait is an input: `probeConnects`, and the pending text in `NewLocalSocketConnection`.
- The byte-level QDataStream encoding of the snapshot. The snapshot is a sequence of tokens, and the stored count is an unbounded integer rather than a 32-bit `int`.
- QVariant conversions: a setting is either an int or a byte array. `toInt` of any non-int value gives 0, and `toByteArray` of any non-bytes value gives an empty array.
- Forwarding.ForwardedUrlOpens: holds only up to the conversions between QString and QUrl, which the model takes as the identity. A URL is one string type, so neither the QUrl built by `openUrl(url)` from the forwarded text (browserapplication.cpp:520) nor `url.toString()` in `openUrl` (:468) rewrites it. QUrl's tolerant parsing can rewrite some strings.
- The organization name and application version set on QCoreApplication: they only label the settings and the process. The application name is kept, because it names the local endpoint.
- What `BrowserMainWindow::slotHome` reads as the home page. The page is a parameter of `PostLaunch`, and going home loads it into the current tab.
- Startup.Listen: the name `serverName()` reports after the failed first listen, and whether a file exists under it, are inputs (`nameAfterFailure`, `staleEndpointExists`). The model does not say what Qt returns there. Qt documents `serverName()` as empty when the server is not listening; if so, the existence test fails and the retry never runs.
- Application.BrowserApplication.constructor: the removal it logs is of `launch.nameAfterFailure`, the name the server reports, not of the application name it listened on. Whether those are the same is left open, as for `Startup.Listen`.
- Unicode white space beyond the ASCII characters, NEL and no-break space when the socket text is split into words.
- `BrowserMainWindow::saveState`, `restoreState` and `slotHome`, `loadPage`'s handling of invalid URLs, and `TabWidget::newTab` live in browsermainwindow.cpp and tabwidget.cpp, which are not part of this model. They are parameters, or the small functions of `Windows`.
- The command-line parser and `QUrl::fromUserInput`. Their results are inputs: `Launch.parsed` and `isValidUrl`.
- Process-wide exclusivity of the local server name, and concurrent connections. Each connection is handled as one call.
- The managers' own behaviour: they are empty classes, and only their lazy creation is modelled.
