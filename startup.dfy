/** What the BrowserApplication constructor and postLaunch decide: whether
    the command line is acceptable, whether this process becomes the primary
    instance, whether the local endpoint ends up listening, and what the first
    window shows. The socket, the file system and the command-line parser are
    outside the model; their outcomes are the fields of Launch. */
module Startup {
  import opened Wrappers
  import opened Windows
  import opened Events
  import opened WindowRegistry

  /** The application name, which is also the name of the local endpoint. */
  const ApplicationName: string := "54browser"

  /** The outcome of QLocalServer::listen and its serverError(). */
  datatype ListenResult = Listened | AddressInUse | OtherError

  /** The outcomes of the calls the constructor makes into the environment:
      parse (None when QCommandLineParser::parse fails, otherwise the
      positional arguments), waitForConnected(500) on the application's
      endpoint, the first listen, the name QLocalServer::serverName() gives
      once that listen has failed, QFile::exists on that name, and the second
      listen. */
  datatype Launch = Launch(
    parsed: Option<seq<string>>,
    probeConnects: bool,
    firstListen: ListenResult,
    nameAfterFailure: string,
    staleEndpointExists: bool,
    retryListens: bool)

  /** The command line is accepted: it parses, has at most one positional
      argument, and that argument is empty or a valid URL. */
  ghost predicate ArgumentsAcceptable(parsed: Option<seq<string>>, isValidUrl: Url -> bool)
  {
    && parsed.Some?
    && |parsed.value| <= 1
    && (|parsed.value| == 1 ==> parsed.value[0] == EmptyUrl || isValidUrl(parsed.value[0]))
  }

  /** The URL the constructor keeps: the single positional argument, if the
      command line parsed and had exactly one. */
  ghost function LaunchUrl(parsed: Option<seq<string>>): Url
  {
    if parsed.Some? && |parsed.value| == 1 then parsed.value[0] else EmptyUrl
  }

  /** The endpoint listens when the first listen succeeds, or when it failed
      on a stale endpoint that existed and was removed and the one retry
      succeeds. */
  ghost predicate EndsListening(launch: Launch)
  {
    || launch.firstListen == Listened
    || (launch.firstListen == AddressInUse && launch.staleEndpointExists && launch.retryListens)
  }

  /** The command-line checks of the constructor: the parse must succeed,
      there may be at most one positional argument, and a non-empty argument
      must be a valid URL. help is the dialog shown, None when the
      command line is accepted. */
  method CheckCommandLine(parsed: Option<seq<string>>, isValidUrl: Url -> bool) returns (url: Url, help: Option<HelpReason>)
    ensures url == LaunchUrl(parsed)
    ensures help.None? <==> ArgumentsAcceptable(parsed, isValidUrl)
    ensures parsed.None? ==> help == Some(InvalidArguments)
    ensures parsed.Some? && |parsed.value| > 1 ==> help == Some(TooManyArguments)
    ensures parsed.Some? && |parsed.value| <= 1 && help.Some? ==> help == Some(InvalidUrl(url))
  {
    url := EmptyUrl;
    if parsed.None? {
      return url, Some(InvalidArguments);
    }
    var args := parsed.value;
    if |args| > 1 {
      return url, Some(TooManyArguments);
    } else if |args| == 1 {
      url := args[0];
    }
    if url != EmptyUrl && !isValidUrl(url) {
      return url, Some(InvalidUrl(url));
    }
    help := None;
  }

  /** Listen, and on an address-in-use error with a file present under the
      name the server reports, remove that file and listen once more. */
  method Listen(launch: Launch) returns (listening: bool, removedStale: bool)
    ensures listening <==> EndsListening(launch)
    ensures removedStale <==> launch.firstListen == AddressInUse && launch.staleEndpointExists
  {
    listening, removedStale := launch.firstListen == Listened, false;
    if !listening {
      if launch.firstListen == AddressInUse && launch.staleEndpointExists {
        removedStale := true;
        listening := launch.retryListens;
      }
    }
  }

  /** postLaunch(): when the list has entries, the main window loads the
      launch URL, or goes to its home page when there is none. home is the
      page BrowserMainWindow::slotHome loads into the current tab (the home
      page setting is not part of this model). The raw count is tested, so a
      list of null entries still gets a window from mainWindow(). */
  function PostLaunch(r: Registry, blank: Window, initialUrl: Url, home: Url): (res: (Registry, seq<Event>))
    ensures r.list == [] ==> res == (r, [])
    ensures r.list != [] ==> res.0.list == MainWindow(r, blank).list
    ensures res.1 != [] <==> r.list != [] && initialUrl == EmptyUrl
  {
    if |r.list| == 0 then (r, [])
    else if initialUrl != EmptyUrl then (OpenUrl(r, blank, initialUrl), [])
    else
      var c := MainWindow(r, blank);
      (c.(windows := c.windows[Front(c) := LoadPage(c.windows[Front(c)], home)]), [WentHome(Front(c))])
  }

  /** With no entry postLaunch leaves the windows alone; otherwise the front
      window of mainWindow() is live and its current tab loads the launch URL,
      or the home page when there is no launch URL; no other window
      changes. */
  lemma PostLaunchProperties(r: Registry, blank: Window, initialUrl: Url, home: Url)
    requires Valid(r)
    ensures var res := PostLaunch(r, blank, initialUrl, home); var r', log := res.0, res.1;
      && Valid(r')
      && (r.list == [] ==> r' == r && log == [])
      && (r.list != [] ==>
            && AllLive(r')
            && var c := MainWindow(r, blank); var w := Front(c);
               var target := if initialUrl != EmptyUrl then initialUrl else home;
               && r'.list == c.list && w == Front(r') && w in r'.windows
               && r'.windows == c.windows[w := LoadPage(c.windows[w], target)]
               && (c.windows[w].tabs != [] ==> CurrentUrl(r'.windows[w]) == target)
               && log == (if initialUrl != EmptyUrl then [] else [WentHome(w)]))
  {
    if r.list != [] {
      MainWindowProperties(r, blank);
      OpenUrlProperties(r, blank, initialUrl);
    }
  }

  /** Going home matters for a later session restore: a sole blank window
      that was sent to a non-empty home page no longer satisfies the reuse
      rule, so restoring afterwards opens a new window. */
  lemma HomePageEndsBlankWindow(r: Registry, blank: Window, home: Url)
    requires Valid(r) && |r.list| == 1 && r.list[0] in r.windows
    requires HasSoleBlankTab(r.windows[r.list[0]]) && home != EmptyUrl
    ensures !HasSoleBlankTab(PostLaunch(r, blank, EmptyUrl, home).0.windows[r.list[0]])
    ensures PostLaunch(r, blank, EmptyUrl, home).0.list == r.list
  {
    assert LiveOnly(r.list, r.windows.Keys) == r.list;
    assert Clean(r) == r;
  }
}
