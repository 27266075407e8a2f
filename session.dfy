/** saveSession and restoreLastSession as values. Saving collects each live
    window's state in list order; in restoring, each state read from the
    snapshot goes to one window, either the sole blank window that is already
    there or a freshly prepended one. */
module Session {
  import opened Windows
  import opened Snapshot
  import opened Settings
  import opened Events
  import opened WindowRegistry

  /** The states saveSession writes after clean(): one per entry, in list
      order. save stands for BrowserMainWindow::saveState, which is not part
      of this model. */
  function WindowStates(r: Registry, save: Window -> Blob): (states: seq<Blob>)
    requires AllLive(r)
    ensures |states| == |r.list|
  {
    seq(|r.list|, i requires 0 <= i < |r.list| => save(r.windows[r.list[i]]))
  }

  /** restoreLastSession's first loop: read the count, then that many
      states, appending each to the list of states. */
  method ReadSession(s: Stream) returns (states: seq<Blob>)
    ensures states == Decode(s)
  {
    states := [];
    var windowCount := ReadCount(s);
    var i := 0;
    while i < windowCount
      invariant 0 <= i <= WindowCount(s)
      invariant states == Decode(s)[..i]
    {
      states := states + [ReadState(s, i + 1)];
      i := i + 1;
    }
  }

  /** The reuse test of restoreLastSession, in its three short-circuited
      steps: the raw list (null entries included) has one entry; the main
      window has one tab; the main window's current tab shows no URL. The
      last two steps each ask mainWindow() for the window, which cleans the
      list and may create a window, so the registry after the test is
      returned with its verdict. */
  function SoleBlankCheck(r: Registry, blank: Window): (res: (Registry, bool))
    ensures res.1 ==> |r.list| == 1 && res.0.list != [] && Front(res.0) in res.0.windows
  {
    if |r.list| != 1 then (r, false)
    else
      var r1 := MainWindow(r, blank);
      if |r1.windows[Front(r1)].tabs| != 1 then (r1, false)
      else
        var r2 := MainWindow(r1, blank);
        (r2, CurrentUrl(r2.windows[Front(r2)]) == EmptyUrl)
  }

  /** One iteration: pick the window (reuse through mainWindow(), or
      newMainWindow()) and apply restoreState(state) to it; the window picked
      is Front of the result. restore stands for
      BrowserMainWindow::restoreState, which is not part of this model. */
  function RestoreOne(r: Registry, blank: Window, state: Blob, restore: (Window, Blob) -> Window): (r': Registry)
    ensures r'.list != [] && Front(r') in r'.windows
  {
    RestoreInto(SoleBlankCheck(r, blank), blank, state, restore)
  }

  /** The body of the iteration once the reuse test has been evaluated. */
  function RestoreInto(check: (Registry, bool), blank: Window, state: Blob, restore: (Window, Blob) -> Window): (r': Registry)
    ensures r'.list != [] && Front(r') in r'.windows
  {
    var r2 := if check.1 then MainWindow(check.0, blank) else NewWindow(check.0, blank);
    r2.(windows := r2.windows[Front(r2) := restore(r2.windows[Front(r2)], state)])
  }

  /** The loop over the decoded states, in order, with the log of what has
      happened so far as the accumulator: each restoreState call is logged
      with the window it went to. */
  function RestoreFrom(r: Registry, blank: Window, states: seq<Blob>, log: seq<Event>, restore: (Window, Blob) -> Window): (res: (Registry, seq<Event>))
    ensures |res.1| == |log| + |states| && res.1[..|log|] == log
    decreases |states|
  {
    if states == [] then (r, log)
    else
      var r1 := RestoreOne(r, blank, states[0], restore);
      var log' := log + [Restored(Front(r1), states[0])];
      assert log'[..|log|] == log;
      RestoreFrom(r1, blank, states[1..], log', restore)
  }


  /** The reuse rule: exactly one entry, alive, with a single tab showing
      nothing. */
  ghost predicate SoleBlankWindow(r: Registry)
  {
    |r.list| == 1 && r.list[0] in r.windows && HasSoleBlankTab(r.windows[r.list[0]])
  }

  /** When the rule holds, the existing window receives the state and no
      window is created. */
  lemma RestoreReusesSoleBlankWindow(r: Registry, blank: Window, state: Blob, restore: (Window, Blob) -> Window)
    requires Valid(r) && SoleBlankWindow(r)
    ensures var w := r.list[0];
      RestoreOne(r, blank, state, restore) == r.(windows := r.windows[w := restore(r.windows[w], state)])
  {
    var w := r.list[0];
    assert LiveOnly(r.list, r.windows.Keys) == [w];
    assert Clean(r) == r;
  }

  /** When the list does not hold exactly one live blank window (and is not a
      single null entry), a new window is prepended in front of the
      unchanged list and receives the state. */
  lemma RestorePrependsOtherwise(r: Registry, blank: Window, state: Blob, restore: (Window, Blob) -> Window)
    requires Valid(r) && !SoleBlankWindow(r)
    requires |r.list| == 1 ==> r.list[0] in r.windows
    ensures var r' := RestoreOne(r, blank, state, restore);
      && Front(r') !in r.windows && Front(r') !in r.list
      && r'.list == [Front(r')] + r.list
      && r'.windows == r.windows[Front(r') := restore(blank, state)]
      && Valid(r')
  {
    if |r.list| == 1 {
      var w := r.list[0];
      assert LiveOnly(r.list, r.windows.Keys) == [w];
      assert Clean(r) == r;
      MainWindowIdempotent(r, blank);
    }
    assert SoleBlankCheck(r, blank) == (r, false);
    NewWindowPrepends(r, blank);
  }

  /** The edge case of a single null entry: the test itself creates a window
      through mainWindow(); it is reused when a new window already has a sole
      blank tab, and otherwise a second window is prepended. */
  lemma RestoreAfterSoleNullEntry(r: Registry, blank: Window, state: Blob, restore: (Window, Blob) -> Window)
    requires Valid(r) && |r.list| == 1 && r.list[0] !in r.windows
    ensures var r' := RestoreOne(r, blank, state, restore);
      var f := r.nextId;
      && (HasSoleBlankTab(blank) ==>
            r'.list == [f] && r'.windows == r.windows[f := restore(blank, state)])
      && (!HasSoleBlankTab(blank) ==>
            r'.list == [f + 1, f] && r'.windows == r.windows[f := blank][f + 1 := restore(blank, state)])
  {
    assert LiveOnly(r.list, r.windows.Keys) == [];
    var r1 := MainWindow(r, blank);
    assert r1.list == [r.nextId];
    MainWindowIdempotent(r, blank);
  }

  /** The reuse test succeeds exactly when the raw list has one entry and the
      window mainWindow() then returns has a single blank tab: the entry's
      own window when it is alive, a newly created one when it is null. */
  lemma SoleBlankCheckIff(r: Registry, blank: Window)
    requires Valid(r)
    ensures SoleBlankCheck(r, blank).1 <==>
      |r.list| == 1 && HasSoleBlankTab(if r.list[0] in r.windows then r.windows[r.list[0]] else blank)
  {
    if |r.list| == 1 {
      if r.list[0] in r.windows {
        assert LiveOnly(r.list, r.windows.Keys) == r.list;
      } else {
        assert LiveOnly(r.list, r.windows.Keys) == [];
      }
      MainWindowIdempotent(r, blank);
    }
  }

  /** The reuse test keeps the registry valid and loses no live window. */
  lemma SoleBlankCheckValid(r: Registry, blank: Window)
    requires Valid(r)
    ensures Valid(SoleBlankCheck(r, blank).0)
    ensures r.windows.Keys <= SoleBlankCheck(r, blank).0.windows.Keys
  {
    if |r.list| == 1 {
      MainWindowProperties(r, blank);
      MainWindowProperties(MainWindow(r, blank), blank);
    }
  }

  /** Picking the window and restoring into it keeps the registry valid and
      never loses a live window. */
  lemma RestoreIntoValid(check: (Registry, bool), blank: Window, state: Blob, restore: (Window, Blob) -> Window)
    requires Valid(check.0)
    ensures Valid(RestoreInto(check, blank, state, restore))
    ensures check.0.windows.Keys <= RestoreInto(check, blank, state, restore).windows.Keys
  {
    if check.1 {
      MainWindowProperties(check.0, blank);
    } else {
      NewWindowPrepends(check.0, blank);
    }
  }

  /** One iteration keeps the registry valid and never loses a live
      window. */
  lemma RestoreOneValid(r: Registry, blank: Window, state: Blob, restore: (Window, Blob) -> Window)
    requires Valid(r)
    ensures Valid(RestoreOne(r, blank, state, restore))
    ensures r.windows.Keys <= RestoreOne(r, blank, state, restore).windows.Keys
  {
    SoleBlankCheckValid(r, blank);
    RestoreIntoValid(SoleBlankCheck(r, blank), blank, state, restore);
  }


  /** The loop from position j on is one iteration followed by the loop
      from j + 1 on. */
  lemma RestoreFromStep(r: Registry, blank: Window, states: seq<Blob>, j: nat, log: seq<Event>, restore: (Window, Blob) -> Window)
    requires j < |states|
    ensures var r1 := RestoreOne(r, blank, states[j], restore);
      RestoreFrom(r, blank, states[j..], log, restore)
        == RestoreFrom(r1, blank, states[j + 1..], log + [Restored(Front(r1), states[j])], restore)
  {
    assert states[j..][0] == states[j];
    assert states[j..][1..] == states[j + 1..];
  }

  /** The restore loop keeps the registry valid and never loses a live
      window. */
  lemma {:induction false} RestoreFromValid(r: Registry, blank: Window, states: seq<Blob>, log: seq<Event>, restore: (Window, Blob) -> Window)
    requires Valid(r)
    ensures Valid(RestoreFrom(r, blank, states, log, restore).0)
    ensures r.windows.Keys <= RestoreFrom(r, blank, states, log, restore).0.windows.Keys
    decreases |states|
  {
    if states != [] {
      var r1 := RestoreOne(r, blank, states[0], restore);
      RestoreOneValid(r, blank, states[0], restore);
      RestoreFromValid(r1, blank, states[1..], log + [Restored(Front(r1), states[0])], restore);
    }
  }

  /** The log of the restore loop: one Restored entry per state, in order. */
  predicate LogsStates(log: seq<Event>, states: seq<Blob>)
  {
    |log| == |states| && forall i :: 0 <= i < |log| ==> log[i].Restored? && log[i].state == states[i]
  }

  /** The loop keeps what was logged before it and adds one Restored entry
      per state, in order. */
  lemma {:induction false} RestoreFromLogs(r: Registry, blank: Window, states: seq<Blob>, log: seq<Event>, restore: (Window, Blob) -> Window)
    ensures var out := RestoreFrom(r, blank, states, log, restore).1;
      |log| <= |out| && out[..|log|] == log && LogsStates(out[|log|..], states)
    decreases |states|
  {
    var out := RestoreFrom(r, blank, states, log, restore).1;
    if states == [] {
      assert out == log;
    } else {
      var r1 := RestoreOne(r, blank, states[0], restore);
      var e := Restored(Front(r1), states[0]);
      RestoreFromLogs(r1, blank, states[1..], log + [e], restore);
      assert out == RestoreFrom(r1, blank, states[1..], log + [e], restore).1;
      assert out[..|log| + 1] == log + [e];
      assert out[..|log|] == (log + [e])[..|log|] == log;
      forall i | 0 <= i < |out[|log|..]|
        ensures out[|log|..][i].Restored? && out[|log|..][i].state == states[i]
      {
        if i == 0 {
          assert out[|log|..][0] == out[..|log| + 1][|log|] == e;
        } else {
          assert out[|log|..][i] == out[|log| + 1..][i - 1];
        }
      }
    }
  }

  /** Across a restart: what saveSession stored is restorable, and restoring
      it applies the saved states, all of them, in the order they were
      saved. */
  lemma SavedSessionRestoresInOrder(store: Store, states: seq<Blob>, r: Registry, blank: Window, restore: (Window, Blob) -> Window)
    ensures var stored := BytesOf(store[LastSessionKey := BytesValue(Encode(states))], LastSessionKey);
      && stored != []
      && Decode(stored) == states
      && LogsStates(RestoreFrom(r, blank, Decode(stored), [], restore).1, states)
  {
    RoundTrip(states);
    RestoreFromLogs(r, blank, states, [], restore);
  }
}
