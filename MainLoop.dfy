/** The close and escape logic of the main loop (`ofMainLoop`). The
    windows of `windowsApps` are represented by their should-close flags,
    in the map's order; what the app of a window does when the window is
    updated and drawn is one turn of a script. */
module MainLoop {
  import opened Util

  /** `OF_KEY_ESC`. */
  const OF_KEY_ESC: int := 27

  /** What happens while one window is updated and drawn: nothing that
      concerns the loop, its own window is asked to close
      (`setWindowShouldClose`), or the loop is asked to close with a status
      (`ofExit`, escape), which is `shouldClose`. */
  datatype Turn = Continue | CloseWindow | CloseLoop(status: int)

  /** The state the loop works on: the windows' should-close flags, the
      loop's own flag and its status. */
  datatype LoopState = LoopState(windows: seq<bool>, shouldClose: bool, status: int)

  /** The state after a pass, with the turns left. */
  datatype PassResult = PassResult(state: LoopState, turns: seq<Turn>)

  /** How the default loop ends: in a final state, or `Pending` when the
      script has fewer turns than the loop takes (a property of the
      script, not something the loop returns). */
  datatype Ending = Ended(state: LoopState) | Pending

  /** `n` windows, all asked to close. */
  function AllClosing(n: nat): (r: seq<bool>)
    ensures |r| == n && forall k :: 0 <= k < n ==> r[k]
  {
    seq(n, _ => true)
  }

  /** The rest of `loopOnce` from the window at index `i`: a window asked to
      close is erased and the pass goes on with the window after it; any
      other window takes the next turn. `None` when the turns run out. */
  function PassFrom(windows: seq<bool>, i: nat, shouldClose: bool, status: int, turns: seq<Turn>): Option<PassResult>
    requires i <= |windows|
    decreases |windows| - i
  {
    if i == |windows| then Some(PassResult(LoopState(windows, shouldClose, status), turns))
    else if windows[i] then PassFrom(windows[..i] + windows[i + 1..], i, shouldClose, status, turns)
    else if turns == [] then None
    else match turns[0]
      case Continue => PassFrom(windows, i + 1, shouldClose, status, turns[1..])
      case CloseWindow => PassFrom(windows[i := true], i + 1, shouldClose, status, turns[1..])
      case CloseLoop(s) => PassFrom(AllClosing(|windows|), i + 1, true, s, turns[1..])
  }

  /** One whole pass, `loopOnce`. */
  function Pass(st: LoopState, turns: seq<Turn>): Option<PassResult>
  {
    PassFrom(st.windows, 0, st.shouldClose, st.status, turns)
  }

  /** A pass takes one turn for each window that survives it, and the turns
      left are the end of the script. */
  lemma {:induction false} PassConsumes(windows: seq<bool>, i: nat, shouldClose: bool, status: int, turns: seq<Turn>)
    requires i <= |windows|
    requires PassFrom(windows, i, shouldClose, status, turns).Some?
    ensures var r := PassFrom(windows, i, shouldClose, status, turns).value;
      i <= |r.state.windows| && |r.turns| <= |turns| &&
      |turns| - |r.turns| == |r.state.windows| - i && r.turns == turns[|turns| - |r.turns|..]
    decreases |windows| - i
  {
    if i == |windows| {
    } else if windows[i] {
      PassConsumes(windows[..i] + windows[i + 1..], i, shouldClose, status, turns);
    } else {
      var rest := turns[1..];
      match turns[0]
      case Continue => PassConsumes(windows, i + 1, shouldClose, status, rest);
      case CloseWindow => PassConsumes(windows[i := true], i + 1, shouldClose, status, rest);
      case CloseLoop(s) => PassConsumes(AllClosing(|windows|), i + 1, true, s, rest);
      var r := PassFrom(windows, i, shouldClose, status, turns).value;
      assert rest[|rest| - |r.turns|..] == turns[|turns| - |r.turns|..];
    }
  }

  /** When every window from `i` on is asked to close, the rest of the pass
      erases them all and takes no turn. */
  lemma {:induction false} PassErasesClosing(windows: seq<bool>, i: nat, shouldClose: bool, status: int, turns: seq<Turn>)
    requires i <= |windows|
    requires forall k :: i <= k < |windows| ==> windows[k]
    ensures PassFrom(windows, i, shouldClose, status, turns) == Some(PassResult(LoopState(windows[..i], shouldClose, status), turns))
    decreases |windows| - i
  {
    if i < |windows| {
      var erased := windows[..i] + windows[i + 1..];
      assert erased[..i] == windows[..i];
      assert forall k :: i <= k < |erased| ==> erased[k] == windows[k + 1];
      PassErasesClosing(erased, i, shouldClose, status, turns);
    } else {
      assert windows[..i] == windows;
    }
  }

  /** The status of the first turn that asks the loop to close, if any. */
  function FirstClose(turns: seq<Turn>): Option<int>
  {
    if |turns| == 0 then None
    else if turns[0].CloseLoop? then Some(turns[0].status)
    else FirstClose(turns[1..])
  }

  /** `FirstClose` finds a status exactly when some turn asks the loop to
      close, and the turn it finds has no such turn before it. */
  lemma {:induction false} FirstCloseIsFirst(turns: seq<Turn>)
    ensures FirstClose(turns).Some? <==> exists i :: 0 <= i < |turns| && turns[i].CloseLoop?
    ensures FirstClose(turns).Some? ==>
      exists i :: 0 <= i < |turns| && turns[i] == CloseLoop(FirstClose(turns).value) &&
        forall j :: 0 <= j < i ==> !turns[j].CloseLoop?
  {
    if |turns| > 0 && !turns[0].CloseLoop? {
      var tail := turns[1..];
      FirstCloseIsFirst(tail);
      assert forall i :: 0 <= i < |tail| ==> tail[i] == turns[i + 1];
      if FirstClose(tail).Some? {
        var i :| 0 <= i < |tail| && tail[i] == CloseLoop(FirstClose(tail).value) && forall j :: 0 <= j < i ==> !tail[j].CloseLoop?;
        assert turns[i + 1] == CloseLoop(FirstClose(turns).value);
        assert forall j :: 0 <= j < i + 1 ==> !turns[j].CloseLoop? by {
          forall j | 0 <= j < i + 1
            ensures !turns[j].CloseLoop?
          {
            if j > 0 {
              assert turns[j] == tail[j - 1];
            }
          }
        }
      } else {
        assert forall i :: 0 <= i < |turns| ==> !turns[i].CloseLoop? by {
          forall i | 0 <= i < |turns|
            ensures !turns[i].CloseLoop?
          {
            if i > 0 {
              assert turns[i] == tail[i - 1];
            }
          }
        }
      }
    }
  }

  /** A pass of a loop that is not closing either ends closing, with the
      status of the first turn of the script that asks, or takes no such
      turn and keeps the status. */
  lemma {:induction false} PassStatus(windows: seq<bool>, i: nat, status: int, turns: seq<Turn>)
    requires i <= |windows|
    requires PassFrom(windows, i, false, status, turns).Some?
    ensures var r := PassFrom(windows, i, false, status, turns).value;
      (r.state.shouldClose ==> FirstClose(turns) == Some(r.state.status)) &&
      (!r.state.shouldClose ==> r.state.status == status && FirstClose(turns) == FirstClose(r.turns))
    decreases |windows| - i
  {
    if i == |windows| {
    } else if windows[i] {
      PassStatus(windows[..i] + windows[i + 1..], i, status, turns);
    } else {
      match turns[0]
      case Continue => PassStatus(windows, i + 1, status, turns[1..]);
      case CloseWindow => PassStatus(windows[i := true], i + 1, status, turns[1..]);
      case CloseLoop(s) => PassErasesClosing(AllClosing(|windows|), i + 1, true, s, turns[1..]);
    }
  }

  /** `loop` without a window loop: passes run while the loop is not
      closing and has windows. */
  function Run(st: LoopState, turns: seq<Turn>): Ending
    decreases |turns| + (if |st.windows| == 0 then 0 else 1)
  {
    if st.shouldClose || |st.windows| == 0 then Ended(st)
    else match Pass(st, turns)
      case None => Pending
      case Some(r) =>
        PassConsumes(st.windows, 0, st.shouldClose, st.status, turns);
        Run(r.state, r.turns)
  }

  /** The default loop ends only when it is closing or has no window left. */
  lemma {:induction false} RunEnds(st: LoopState, turns: seq<Turn>)
    ensures Run(st, turns).Ended? ==> Run(st, turns).state.shouldClose || Run(st, turns).state.windows == []
    decreases |turns| + (if |st.windows| == 0 then 0 else 1)
  {
    if !(st.shouldClose || |st.windows| == 0) && Pass(st, turns).Some? {
      var r := Pass(st, turns).value;
      PassConsumes(st.windows, 0, st.shouldClose, st.status, turns);
      RunEnds(r.state, r.turns);
    }
  }

  /** The status the default loop ends with: a loop that was not closing
      either ends closing with the status of the first turn that asks, or
      ends with no window left and its status unchanged. */
  lemma {:induction false} RunStatus(st: LoopState, turns: seq<Turn>)
    requires !st.shouldClose
    ensures Run(st, turns).Ended? ==>
      var f := Run(st, turns).state;
      (f.shouldClose ==> FirstClose(turns) == Some(f.status)) &&
      (!f.shouldClose ==> f.status == st.status && f.windows == [])
    decreases |turns| + (if |st.windows| == 0 then 0 else 1)
  {
    if |st.windows| != 0 && Pass(st, turns).Some? {
      var r := Pass(st, turns).value;
      PassConsumes(st.windows, 0, st.shouldClose, st.status, turns);
      PassStatus(st.windows, 0, st.status, turns);
      if !r.state.shouldClose {
        RunStatus(r.state, r.turns);
      }
    }
  }

  class MainLoop {
    var bShouldClose: bool
    var status: int
    var allowMultiWindow: bool
    var escapeQuits: bool
    /** Whether a window loop is installed; the default loop is used
        otherwise. */
    var hasWindowLoop: bool
    /** The should-close flag of each window of `windowsApps`, in the
        map's order. */
    var windowShouldClose: seq<bool>

    /** The constructor: not closing, status 0, multiple windows allowed,
        no window loop, escape quits. */
    constructor ()
      ensures !bShouldClose && status == 0 && allowMultiWindow && escapeQuits
      ensures !hasWindowLoop && windowShouldClose == []
    {
      bShouldClose := false;
      status := 0;
      allowMultiWindow := true;
      hasWindowLoop := false;
      escapeQuits := true;
      windowShouldClose := [];
    }

    /** Registers a new window that is not closing: the entry
        `run(window, app)` adds to the map of windows and apps. The window
        is taken to be new. */
    method AddWindow()
      modifies this`windowShouldClose
      ensures windowShouldClose == old(windowShouldClose) + [false]
    {
      windowShouldClose := windowShouldClose + [false];
    }

    /** `shouldClose(status)`: every window is told to close, and the loop
        records that it should close with that status. */
    method ShouldClose(s: int)
      modifies this`windowShouldClose, this`bShouldClose, this`status
      ensures windowShouldClose == AllClosing(|old(windowShouldClose)|)
      ensures bShouldClose && status == s
    {
      var i := 0;
      while i < |windowShouldClose|
        invariant 0 <= i <= |windowShouldClose| == |old(windowShouldClose)|
        invariant forall k :: 0 <= k < i ==> windowShouldClose[k]
      {
        windowShouldClose := windowShouldClose[i := true];
        i := i + 1;
      }
      assert windowShouldClose == AllClosing(|old(windowShouldClose)|);
      bShouldClose := true;
      status := s;
    }

    /** `setEscapeQuitsLoop`. */
    method SetEscapeQuitsLoop(quits: bool)
      modifies this`escapeQuits
      ensures escapeQuits == quits
    {
      escapeQuits := quits;
    }

    /** `keyPressed`: escape closes with status 0 while `escapeQuits` is
        set; any other key, or escape with `escapeQuits` unset, changes
        nothing. */
    method KeyPressed(key: int)
      modifies this`windowShouldClose, this`bShouldClose, this`status
      ensures key == OF_KEY_ESC && escapeQuits ==>
        bShouldClose && status == 0 && |windowShouldClose| == |old(windowShouldClose)| &&
        forall k :: 0 <= k < |windowShouldClose| ==> windowShouldClose[k]
      ensures !(key == OF_KEY_ESC && escapeQuits) ==>
        bShouldClose == old(bShouldClose) && status == old(status) && windowShouldClose == old(windowShouldClose)
    {
      if key == OF_KEY_ESC && escapeQuits == true {
        ShouldClose(0);
      }
    }

    /** `loopOnce`: each window asked to close is erased, every other
        window takes a turn of the script. On success the turns left are
        returned and the state is that of `Pass`; `None` when the script
        runs out in the middle of the pass. */
    method LoopOnce(turns: seq<Turn>) returns (r: Option<seq<Turn>>)
      modifies this`windowShouldClose, this`bShouldClose, this`status
      ensures var p := Pass(LoopState(old(windowShouldClose), old(bShouldClose), old(status)), turns);
        (p.None? ==> r.None?) &&
        (p.Some? ==> (r == Some(p.value.turns) && windowShouldClose == p.value.state.windows &&
                      bShouldClose == p.value.state.shouldClose && status == p.value.state.status))
    {
      ghost var p := Pass(LoopState(windowShouldClose, bShouldClose, status), turns);
      var i := 0;
      var t := turns;
      while i < |windowShouldClose|
        invariant i <= |windowShouldClose|
        invariant PassFrom(windowShouldClose, i, bShouldClose, status, t) == p
        decreases |windowShouldClose| - i
      {
        if windowShouldClose[i] {
          windowShouldClose := windowShouldClose[..i] + windowShouldClose[i + 1..];
        } else if t == [] {
          return None;
        } else {
          match t[0] {
            case Continue =>
            case CloseWindow => windowShouldClose := windowShouldClose[i := true];
            case CloseLoop(s) => ShouldClose(s);
          }
          i := i + 1;
          t := t[1..];
        }
      }
      r := Some(t);
    }

    /** `loop`: with a window loop installed, that loop runs (its effect
        is not modelled) and the status is returned. Otherwise the default
        loop runs, ending as `Run` says, and it ends closing or with no
        window left. The result is the status at the end; `None` when the
        script runs out. */
    method Loop(turns: seq<Turn>) returns (r: Option<int>)
      modifies this`windowShouldClose, this`bShouldClose, this`status
      ensures hasWindowLoop ==> r == Some(old(status)) && unchanged(this)
      ensures !hasWindowLoop ==>
        var e := Run(LoopState(old(windowShouldClose), old(bShouldClose), old(status)), turns);
        (e.Pending? ==> r.None?) &&
        (e.Ended? ==> (r == Some(e.state.status) && windowShouldClose == e.state.windows &&
                       bShouldClose == e.state.shouldClose && status == e.state.status))
      ensures r.Some? && !hasWindowLoop ==> bShouldClose || windowShouldClose == []
    {
      if hasWindowLoop {
        r := Some(status);
      } else {
        RunEnds(LoopState(windowShouldClose, bShouldClose, status), turns);
        r := RunPasses(turns);
      }
    }

    /** The default loop: passes run while the loop is not closing and has
        windows, and it ends in the state `Run` gives. */
    method RunPasses(turns: seq<Turn>) returns (r: Option<int>)
      modifies this`windowShouldClose, this`bShouldClose, this`status
      ensures var e := Run(LoopState(old(windowShouldClose), old(bShouldClose), old(status)), turns);
        (e.Pending? ==> r.None?) &&
        (e.Ended? ==> (r == Some(e.state.status) && windowShouldClose == e.state.windows &&
                       bShouldClose == e.state.shouldClose && status == e.state.status))
    {
      ghost var e := Run(LoopState(windowShouldClose, bShouldClose, status), turns);
      var t := turns;
      while !bShouldClose && |windowShouldClose| != 0
        invariant Run(LoopState(windowShouldClose, bShouldClose, status), t) == e
        decreases |t| + (if |windowShouldClose| == 0 then 0 else 1)
      {
        ghost var before := LoopState(windowShouldClose, bShouldClose, status);
        ghost var t0 := t;
        var left := LoopOnce(t);
        if left.None? {
          return None;
        }
        PassConsumes(before.windows, 0, before.shouldClose, before.status, t0);
        t := left.value;
      }
      r := Some(status);
    }
  }
}
