/** The capture controller's fallback loop. A backend may fail to start or stop at any time;
    the loop moves on to a lower one and never back. */
module CaptureFallback {
  import opened Basics

  datatype Kind = NoBackend | Dxgi | Wgc | WgcWindow

  datatype Preference = Auto | PreferDxgi | PreferWgc

  /** A monitor: its key (zero stands for the empty key), and whether it is shown unrotated. */
  datatype Output = Output(key: nat, identity: bool)

  datatype Outcome = Stopped | RequestFallback | Failed

  function Rank(kind: Kind): nat {
    match kind
    case WgcWindow => 3
    case Wgc => 2
    case Dxgi => 1
    case NoBackend => 0
  }

  /** Why one backend follows another: the window's monitor backend, or DXGI after WGC, which
      needs automatic choice on an unrotated monitor. */
  predicate MayFollow(previous: Kind, next: Kind, preference: Preference, output: Output) {
    || (previous == WgcWindow && next == Wgc)
    || (previous == WgcWindow && next == Dxgi && output.identity && preference != PreferWgc)
    || (previous == Wgc && next == Dxgi && output.identity && preference == Auto)
  }

  predicate LinkedAt(tried: seq<Kind>, i: nat, preference: Preference, output: Output)
    requires i < |tried|
  {
    if i == 0 then tried[0] != NoBackend else MayFollow(tried[i - 1], tried[i], preference, output)
  }

  /** A run's backends, in the order tried. */
  ghost predicate Follows(tried: seq<Kind>, preference: Preference, output: Output) {
    forall i :: 0 <= i < |tried| ==> LinkedAt(tried, i, preference, output)
  }

  lemma FollowsGrows(tried: seq<Kind>, kind: Kind, preference: Preference, output: Output)
    requires Follows(tried, preference, output) && kind != NoBackend
    requires tried != [] ==> MayFollow(tried[|tried| - 1], kind, preference, output)
    ensures Follows(tried + [kind], preference, output)
  {
    var longer := tried + [kind];
    forall i | 0 <= i < |longer|
      ensures LinkedAt(longer, i, preference, output)
    {
      if i < |tried| {
        assert LinkedAt(tried, i, preference, output);
      }
    }
  }

  /** Each backend is tried at most once, from the highest down: three tries at most. */
  lemma {:induction false} FollowingDescends(tried: seq<Kind>, preference: Preference, output: Output, i: nat)
    requires Follows(tried, preference, output) && i < |tried|
    ensures 0 < Rank(tried[i]) <= 3 - i
    ensures forall j :: 0 <= j < i ==> Rank(tried[i]) < Rank(tried[j])
  {
    assert LinkedAt(tried, i, preference, output);
    if i > 0 {
      FollowingDescends(tried, preference, output, i - 1);
    }
  }

  class CaptureController {
    var quarantined: nat
    var fallbackCount: nat
    var initial: Option<bool>
    var failedWindow: Option<nat>
    var window: Option<nat>

    constructor ()
      ensures quarantined == 0 && fallbackCount == 0 && initial == None
    {
      quarantined, fallbackCount, initial, failedWindow, window := 0, 0, None, None, None;
    }

    function MonitorFallbackKind(output: Output, preference: Preference): Kind
      reads this
    {
      if output.identity && (preference == PreferDxgi || (preference == Auto && quarantined == output.key))
      then Dxgi else Wgc
    }

    predicate CanFallBackToDxgi(kind: Kind, preference: Preference, output: Output)
      reads this
    {
      kind == Wgc && preference == Auto && output.identity && quarantined != output.key
    }

    /** No backend follows this one on the monitor. */
    predicate IsLastResort(kind: Kind, output: Output, preference: Preference)
      reads this
    {
      || kind == Dxgi
      || (kind == Wgc && (preference != Auto || !output.identity || quarantined == output.key))
    }

    method CompleteInitial(success: bool)
      modifies this`initial
      ensures initial == if old(initial).Some? then old(initial) else Some(success)
    {
      if initial == None { initial := Some(success); }
    }

    // The session's window is given up; its monitor is captured instead.
    method FallBackFromWindow(output: Output, preference: Preference) returns (kind: Kind)
      modifies this`fallbackCount, this`failedWindow, this`window
      ensures kind == MonitorFallbackKind(output, preference)
      ensures fallbackCount == old(fallbackCount) + 1
      ensures failedWindow == old(window) && window == None
    {
      fallbackCount, failedWindow, window := fallbackCount + 1, window, None;
      kind := MonitorFallbackKind(output, preference);
    }

    // The next backend after `kind` failed or stopped, if there is one.
    method NextBackend(kind: Kind, output: Output, preference: Preference) returns (next: Option<Kind>)
      requires kind != NoBackend
      modifies this`fallbackCount, this`failedWindow, this`window, this`quarantined
      ensures next.Some? ==> MayFollow(kind, next.value, preference, output)
      ensures fallbackCount == old(fallbackCount) + if next.Some? then 1 else 0
      ensures kind == WgcWindow ==> next.Some? && quarantined == old(quarantined) && failedWindow == old(window)
      // A window's monitor is captured by DXGI only if that is asked for, or WGC failed on it
      // before, and it is shown unrotated.
      ensures kind == WgcWindow ==>
                next == Some(if && output.identity
                                && (preference == PreferDxgi || (preference == Auto && old(quarantined) == output.key))
                             then Dxgi else Wgc)
      ensures kind == Wgc ==>
                && (next.Some? <==> preference == Auto && output.identity && old(quarantined) != output.key)
                && quarantined == if next.Some? then output.key else old(quarantined)
      ensures kind == Wgc && next.Some? ==> next == Some(Dxgi)
      ensures kind == Dxgi ==> next == None && quarantined == old(quarantined)
    {
      next := None;
      if kind == WgcWindow {
        var monitor := FallBackFromWindow(output, preference);
        return Some(monitor);
      }
      if CanFallBackToDxgi(kind, preference, output) {
        quarantined, fallbackCount := output.key, fallbackCount + 1;
        return Some(Dxgi);
      }
    }

    /** Runs backends until one stops in order, the session is stopped, or none is left. The
        first try's outcome is reported exactly once. */
    method RunController(first: Kind, firstWindow: Option<nat>, selected: Output, preference: Preference)
      returns (ghost tried: seq<Kind>, ran: bool, ghost interrupted: bool)
      requires initial == None
      modifies this
      ensures Follows(tried, preference, selected) && (tried != [] ==> tried[0] == first)
      ensures initial == Some(ran)
      // Unless the session is stopped, the run goes on to the last backend there is.
      ensures !interrupted ==>
                if first == NoBackend then tried == []
                else tried != [] && IsLastResort(tried[|tried| - 1], selected, preference)
      // One fallback a move; after the last one the session may be stopped.
      ensures |tried| - 1 <= fallbackCount - old(fallbackCount) <= |tried|
      ensures quarantined == old(quarantined) || (quarantined == selected.key && preference == Auto)
    {
      var kind := first;
      window := firstWindow;
      ran := false;
      tried := [];
      var stopRequested: bool := *;
      interrupted := stopRequested;
      while !stopRequested
        invariant Follows(tried, preference, selected)
        invariant tried == [] ==> kind == first
        invariant tried != [] ==> tried[0] == first && MayFollow(tried[|tried| - 1], kind, preference, selected)
        invariant fallbackCount == old(fallbackCount) + |tried|
        invariant quarantined == old(quarantined) || (quarantined == selected.key && preference == Auto)
        invariant initial == if ran then Some(true) else None
        invariant interrupted == stopRequested
        invariant kind == NoBackend ==> first == NoBackend && tried == []
        decreases Rank(kind)
      {
        if kind == NoBackend { break; }
        FollowsGrows(tried, kind, preference, selected);
        tried := tried + [kind];
        var started: bool := *;
        if started {
          ran := true;
          CompleteInitial(true);
          var outcome: Outcome := *;
          stopRequested := *;
          if stopRequested || outcome == Stopped {
            interrupted := true;
            break;
          }
        }
        var next := NextBackend(kind, selected, preference);
        if next == None { break; }
        kind := next.value;
        stopRequested := *;
        interrupted := stopRequested;
      }
      CompleteInitial(false);
    }
  }
}
