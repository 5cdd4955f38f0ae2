/** The controller that raises the encoder's GPU scheduling class while a game starves it,
    and lowers it again when the GPU turns quiet or the game closes. What the detectors and
    the persistent memory answer is up to them. */
module GpuPriority {
  import opened Basics

  const GONE_GAME_PASSES: nat := 2

  type Game = string

  datatype Reason = NoReason | StartRaised | Remembered | QueuedDrops | SteadyDrops

  /** One observation: lower-cased games, and the answers of the memory and the detectors. */
  datatype Observation = Observation(
    foreground: Game, running: seq<Game>, memory: set<Game>, quiet: bool, starved: Reason)

  datatype Event = Nothing | Raised(game: Game) | LoweredClosed(game: Game) | LoweredQuiet(game: Game)

  datatype State = State(
    boost: bool, applied: Option<bool>, overridden: bool, startRaised: bool,
    raised: bool, raisedGame: Game, reason: Reason, missing: nat, quietGame: Game, trackedGame: Game)

  function RaisedFor(s: State, game: Game, reason: Reason): State {
    s.(raised := true, raisedGame := game, reason := reason, missing := 0)
  }

  function Lowered(s: State): State {
    s.(raised := false, raisedGame := "", reason := NoReason, trackedGame := "")
  }

  /** Turning the boost on or off. The boost is applied only when it changes. */
  function Configured(s: State, boost: bool, overridden: bool): State {
    if s.applied == Some(boost) then s
    else
      var t := s.(applied := Some(boost), boost := boost, trackedGame := "", overridden := overridden);
      if overridden then t.(raised := false)
      else if boost && t.startRaised then RaisedFor(t.(startRaised := false), "", StartRaised)
      else if !boost || !t.raised then t.(raised := false, raisedGame := "", reason := NoReason)
      else t
  }

  /** The first running game to raise for, if any. */
  function FirstRemembered(running: seq<Game>, quietGame: Game, memory: set<Game>): Option<Game> {
    if running == [] then None
    else if running[0] != quietGame && running[0] in memory then Some(running[0])
    else FirstRemembered(running[1..], quietGame, memory)
  }

  /** An observation while raised: the game may have closed, or the GPU turned quiet. */
  function ObservedRaised(s: State, o: Observation): (State, Event) {
    if s.raisedGame == "" then (s, Nothing)
    else
      var t := s.(missing := if s.raisedGame in o.running then 0 else s.missing + 1);
      if t.missing >= GONE_GAME_PASSES && s.raisedGame !in o.running
      then (Lowered(t), LoweredClosed(s.raisedGame))
      else if s.raisedGame != s.quietGame && o.quiet
      then (Lowered(t.(quietGame := s.raisedGame)), LoweredQuiet(s.raisedGame))
      else (t, Nothing)
  }

  /** An observation while not raised: a remembered game raises at once, unless it was lowered
      for a quiet GPU in this session of it; otherwise starvation does. */
  function ObservedLow(s: State, o: Observation): (State, Event) {
    var t := if s.quietGame != "" && s.quietGame !in o.running then s.(quietGame := "") else s;
    if o.foreground != "" && o.foreground != t.quietGame && o.foreground in o.memory
    then (RaisedFor(t, o.foreground, Remembered), Raised(o.foreground))
    else
      var game := FirstRemembered(o.running, t.quietGame, o.memory);
      if game.Some? then (RaisedFor(t, game.value, Remembered), Raised(game.value))
      else
        var u := t.(trackedGame := o.foreground);
        if o.foreground == "" || o.starved == NoReason then (u, Nothing)
        else (RaisedFor(u, o.foreground, o.starved), Raised(o.foreground))
  }

  function Observed(s: State, o: Observation): (State, Event) {
    if !s.boost || s.overridden then (s, Nothing)
    else if s.raised then ObservedRaised(s, o)
    else ObservedLow(s, o)
  }

  class GpuPriorityControl {
    var boost: bool
    var applied: Option<bool>
    var overridden: bool
    var startRaised: bool
    var raised: bool
    var raisedGame: Game
    var reason: Reason
    var missing: nat
    var quietGame: Game
    var trackedGame: Game

    function Now(): State
      reads this
    {
      State(boost, applied, overridden, startRaised, raised, raisedGame, reason, missing, quietGame, trackedGame)
    }

    constructor (startRaised: bool)
      ensures Now() == State(false, None, false, startRaised, false, "", NoReason, 0, "", "")
    {
      boost, applied, overridden, raised := false, None, false, false;
      raisedGame, reason, missing, quietGame, trackedGame := "", NoReason, 0, "", "";
      this.startRaised := startRaised;
    }

    method Apply(boost: bool, override: bool)
      modifies this
      ensures Now() == Configured(old(Now()), boost, override)
    {
      if applied == Some(boost) { return; }
      applied, this.boost, trackedGame, overridden := Some(boost), boost, "", override;
      if override {
        raised := false;
      } else if boost && startRaised {
        startRaised := false;
        Raise("", StartRaised);
      } else if !boost || !raised {
        raised, raisedGame, reason := false, "", NoReason;
      }
    }

    method Observe(o: Observation) returns (event: Event)
      modifies this
      ensures (Now(), event) == Observed(old(Now()), o)
    {
      if !boost || overridden { return Nothing; }
      if raised {
        if raisedGame == "" { return Nothing; }
        if raisedGame in o.running {
          missing := 0;
        } else {
          missing := missing + 1;
          if missing >= GONE_GAME_PASSES {
            event := LoweredClosed(raisedGame);
            Lower();
            return;
          }
        }
        if raisedGame != quietGame && o.quiet {
          quietGame := raisedGame;
          event := LoweredQuiet(raisedGame);
          Lower();
          return;
        }
        return Nothing;
      }
      if quietGame != "" && quietGame !in o.running {
        quietGame := "";
      }
      if o.foreground != "" && o.foreground != quietGame && o.foreground in o.memory {
        Raise(o.foreground, Remembered);
        return Raised(o.foreground);
      }
      for i := 0 to |o.running|
        invariant Now() == (var s := old(Now());
                            if s.quietGame != "" && s.quietGame !in o.running then s.(quietGame := "") else s)
        invariant FirstRemembered(o.running, quietGame, o.memory)
               == FirstRemembered(o.running[i..], quietGame, o.memory)
      {
        assert o.running[i..][1..] == o.running[i + 1..];
        if o.running[i] != quietGame && o.running[i] in o.memory {
          Raise(o.running[i], Remembered);
          return Raised(o.running[i]);
        }
      }
      trackedGame := o.foreground;
      if o.foreground == "" || o.starved == NoReason { return Nothing; }
      Raise(o.foreground, o.starved);
      return Raised(o.foreground);
    }

    method Raise(game: Game, why: Reason)
      modifies this`raised, this`raisedGame, this`reason, this`missing
      ensures Now() == RaisedFor(old(Now()), game, why)
    {
      raised, raisedGame, reason, missing := true, game, why, 0;
    }

    method Lower()
      modifies this`raised, this`raisedGame, this`reason, this`trackedGame
      ensures Now() == Lowered(old(Now()))
    {
      raised, raisedGame, reason, trackedGame := false, "", NoReason, "";
    }
  }

  // -------------------------------------------------------------- whole sessions

  datatype Step = Apply(boost: bool, override: bool) | Observe(observation: Observation)

  function Stepped(s: State, step: Step): (State, Event) {
    match step
    case Apply(boost, override) => (Configured(s, boost, override), Nothing)
    case Observe(o) => Observed(s, o)
  }

  ghost predicate IsRun(states: seq<State>, steps: seq<Step>) {
    && |states| == |steps| + 1
    && forall k :: 0 <= k < |steps| ==> states[k + 1] == Stepped(states[k], steps[k]).0
  }

  predicate QuietStepDown(s: State, step: Step, game: Game) {
    Stepped(s, step).1 == LoweredQuiet(game)
  }

  /** The game is seen not to run while the class is low: its session is over. */
  predicate SeenClosed(s: State, step: Step, game: Game) {
    step.Observe? && !s.raised && game !in step.observation.running
  }

  /** What can make the controller forget that it stepped down for a game. */
  lemma QuietGameChanges(s: State, step: Step)
    requires s.quietGame != "" && Stepped(s, step).0.quietGame != s.quietGame
    ensures SeenClosed(s, step, s.quietGame) || exists other :: other != s.quietGame && QuietStepDown(s, step, other)
  {
    if !SeenClosed(s, step, s.quietGame) {
      assert QuietStepDown(s, step, s.raisedGame);
    }
  }

  lemma QuietStepDownRemembers(s: State, step: Step, game: Game)
    requires QuietStepDown(s, step, game)
    ensures game != "" && s.quietGame != game && s.raised && s.raisedGame == game
    ensures Stepped(s, step).0.quietGame == game && !Stepped(s, step).0.raised
  {
  }

  /** The controller never cycles on one game session: between two quiet step-downs of a game,
      either the game was seen closed, or another game was stepped down, whatever the
      detectors and the memory answered. */
  lemma {:induction false} OneQuietStepDownPerSession(
    states: seq<State>, steps: seq<Step>, i: nat, j: nat, game: Game)
    returns (k: nat)
    requires IsRun(states, steps) && i < j < |steps|
    requires QuietStepDown(states[i], steps[i], game) && QuietStepDown(states[j], steps[j], game)
    ensures i < k < j
    ensures SeenClosed(states[k], steps[k], game)
         || exists other :: other != game && QuietStepDown(states[k], steps[k], other)
  {
    QuietStepDownRemembers(states[i], steps[i], game);
    QuietStepDownRemembers(states[j], steps[j], game);
    assert states[i + 1] == Stepped(states[i], steps[i]).0;
    k := FirstForgetting(states, steps, i + 1, j, game);
  }

  lemma {:induction false} FirstForgetting(states: seq<State>, steps: seq<Step>, i: nat, j: nat, game: Game)
    returns (k: nat)
    requires IsRun(states, steps) && i <= j < |steps| && game != ""
    requires states[i].quietGame == game && states[j].quietGame != game
    ensures i <= k < j
    ensures SeenClosed(states[k], steps[k], game)
         || exists other :: other != game && QuietStepDown(states[k], steps[k], other)
    decreases j - i
  {
    assert states[i + 1] == Stepped(states[i], steps[i]).0;
    if states[i + 1].quietGame == game {
      k := FirstForgetting(states, steps, i + 1, j, game);
    } else {
      QuietGameChanges(states[i], steps[i]);
      k := i;
    }
  }

  /** After a quiet step-down the memory alone cannot raise that game again in its session. */
  lemma MemoryDoesNotRaiseQuietGame(s: State, o: Observation)
    requires !s.raised && s.quietGame != "" && s.quietGame in o.running
    requires Observed(s, o).1 == Raised(s.quietGame)
    ensures o.foreground == s.quietGame && o.starved != NoReason
    ensures Observed(s, o).0.reason == o.starved
  {
    FirstRememberedIsNotQuiet(o.running, s.quietGame, o.memory);
  }

  lemma {:induction false} FirstRememberedIsNotQuiet(running: seq<Game>, quietGame: Game, memory: set<Game>)
    ensures FirstRemembered(running, quietGame, memory).Some? ==>
              var game := FirstRemembered(running, quietGame, memory).value;
              game != quietGame && game in running && game in memory
    ensures FirstRemembered(running, quietGame, memory).None? ==>
              forall game <- running :: game == quietGame || game !in memory
  {
    if running != [] {
      FirstRememberedIsNotQuiet(running[1..], quietGame, memory);
      assert running == [running[0]] + running[1..];
    }
  }

  // ------------------------------------------------------ when it raises and lowers

  /** The game is remembered, and no quiet step-down of this session of it holds it back. */
  predicate MayBeRemembered(s: State, o: Observation, game: Game) {
    game in o.memory && game != if s.quietGame in o.running then s.quietGame else ""
  }

  /** While low and free to act, the controller raises exactly when a game in front or running is
      remembered, or the game in front is starved; what is in front comes first, and only a game
      that is not remembered is raised for starvation. */
  lemma {:induction false} RaiseRule(s: State, o: Observation)
    requires s.boost && !s.overridden && !s.raised
    ensures var (t, event) := Observed(s, o);
            var front := o.foreground != "" && MayBeRemembered(s, o, o.foreground);
            var behind := exists game <- o.running :: MayBeRemembered(s, o, game);
            var starved := o.foreground != "" && o.starved != NoReason;
            && (t.raised <==> front || behind || starved)
            && event == (if t.raised then Raised(t.raisedGame) else Nothing)
            && (front ==> t.raisedGame == o.foreground && t.reason == Remembered)
            && (!front && behind ==>
                  t.raisedGame in o.running && MayBeRemembered(s, o, t.raisedGame) && t.reason == Remembered)
            && (!front && !behind && starved ==> t.raisedGame == o.foreground && t.reason == o.starved)
  {
    var quiet := if s.quietGame in o.running then s.quietGame else "";
    FirstRememberedIsNotQuiet(o.running, quiet, o.memory);
  }

  /** While raised for a game and free to act, the controller lowers exactly when the game is not
      running for the second time in a row, or the GPU is quiet for the first time in its session. */
  lemma LowerRule(s: State, o: Observation)
    requires s.boost && !s.overridden && s.raised && s.raisedGame != ""
    ensures var (t, event) := Observed(s, o);
            var closed := s.raisedGame !in o.running && s.missing >= 1;
            var quiet := s.raisedGame != s.quietGame && o.quiet;
            && (!t.raised <==> closed || quiet)
            && (closed ==> event == LoweredClosed(s.raisedGame) && t.quietGame == s.quietGame)
            && (!closed && quiet ==> event == LoweredQuiet(s.raisedGame) && t.quietGame == s.raisedGame)
            && (!closed && !quiet ==>
                  event == Nothing && t.raisedGame == s.raisedGame && t.reason == s.reason
                  && t.missing == if s.raisedGame in o.running then 0 else s.missing + 1)
  {
  }

  /** Two observations in a row that do not see the raised game lower its class. */
  lemma ClosedGameIsLowered(s: State, first: Observation, second: Observation)
    requires s.boost && !s.overridden && s.raised && s.raisedGame != ""
    requires s.raisedGame !in first.running && s.raisedGame !in second.running
    ensures !Observed(s, first).0.raised || !Observed(Observed(s, first).0, second).0.raised
  {
    LowerRule(s, first);
    if Observed(s, first).0.raised {
      LowerRule(Observed(s, first).0, second);
    }
  }

  /** Nothing is observed while the boost is off or overridden, or for a class raised at start. */
  lemma ObservationsIgnored(s: State, o: Observation)
    requires !s.boost || s.overridden || (s.raised && s.raisedGame == "")
    ensures Observed(s, o) == (s, Nothing)
  {
  }

  /** A change of the boost takes effect: off lowers, an override leaves the class to it, on raises
      once if asked to start raised, and otherwise keeps what was raised. */
  lemma ConfigureRule(s: State, boost: bool, overridden: bool)
    ensures var t := Configured(s, boost, overridden);
            && t.applied == Some(boost)
            && (s.applied == Some(boost) ==> t == s)
            && (s.applied != Some(boost) ==>
                  && t.boost == boost && t.overridden == overridden
                  && (!boost || overridden ==> !t.raised)
                  && (boost && !overridden && s.startRaised ==> t.raised && t.raisedGame == "" && !t.startRaised)
                  && (boost && !overridden && !s.startRaised ==>
                        t.raised == s.raised && (t.raised ==> t.raisedGame == s.raisedGame && t.reason == s.reason)))
  {
  }
}
