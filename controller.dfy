/** The page controller of src/main.js, class `BunnyClickGame`: the game
    the page actually runs. It keeps one list of tap timestamps per
    participant, recomputes that participant's taps per second on every
    tap, counts a fixed thirty-second game down once a second and, when
    time runs out, fills in the result view.

    A tap reads `Date.now()` twice: once for the time it records and once
    for the end of the window in `calculateTPS`. The two readings are the
    parameters `tapTime` and `now`. The countdown interval becomes
    `TimerTick`, one call per firing of one live interval. Screen and
    modal switching is left out; of the page text only the encouragement
    line and the result view are kept. */
module Controller {
  import opened Common
  import opened Encouragement
  import Engine

  /** The length of a game, in seconds (`this.gameTimer = 30`). */
  const GAME_SECONDS: int := 30
  /** The TPS window, in milliseconds (`now - time <= 1000`). */
  const TPS_WINDOW: int := 1000

  /** The prompt `setupGameMode('single')` puts in the encouragement line. */
  const START_PROMPT: string := "點擊開始你的挑戰！"

  /** A player zone of the dual-player area (`data-player` "1" or "2"). */
  datatype Side = One | Two

  /** `` `player${player}` `` */
  function SideKey(s: Side): (k: Key)
    ensures k != Single
    ensures s == One <==> k == Player1
  {
    match s
    case One => Player1
    case Two => Player2
  }

  // ---------------------------------------------------------------------
  // The tap window
  // ---------------------------------------------------------------------

  /** `clicks.filter(time => now - time <= 1000)`: the taps at most one
      window old, boundary included, in their original order. */
  function Within(times: seq<int>, now: int): (r: seq<int>)
    ensures |r| <= |times|
    ensures forall i :: 0 <= i < |r| ==> now - r[i] <= TPS_WINDOW
  {
    if times == [] then []
    else if now - times[0] <= TPS_WINDOW then [times[0]] + Within(times[1..], now)
    else Within(times[1..], now)
  }

  /** On whole milliseconds the inclusive window is the engine's strict
      window with its cutoff moved one millisecond earlier. */
  lemma {:induction false} WithinIsShiftedAfter(times: seq<int>, now: int)
    ensures Within(times, now) == Engine.After(times, now - TPS_WINDOW - 1)
  {
    if times != [] {
      WithinIsShiftedAfter(times[1..], now);
    }
  }

  /** The two windows differ exactly on a tap made one window ago: the
      page counts it, the engine has already dropped it. */
  lemma WindowsDisagreeAtBoundary(now: int)
    ensures Within([now - TPS_WINDOW], now) == [now - TPS_WINDOW]
    ensures Engine.After([now - TPS_WINDOW], now - Engine.WINDOW_SIZE) == []
  {
  }

  /** A tap recorded at `t` is counted by a recomputation at `now` exactly
      when it is at most one window old, after the taps recorded before it. */
  lemma {:induction false} WithinAppend(times: seq<int>, t: int, now: int)
    ensures Within(times + [t], now) == Within(times, now) + (if now - t <= TPS_WINDOW then [t] else [])
  {
    if times == [] {
      assert [] + [t] == [t];
    } else {
      assert (times + [t])[1..] == times[1..] + [t];
      WithinAppend(times[1..], t, now);
    }
  }

  // ---------------------------------------------------------------------
  // Results
  // ---------------------------------------------------------------------

  datatype Outcome = Player1Wins | Player2Wins | Tie

  /** `updateWinnerDisplay`: the dual-player verdict on the two scores. */
  function Winner(p1: int, p2: int): (o: Outcome)
    ensures o == Player1Wins <==> p1 > p2
    ensures o == Player2Wins <==> p2 > p1
    ensures o == Tie <==> p1 == p2
  {
    if p1 > p2 then Player1Wins
    else if p2 > p1 then Player2Wins
    else Tie
  }

  /** Swapping the players swaps the verdict. */
  lemma WinnerSymmetric(p1: int, p2: int)
    ensures Winner(p2, p1) == match Winner(p1, p2)
      case Player1Wins => Player2Wins
      case Player2Wins => Player1Wins
      case Tie => Tie
  {
  }

  /** `Math.max(...Object.values(this.tps))`: the single-player result TPS. */
  function MaxTps(tps: PerKey<nat>): (r: nat)
    ensures forall k: Key :: tps.Get(k) <= r
    ensures exists k: Key :: tps.Get(k) == r
  {
    var m := if tps.single >= tps.player1 then tps.single else tps.player1;
    var r := if m >= tps.player2 then m else tps.player2;
    assert tps.Get(Single) <= r && tps.Get(Player1) <= r && tps.Get(Player2) <= r;
    assert r == tps.Get(Single) || r == tps.Get(Player1) || r == tps.Get(Player2);
    r
  }

  /** What the result modal shows. */
  datatype ResultView =
    | SingleResult(score: nat, tps: nat)
    | DualResult(score1: nat, tps1: nat, score2: nat, tps2: nat, outcome: Outcome)

  /** `setupResultsDisplay`: the single-player view carries the score and
      the best of the three TPS values, the dual-player view both scores,
      both TPS values and the verdict. */
  function ResultsOf(mode: Mode, scores: PerKey<nat>, tps: PerKey<nat>): (v: ResultView)
    ensures mode == SingleMode <==> v.SingleResult?
    ensures v.SingleResult? ==> v.score == scores.single && v.tps == MaxTps(tps)
    ensures v.DualResult? ==> v.score1 == scores.player1 && v.score2 == scores.player2
    ensures v.DualResult? ==> v.tps1 == tps.player1 && v.tps2 == tps.player2
    ensures v.DualResult? ==> v.outcome == Winner(scores.player1, scores.player2)
  {
    match mode
    case SingleMode => SingleResult(scores.single, MaxTps(tps))
    case DualMode => DualResult(scores.player1, tps.player1, scores.player2, tps.player2,
                                Winner(scores.player1, scores.player2))
  }

  // ---------------------------------------------------------------------
  // The controller
  // ---------------------------------------------------------------------

  class BunnyClickGame {
    var isGameActive: bool
    var gameMode: Mode
    var gameTimer: int
    /** Whether `timerInterval` holds an interval handle. */
    var timerHandle: bool
    /** How many countdown intervals are installed. `startTimer` installs
        one without clearing a previous one, so this can exceed one. */
    var liveIntervals: nat
    var scores: PerKey<nat>
    var tps: PerKey<nat>
    var clickCounts: PerKey<seq<int>>
    /** The encouragement line; `None` until the controller first writes
        it (before that it shows whatever the page markup holds). */
    var encouragement: Option<string>
    /** The result modal's content; `None` until a game has ended. */
    var results: Option<ResultView>

    /** The held handle is one of the installed intervals. */
    ghost predicate Valid()
      reads this
    {
      timerHandle ==> liveIntervals >= 1
    }

    /** The steady state of ordinary play: exactly one interval is
        installed, and it is held, while a game is active, none otherwise,
        and the clock of an active game has time left. */
    ghost predicate Steady()
      reads this
    {
      && Valid()
      && timerHandle == isGameActive
      && liveIntervals == (if isGameActive then 1 else 0)
      && 0 <= gameTimer <= GAME_SECONDS
      && (isGameActive ==> gameTimer > 0)
    }

    /** A fresh controller: no game, zero scores and TPS, no taps. */
    constructor ()
      ensures Steady()
      ensures !isGameActive && gameMode == SingleMode && gameTimer == GAME_SECONDS
      ensures scores == Uniform(0) && tps == Uniform(0) && clickCounts == Uniform([])
      ensures encouragement == None && results == None
    {
      isGameActive, gameMode, gameTimer := false, SingleMode, GAME_SECONDS;
      timerHandle, liveIntervals := false, 0;
      scores, tps, clickCounts := Uniform(0), Uniform(0), Uniform([]);
      encouragement, results := None, None;
    }

    /** `resetGameStats()`: zero scores, zero TPS, no recorded taps. */
    method ResetGameStats()
      modifies this`scores, this`tps, this`clickCounts
      ensures scores == Uniform(0) && tps == Uniform(0) && clickCounts == Uniform([])
    {
      scores := Uniform(0);
      tps := Uniform(0);
      clickCounts := Uniform([]);
    }

    /** `startTimer()`: installs one more countdown interval and holds its
        handle; an interval already installed is not cleared. */
    method StartTimer()
      requires Valid()
      modifies this`timerHandle, this`liveIntervals
      ensures Valid()
      ensures timerHandle && liveIntervals == old(liveIntervals) + 1
    {
      liveIntervals := liveIntervals + 1;
      timerHandle := true;
    }

    /** `startGame(mode)`: an active game in `mode` with the full thirty
        seconds and everything zeroed. Started from a steady idle
        controller it leaves exactly one countdown installed; started
        while a game runs, the earlier countdown stays installed too. */
    method StartGame(mode: Mode)
      requires Valid()
      modifies this
      ensures Valid()
      ensures gameMode == mode && isGameActive && gameTimer == GAME_SECONDS
      ensures scores == Uniform(0) && tps == Uniform(0) && clickCounts == Uniform([])
      ensures timerHandle && liveIntervals == old(liveIntervals) + 1
      ensures encouragement == if mode == SingleMode then Some(START_PROMPT) else old(encouragement)
      ensures results == old(results)
      ensures old(Steady()) && !old(isGameActive) ==> Steady()
    {
      gameMode := mode;
      isGameActive := true;
      gameTimer := GAME_SECONDS;
      ResetGameStats();
      if mode == SingleMode {
        encouragement := Some(START_PROMPT);
      }
      StartTimer();
    }

    /** `playAgain()`: starts a new game in the current mode. */
    method PlayAgain()
      requires Valid()
      modifies this
      ensures Valid()
      ensures gameMode == old(gameMode) && isGameActive && gameTimer == GAME_SECONDS
      ensures scores == Uniform(0) && tps == Uniform(0) && clickCounts == Uniform([])
      ensures timerHandle && liveIntervals == old(liveIntervals) + 1
      ensures encouragement == if old(gameMode) == SingleMode then Some(START_PROMPT) else old(encouragement)
      ensures results == old(results)
      ensures old(Steady()) && !old(isGameActive) ==> Steady()
    {
      StartGame(gameMode);
    }

    /** Clears the held interval handle, if any. */
    method ClearTimer()
      requires Valid()
      modifies this`timerHandle, this`liveIntervals
      ensures Valid() && !timerHandle
      ensures liveIntervals == if old(timerHandle) then old(liveIntervals) - 1 else old(liveIntervals)
    {
      if timerHandle {
        liveIntervals := liveIntervals - 1;
        timerHandle := false;
      }
    }

    /** `endGame()`: the game stops, the held countdown is cleared and the
        result view is filled in from the final scores and TPS. */
    method EndGame()
      requires Valid()
      modifies this
      ensures Valid()
      ensures !isGameActive && !timerHandle
      ensures liveIntervals == if old(timerHandle) then old(liveIntervals) - 1 else old(liveIntervals)
      ensures results == Some(ResultsOf(gameMode, scores, tps))
      ensures gameMode == old(gameMode) && gameTimer == old(gameTimer)
      ensures scores == old(scores) && tps == old(tps) && clickCounts == old(clickCounts)
      ensures encouragement == old(encouragement)
    {
      isGameActive := false;
      ClearTimer();
      results := Some(ResultsOf(gameMode, scores, tps));
    }

    /** `exitGame()`: the game stops and the held countdown is cleared;
        scores and the result view are left as they are. */
    method ExitGame()
      requires Valid()
      modifies this
      ensures Valid()
      ensures !isGameActive && !timerHandle
      ensures liveIntervals == if old(timerHandle) then old(liveIntervals) - 1 else old(liveIntervals)
      ensures old(Steady()) ==> Steady()
      ensures gameMode == old(gameMode) && gameTimer == old(gameTimer)
      ensures scores == old(scores) && tps == old(tps) && clickCounts == old(clickCounts)
      ensures encouragement == old(encouragement) && results == old(results)
    {
      isGameActive := false;
      ClearTimer();
    }

    /** One firing of an installed countdown interval: one second off the
        clock, and the game ends once the clock is at or below zero. In
        steady play the clock therefore never goes below zero and the game
        ends exactly when it reaches zero. */
    method TimerTick()
      requires Valid() && liveIntervals > 0
      modifies this
      ensures Valid()
      ensures gameTimer == old(gameTimer) - 1
      ensures gameTimer <= 0 ==> !isGameActive && !timerHandle && results == Some(ResultsOf(gameMode, scores, tps))
      ensures gameTimer > 0 ==> isGameActive == old(isGameActive) && results == old(results)
      ensures gameTimer > 0 ==> timerHandle == old(timerHandle) && liveIntervals == old(liveIntervals)
      ensures gameTimer <= 0 ==>
        liveIntervals == if old(timerHandle) then old(liveIntervals) - 1 else old(liveIntervals)
      ensures old(Steady()) ==> Steady()
      ensures old(Steady()) ==> (gameTimer == 0 <==> !isGameActive)
      ensures gameMode == old(gameMode)
      ensures scores == old(scores) && tps == old(tps) && clickCounts == old(clickCounts)
      ensures encouragement == old(encouragement)
    {
      gameTimer := gameTimer - 1;
      if gameTimer <= 0 {
        EndGame();
      }
    }

    /** `calculateTPS(key)` at time `now`: keeps that participant's taps of
        the last window, boundary included, counts them as its TPS and,
        for the single player, shows the matching encouragement. */
    method CalculateTPS(key: Key, now: int)
      modifies this`tps, this`clickCounts, this`encouragement
      ensures clickCounts == old(clickCounts).Set(key, Within(old(clickCounts).Get(key), now))
      ensures tps == old(tps).Set(key, |clickCounts.Get(key)|)
      ensures forall k: Key :: k != key ==> clickCounts.Get(k) == old(clickCounts).Get(k) && tps.Get(k) == old(tps).Get(k)
      ensures encouragement == if key == Single then Some(MessageFor(tps.single)) else old(encouragement)
    {
      var recent := Within(clickCounts.Get(key), now);
      tps := tps.Set(key, |recent|);
      clickCounts := clickCounts.Set(key, recent);
      if key == Single {
        var message := GetEncouragementMessage(tps.single);
        encouragement := Some(message);
      }
    }

    /** The shared effect of an accepted tap by `key`, recorded at
        `tapTime` and counted in a window ending at `now`. The tap itself
        is counted whenever the two clock readings are at most one window
        apart. */
    method Tap(key: Key, tapTime: int, now: int)
      modifies this`scores, this`tps, this`clickCounts, this`encouragement
      ensures scores == old(scores).Set(key, old(scores).Get(key) + 1)
      ensures clickCounts == old(clickCounts).Set(key,
        Within(old(clickCounts).Get(key), now) + (if now - tapTime <= TPS_WINDOW then [tapTime] else []))
      ensures tps == old(tps).Set(key, |clickCounts.Get(key)|)
      ensures now - tapTime <= TPS_WINDOW ==> tps.Get(key) >= 1
      ensures forall k: Key :: k != key ==> clickCounts.Get(k) == old(clickCounts).Get(k) && tps.Get(k) == old(tps).Get(k)
      ensures encouragement == if key == Single then Some(MessageFor(tps.single)) else old(encouragement)
    {
      scores := scores.Set(key, scores.Get(key) + 1);
      clickCounts := clickCounts.Set(key, clickCounts.Get(key) + [tapTime]);
      WithinAppend(old(clickCounts).Get(key), tapTime, now);
      CalculateTPS(key, now);
    }

    /** `handleSingleClick`, recording the tap at `tapTime` and counting
        the window at `now`: ignored unless a game is active; otherwise one
        point and one recorded tap for the single player, whose TPS is
        recomputed (and is at least one when the readings are at most a
        window apart). */
    method HandleSingleClick(tapTime: int, now: int)
      modifies this
      ensures !old(isGameActive) ==> unchanged(this)
      ensures old(isGameActive) ==> scores == old(scores).Set(Single, old(scores).Get(Single) + 1)
      ensures old(isGameActive) ==>
        clickCounts == old(clickCounts).Set(Single,
          Within(old(clickCounts).Get(Single), now) + (if now - tapTime <= TPS_WINDOW then [tapTime] else []))
      ensures old(isGameActive) ==> tps == old(tps).Set(Single, |clickCounts.Get(Single)|)
      ensures old(isGameActive) && now - tapTime <= TPS_WINDOW ==> tps.Get(Single) >= 1
      ensures old(isGameActive) ==> encouragement == Some(MessageFor(tps.Get(Single)))
      ensures isGameActive == old(isGameActive) && gameMode == old(gameMode) && gameTimer == old(gameTimer)
      ensures timerHandle == old(timerHandle) && liveIntervals == old(liveIntervals)
      ensures results == old(results)
    {
      if !isGameActive {
        return;
      }
      Tap(Single, tapTime, now);
    }

    /** `handleDualClick`, recording the tap at `tapTime` and counting
        the window at `now`: ignored unless a game is active and the tap
        landed in a player zone; otherwise one point and one recorded tap
        for that zone's player only. */
    method HandleDualClick(zone: Option<Side>, tapTime: int, now: int)
      modifies this
      ensures !old(isGameActive) || zone.None? ==> unchanged(this)
      ensures old(isGameActive) && zone.Some? ==>
        var key := SideKey(zone.value);
        && scores == old(scores).Set(key, old(scores).Get(key) + 1)
        && clickCounts == old(clickCounts).Set(key,
             Within(old(clickCounts).Get(key), now) + (if now - tapTime <= TPS_WINDOW then [tapTime] else []))
        && tps == old(tps).Set(key, |clickCounts.Get(key)|)
        && (now - tapTime <= TPS_WINDOW ==> tps.Get(key) >= 1)
      ensures isGameActive == old(isGameActive) && gameMode == old(gameMode) && gameTimer == old(gameTimer)
      ensures timerHandle == old(timerHandle) && liveIntervals == old(liveIntervals)
      ensures encouragement == old(encouragement) && results == old(results)
    {
      if !isGameActive {
        return;
      }
      if zone.None? {
        return;
      }
      Tap(SideKey(zone.value), tapTime, now);
    }
  }

  /** A full game from a steady idle controller: after thirty firings of
      the one installed countdown the game is over, the clock reads zero
      and no interval is left installed. */
  method PlayOut(g: BunnyClickGame, mode: Mode)
    requires g.Steady() && !g.isGameActive
    modifies g
    ensures g.Steady() && !g.isGameActive && g.gameTimer == 0 && g.liveIntervals == 0
    ensures g.results.Some? && g.results.value == ResultsOf(mode, g.scores, g.tps)
  {
    g.StartGame(mode);
    var n := 0;
    while n < GAME_SECONDS
      invariant 0 <= n <= GAME_SECONDS
      invariant g.Steady() && g.gameMode == mode
      invariant g.gameTimer == GAME_SECONDS - n
      invariant g.isGameActive <==> n < GAME_SECONDS
      invariant n == GAME_SECONDS ==> g.results == Some(ResultsOf(mode, g.scores, g.tps))
    {
      g.TimerTick();
      n := n + 1;
    }
  }
}
