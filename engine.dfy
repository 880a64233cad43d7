/** The session engine of src/services/GameEngine.js: the module-level
    `GameState` record and the `GameEngine` object that starts, pauses,
    resumes, ends and resets a session, counts taps, and keeps a
    one-second sliding window of tap timestamps from which the taps-per-
    second (TPS) figure is sampled.

    `Date.now()` becomes a parameter `now` (milliseconds), each
    `setInterval` callback becomes a tick method the environment calls,
    and every `emit` appends an event to the ghost `trace`. */
module Engine {
  import opened Common

  /** `TPS_CONFIG.WINDOW_SIZE`: the sliding window, in milliseconds. */
  const WINDOW_SIZE: int := 1000
  /** `TPS_CONFIG.SPEED_STEP` is 0.5, kept here as the ratio 1/2. */
  const SPEED_STEP_NUM: int := 1
  const SPEED_STEP_DEN: int := 2
  /** `TPS_CONFIG.MAX_LEVEL`. */
  const MAX_LEVEL: int := 10

  datatype Settings = Settings(
    soundEnabled: bool,
    vibrationEnabled: bool,
    gameDuration: int,
    rippleEnabled: bool,
    effectsEnabled: bool,
    difficulty: string,
    theme: string)

  /** The settings `GameState` is created with. */
  const DefaultSettings: Settings :=
    Settings(true, true, 30, true, true, "normal", "default")

  datatype Statistics = Statistics(
    totalClicks: nat,
    totalPlayTime: int,
    highestTPS: nat,
    gamesPlayed: nat,
    achievements: seq<string>)

  /** The events the engine emits, with the data each carries. */
  datatype Event =
    | GameStarted(mode: Mode)
    | GameEnded(mode: Mode, scores: PerKey<nat>, tps: nat)
    | GameExited
    | GameReset
    | GameTick(timeLeft: int)
    | GameUpdate(scores: PerKey<nat>, timeLeft: int, tps: nat)
    | GameClick(player: string, score: Option<nat>, tps: nat)
    | GamePaused
    | GameResumed

  /** A registered listener function, told apart by identity as
      `Array.prototype.indexOf` tells callbacks apart. */
  type Callback = nat

  /** What `getState()` returns: the session record plus the sampled TPS
      and its effect level. */
  datatype Snapshot = Snapshot(
    isPlaying: bool,
    hasStarted: bool,
    mode: Mode,
    timeLeft: int,
    scores: PerKey<nat>,
    settings: Settings,
    statistics: Statistics,
    currentTPS: nat,
    tpsLevel: int)

  function Min(a: int, b: int): int { if a <= b then a else b }
  function Max(a: int, b: int): int { if a >= b then a else b }

  // ---------------------------------------------------------------------
  // The TPS effect level
  // ---------------------------------------------------------------------

  /** `getTpsLevel`: `floor(tps / SPEED_STEP) + 1` clamped to
      `[1, MAX_LEVEL]`. With a whole-number TPS and a step of one half
      this is `2 * tps + 1` capped at ten, so the top level is reached
      from five taps per second on. */
  function TpsLevel(tps: nat): (level: int)
    ensures 1 <= level <= MAX_LEVEL
    ensures level == Min(MAX_LEVEL, 2 * tps + 1)
    ensures level == MAX_LEVEL <==> tps >= 5
    ensures level % 2 == 1 <==> tps < 5
  {
    Max(1, Min(MAX_LEVEL, (tps * SPEED_STEP_DEN) / SPEED_STEP_NUM + 1))
  }

  /** A higher tap rate never gives a lower effect level. */
  lemma TpsLevelMonotone(a: nat, b: nat)
    requires a <= b
    ensures TpsLevel(a) <= TpsLevel(b)
  {
  }

  // ---------------------------------------------------------------------
  // The sliding window
  // ---------------------------------------------------------------------

  /** `times.filter(time => time > cutoff)`: the timestamps strictly newer
      than the cutoff, in their original order. */
  function After(times: seq<int>, cutoff: int): (r: seq<int>)
    ensures |r| <= |times|
    ensures forall i :: 0 <= i < |r| ==> r[i] > cutoff
  {
    if times == [] then []
    else if times[0] > cutoff then [times[0]] + After(times[1..], cutoff)
    else After(times[1..], cutoff)
  }

  /** `a` is `b` with some entries left out and the rest in order. */
  ghost predicate SubseqOf(a: seq<int>, b: seq<int>)
    decreases |b|
  {
    if a == [] then true
    else if b == [] then false
    else (a[0] == b[0] && SubseqOf(a[1..], b[1..])) || SubseqOf(a, b[1..])
  }

  /** The window is an order-preserving sub-list of the old list ... */
  lemma {:induction false} AfterIsSubseq(times: seq<int>, cutoff: int)
    ensures SubseqOf(After(times, cutoff), times)
  {
    if times != [] {
      AfterIsSubseq(times[1..], cutoff);
      var rest := After(times[1..], cutoff);
      if times[0] > cutoff {
        assert After(times, cutoff) == [times[0]] + rest;
        assert ([times[0]] + rest)[1..] == rest;
      }
    }
  }

  /** ... that keeps every occurrence of every timestamp newer than the
      cutoff and no occurrence of any other. */
  lemma {:induction false} AfterCounts(times: seq<int>, cutoff: int, t: int)
    ensures multiset(After(times, cutoff))[t] == if t > cutoff then multiset(times)[t] else 0
  {
    if times != [] {
      AfterCounts(times[1..], cutoff, t);
      assert times == [times[0]] + times[1..];
      assert multiset(times) == multiset{times[0]} + multiset(times[1..]);
    }
  }

  /** A tap made after the last recomputation enters the window exactly
      when it is newer than the cutoff. */
  lemma {:induction false} AfterAppend(times: seq<int>, t: int, cutoff: int)
    ensures After(times + [t], cutoff) == After(times, cutoff) + (if t > cutoff then [t] else [])
  {
    if times == [] {
      assert [] + [t] == [t];
    } else {
      assert (times + [t])[1..] == times[1..] + [t];
      AfterAppend(times[1..], t, cutoff);
    }
  }

  /** Pruning twice is pruning once against the later cutoff; in
      particular recomputing at the same instant changes nothing. */
  lemma {:induction false} AfterTwice(times: seq<int>, c1: int, c2: int)
    ensures After(After(times, c1), c2) == After(times, Max(c1, c2))
  {
    if times != [] {
      AfterTwice(times[1..], c1, c2);
    }
  }

  /** Once every recorded tap is at least a window old the rate is zero. */
  lemma {:induction false} AfterAllStale(times: seq<int>, cutoff: int)
    requires forall i :: 0 <= i < |times| ==> times[i] <= cutoff
    ensures After(times, cutoff) == []
  {
    if times != [] {
      AfterAllStale(times[1..], cutoff);
    }
  }

  /** Timestamps arrive in non-decreasing order, so the window is always
      a suffix of the recorded list. */
  lemma {:induction false} AfterOfSortedIsSuffix(times: seq<int>, cutoff: int) returns (k: nat)
    requires forall i, j :: 0 <= i < j < |times| ==> times[i] <= times[j]
    ensures k <= |times|
    ensures After(times, cutoff) == times[k..]
  {
    if times == [] {
      k := 0;
    } else if times[0] > cutoff {
      assert forall i :: 0 <= i < |times| ==> times[i] > cutoff;
      AfterAllFresh(times, cutoff);
      k := 0;
    } else {
      var k' := AfterOfSortedIsSuffix(times[1..], cutoff);
      k := k' + 1;
      assert times[1..][k'..] == times[k..];
    }
  }

  lemma {:induction false} AfterAllFresh(times: seq<int>, cutoff: int)
    requires forall i :: 0 <= i < |times| ==> times[i] > cutoff
    ensures After(times, cutoff) == times
  {
    if times != [] {
      AfterAllFresh(times[1..], cutoff);
      assert times == [times[0]] + times[1..];
    }
  }

  // ---------------------------------------------------------------------
  // Scores
  // ---------------------------------------------------------------------

  /** The score change of one accepted tap by `player`: `'single'`,
      `'player1'` and `'player2'` earn a point on their own score, any
      other name earns nothing. */
  function Credit(scores: PerKey<nat>, player: string): (r: PerKey<nat>)
    ensures forall k: Key :: r.Get(k) == scores.Get(k) + (if player == KeyName(k) then 1 else 0)
  {
    match ParseKey(player)
    case Some(k) => scores.Set(k, scores.Get(k) + 1)
    case None => scores
  }

  /** The scores after a run of accepted taps. */
  function CreditAll(scores: PerKey<nat>, players: seq<string>): (r: PerKey<nat>)
    decreases players
  {
    if players == [] then scores
    else CreditAll(Credit(scores, players[0]), players[1..])
  }

  /** How many entries of `s` equal `x`. */
  function Occurrences(s: seq<string>, x: string): nat
  {
    if s == [] then 0
    else (if s[0] == x then 1 else 0) + Occurrences(s[1..], x)
  }

  /** Each score counts its own taps exactly, whatever the interleaving. */
  lemma {:induction false} CreditAllCounts(scores: PerKey<nat>, players: seq<string>, k: Key)
    decreases players
    ensures CreditAll(scores, players).Get(k) == scores.Get(k) + Occurrences(players, KeyName(k))
  {
    if players != [] {
      CreditAllCounts(Credit(scores, players[0]), players[1..], k);
    }
  }

  function SumScores(scores: PerKey<nat>): nat
  {
    scores.single + scores.player1 + scores.player2
  }

  /** A tap raises the total score by one exactly when it names a
      participant. */
  lemma CreditTotal(scores: PerKey<nat>, player: string)
    ensures SumScores(Credit(scores, player)) == SumScores(scores) + (if ParseKey(player).Some? then 1 else 0)
  {
  }

  /** The score a click event reports: `scores[player === 'single' ?
      'single' : player]`, which is undefined for a name that is no
      participant. */
  function ReportedScore(scores: PerKey<nat>, player: string): (r: Option<nat>)
    ensures r.Some? <==> ParseKey(player).Some?
    ensures r.Some? ==> r.value == scores.Get(ParseKey(player).value)
  {
    match ParseKey(player)
    case Some(k) => Some(scores.Get(k))
    case None => None
  }

  // ---------------------------------------------------------------------
  // The listener registry
  // ---------------------------------------------------------------------

  /** The list with its first occurrence of `x` spliced out. */
  function RemoveFirst(s: seq<Callback>, x: Callback): seq<Callback>
  {
    if s == [] then []
    else if s[0] == x then s[1..]
    else [s[0]] + RemoveFirst(s[1..], x)
  }

  /** `listeners.indexOf(callback)`: the first index holding `x`, or -1. */
  method IndexOf(s: seq<Callback>, x: Callback) returns (i: int)
    ensures -1 <= i < |s|
    ensures i == -1 <==> x !in s
    ensures 0 <= i ==> s[i] == x && x !in s[..i]
  {
    var j := 0;
    while j < |s|
      invariant 0 <= j <= |s|
      invariant x !in s[..j]
    {
      if s[j] == x {
        return j;
      }
      assert s[..j + 1] == s[..j] + [s[j]];
      j := j + 1;
    }
    assert s[..j] == s;
    return -1;
  }

  /** Splicing out at the first occurrence is `RemoveFirst`. */
  lemma {:induction false} RemoveFirstAt(s: seq<Callback>, x: Callback, i: nat)
    requires i < |s| && s[i] == x && x !in s[..i]
    ensures RemoveFirst(s, x) == s[..i] + s[i + 1..]
  {
    if i > 0 {
      assert s[0] in s[..i];
      assert s[1..][..i - 1] == s[..i][1..];
      RemoveFirstAt(s[1..], x, i - 1);
      assert s[1..][i..] == s[i + 1..];
    }
  }

  /** Removing a callback that is not registered changes nothing. */
  lemma {:induction false} RemoveFirstAbsent(s: seq<Callback>, x: Callback)
    requires x !in s
    ensures RemoveFirst(s, x) == s
  {
    if s != [] {
      RemoveFirstAbsent(s[1..], x);
    }
  }

  /** `off` takes away exactly one registration of the callback, if any. */
  lemma {:induction false} RemoveFirstMultiset(s: seq<Callback>, x: Callback)
    ensures multiset(RemoveFirst(s, x)) == multiset(s) - multiset{x}
  {
    if s != [] {
      RemoveFirstMultiset(s[1..], x);
      assert s == [s[0]] + s[1..];
    }
  }

  /** `off` right after `on` of a new callback restores the list. */
  lemma {:induction false} RemoveFirstAfterAppend(s: seq<Callback>, x: Callback)
    requires x !in s
    ensures RemoveFirst(s + [x], x) == s
  {
    if s == [] {
    } else {
      assert (s + [x])[1..] == s[1..] + [x];
      RemoveFirstAfterAppend(s[1..], x);
    }
  }

  /** The registry after `on(name, callback)`. */
  function Registered(reg: map<string, seq<Callback>>, name: string, cb: Callback): (r: map<string, seq<Callback>>)
    ensures r.Keys == reg.Keys + {name}
    ensures r[name] == (if name in reg then reg[name] else []) + [cb]
    ensures forall n :: n in reg && n != name ==> r[n] == reg[n]
  {
    reg[name := (if name in reg then reg[name] else []) + [cb]]
  }

  // ---------------------------------------------------------------------
  // The engine
  // ---------------------------------------------------------------------

  class GameEngine {
    // GameState
    var isPlaying: bool
    var hasStarted: bool
    var mode: Mode
    var timeLeft: int
    var scores: PerKey<nat>
    var settings: Settings
    var statistics: Statistics

    // Engine fields
    var clickTimes: seq<int>
    var currentTPS: nat
    /** Whether the 1000 ms countdown interval and the 100 ms update
        interval are installed. */
    var gameTimerOn: bool
    var updateTimerOn: bool
    var listeners: map<string, seq<Callback>>

    /** Every event emitted so far, in order. */
    ghost var trace: seq<Event>

    /** The two session timers run exactly while a session is playing, a
        playing session has been started, the clock stays within the
        configured duration, and the recorded best TPS is at least the
        current one. */
    ghost predicate Consistent()
      reads this
    {
      && settings.gameDuration > 0
      && 0 <= timeLeft <= settings.gameDuration
      && gameTimerOn == isPlaying
      && updateTimerOn == isPlaying
      && (isPlaying ==> hasStarted)
      && currentTPS <= statistics.highestTPS
    }

    /** The engine's invariant between operations: in addition, a started
        session (playing or paused) still has time left. */
    ghost predicate Valid()
      reads this
    {
      Consistent() && (hasStarted ==> timeLeft > 0)
    }

    /** The engine as the page first sees it: `GameState` at its
        defaults, no taps, no timers, no listeners. */
    constructor ()
      ensures Valid()
      ensures !isPlaying && !hasStarted && mode == SingleMode
      ensures timeLeft == 30 && scores == Uniform(0)
      ensures settings == DefaultSettings
      ensures statistics == Statistics(0, 0, 0, 0, [])
      ensures clickTimes == [] && currentTPS == 0
      ensures listeners == map[] && trace == []
    {
      isPlaying, hasStarted, mode, timeLeft := false, false, SingleMode, 30;
      scores := Uniform(0);
      settings := DefaultSettings;
      statistics := Statistics(0, 0, 0, 0, []);
      clickTimes, currentTPS := [], 0;
      gameTimerOn, updateTimerOn := false, false;
      listeners := map[];
      trace := [];
    }

    /** `getState()`: a copy of the session record with the sampled TPS
        and its effect level. */
    function GetState(): (s: Snapshot)
      reads this
      ensures s.isPlaying == isPlaying && s.hasStarted == hasStarted && s.mode == mode
      ensures s.timeLeft == timeLeft && s.scores == scores
      ensures s.settings == settings && s.statistics == statistics
      ensures s.currentTPS == currentTPS
      ensures 1 <= s.tpsLevel <= MAX_LEVEL && s.tpsLevel == Min(MAX_LEVEL, 2 * currentTPS + 1)
    {
      Snapshot(isPlaying, hasStarted, mode, timeLeft, scores, settings, statistics,
               currentTPS, TpsLevel(currentTPS))
    }

    /** `resetGame()`: back to an idle session with zero scores, a full
        clock and an empty tap window; settings and statistics stay. */
    method ResetGame()
      requires Valid()
      modifies this
      ensures Valid()
      ensures scores == Uniform(0) && timeLeft == settings.gameDuration
      ensures !isPlaying && !hasStarted
      ensures clickTimes == [] && currentTPS == 0
      ensures mode == old(mode) && settings == old(settings) && statistics == old(statistics)
      ensures listeners == old(listeners)
      ensures trace == old(trace) + [GameReset]
    {
      scores := Uniform(0);
      timeLeft := settings.gameDuration;
      isPlaying, hasStarted := false, false;
      clickTimes, currentTPS := [], 0;
      ClearAllTimers();
      trace := trace + [GameReset];
    }

    /** `clearAllTimers()`: removes the countdown and update intervals
        (the TPS interval keeps running). */
    method ClearAllTimers()
      modifies this`gameTimerOn, this`updateTimerOn
      ensures !gameTimerOn && !updateTimerOn
    {
      gameTimerOn, updateTimerOn := false, false;
    }

    /** What `startSinglePlayer` and `startDualPlayer` share: reset, then
        a playing session in mode `m` with a full clock and both session
        timers installed. */
    method Start(m: Mode)
      requires Valid()
      modifies this
      ensures Valid()
      ensures isPlaying && hasStarted && mode == m
      ensures scores == Uniform(0) && timeLeft == settings.gameDuration
      ensures clickTimes == [] && currentTPS == 0
      ensures settings == old(settings) && statistics == old(statistics)
      ensures listeners == old(listeners)
      ensures trace == old(trace) + [GameReset, GameStarted(m)]
    {
      ResetGame();
      mode := m;
      isPlaying, hasStarted := true, true;
      timeLeft := settings.gameDuration;
      gameTimerOn, updateTimerOn := true, true;
      trace := trace + [GameStarted(m)];
    }

    /** `startSinglePlayer()`. Whatever the session was doing, it is
        discarded and a fresh single-player session begins. */
    method StartSinglePlayer()
      requires Valid()
      modifies this
      ensures Valid()
      ensures isPlaying && hasStarted && mode == SingleMode
      ensures scores == Uniform(0) && timeLeft == settings.gameDuration
      ensures clickTimes == [] && currentTPS == 0
      ensures settings == old(settings) && statistics == old(statistics)
      ensures listeners == old(listeners)
      ensures trace == old(trace) + [GameReset, GameStarted(SingleMode)]
    {
      Start(SingleMode);
    }

    /** `startDualPlayer()`: as `StartSinglePlayer`, in dual mode. */
    method StartDualPlayer()
      requires Valid()
      modifies this
      ensures Valid()
      ensures isPlaying && hasStarted && mode == DualMode
      ensures scores == Uniform(0) && timeLeft == settings.gameDuration
      ensures clickTimes == [] && currentTPS == 0
      ensures settings == old(settings) && statistics == old(statistics)
      ensures listeners == old(listeners)
      ensures trace == old(trace) + [GameReset, GameStarted(DualMode)]
    {
      Start(DualMode);
    }

    /** `exitGame()`: always ends the session and reports `game:exited`;
        only a session that was playing also reports `game:ended` with a
        copy of its scores and TPS. Scores, clock and window are kept. */
    method ExitGame()
      requires Consistent()
      modifies this
      ensures Valid()
      ensures !isPlaying && !hasStarted
      ensures mode == old(mode) && timeLeft == old(timeLeft) && scores == old(scores)
      ensures clickTimes == old(clickTimes) && currentTPS == old(currentTPS)
      ensures settings == old(settings) && statistics == old(statistics)
      ensures listeners == old(listeners)
      ensures trace == old(trace)
        + (if old(isPlaying) then [GameEnded(mode, scores, currentTPS)] else [])
        + [GameExited]
    {
      var wasPlaying := isPlaying;
      isPlaying, hasStarted := false, false;
      ClearAllTimers();
      if wasPlaying {
        trace := trace + [GameEnded(mode, scores, currentTPS)];
      }
      trace := trace + [GameExited];
    }

    /** `pause()`: a playing session stops its timers and stays started;
        otherwise nothing happens. */
    method Pause()
      requires Valid()
      modifies this
      ensures Valid()
      ensures !isPlaying && hasStarted == old(hasStarted)
      ensures old(isPlaying) ==> trace == old(trace) + [GamePaused]
      ensures !old(isPlaying) ==> trace == old(trace)
      ensures mode == old(mode) && timeLeft == old(timeLeft) && scores == old(scores)
      ensures clickTimes == old(clickTimes) && currentTPS == old(currentTPS)
      ensures settings == old(settings) && statistics == old(statistics)
      ensures listeners == old(listeners)
    {
      if isPlaying {
        isPlaying := false;
        ClearAllTimers();
        trace := trace + [GamePaused];
      }
    }

    /** `resume()`: a started session that is not playing starts playing
        again with its timers; otherwise nothing happens. */
    method Resume()
      requires Valid()
      modifies this
      ensures Valid()
      ensures isPlaying == (old(hasStarted) || old(isPlaying))
      ensures hasStarted == old(hasStarted)
      ensures old(hasStarted) && !old(isPlaying) ==> trace == old(trace) + [GameResumed]
      ensures !(old(hasStarted) && !old(isPlaying)) ==> trace == old(trace)
      ensures mode == old(mode) && timeLeft == old(timeLeft) && scores == old(scores)
      ensures clickTimes == old(clickTimes) && currentTPS == old(currentTPS)
      ensures settings == old(settings) && statistics == old(statistics)
      ensures listeners == old(listeners)
    {
      if hasStarted && !isPlaying {
        isPlaying := true;
        gameTimerOn, updateTimerOn := true, true;
        trace := trace + [GameResumed];
      }
    }

    /** `handleClick(player)` at time `now`: ignored unless playing;
        otherwise records the tap time, credits the named participant
        (no one, for an unknown name), counts the tap in the statistics
        and reports it with the TPS of the last recomputation. */
    method HandleClick(player: string, now: int)
      requires Valid()
      modifies this
      ensures Valid()
      ensures !old(isPlaying) ==> unchanged(this)
      ensures old(isPlaying) ==>
        && clickTimes == old(clickTimes) + [now]
        && scores == Credit(old(scores), player)
        && statistics == old(statistics).(totalClicks := old(statistics).totalClicks + 1)
        && trace == old(trace) + [GameClick(player, ReportedScore(scores, player), currentTPS)]
      ensures isPlaying == old(isPlaying) && hasStarted == old(hasStarted)
      ensures mode == old(mode) && timeLeft == old(timeLeft) && currentTPS == old(currentTPS)
      ensures settings == old(settings) && listeners == old(listeners)
    {
      if !isPlaying {
        return;
      }
      clickTimes := clickTimes + [now];
      scores := Credit(scores, player);
      statistics := statistics.(totalClicks := statistics.totalClicks + 1);
      trace := trace + [GameClick(player, ReportedScore(scores, player), currentTPS)];
    }

    /** `updateTPS()` at time `now`: keeps the taps newer than one window
        ago, samples their number as the current TPS and raises the best
        TPS to it when it is higher. */
    method UpdateTPS(now: int)
      requires Valid()
      modifies this
      ensures Valid()
      ensures clickTimes == After(old(clickTimes), now - WINDOW_SIZE)
      ensures currentTPS == |clickTimes|
      ensures statistics == old(statistics).(highestTPS := Max(old(statistics).highestTPS, currentTPS))
      ensures statistics.highestTPS >= old(statistics).highestTPS
      ensures isPlaying == old(isPlaying) && hasStarted == old(hasStarted)
      ensures mode == old(mode) && timeLeft == old(timeLeft) && scores == old(scores)
      ensures settings == old(settings) && listeners == old(listeners) && trace == old(trace)
    {
      var cutoff := now - WINDOW_SIZE;
      clickTimes := After(clickTimes, cutoff);
      currentTPS := |clickTimes|;
      if currentTPS > statistics.highestTPS {
        statistics := statistics.(highestTPS := currentTPS);
      }
    }

    /** One firing of the 1000 ms countdown interval: while playing with
        time left the clock drops by one second and a tick is reported;
        the session exits when it reaches zero. Otherwise a stale firing
        does nothing. */
    method CountdownTick()
      requires Valid()
      modifies this
      ensures Valid()
      ensures old(isPlaying) && old(timeLeft) > 0 ==> timeLeft == old(timeLeft) - 1
      ensures !(old(isPlaying) && old(timeLeft) > 0) ==> unchanged(this)
      ensures old(isPlaying) && old(timeLeft) == 1 ==>
        && !isPlaying && !hasStarted
        && trace == old(trace) + [GameTick(0), GameEnded(mode, scores, currentTPS), GameExited]
      ensures old(isPlaying) && old(timeLeft) > 1 ==>
        && isPlaying && hasStarted
        && trace == old(trace) + [GameTick(timeLeft)]
      ensures mode == old(mode) && scores == old(scores)
      ensures clickTimes == old(clickTimes) && currentTPS == old(currentTPS)
      ensures settings == old(settings) && statistics == old(statistics)
      ensures listeners == old(listeners)
    {
      if isPlaying && timeLeft > 0 {
        timeLeft := timeLeft - 1;
        trace := trace + [GameTick(timeLeft)];
        if timeLeft == 0 {
          ExitGame();
        }
      }
    }

    /** One firing of the 100 ms update interval: while playing, the TPS
        is recomputed and the scores, clock and TPS are reported. */
    method UpdateTick(now: int)
      requires Valid()
      modifies this
      ensures Valid()
      ensures !old(isPlaying) ==> unchanged(this)
      ensures old(isPlaying) ==>
        && clickTimes == After(old(clickTimes), now - WINDOW_SIZE)
        && currentTPS == |clickTimes|
        && statistics == old(statistics).(highestTPS := Max(old(statistics).highestTPS, currentTPS))
        && trace == old(trace) + [GameUpdate(scores, timeLeft, currentTPS)]
      ensures isPlaying == old(isPlaying) && hasStarted == old(hasStarted)
      ensures mode == old(mode) && timeLeft == old(timeLeft) && scores == old(scores)
      ensures settings == old(settings) && listeners == old(listeners)
    {
      if isPlaying {
        UpdateTPS(now);
        trace := trace + [GameUpdate(scores, timeLeft, currentTPS)];
      }
    }

    /** One firing of the 100 ms TPS interval installed at start-up, which
        recomputes the TPS whether or not a session is playing. */
    method TpsTick(now: int)
      requires Valid()
      modifies this
      ensures Valid()
      ensures clickTimes == After(old(clickTimes), now - WINDOW_SIZE)
      ensures currentTPS == |clickTimes|
      ensures statistics == old(statistics).(highestTPS := Max(old(statistics).highestTPS, currentTPS))
      ensures isPlaying == old(isPlaying) && hasStarted == old(hasStarted)
      ensures mode == old(mode) && timeLeft == old(timeLeft) && scores == old(scores)
      ensures settings == old(settings) && listeners == old(listeners) && trace == old(trace)
    {
      UpdateTPS(now);
    }

    /** `on(name, callback)`: appends the callback to the name's list,
        creating the list when the name is new. */
    method On(name: string, cb: Callback)
      modifies this`listeners
      ensures listeners == Registered(old(listeners), name, cb)
    {
      if name !in listeners {
        listeners := listeners[name := []];
      }
      listeners := listeners[name := listeners[name] + [cb]];
    }

    /** `off(name, callback)`: splices the first registration of the
        callback out of the name's list; an unknown name or callback
        changes nothing. */
    method Off(name: string, cb: Callback)
      modifies this`listeners
      ensures name in old(listeners) ==>
        listeners == old(listeners)[name := RemoveFirst(old(listeners)[name], cb)]
      ensures name !in old(listeners) ==> listeners == old(listeners)
      ensures name in old(listeners) && cb !in old(listeners)[name] ==> listeners == old(listeners)
    {
      if name in listeners {
        var list := listeners[name];
        var index := IndexOf(list, cb);
        if index > -1 {
          RemoveFirstAt(list, cb, index);
          listeners := listeners[name := list[..index] + list[index + 1..]];
        } else {
          RemoveFirstAbsent(list, cb);
        }
      }
    }
  }

  /** Exiting twice in a row reports the end of the session at most once,
      reports `game:exited` each time, and leaves the scores alone. */
  method ExitTwice(e: GameEngine)
    requires e.Valid()
    modifies e
    ensures e.Valid() && !e.isPlaying && !e.hasStarted
    ensures e.scores == old(e.scores)
    ensures e.trace == old(e.trace)
      + (if old(e.isPlaying) then [GameEnded(e.mode, e.scores, e.currentTPS)] else [])
      + [GameExited, GameExited]
  {
    e.ExitGame();
    e.ExitGame();
  }

  /** Exiting a paused session reports no `game:ended`: pausing cleared
      `isPlaying`, which is what `exitGame` checks. */
  method PauseThenExit(e: GameEngine)
    requires e.Valid() && e.isPlaying
    modifies e
    ensures e.Valid() && !e.isPlaying && !e.hasStarted
    ensures e.scores == old(e.scores)
    ensures e.trace == old(e.trace) + [GamePaused, GameExited]
  {
    e.Pause();
    e.ExitGame();
  }
}
