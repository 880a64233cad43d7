/** The styling rules of src/components/ScoreBoard/ScoreBoard.js. The
    component rewrites the class lists and text of its score, time, TPS
    and level displays; here each decision is a total function from the
    value to the class it earns, and a display is the set of class names
    on its element together with the text it shows. */
module ScoreBoard {
  import opened Common
  import Engine

  // ---------------------------------------------------------------------
  // TPS display
  // ---------------------------------------------------------------------

  datatype TpsStyle = TpsLow | TpsMedium | TpsHigh | TpsExtreme

  function TpsClassName(c: TpsStyle): string
  {
    match c
    case TpsLow => "tps-low"
    case TpsMedium => "tps-medium"
    case TpsHigh => "tps-high"
    case TpsExtreme => "tps-extreme"
  }

  /** `tps-low`, `tps-medium`, `tps-high`, `tps-extreme`. */
  const TpsClasses: set<string> := {"tps-low", "tps-medium", "tps-high", "tps-extreme"}

  /** The rank of a style, from none (0) to extreme (4). */
  function TpsRank(c: Option<TpsStyle>): nat
  {
    match c
    case None => 0
    case Some(TpsLow) => 1
    case Some(TpsMedium) => 2
    case Some(TpsHigh) => 3
    case Some(TpsExtreme) => 4
  }

  /** The decision of `updateTPSStyle`: extreme from 20, high from 10,
      medium from 5, low above 0, and no style for 0 or less. */
  function TpsStyleOf(tps: int): (c: Option<TpsStyle>)
    ensures c.None? <==> tps <= 0
    ensures c == Some(TpsExtreme) <==> tps >= 20
    ensures c == Some(TpsHigh) <==> 10 <= tps < 20
    ensures c == Some(TpsMedium) <==> 5 <= tps < 10
    ensures c == Some(TpsLow) <==> 0 < tps < 5
  {
    if tps >= 20 then Some(TpsExtreme)
    else if tps >= 10 then Some(TpsHigh)
    else if tps >= 5 then Some(TpsMedium)
    else if tps > 0 then Some(TpsLow)
    else None
  }

  /** A faster rate never earns a lower style. */
  lemma TpsStyleMonotone(a: int, b: int)
    requires a <= b
    ensures TpsRank(TpsStyleOf(a)) <= TpsRank(TpsStyleOf(b))
  {
  }

  /** `updateTPSStyle(tps)` on an element's class set: all four TPS
      classes are removed, then the earned one (if any) is added. Other
      classes are kept, and at most one TPS class remains. */
  function ApplyTpsStyle(classes: set<string>, tps: int): (r: set<string>)
    ensures r - TpsClasses == classes - TpsClasses
    ensures r * TpsClasses == match TpsStyleOf(tps)
      case None => {}
      case Some(c) => {TpsClassName(c)}
    ensures |r * TpsClasses| <= 1
  {
    var base := classes - TpsClasses;
    match TpsStyleOf(tps)
    case None => base
    case Some(c) => base + {TpsClassName(c)}
  }

  // ---------------------------------------------------------------------
  // Level display
  // ---------------------------------------------------------------------

  datatype LevelStyle = LevelLow | LevelMedium | LevelHigh | LevelMax

  function LevelClassName(c: LevelStyle): string
  {
    match c
    case LevelLow => "level-low"
    case LevelMedium => "level-medium"
    case LevelHigh => "level-high"
    case LevelMax => "level-max"
  }

  const LevelClasses: set<string> := {"level-low", "level-medium", "level-high", "level-max"}

  /** The decision of `updateLevelStyle`: max from 10, high from 7, medium
      from 4, low below that. Every level earns a style. */
  function LevelStyleOf(level: int): (c: LevelStyle)
    ensures c == LevelMax <==> level >= 10
    ensures c == LevelHigh <==> 7 <= level < 10
    ensures c == LevelMedium <==> 4 <= level < 7
    ensures c == LevelLow <==> level < 4
  {
    if level >= 10 then LevelMax
    else if level >= 7 then LevelHigh
    else if level >= 4 then LevelMedium
    else LevelLow
  }

  /** `updateLevelStyle(level)` on an element's class set: exactly one
      level class remains, the earned one; other classes are kept. */
  function ApplyLevelStyle(classes: set<string>, level: int): (r: set<string>)
    ensures r - LevelClasses == classes - LevelClasses
    ensures r * LevelClasses == {LevelClassName(LevelStyleOf(level))}
  {
    (classes - LevelClasses) + {LevelClassName(LevelStyleOf(level))}
  }

  /** The level the engine reports for a tap rate, as the level display
      styles it: low up to one tap per second, medium at two, high at
      three or four, max from five on. */
  lemma LevelStyleOfRate(tps: nat)
    ensures tps <= 1 ==> LevelStyleOf(Engine.TpsLevel(tps)) == LevelLow
    ensures tps == 2 ==> LevelStyleOf(Engine.TpsLevel(tps)) == LevelMedium
    ensures 3 <= tps <= 4 ==> LevelStyleOf(Engine.TpsLevel(tps)) == LevelHigh
    ensures tps >= 5 ==> LevelStyleOf(Engine.TpsLevel(tps)) == LevelMax
  {
  }

  // ---------------------------------------------------------------------
  // Time display
  // ---------------------------------------------------------------------

  const TIME_WARNING: string := "time-warning"

  /** `updateTime(timeLeft)` on the time display: it shows the time and
      carries `time-warning` exactly when ten seconds or less remain;
      other classes are kept. */
  function ApplyTime(classes: set<string>, timeLeft: int): (r: set<string>)
    ensures TIME_WARNING in r <==> timeLeft <= 10
    ensures r - {TIME_WARNING} == classes - {TIME_WARNING}
  {
    if timeLeft <= 10 then classes + {TIME_WARNING} else classes - {TIME_WARNING}
  }

  // ---------------------------------------------------------------------
  // Score displays
  // ---------------------------------------------------------------------

  datatype Highlight = Highlight(single: set<string>, player1: set<string>, player2: set<string>)

  /** The classes `highlightFinalScore` adds to the single, player-1 and
      player-2 score displays when a game ends. */
  function FinalHighlight(mode: Mode, scores: PerKey<int>): (h: Highlight)
    ensures mode == SingleMode ==> h == Highlight({"final-score"}, {}, {})
    ensures mode == DualMode ==> h.single == {}
    ensures mode == DualMode ==> ("winner" in h.player1 <==> scores.player1 > scores.player2)
    ensures mode == DualMode ==> ("winner" in h.player2 <==> scores.player2 > scores.player1)
    ensures mode == DualMode ==> ("tie" in h.player1 <==> scores.player1 == scores.player2)
    ensures mode == DualMode ==> (h.player1 == h.player2 <==> scores.player1 == scores.player2)
    ensures mode == DualMode ==> ("tie" in h.player2 <==> scores.player1 == scores.player2)
    ensures mode == DualMode ==> h.player1 <= {"winner", "tie"} && h.player2 <= {"winner", "tie"}
  {
    match mode
    case SingleMode => Highlight({"final-score"}, {}, {})
    case DualMode =>
      if scores.player1 > scores.player2 then Highlight({}, {"winner"}, {})
      else if scores.player2 > scores.player1 then Highlight({}, {}, {"winner"})
      else Highlight({}, {"tie"}, {"tie"})
  }

  /** In dual mode exactly one of three things happens: player 1 is the
      winner, player 2 is the winner, or both are marked as tied; a
      player is never both winner and tied, and never are both winners. */
  lemma DualHighlightExclusive(scores: PerKey<int>)
    ensures var h := FinalHighlight(DualMode, scores);
      && ("winner" in h.player1 || "winner" in h.player2 || ("tie" in h.player1 && "tie" in h.player2))
      && !("winner" in h.player1 && "winner" in h.player2)
      && !("winner" in h.player1 && "tie" in h.player1)
      && !("winner" in h.player2 && "tie" in h.player2)
  {
  }

  /** `updateScores(scores)`: a display is overwritten only when the given
      object has its key; the other displays keep what they show. */
  function UpdateScores(shown: PerKey<int>, given: map<Key, int>): (r: PerKey<int>)
    ensures forall k: Key :: k in given ==> r.Get(k) == given[k]
    ensures forall k: Key :: k !in given ==> r.Get(k) == shown.Get(k)
  {
    PerKey(
      if Single in given then given[Single] else shown.single,
      if Player1 in given then given[Player1] else shown.player1,
      if Player2 in given then given[Player2] else shown.player2)
  }

  /** `onGameClick`: the click event's `{ [player]: score }` object. A
      name that is no participant gives an object with no display key. */
  function ClickUpdate(player: string, score: int): (m: map<Key, int>)
    ensures ParseKey(player).None? ==> m == map[]
    ensures ParseKey(player).Some? ==> m == map[ParseKey(player).value := score]
  {
    match ParseKey(player)
    case Some(k) => map[k := score]
    case None => map[]
  }

  /** A click event changes only the clicking participant's display. */
  lemma ClickUpdatesOneDisplay(shown: PerKey<int>, player: string, score: int, k: Key)
    requires KeyName(k) != player
    ensures UpdateScores(shown, ClickUpdate(player, score)).Get(k) == shown.Get(k)
  {
  }

  /** An update carrying all three scores makes the displays show exactly
      those scores, and repeating it changes nothing further. */
  lemma FullUpdateShowsScores(shown: PerKey<int>, scores: PerKey<int>)
    ensures var full := map[Single := scores.single, Player1 := scores.player1, Player2 := scores.player2];
      && UpdateScores(shown, full) == scores
      && UpdateScores(UpdateScores(shown, full), full) == UpdateScores(shown, full)
  {
  }
}
