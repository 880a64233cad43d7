/** The encouragement table of src/main.js: thirty tap-rate bands, each
    half-open `[minTPS, maxTPS)`, from one tap per second up to an
    unbounded top band, and the lookup that picks the message shown under
    the single-player button. */
module Encouragement {
  import opened Common

  /** An upper band limit; the last band is open towards `Infinity`. */
  datatype Upper = Finite(n: int) | Infinity

  datatype Entry = Entry(minTPS: int, maxTPS: Upper, message: string)

  /** `tps >= msg.minTPS && tps < msg.maxTPS`. */
  predicate Matches(e: Entry, tps: int)
  {
    e.minTPS <= tps && (e.maxTPS.Infinity? || tps < e.maxTPS.n)
  }

  /** `ENCOURAGEMENT_MESSAGES`. */
  const MESSAGES: seq<Entry> := [
      Entry(1, Finite(2), "不錯的開始！手指正在熱身中 🔥"),
      Entry(2, Finite(3), "感覺到節奏了嗎？繼續保持！ 🎵"),
      Entry(3, Finite(4), "你的手指開始跳舞了！💃"),
      Entry(4, Finite(5), "穩定的節奏，就像心跳一樣！❤️"),
      Entry(5, Finite(6), "手指靈活度 +1！繼續加油！✨"),
      Entry(6, Finite(8), "哇！你的手指有魔法嗎？🪄"),
      Entry(8, Finite(10), "這速度讓螢幕都開始發燙了！🔥"),
      Entry(10, Finite(12), "手指變成閃電了！⚡"),
      Entry(12, Finite(15), "你是點擊界的鋼琴家！🎹"),
      Entry(15, Finite(18), "手速快到模糊了！👻"),
      Entry(18, Finite(20), "這是人類的極限嗎？！🚀"),
      Entry(20, Finite(22), "手指已經突破音速！💨"),
      Entry(22, Finite(25), "你的手指是渦輪增壓的嗎？🏎️"),
      Entry(25, Finite(28), "連蜂鳥都自嘆不如！🐦"),
      Entry(28, Finite(30), "手指變成光速了！💫"),
      Entry(30, Finite(35), "你確定不是機器人嗎？🤖"),
      Entry(35, Finite(40), "手指已經進入超次元空間！🌌"),
      Entry(40, Finite(45), "這速度連閃電都追不上！⚡⚡"),
      Entry(45, Finite(50), "你的手指違反了物理定律！🧪"),
      Entry(50, Finite(55), "手指已經超越時空限制！⏰"),
      Entry(55, Finite(60), "這是傳說中的神之手速！👑"),
      Entry(60, Finite(65), "你的手指擁有量子糾纏能力！⚛️"),
      Entry(65, Finite(70), "手指已經達到宇宙級頻率！🌟"),
      Entry(70, Finite(75), "連時間都為你的速度停止！⏸️"),
      Entry(75, Finite(80), "你的手指創造了新的維度！🔮"),
      Entry(80, Finite(85), "手指已經成為純能量體！💥"),
      Entry(85, Finite(90), "你重新定義了「快」這個字！📚"),
      Entry(90, Finite(95), "手指速度已經無法用科學解釋！🔬"),
      Entry(95, Finite(100), "你就是點擊宇宙的創造者！🌍"),
      Entry(100, Infinity, "傳說中的點擊之神降臨！👼")
    ]

  /** The bands are well formed and laid end to end: the first starts at
      one, each ends where the next begins, and only the last is open. */
  lemma TableShape()
    ensures |MESSAGES| == 30
    ensures MESSAGES[0].minTPS == 1
    ensures MESSAGES[|MESSAGES| - 1].maxTPS == Infinity
    ensures forall i :: 0 <= i < |MESSAGES| - 1 ==> MESSAGES[i].maxTPS == Finite(MESSAGES[i + 1].minTPS)
    ensures forall i :: 0 <= i < |MESSAGES| - 1 ==> MESSAGES[i].minTPS < MESSAGES[i].maxTPS.n
  {
  }

  /** The bands are ordered: a band ends no later than any later band
      begins. */
  lemma {:induction false} BandsOrdered(i: nat, j: nat)
    requires i < j < |MESSAGES|
    ensures MESSAGES[i].maxTPS.Finite?
    ensures MESSAGES[i].maxTPS.n <= MESSAGES[j].minTPS
    decreases j - i
  {
    TableShape();
    if i + 1 < j {
      BandsOrdered(i + 1, j);
    }
  }

  /** At most one band matches a rate. */
  lemma MatchUnique(tps: int, i: nat, j: nat)
    requires i < |MESSAGES| && j < |MESSAGES|
    requires Matches(MESSAGES[i], tps) && Matches(MESSAGES[j], tps)
    ensures i == j
  {
    if i < j {
      BandsOrdered(i, j);
    } else if j < i {
      BandsOrdered(j, i);
    }
  }

  /** Every rate of at least one tap per second falls in some band; the
      search starts at band `k`, which begins at or below the rate. */
  lemma {:induction false} MatchFrom(tps: int, k: nat) returns (i: nat)
    requires k < |MESSAGES| && MESSAGES[k].minTPS <= tps
    ensures k <= i < |MESSAGES| && Matches(MESSAGES[i], tps)
    decreases |MESSAGES| - k
  {
    TableShape();
    if Matches(MESSAGES[k], tps) {
      i := k;
    } else {
      i := MatchFrom(tps, k + 1);
    }
  }

  /** Every rate of at least one tap per second falls in exactly one band. */
  lemma MatchExists(tps: int) returns (i: nat)
    requires tps >= 1
    ensures i < |MESSAGES| && Matches(MESSAGES[i], tps)
    ensures forall j :: 0 <= j < |MESSAGES| && Matches(MESSAGES[j], tps) ==> j == i
  {
    TableShape();
    i := MatchFrom(tps, 0);
    forall j | 0 <= j < |MESSAGES| && Matches(MESSAGES[j], tps)
      ensures j == i
    {
      MatchUnique(tps, i, j);
    }
  }

  /** A rate below one tap per second, zero included, is in no band. */
  lemma NoMatchBelowOne(tps: int)
    requires tps < 1
    ensures forall j :: 0 <= j < |MESSAGES| ==> !Matches(MESSAGES[j], tps)
  {
    forall j | 0 <= j < |MESSAGES|
      ensures !Matches(MESSAGES[j], tps)
    {
      if j > 0 {
        BandsOrdered(0, j);
      }
    }
  }

  /** The first band at index `i` or later that matches the rate. */
  function FirstMatchFrom(i: nat, tps: int): (r: Option<nat>)
    ensures r.Some? ==> i <= r.value < |MESSAGES| && Matches(MESSAGES[r.value], tps)
    ensures r.Some? ==> forall j :: i <= j < r.value ==> !Matches(MESSAGES[j], tps)
    ensures r.None? ==> forall j :: i <= j < |MESSAGES| ==> !Matches(MESSAGES[j], tps)
    decreases |MESSAGES| - i
  {
    if i >= |MESSAGES| then None
    else if Matches(MESSAGES[i], tps) then Some(i)
    else FirstMatchFrom(i + 1, tps)
  }

  /** The message for a rate: that of the first matching band, or the last
      band's when none matches. */
  function MessageFor(tps: int): string
  {
    match FirstMatchFrom(0, tps)
    case Some(i) => MESSAGES[i].message
    case None => MESSAGES[|MESSAGES| - 1].message
  }

  /** A rate of at least one gets the message of its own band. */
  lemma MessageOfBand(tps: int, i: nat)
    requires i < |MESSAGES| && Matches(MESSAGES[i], tps)
    ensures MessageFor(tps) == MESSAGES[i].message
  {
    var r := FirstMatchFrom(0, tps);
    assert r.Some?;
    MatchUnique(tps, r.value, i);
  }

  /** A rate below one, zero included, gets the top band's message. */
  lemma MessageBelowOne(tps: int)
    requires tps < 1
    ensures MessageFor(tps) == MESSAGES[|MESSAGES| - 1].message
  {
    NoMatchBelowOne(tps);
    assert FirstMatchFrom(0, tps).None?;
  }

  /** `getEncouragementMessage(tps)`: scans the table in order and returns
      the first matching band's message, falling back to the last entry. */
  method GetEncouragementMessage(tps: int) returns (m: string)
    ensures m == MessageFor(tps)
  {
    var i := 0;
    while i < |MESSAGES|
      invariant 0 <= i <= |MESSAGES|
      invariant FirstMatchFrom(i, tps) == FirstMatchFrom(0, tps)
    {
      if Matches(MESSAGES[i], tps) {
        return MESSAGES[i].message;
      }
      i := i + 1;
    }
    return MESSAGES[|MESSAGES| - 1].message;
  }
}
