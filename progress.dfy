/** The experience-point and level aggregator of the dashboard (App.tsx). */
module Progress {
  import opened Types
  import Service

  const XPPerLevel := 100

  /** The stats a session starts with. */
  const InitialStats := UserStats(120, 3, 2, ["🚀 Khởi đầu", "📝 Cây bút vàng"])

  /** `Math.floor(xp / 100) + 1`; Dafny's `/` rounds down for a positive divisor, as `Math.floor` does. */
  function LevelFor(xp: int): (level: int)
    ensures (level - 1) * XPPerLevel <= xp < level * XPPerLevel
  {
    xp / XPPerLevel + 1
  }

  /** The stored level agrees with the stored experience. */
  predicate Consistent(s: UserStats) {
    s.level == LevelFor(s.xp)
  }

  /** The stats after `addXP(amount)`: only `xp` and `level` change. */
  function Award(s: UserStats, amount: int): UserStats {
    s.(xp := s.xp + amount, level := LevelFor(s.xp + amount))
  }

  /** The level-up notice of `addXP`: the new level is above the stored one. */
  predicate LevelsUp(s: UserStats, amount: int) {
    LevelFor(s.xp + amount) > s.level
  }

  /** The width of the progress bar, `xp % 100`, with JavaScript's remainder (sign of the dividend). */
  function ProgressFill(xp: int): (fill: int)
    ensures xp >= 0 ==> 0 <= fill < XPPerLevel && fill == xp - (LevelFor(xp) - 1) * XPPerLevel
    ensures xp < 0 ==> -XPPerLevel < fill <= 0
  {
    if xp >= 0 then xp % XPPerLevel else -((-xp) % XPPerLevel)
  }

  /** Without an API key the dashboard shows only the configuration notice and no tool. */
  predicate ToolsRendered(apiKey: string) {
    apiKey != ""
  }

  /** The dashboard and the service read the same key: where no tool is shown, every request
      would fail on the missing key; where the tools are shown, requests go through. */
  lemma KeyGate<T>(apiKey: string, reply: Outcome<T>)
    ensures !ToolsRendered(apiKey) ==> Service.Call(apiKey, reply) == Failure(MissingCredential)
    ensures ToolsRendered(apiKey) ==> Service.Call(apiKey, reply) == reply
  {
  }

  lemma InitialStatsConsistent()
    ensures Consistent(InitialStats) && InitialStats.level == 2
  {
  }

  /** A level never goes down as experience grows. */
  lemma LevelMonotone(a: int, b: int)
    requires a <= b
    ensures LevelFor(a) <= LevelFor(b)
  {
  }

  /** From consistent stats and a non-negative award, the notice fires exactly when the bar
      would run past 100: the award crosses into the next hundred. */
  lemma LevelUpIffBarOverflows(s: UserStats, amount: int)
    requires Consistent(s) && s.xp >= 0 && amount >= 0
    ensures LevelsUp(s, amount) <==> ProgressFill(s.xp) + amount >= XPPerLevel
  {
    var fill := ProgressFill(s.xp);
    var base := (s.level - 1) * XPPerLevel;
    assert s.xp == base + fill;
    if fill + amount >= XPPerLevel {
      assert s.xp + amount >= s.level * XPPerLevel;
    } else {
      assert s.xp + amount < s.level * XPPerLevel;
    }
  }

  /** The total of a run of awards. */
  function Sum(amounts: seq<int>): int {
    if amounts == [] then 0 else amounts[0] + Sum(amounts[1..])
  }

  /** The stats after each award of `amounts` in turn. */
  function AwardAll(s: UserStats, amounts: seq<int>): UserStats
    decreases |amounts|
  {
    if amounts == [] then s else AwardAll(Award(s, amounts[0]), amounts[1..])
  }

  /** A run of awards adds their total to `xp`, leaves the level consistent and keeps streak and badges. */
  lemma {:induction false} AwardAllTotal(s: UserStats, amounts: seq<int>)
    ensures AwardAll(s, amounts).xp == s.xp + Sum(amounts)
    ensures AwardAll(s, amounts).streak == s.streak && AwardAll(s, amounts).badges == s.badges
    ensures Consistent(s) ==> Consistent(AwardAll(s, amounts))
    decreases |amounts|
  {
    if amounts != [] {
      AwardAllTotal(Award(s, amounts[0]), amounts[1..]);
    }
  }

  /** With non-negative awards, as every tool hands out, neither xp nor level ever decreases. */
  lemma {:induction false} AwardAllNeverDecreases(s: UserStats, amounts: seq<int>)
    requires Consistent(s)
    requires forall i :: 0 <= i < |amounts| ==> amounts[i] >= 0
    ensures AwardAll(s, amounts).xp >= s.xp && AwardAll(s, amounts).level >= s.level
    decreases |amounts|
  {
    if amounts != [] {
      var next := Award(s, amounts[0]);
      LevelMonotone(s.xp, next.xp);
      AwardAllNeverDecreases(next, amounts[1..]);
    }
  }

  /** The dashboard's `stats` slot and its `addXP` callback. */
  class Tracker {
    var stats: UserStats

    constructor ()
      ensures stats == InitialStats && Consistent(stats)
    {
      stats := InitialStats;
    }

    /** `addXP(amount)`; the result says whether the level-up notice is shown. */
    method AddXP(amount: int) returns (levelUp: bool)
      modifies this
      ensures stats == Award(old(stats), amount)
      ensures stats.xp == old(stats).xp + amount && Consistent(stats)
      ensures stats.streak == old(stats).streak && stats.badges == old(stats).badges
      ensures levelUp <==> stats.level > old(stats).level
    {
      var newXP := stats.xp + amount;
      var newLevel := newXP / XPPerLevel + 1;
      levelUp := newLevel > stats.level;
      stats := stats.(xp := newXP, level := newLevel);
    }
  }
}
