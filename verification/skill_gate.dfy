/** The climbing skill check: a base success chance raised linearly
    toward 100 by the climber's effective skill, compared against a roll
    of 1..100, with a failure vetoed while the climber's feet are still
    below the water surface. */
module SkillGate {

  /** One draw of Random.Range(1, 101): an integer from 1 to 100. */
  type Roll = r: int | 1 <= r <= 100 witness 1

  /** What the check reads from the player and the environment. */
  datatype Climber = Climber(
    liveSkill: int,        // live Climbing skill value
    khajiit: bool,         // the player's race is Khajiit
    enhancedClimbing: bool, // the "climb twice as well" effect is active
    feetBelowWater: bool   // the feet are below the block's water level
  )

  const KhajiitBonus: int := 30
  const MinSkill: int := 5
  const MaxSkill: int := 95

  function Clamp(v: int, lo: int, hi: int): (r: int)
    requires lo <= hi
    ensures lo <= r <= hi
    ensures lo <= v <= hi ==> r == v
    ensures v < lo ==> r == lo
    ensures v > hi ==> r == hi
  {
    if v < lo then lo else if v > hi then hi else v
  }

  /** The racial bonus is added first, the enhancement doubles the sum,
      and the result is clamped to [5, 95]. */
  function EffectiveSkill(c: Climber): (e: int)
    ensures MinSkill <= e <= MaxSkill
  {
    var raced := c.liveSkill + (if c.khajiit then KhajiitBonus else 0);
    var boosted := if c.enhancedClimbing then raced * 2 else raced;
    Clamp(boosted, MinSkill, MaxSkill)
  }

  /** The Khajiit bonus acts exactly as thirty more points of live skill,
      before any doubling. */
  lemma KhajiitBonusActsAsSkill(c: Climber)
    ensures EffectiveSkill(c.(khajiit := true))
         == EffectiveSkill(c.(khajiit := false, liveSkill := c.liveSkill + 30))
  {
  }

  /** Without the racial bonus, the live skill is clamped to [5, 95] as it
      is, or doubled first under the enhancement. */
  lemma EffectiveSkillWithoutBonus(c: Climber)
    requires !c.khajiit
    ensures !c.enhancedClimbing ==> EffectiveSkill(c) == Clamp(c.liveSkill, 5, 95)
    ensures c.enhancedClimbing ==> EffectiveSkill(c) == Clamp(2 * c.liveSkill, 5, 95)
  {
  }

  /** More live skill never yields less effective skill. */
  lemma EffectiveSkillMonotone(c: Climber, c': Climber)
    requires c.liveSkill <= c'.liveSkill
    requires c.khajiit == c'.khajiit && c.enhancedClimbing == c'.enhancedClimbing
    ensures EffectiveSkill(c) <= EffectiveSkill(c')
  {
  }

  /** Mathf.Lerp: the interpolation parameter is clamped to [0, 1]. */
  function Lerp(a: real, b: real, t: real): real {
    var u := if t < 0.0 then 0.0 else if t > 1.0 then 1.0 else t;
    a + (b - a) * u
  }

  /** The integer form of "Lerp(base, 100, skill / 100) is not below roll",
      scaled by 100 so that no division is needed. */
  predicate RollPasses(base: int, skill: int, roll: int) {
    100 * base + (100 - base) * skill >= 100 * roll
  }

  /** The integer comparison decides exactly what the real-valued
      interpolation decides, for every skill the check can use. */
  lemma RollPassesIsLerp(base: int, skill: int, roll: int)
    requires 0 <= skill <= 100
    ensures RollPasses(base, skill, roll)
        <==> !(Lerp(base as real, 100.0, skill as real * 0.01) < roll as real)
  {
    var b, s, r := base as real, skill as real, roll as real;
    var t := s * 0.01;
    assert 0.0 <= t <= 1.0;
    assert Lerp(b, 100.0, t) == b + (100.0 - b) * t;
    assert 100.0 * (b + (100.0 - b) * t) == 100.0 * b + (100.0 - b) * s;
    assert ((100 - base) * skill) as real == (100.0 - b) * s;
    assert (100 * base + (100 - base) * skill) as real == 100.0 * b + (100.0 - b) * s;
  }

  lemma ProductBounds(k: int, s: int)
    requires MinSkill <= s <= MaxSkill
    ensures k >= 0 ==> MinSkill * k <= k * s <= MaxSkill * k
    ensures k < 0 ==> MaxSkill * k <= k * s <= MinSkill * k
  {
    var lo, hi := k * (s - MinSkill), k * (MaxSkill - s);
    assert lo == k * s - MinSkill * k;
    assert hi == MaxSkill * k - k * s;
    if k >= 0 {
      assert lo >= 0 && hi >= 0;
    } else {
      assert lo <= 0 && hi <= 0;
    }
  }

  /** One skill check. The climb-skill tally it also records is counted
      by the caller. */
  function SkillCheck(basePercentSuccess: int, c: Climber, roll: Roll): (passed: bool)
    // the pass/fail decision is SkillCheck's floating-point comparison, read exactly
    ensures !c.feetBelowWater ==>
      (passed <==> !(Lerp(basePercentSuccess as real, 100.0, EffectiveSkill(c) as real * 0.01) < roll as real))
    // a failure is vetoed, and only vetoed, while the feet are under water
    ensures c.feetBelowWater ==> passed
    ensures passed && !c.feetBelowWater ==> RollPasses(basePercentSuccess, EffectiveSkill(c), roll)
    ensures roll <= basePercentSuccess ==> passed
    ensures basePercentSuccess >= 100 ==> passed
    ensures basePercentSuccess < 100 && roll == 100 && !c.feetBelowWater ==> !passed
  {
    var skill := EffectiveSkill(c);
    RollPassesIsLerp(basePercentSuccess, skill, roll);
    ProductBounds(100 - basePercentSuccess, skill);
    RollPasses(basePercentSuccess, skill, roll) || c.feetBelowWater
  }

  /** The number of rolls among 1..n that pass. */
  function PassingRolls(base: int, skill: int, n: nat): nat {
    if n == 0 then 0
    else PassingRolls(base, skill, n - 1) + (if RollPasses(base, skill, n) then 1 else 0)
  }

  function Min(a: int, b: int): int { if a <= b then a else b }
  function Max(a: int, b: int): int { if a >= b then a else b }

  /** The interpolated chance, rounded down: the largest roll that passes. */
  function Threshold(base: int, skill: int): int {
    (100 * base + (100 - base) * skill) / 100
  }

  /** The rolls that pass are exactly 1..Threshold, so among 1..n there are
      Threshold of them, cut to the range 0..n. */
  lemma {:induction false} PassingRollsClosedForm(base: int, skill: int, n: nat)
    ensures PassingRolls(base, skill, n) == Min(n, Max(0, Threshold(base, skill)))
  {
    if n > 0 {
      PassingRollsClosedForm(base, skill, n - 1);
      var x := 100 * base + (100 - base) * skill;
      assert RollPasses(base, skill, n) <==> n <= x / 100;
    }
  }

  /** The chance of passing, in percent of all rolls. */
  function PassChance(base: int, c: Climber): nat {
    if c.feetBelowWater then 100 else PassingRolls(base, EffectiveSkill(c), 100)
  }

  /** The pass chance never falls as the live skill rises, for any base
      chance of at most 100. */
  lemma PassChanceMonotone(base: int, c: Climber, c': Climber)
    requires base <= 100
    requires c.liveSkill <= c'.liveSkill
    requires c.khajiit == c'.khajiit && c.enhancedClimbing == c'.enhancedClimbing
    requires c.feetBelowWater == c'.feetBelowWater
    ensures PassChance(base, c) <= PassChance(base, c')
  {
    if !c.feetBelowWater {
      var s, s' := EffectiveSkill(c), EffectiveSkill(c');
      EffectiveSkillMonotone(c, c');
      ThresholdMonotone(base, s, s');
      PassingRollsClosedForm(base, s, 100);
      PassingRollsClosedForm(base, s', 100);
    }
  }

  lemma ThresholdMonotone(base: int, s: int, s': int)
    requires base <= 100 && s <= s'
    ensures Threshold(base, s) <= Threshold(base, s')
  {
    var k := 100 - base;
    assert k * s <= k * s' by {
      assert k * (s' - s) >= 0;
    }
    DivMonotone(100 * base + k * s, 100 * base + k * s');
  }

  lemma DivMonotone(x: int, y: int)
    requires x <= y
    ensures x / 100 <= y / 100
  {
  }

  /** The pass chance counts exactly the rolls the check lets through. */
  lemma {:induction false} PassingRollsCountsChecks(base: int, c: Climber, n: nat)
    requires !c.feetBelowWater && n <= 100
    ensures PassingRolls(base, EffectiveSkill(c), n)
         == |set r: int | 1 <= r <= n && SkillCheck(base, c, r)|
  {
    var f := set r: int | 1 <= r <= n && SkillCheck(base, c, r);
    if n == 0 {
      assert f == {};
    } else {
      PassingRollsCountsChecks(base, c, n - 1);
      var g := set r: int | 1 <= r <= n - 1 && SkillCheck(base, c, r);
      if SkillCheck(base, c, n) {
        assert f == g + {n};
      } else {
        assert f == g;
      }
    }
  }
}
