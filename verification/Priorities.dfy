/** The traffic priority of a task, packed into one machine integer: tier, then age, then low battery. */
module Priorities {

  const TIER_STEP := 50000000
  const AGE_STEP := 128
  const SEQ_MAX := 100000
  const STOP_PRIO := 4 * TIER_STEP
  const INT_MAX := 0x7fff_ffff

  /** std::lround: to the nearest integer, halves away from zero. */
  function Round(x: real): int {
    if x >= 0.0 then (x + 0.5).Floor else -(0.5 - x).Floor
  }

  /** The nearest integer; of two equally near ones the one farther from zero. */
  lemma RoundIsNearest(x: real)
    ensures Round(x) as real - 0.5 <= x <= Round(x) as real + 0.5
    ensures x == Round(x) as real - 0.5 ==> x > 0.0
    ensures x == Round(x) as real + 0.5 ==> x < 0.0
  {}

  /** Stuck tasks first, then robots returning to charge, then deliveries, then patrols. */
  function Tier(stuck: bool, charging: bool, patrol: bool): int {
    if stuck then 3 else if charging then 2 else if patrol then 0 else 1
  }

  function Age(startSeq: int): int {
    SEQ_MAX - (if startSeq < SEQ_MAX then startSeq else SEQ_MAX)
  }

  function LowBattery(battery: real): int {
    var b := Round(battery);
    100 - (if b < 0 then 0 else if b > 100 then 100 else b)
  }

  /** What is missing to a full battery, to the nearest percent; readings outside the scale count as its ends. */
  lemma LowBatteryIs(battery: real)
    ensures 0 <= LowBattery(battery) <= 100
    ensures 0.0 <= battery <= 100.0 ==> -0.5 <= LowBattery(battery) as real - (100.0 - battery) <= 0.5
    ensures battery < 0.0 ==> LowBattery(battery) == 100
    ensures battery > 100.0 ==> LowBattery(battery) == 0
  {
    RoundIsNearest(battery);
  }

  function Priority(tier: int, startSeq: int, battery: real): int {
    tier * TIER_STEP + Age(startSeq) * AGE_STEP + LowBattery(battery)
  }

  /** The part of the priority that a battery reading cannot change. */
  function Rung(tier: int, startSeq: int): int {
    tier * (TIER_STEP / AGE_STEP) + Age(startSeq)
  }

  predicate LexLess(t1: int, a1: int, b1: int, t2: int, a2: int, b2: int) {
    t1 < t2 || (t1 == t2 && (a1 < a2 || (a1 == a2 && b1 < b2)))
  }

  /** Comparing the packed integers is comparing (tier, age, low battery) lexicographically. */
  lemma EncodingIsLexicographic(t1: int, s1: int, b1: real, t2: int, s2: int, b2: real)
    requires s1 >= 0 && s2 >= 0
    ensures Priority(t1, s1, b1) < Priority(t2, s2, b2) <==>
            LexLess(t1, Age(s1), LowBattery(b1), t2, Age(s2), LowBattery(b2))
  {
    assert 0 <= LowBattery(b1) < AGE_STEP && 0 <= LowBattery(b2) < AGE_STEP;
    assert 0 <= Age(s1) * AGE_STEP + LowBattery(b1) < TIER_STEP;
    assert 0 <= Age(s2) * AGE_STEP + LowBattery(b2) < TIER_STEP;
  }

  /** The documented ladder: stuck, then charging, then deliveries, then patrols, whatever age and battery. */
  lemma LadderHolds(charging: bool, patrol1: bool, patrol2: bool, s1: int, b1: real, s2: int, b2: real)
    requires s1 >= 0 && s2 >= 0
    ensures Priority(Tier(true, charging, patrol1), s1, b1) > Priority(Tier(false, true, patrol2), s2, b2)
    ensures Priority(Tier(false, true, patrol1), s1, b1) > Priority(Tier(false, false, false), s2, b2)
    ensures Priority(Tier(false, false, false), s1, b1) > Priority(Tier(false, false, true), s2, b2)
  {
    forall t1, t2 | t1 > t2 ensures Priority(t1, s1, b1) > Priority(t2, s2, b2) {
      EncodingIsLexicographic(t2, s2, b2, t1, s1, b1);
    }
  }

  /** On one rung of the ladder the older task wins, and at equal age the emptier battery. */
  lemma OlderThenEmptier(tier: int, s1: int, b1: real, s2: int, b2: real)
    requires 0 <= s1 <= s2
    ensures s1 < s2 && s1 < SEQ_MAX ==> Priority(tier, s1, b1) > Priority(tier, s2, b2)
    ensures s1 == s2 && 0.0 <= b1 && b1 + 1.0 <= b2 <= 100.0 ==> Priority(tier, s1, b1) > Priority(tier, s2, b2)
  {
    EncodingIsLexicographic(tier, s2, b2, tier, s1, b1);
  }

  /** No intermediate value leaves the 32-bit range, and a task never reaches a stopped robot's priority. */
  lemma EncodingFits(stuck: bool, charging: bool, patrol: bool, startSeq: int, battery: real)
    requires startSeq >= 0
    ensures 0 <= Tier(stuck, charging, patrol) * TIER_STEP < INT_MAX
    ensures 0 <= Age(startSeq) * AGE_STEP < INT_MAX
    ensures 0 <= Tier(stuck, charging, patrol) * TIER_STEP + Age(startSeq) * AGE_STEP < INT_MAX
    ensures 0 <= Priority(Tier(stuck, charging, patrol), startSeq, battery) < STOP_PRIO < INT_MAX
  {
    assert 0 <= LowBattery(battery) < AGE_STEP;
  }

  /** Dividing out the battery digit leaves the rung. */
  lemma RungOfPriority(tier: int, startSeq: int, battery: real)
    ensures Priority(tier, startSeq, battery) / AGE_STEP == Rung(tier, startSeq)
  {
    assert Priority(tier, startSeq, battery) == Rung(tier, startSeq) * AGE_STEP + LowBattery(battery);
    assert 0 <= LowBattery(battery) < AGE_STEP;
  }

  /** Age tells an older task from a younger one exactly as long as the older is among the first SEQ_MAX. */
  lemma AgeSeparatesIff(s1: int, s2: int)
    requires 0 <= s1 < s2
    ensures Age(s1) > Age(s2) <==> s1 < SEQ_MAX
    ensures Age(s1) == Age(s2) <==> s1 >= SEQ_MAX
  {}

  /** A rung is a tier and an age. */
  lemma RungSeparates(t1: int, s1: int, t2: int, s2: int)
    requires s1 >= 0 && s2 >= 0
    ensures Rung(t1, s1) == Rung(t2, s2) <==> t1 == t2 && Age(s1) == Age(s2)
  {
    assert -SEQ_MAX <= Age(s1) - Age(s2) <= SEQ_MAX;
  }
}
