/** How fast the moving block slides, as a function of the tower's length. */
module Difficulty {
  /** Speed at session start, and the start of the linear ramp. */
  const BaseSpeed: real := 0.05
  /** Speed added per block of the tower. */
  const SpeedStep: real := 0.005
  /** The cap on the speed. */
  const MaxSpeed: real := 0.15

  /**
   * Speed after a commit that leaves `n` blocks in the tower: the linear ramp
   * capped at MaxSpeed, never below BaseSpeed, reaching the cap from 20 on.
   */
  function Speed(n: nat): (s: real)
    ensures BaseSpeed <= s <= MaxSpeed
    ensures s == MaxSpeed <==> n >= 20
    ensures n < 20 ==> s == BaseSpeed + (n as real) * SpeedStep
  {
    var ramp := BaseSpeed + (n as real) * SpeedStep;
    if MaxSpeed <= ramp then MaxSpeed else ramp
  }

  /** A taller tower never slides slower. */
  lemma SpeedMonotone(n: nat, m: nat)
    requires n <= m
    ensures Speed(n) <= Speed(m)
  {
  }
}
