// Day 6: boat races. Holding the button for `h` of a race's `t` milliseconds
// makes the boat travel `(t - h) * h`; a hold wins when that beats the record
// distance `d`. The answer multiplies, over all races, the number of winning
// holds in `0..=t`.

module BoatRace {

  /** How far the boat goes when the button is held for `h` of `t` milliseconds. */
  function Distance(t: nat, h: nat): nat
    requires h <= t
  {
    (t - h) * h
  }

  /** Whether holding for `h` beats the record `d`. */
  predicate Wins(t: nat, d: nat, h: nat)
    requires h <= t
  {
    Distance(t, h) > d
  }

  /** The number of winning holds among `0..n`. Holding for 0 never wins. */
  function WinsBelow(t: nat, d: nat, n: nat): (c: nat)
    requires n <= t + 1
    ensures c <= n
    ensures n >= 1 ==> c <= n - 1
  {
    if n == 0 then 0
    else WinsBelow(t, d, n - 1) + (if Wins(t, d, n - 1) then 1 else 0)
  }

  /**
   * The per-race count: the holds in `0..=t` that win. Neither holding for 0
   * nor for the whole race moves the boat, so at most `t - 1` holds win.
   */
  function WinCount(t: nat, d: nat): (c: nat)
    ensures c <= t + 1
    ensures t >= 1 ==> c <= t - 1
  {
    WinsBelow(t, d, t + 1)
  }

  // ---------------------------------------------------------------------
  // The winning holds form one interval, symmetric about t / 2
  // ---------------------------------------------------------------------

  /** Holding for `h` or for `t - h` goes equally far. */
  lemma DistanceSymmetric(t: nat, h: nat)
    requires h <= t
    ensures Distance(t, h) == Distance(t, t - h)
  {
  }

  /** One millisecond more of holding, up to half the race, goes at least as far. */
  lemma DistanceStep(t: nat, h: nat)
    requires 2 * (h + 1) <= t
    ensures Distance(t, h) <= Distance(t, h + 1)
  {
    var k := t - h - 1;
    assert Distance(t, h) == (k + 1) * h == k * h + h;
    assert Distance(t, h + 1) == k * (h + 1) == k * h + k;
  }

  /** The distance grows with the hold up to half the race. */
  lemma {:induction false} DistanceIncreasing(t: nat, a: nat, b: nat)
    requires a <= b && 2 * b <= t
    ensures Distance(t, a) <= Distance(t, b)
  {
    if a < b {
      DistanceIncreasing(t, a, b - 1);
      DistanceStep(t, b - 1);
    }
  }

  /** The least winning hold `lo` (in the first half of the race) sits
      opposite `t - lo`: the winning holds are exactly those in between. */
  lemma WinnersInterval(t: nat, d: nat, lo: nat, h: nat)
    requires 2 * lo <= t && Wins(t, d, lo)
    requires lo == 0 || !Wins(t, d, lo - 1)
    requires h <= t
    ensures Wins(t, d, h) <==> lo <= h <= t - lo
  {
    if h < lo {
      DistanceIncreasing(t, h, lo - 1);
    } else if h <= t - lo {
      if 2 * h <= t {
        DistanceIncreasing(t, lo, h);
      } else {
        DistanceSymmetric(t, h);
        DistanceIncreasing(t, lo, t - h);
      }
    } else {
      DistanceSymmetric(t, h);
      DistanceIncreasing(t, t - h, lo - 1);
    }
  }

  /** When the winning holds are those in `a..=b`, counting below `n` counts that interval's part below `n`. */
  lemma {:induction false} CountInterval(t: nat, d: nat, a: nat, b: nat, n: nat)
    requires a <= b <= t && n <= t + 1
    requires forall h :: 0 <= h <= t ==> (Wins(t, d, h) <==> a <= h <= b)
    ensures WinsBelow(t, d, n) == if n <= a then 0 else if n <= b + 1 then n - a else b + 1 - a
  {
    if n > 0 {
      CountInterval(t, d, a, b, n - 1);
    }
  }

  /** The count in closed form: with `lo` the least winning hold, `t + 1 - 2 * lo` holds win. */
  lemma WinCountClosedForm(t: nat, d: nat, lo: nat)
    requires 2 * lo <= t && Wins(t, d, lo)
    requires lo == 0 || !Wins(t, d, lo - 1)
    ensures WinCount(t, d) == t + 1 - 2 * lo
  {
    forall h | 0 <= h <= t
      ensures Wins(t, d, h) <==> lo <= h <= t - lo
    {
      WinnersInterval(t, d, lo, h);
    }
    CountInterval(t, d, lo, t - lo, t + 1);
  }

  // ---------------------------------------------------------------------
  // The product over races
  // ---------------------------------------------------------------------

  /** A race: its time and its record distance. */
  type Race = (nat, nat)

  /** The product of the per-race counts, 1 for no races. */
  function CountProduct(races: seq<Race>): nat {
    if races == [] then 1
    else
      var last := races[|races| - 1];
      CountProduct(races[..|races| - 1]) * WinCount(last.0, last.1)
  }

  /** The loop of `test_part1_example`: multiplies the per-race counts into `prod`, starting from 1. */
  method RaceProduct(races: seq<Race>) returns (prod: nat)
    ensures prod == CountProduct(races)
  {
    prod := 1;
    for i := 0 to |races|
      invariant prod == CountProduct(races[..i])
    {
      assert races[..i + 1][..i] == races[..i];
      prod := prod * WinCount(races[i].0, races[i].1);
    }
    assert races[..|races|] == races;
  }

  /** The product is 0 exactly when some race cannot be won. */
  lemma {:induction false} ProductZero(races: seq<Race>)
    ensures CountProduct(races) == 0 <==>
      exists i :: 0 <= i < |races| && WinCount(races[i].0, races[i].1) == 0
  {
    if races != [] {
      var init := races[..|races| - 1];
      ProductZero(init);
      if exists i :: 0 <= i < |init| && WinCount(init[i].0, init[i].1) == 0 {
        var i :| 0 <= i < |init| && WinCount(init[i].0, init[i].1) == 0;
        assert races[i] == init[i];
      }
      if exists i :: 0 <= i < |races| && WinCount(races[i].0, races[i].1) == 0 {
        var i :| 0 <= i < |races| && WinCount(races[i].0, races[i].1) == 0;
        if i < |init| {
          assert init[i] == races[i];
        }
      }
    }
  }

  // ---------------------------------------------------------------------
  // Examples
  // ---------------------------------------------------------------------

  /** The three example races win in 4, 8 and 9 ways: 288 in all. */
  lemma ExampleRaces(races: seq<Race>)
    requires races == [(7, 9), (15, 40), (30, 200)]
    ensures CountProduct(races) == 288
  {
    WinCountClosedForm(7, 9, 2);
    WinCountClosedForm(15, 40, 4);
    WinCountClosedForm(30, 200, 11);
    assert races[..1][..0] == [];
    assert CountProduct(races[..1]) == 4;
    assert races[..2][..1] == races[..1];
    assert CountProduct(races[..2]) == 32;
    assert races[..3] == races;
  }

  /** The single long race of the live test wins in 34454850 ways. */
  lemma ExampleLongRace(races: seq<Race>)
    requires races == [(59796575, 597123410321328)]
    ensures CountProduct(races) == 34454850
  {
    WinCountClosedForm(59796575, 597123410321328, 12670863);
    assert races[..0] == [];
  }
}
