/**
 * The unit that `get_file_size` reports a byte count in. The count is
 * divided by 1024 until it drops below 1024 or the units run out; the
 * decimal formatting of the scaled value is not modelled.
 */
module FileSize {

  datatype SizeUnit = B | KB | MB | GB | TB

  /** 1024 to the power `n`. */
  function Pow1024(n: nat): (p: nat)
    ensures p >= 1
  {
    if n == 0 then 1 else 1024 * Pow1024(n - 1)
  }

  /** How many divisions by 1024 a value reported in `u` has undergone. */
  function Rank(u: SizeUnit): nat
  {
    match u
    case B => 0
    case KB => 1
    case MB => 2
    case GB => 3
    case TB => 4
  }

  /** The unit as integer thresholds on the byte count. */
  function UnitFor(size: nat): SizeUnit
  {
    if size < 1024 then B
    else if size < 1024 * 1024 then KB
    else if size < 1024 * 1024 * 1024 then MB
    else if size < 1024 * 1024 * 1024 * 1024 then GB
    else TB
  }

  /** A larger byte count is never reported in a smaller unit. */
  lemma UnitForMonotonic(smaller: nat, larger: nat)
    requires smaller <= larger
    ensures Rank(UnitFor(smaller)) <= Rank(UnitFor(larger))
  {
  }

  /** The unit reached after `n` divisions by 1024; TB once the list is exhausted. */
  function UnitOfRank(n: nat): (u: SizeUnit)
    requires n <= 4
    ensures Rank(u) == n
  {
    [B, KB, MB, GB, TB][n]
  }

  /**
   * The loop of `get_file_size`: try B, KB, MB, GB in turn, dividing by
   * 1024 after each miss, and fall back to TB. Division by 1024 is exact,
   * so the returned value is the byte count over 1024 to the unit's rank.
   */
  method SelectUnit(size: nat) returns (unit: SizeUnit, scaled: real)
    ensures unit == UnitFor(size)
    ensures scaled * (Pow1024(Rank(unit)) as real) == size as real
    ensures unit != TB ==> scaled < 1024.0
  {
    var units := [B, KB, MB, GB];
    var s := size as real;
    var i := 0;
    while i < |units|
      invariant 0 <= i <= |units|
      invariant s * (Pow1024(i) as real) == size as real
      invariant forall j :: 0 < j <= i ==> Pow1024(j) <= size
    {
      if s < 1024.0 {
        BelowNextPower(size, s, i);
        RankThresholds(size, i);
        assert units[i] == UnitOfRank(i);
        return units[i], s;
      }
      AtLeastNextPower(size, s, i);
      DivideStep(size, s, i);
      s := s / 1024.0;
      i := i + 1;
    }
    RankThresholds(size, 4);
    return TB, s;
  }

  /** A scaled value under 1024 means the count is under the next power of 1024. */
  lemma BelowNextPower(size: nat, s: real, i: nat)
    requires s * (Pow1024(i) as real) == size as real
    requires s < 1024.0
    ensures size < Pow1024(i + 1)
  {
    var p := Pow1024(i) as real;
    var next := 1024 * Pow1024(i);
    assert 1024.0 * p == next as real;
    ScaleMonotonic(s, 1024.0, p);
    assert (size as real) < next as real;
  }

  /** A scaled value of at least 1024 means the count reaches the next power of 1024. */
  lemma AtLeastNextPower(size: nat, s: real, i: nat)
    requires s * (Pow1024(i) as real) == size as real
    requires s >= 1024.0
    ensures Pow1024(i + 1) <= size
  {
  }

  /** Multiplying by a positive factor keeps a strict order. */
  lemma ScaleMonotonic(a: real, b: real, p: real)
    requires a < b
    requires p > 0.0
    ensures a * p < b * p
  {
  }

  /** Dividing the scaled value by 1024 keeps it equal to the count over the next power. */
  lemma DivideStep(size: nat, s: real, i: nat)
    requires s * (Pow1024(i) as real) == size as real
    ensures (s / 1024.0) * (Pow1024(i + 1) as real) == size as real
  {
  }

  /** Connects the loop's threshold facts with `UnitFor`. */
  lemma RankThresholds(size: nat, i: nat)
    requires i <= 4
    requires forall j :: 0 < j <= i ==> Pow1024(j) <= size
    requires i < 4 ==> size < Pow1024(i + 1)
    ensures UnitFor(size) == UnitOfRank(i)
  {
    assert Pow1024(1) == 1024;
    assert Pow1024(2) == 1024 * 1024;
    assert Pow1024(3) == 1024 * 1024 * 1024;
    assert Pow1024(4) == 1024 * 1024 * 1024 * 1024;
  }
}
