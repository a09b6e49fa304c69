/**
 * numpy.argsort on a three-element chunk shape: the axis indices ordered from
 * the smallest extent to the largest. The model chooses lower index first for
 * equal extents; the scheduler's step is proved for every sorted ranking, so
 * the factors it picks do not depend on that choice.
 */
module NpArgsort {
  import opened Vec3

  predicate IsAxis(i: int)
  {
    0 <= i < 3
  }

  /** Axis i ranks strictly below axis j: smaller extent, or equal extent and lower index. */
  predicate Before(s: Triple, i: int, j: int)
    requires IsAxis(i) && IsAxis(j)
  {
    s.At(i) < s.At(j) || (s.At(i) == s.At(j) && i < j)
  }

  /** p lists the three axes once each, by non-decreasing extent. */
  predicate IsRanking(s: Triple, p: seq<int>)
  {
    |p| == 3 && IsAxis(p[0]) && IsAxis(p[1]) && IsAxis(p[2]) &&
    p[0] != p[1] && p[1] != p[2] && p[0] != p[2] &&
    s.At(p[0]) <= s.At(p[1]) <= s.At(p[2])
  }

  /** A ranking that also breaks ties by index, as a stable sort does. */
  predicate IsStableRanking(s: Triple, p: seq<int>)
  {
    IsRanking(s, p) && Before(s, p[0], p[1]) && Before(s, p[1], p[2])
  }

  function Argsort(s: Triple): (p: seq<int>)
    ensures IsStableRanking(s, p)
  {
    if Before(s, 0, 1) then
      if Before(s, 1, 2) then [0, 1, 2]
      else if Before(s, 0, 2) then [0, 2, 1]
      else [2, 0, 1]
    else
      if Before(s, 0, 2) then [1, 0, 2]
      else if Before(s, 1, 2) then [1, 2, 0]
      else [2, 1, 0]
  }

  /** The stable ranking is unique, so Argsort is fully determined by its contract. */
  lemma StableRankingUnique(s: Triple, p: seq<int>)
    requires IsStableRanking(s, p)
    ensures p == Argsort(s)
  {
    var a := Argsort(s);
    assert Before(s, p[0], p[1]) && Before(s, p[1], p[2]);
    assert Before(s, a[0], a[1]) && Before(s, a[1], a[2]);
    assert p[0] == a[0] && p[1] == a[1] && p[2] == a[2];
  }

  /** Every ranking, stable or not, reads off the same smallest, middle and largest extents. */
  lemma RankedValues(s: Triple, p: seq<int>)
    requires IsRanking(s, p)
    ensures s.At(p[0]) == Min3(s) && s.At(p[1]) == Mid3(s) && s.At(p[2]) == Max3(s)
  {
    assert {p[0], p[1], p[2]} == {0, 1, 2};
    assert s.At(p[0]) + s.At(p[1]) + s.At(p[2]) == Sum(s);
  }
}
