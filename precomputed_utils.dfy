/**
 * The downsample scheduler of the precomputed-volume pipeline: the greedy
 * isotropy schedule of per-axis downsample factors (determine_factors), and the
 * fixed chunk-size and factor tables of the "full" resolution profile
 * (calculate_chunks, calculate_factors).
 */
module PrecomputedUtils {
  import opened Vec3
  import opened PyRound
  import opened NpArgsort

  datatype Error = AssertionFailed
  datatype Result<T> = Ok(value: T) | Err(error: Error)

  /** Level 0 of every schedule: no downsampling. */
  const Identity := Triple(1, 1, 1)
  /** Uniform halving: ends the isotropy-seeking phase and fills the padding. */
  const All2 := Triple(2, 2, 2)
  /** Number of extra uniform-halving levels appended after the seeking phase. */
  const Padding: nat := 20

  /** Every component is 1 (keep the axis) or 2 (halve it). */
  predicate IsHalving(f: Triple)
  {
    (f.x0 == 1 || f.x0 == 2) && (f.x1 == 1 || f.x1 == 2) && (f.x2 == 1 || f.x2 == 2)
  }

  // ---------------------------------------------------------------------------
  // One step of the isotropy-seeking loop, stated on values
  // ---------------------------------------------------------------------------

  /**
   * The factor triple of one seeking step, stated on extents alone with exact
   * integer comparisons and without axis indices. With hi >= mid >= lo the
   * three extents:
   *   2*hi >= 3*mid  -> halve only the largest axis;
   *   2*hi <  3*lo   -> halve every axis;
   *   otherwise      -> halve every axis except the smallest.
   */
  function ReferenceFactors(s: Triple): (f: Triple)
    requires Positive(s)
    ensures IsHalving(f)
    ensures forall i :: 0 <= i < 3 && s.At(i) == Max3(s) ==> f.At(i) == 2
    ensures f == All2 <==> 2 * Max3(s) < 3 * Min3(s)
    ensures f != All2 ==> forall i :: 0 <= i < 3 && s.At(i) == Min3(s) ==> f.At(i) == 1
  {
    var hi, mid, lo := Max3(s), Mid3(s), Min3(s);
    if 2 * hi >= 3 * mid then
      Triple(if s.x0 == hi then 2 else 1, if s.x1 == hi then 2 else 1, if s.x2 == hi then 2 else 1)
    else if 2 * hi < 3 * lo then
      All2
    else
      Triple(if s.x0 == lo then 1 else 2, if s.x1 == lo then 1 else 2, if s.x2 == lo then 1 else 2)
  }

  /** Floor division of each extent by its factor, int(N / D) for positive N. */
  function Shrink(s: Triple, f: Triple): (r: Triple)
    requires IsHalving(f)
    ensures forall i :: 0 <= i < 3 ==>
      if f.At(i) == 1 then r.At(i) == s.At(i) else 2 * r.At(i) <= s.At(i) <= 2 * r.At(i) + 1
  {
    Triple(s.x0 / f.x0, s.x1 / f.x1, s.x2 / f.x2)
  }

  /** Outside the final step, every axis the rule halves is at least 2 long. */
  lemma HalvedAxesAreLong(s: Triple)
    requires Positive(s) && ReferenceFactors(s) != All2
    ensures var f := ReferenceFactors(s);
      (f.x0 == 2 ==> s.x0 >= 2) && (f.x1 == 2 ==> s.x1 >= 2) && (f.x2 == 2 ==> s.x2 >= 2)
  {
    var hi, mid, lo := Max3(s), Mid3(s), Min3(s);
    assert 2 * hi >= 3 * lo;
    if 2 * hi < 3 * mid {
      // the halved axes are those longer than the smallest: at least the middle extent
      assert mid >= 2;
      assert s.x0 != lo ==> s.x0 >= mid;
      assert s.x1 != lo ==> s.x1 >= mid;
      assert s.x2 != lo ==> s.x2 >= mid;
    }
  }

  /**
   * A step that does not end the seeking phase keeps every extent at least 1
   * and strictly lowers the sum of extents: the reason the loop terminates.
   */
  lemma StepProgress(s: Triple)
    requires Positive(s) && ReferenceFactors(s) != All2
    ensures Positive(Shrink(s, ReferenceFactors(s)))
    ensures Sum(Shrink(s, ReferenceFactors(s))) < Sum(s)
  {
    var f := ReferenceFactors(s);
    HalvedAxesAreLong(s);
    var j := if s.x0 == Max3(s) then 0 else if s.x1 == Max3(s) then 1 else 2;
    assert s.At(j) == Max3(s);
    assert f.At(j) == 2;
  }

  // ---------------------------------------------------------------------------
  // The schedule as a specification
  // ---------------------------------------------------------------------------

  /**
   * The triples of the isotropy-seeking loop started from shape s: every triple
   * is a halving, the last one is [2,2,2] and none before it is.
   */
  function SeekFrom(s: Triple): (r: seq<Triple>)
    requires Positive(s)
    ensures |r| >= 1 && r[|r| - 1] == All2
    ensures forall k :: 0 <= k < |r| - 1 ==> r[k] != All2
    ensures forall k :: 0 <= k < |r| ==> IsHalving(r[k])
    decreases Sum(s)
  {
    var f := ReferenceFactors(s);
    if f == All2 then
      [f]
    else
      StepProgress(s);
      [f] + SeekFrom(Shrink(s, f))
  }

  function Repeat(f: Triple, n: nat): (r: seq<Triple>)
    ensures |r| == n && forall k :: 0 <= k < n ==> r[k] == f
  {
    seq(n, _ => f)
  }

  /** determine_factors's result: [1,1,1], the seeking triples, then the padding. */
  function Schedule(s: Triple): seq<Triple>
    requires Positive(s)
  {
    [Identity] + SeekFrom(s) + Repeat(All2, Padding)
  }

  /**
   * Shape of the schedule: it opens with [1,1,1], is at least 22 long, ends with
   * 21 copies of [2,2,2] (the terminating triple and the padding), has no
   * [2,2,2] before those, and once [2,2,2] appears every later entry is [2,2,2].
   */
  lemma ScheduleShape(s: Triple)
    requires Positive(s)
    ensures var r := Schedule(s);
      |r| >= Padding + 2 && r[0] == Identity &&
      (forall k :: |r| - Padding - 1 <= k < |r| ==> r[k] == All2) &&
      (forall k :: 1 <= k < |r| - Padding - 1 ==> r[k] != All2 && IsHalving(r[k])) &&
      (forall j, k :: 0 <= j <= k < |r| && r[j] == All2 ==> r[k] == All2)
  {
    var seek := SeekFrom(s);
    var r := Schedule(s);
    assert forall k :: 1 <= k <= |seek| ==> r[k] == seek[k - 1];
    assert forall k :: |seek| < k < |r| ==> r[k] == All2;
  }

  /** The shape reached from s by applying the halving triples fs in order. */
  function ShapeAfter(s: Triple, fs: seq<Triple>): Triple
    requires forall k :: 0 <= k < |fs| ==> IsHalving(fs[k])
    decreases |fs|
  {
    if fs == [] then s else ShapeAfter(Shrink(s, fs[0]), fs[1..])
  }

  /** Applying f and then a prefix of fs is applying the same-length prefix of [f] + fs. */
  lemma ShapeAfterFirst(s: Triple, f: Triple, fs: seq<Triple>, k: nat)
    requires IsHalving(f) && forall i :: 0 <= i < |fs| ==> IsHalving(fs[i])
    requires k <= |fs|
    ensures ShapeAfter(s, ([f] + fs)[..k + 1]) == ShapeAfter(Shrink(s, f), fs[..k])
  {
    var pre := ([f] + fs)[..k + 1];
    assert pre[0] == f && pre[1..] == fs[..k];
  }

  /**
   * Replaying the schedule: the k-th seeking triple is the rule applied to the
   * shape that the previous k triples produce, and that shape is still positive.
   */
  lemma {:induction false} SeekReplay(s: Triple, k: nat)
    requires Positive(s) && k < |SeekFrom(s)|
    ensures Positive(ShapeAfter(s, SeekFrom(s)[..k]))
    ensures SeekFrom(s)[k] == ReferenceFactors(ShapeAfter(s, SeekFrom(s)[..k]))
    decreases k
  {
    var seek := SeekFrom(s);
    if k > 0 {
      var f := ReferenceFactors(s);
      assert f != All2;
      StepProgress(s);
      var t := Shrink(s, f);
      var rest := SeekFrom(t);
      assert seek == [f] + rest;
      SeekReplay(t, k - 1);
      ShapeAfterFirst(s, f, rest, k - 1);
    }
  }

  lemma RepeatCons(f: Triple, n: nat)
    ensures [f] + Repeat(f, n) == Repeat(f, n + 1)
  {
  }

  lemma AppendAssoc<T>(a: seq<T>, b: seq<T>, c: seq<T>)
    ensures (a + b) + c == a + (b + c)
  {
  }

  // ---------------------------------------------------------------------------
  // determine_factors
  // ---------------------------------------------------------------------------

  /**
   * One pass of the seeking loop's body, given the current shape and the
   * ranking argsort returned for it (order[2] the largest axis, order[1] the
   * middle one, order[0] the smallest): pick the factor of each axis and
   * floor-divide the shape by it.
   *
   * The contract is tie-independence: whichever order a sort gives to equal
   * extents, the triple is the value-only rule ReferenceFactors, and the new
   * shape is the old one floor-divided by it.
   */
  method SeekStep(shape: Triple, order: seq<int>) returns (factors: Triple, next: Triple)
    requires Positive(shape) && IsRanking(shape, order)
    ensures factors == ReferenceFactors(shape)
    ensures next == Shrink(shape, factors)
  {
    var dN, dM, dP := 2, 2, 1;
    var nI, mI, pI := order[2], order[1], order[0];
    var n, m, q := shape.At(nI), shape.At(mI), shape.At(pI);
    var x := RoundHalfEven(n, m);
    var y := RoundHalfEven(n, q);
    assert n == Max3(shape) && m == Mid3(shape) && q == Min3(shape) by {
      RankedValues(shape, order);
    }
    assert x > 1 <==> 2 * n >= 3 * m by {
      RoundAboveOne(n, m);
    }
    assert y <= 1 <==> 2 * n < 3 * q by {
      RoundAboveOne(n, q);
    }
    if x > 1 {
      dN, dM := 2, 1;
    } else if y <= 1 {
      dP := 2;
    }
    factors := Triple(0, 0, 0);
    factors := factors.With(nI, dN);
    factors := factors.With(mI, dM);
    factors := factors.With(pI, dP);
    next := Triple(0, 0, 0);
    next := next.With(nI, n / dN);
    next := next.With(mI, m / dM);
    next := next.With(pI, q / dP);

    assert {nI, mI, pI} == {0, 1, 2};
    forall i | 0 <= i < 3
      ensures factors.At(i) == ReferenceFactors(shape).At(i)
    {
      assert i == nI || i == mI || i == pI;
    }
    forall i | 0 <= i < 3
      ensures next.At(i) == Shrink(shape, factors).At(i)
    {
      assert i == nI || i == mI || i == pI;
    }
  }

  /**
   * determine_factors(chunk_size): fails its assertion unless every extent is
   * positive; otherwise returns the schedule of per-level factor triples.
   */
  method DetermineFactors(chunkSize: Triple) returns (r: Result<seq<Triple>>)
    ensures r.Err? <==> !Positive(chunkSize)
    ensures r.Ok? ==> r.value == Schedule(chunkSize)
  {
    if !Positive(chunkSize) {
      return Err(AssertionFailed);
    }
    var levels := [Identity];
    var shape := chunkSize;
    while true
      invariant Positive(shape)
      invariant levels + SeekFrom(shape) == [Identity] + SeekFrom(chunkSize)
      decreases Sum(shape)
    {
      var order := Argsort(shape);
      var factors, next := SeekStep(shape, order);
      ghost var before := levels;
      levels := levels + [factors];
      if factors == All2 {
        assert levels == [Identity] + SeekFrom(chunkSize) by {
          assert SeekFrom(shape) == [factors];
        }
        break;
      }
      assert Positive(next) && Sum(next) < Sum(shape) by {
        StepProgress(shape);
      }
      assert levels + SeekFrom(next) == [Identity] + SeekFrom(chunkSize) by {
        assert SeekFrom(shape) == [factors] + SeekFrom(next);
        AppendAssoc(before, [factors], SeekFrom(next));
      }
      shape := next;
    }
    ghost var seeking := levels;
    for i := 0 to Padding
      invariant levels == seeking + Repeat(All2, i)
    {
      assert Repeat(All2, i + 1) == Repeat(All2, i) + [All2];
      levels := levels + [All2];
    }
    return Ok(levels);
  }

  // ---------------------------------------------------------------------------
  // Worked cases
  // ---------------------------------------------------------------------------

  /** An isotropic shape ends the seeking phase at once: [1,1,1] and 21 times [2,2,2]. */
  lemma ScheduleOfCube()
    ensures Schedule(Triple(8, 8, 8)) == [Identity] + Repeat(All2, Padding + 1)
  {
    assert SeekFrom(Triple(8, 8, 8)) == [All2];
    RepeatCons(All2, Padding);
    AppendAssoc([Identity], [All2], Repeat(All2, Padding));
  }

  /** The smallest shape is not clamped: it too gets [2,2,2] straight away. */
  lemma ScheduleOfUnit()
    ensures Schedule(Triple(1, 1, 1)) == [Identity] + Repeat(All2, Padding + 1)
  {
    assert SeekFrom(Triple(1, 1, 1)) == [All2];
    RepeatCons(All2, Padding);
    AppendAssoc([Identity], [All2], Repeat(All2, Padding));
  }

  /**
   * A flat 1024x1024x64 chunk: four levels halve the two long axes only
   * (1024 -> 512 -> 256 -> 128 -> 64), then the shape is a cube.
   */
  lemma ScheduleOfSlab()
    ensures Schedule(Triple(1024, 1024, 64)) ==
      [Identity] + Repeat(Triple(2, 2, 1), 4) + Repeat(All2, Padding + 1)
  {
    var xy := Triple(2, 2, 1);
    var s0, s1, s2, s3, s4 :=
      Triple(1024, 1024, 64), Triple(512, 512, 64), Triple(256, 256, 64), Triple(128, 128, 64), Triple(64, 64, 64);
    assert SeekFrom(s0) == Repeat(xy, 4) + [All2] by {
      calc {
        SeekFrom(s0);
        { assert ReferenceFactors(s0) == xy && Shrink(s0, xy) == s1; }
        [xy] + SeekFrom(s1);
        { assert ReferenceFactors(s1) == xy && Shrink(s1, xy) == s2; }
        [xy] + ([xy] + SeekFrom(s2));
        { assert ReferenceFactors(s2) == xy && Shrink(s2, xy) == s3; }
        [xy] + ([xy] + ([xy] + SeekFrom(s3)));
        { assert ReferenceFactors(s3) == xy && Shrink(s3, xy) == s4; }
        [xy] + ([xy] + ([xy] + ([xy] + SeekFrom(s4))));
        { assert ReferenceFactors(s4) == All2; }
        [xy, xy, xy, xy, All2];
        { assert Repeat(xy, 4) == [xy, xy, xy, xy]; }
        Repeat(xy, 4) + [All2];
      }
    }
    calc {
      Schedule(s0);
      [Identity] + (Repeat(xy, 4) + [All2]) + Repeat(All2, Padding);
      { AppendAssoc([Identity], Repeat(xy, 4), [All2]); }
      ([Identity] + Repeat(xy, 4) + [All2]) + Repeat(All2, Padding);
      { AppendAssoc([Identity] + Repeat(xy, 4), [All2], Repeat(All2, Padding)); }
      [Identity] + Repeat(xy, 4) + ([All2] + Repeat(All2, Padding));
      { RepeatCons(All2, Padding); }
      [Identity] + Repeat(xy, 4) + Repeat(All2, Padding + 1);
    }
  }

  /**
   * A ratio of exactly 3/2 between the largest and the middle extent rounds up
   * to 2, so only the largest axis is halved; just below it (29/20), the two
   * largest are.
   */
  lemma FactorsAtHalfRatio()
    ensures ReferenceFactors(Triple(3, 2, 2)) == Triple(2, 1, 1)
    ensures ReferenceFactors(Triple(29, 20, 2)) == Triple(2, 2, 1)
  {
  }

  // ---------------------------------------------------------------------------
  // calculate_chunks and calculate_factors
  // ---------------------------------------------------------------------------

  /** What calculate_chunks returns for a profile or level it has no entry for. */
  const DefaultChunks := Triple(64, 64, 64)
  /** What calculate_factors returns for a profile or level it has no entry for. */
  const DefaultFactors := Triple(2, 2, 1)

  /** The table calculate_chunks builds: profile -> level -> chunk shape. */
  const ChunkTable: map<string, map<int, Triple>> := map[
    "full" := map[
      -1 := Triple(1024, 1024, 1),
      0 := Triple(128, 128, 64), 1 := Triple(128, 128, 64), 2 := Triple(128, 128, 64),
      3 := Triple(128, 128, 64), 4 := Triple(128, 128, 64),
      5 := Triple(64, 64, 64), 6 := Triple(64, 64, 64), 7 := Triple(64, 64, 64),
      8 := Triple(64, 64, 64), 9 := Triple(64, 64, 64)]]

  /** The table calculate_factors builds: profile -> level -> factor triple. */
  const FactorTable: map<string, map<int, Triple>> := map[
    "full" := map[
      0 := Triple(2, 2, 1),
      1 := Triple(2, 2, 2), 2 := Triple(2, 2, 2), 3 := Triple(2, 2, 2),
      4 := Triple(2, 2, 2), 5 := Triple(2, 2, 2), 6 := Triple(2, 2, 2),
      7 := Triple(2, 2, 2), 8 := Triple(2, 2, 2), 9 := Triple(2, 2, 2)]]

  /** d[profile][level], or the fallback when either key is missing. */
  function Lookup(table: map<string, map<int, Triple>>, profile: string, level: int, fallback: Triple): Triple
  {
    if profile in table && level in table[profile] then table[profile][level] else fallback
  }

  /**
   * calculate_chunks(downsample, mip): the chunk shape for a resolution level
   * of a profile. Only "full" levels -1..9 have entries; everything else gets
   * the default 64x64x64, never an error.
   */
  function CalculateChunks(downsample: string, mip: int): (r: Triple)
    ensures downsample == "full" && mip == -1 ==> r == Triple(1024, 1024, 1)
    ensures downsample == "full" && 0 <= mip <= 4 ==> r == Triple(128, 128, 64)
    ensures downsample == "full" && 5 <= mip <= 9 ==> r == Triple(64, 64, 64)
    ensures !(downsample == "full" && -1 <= mip <= 9) ==> r == DefaultChunks
  {
    Lookup(ChunkTable, downsample, mip, DefaultChunks)
  }

  /**
   * calculate_factors(downsample, mip): the factor triple for a resolution
   * level of a profile. Only "full" levels 0..9 have entries; everything else,
   * "full" level -1 included, gets the default [2,2,1], never an error.
   */
  function CalculateFactors(downsample: string, mip: int): (r: Triple)
    ensures downsample == "full" && mip == 0 ==> r == Triple(2, 2, 1)
    ensures downsample == "full" && 1 <= mip <= 9 ==> r == All2
    ensures !(downsample == "full" && 0 <= mip <= 9) ==> r == DefaultFactors
    ensures IsHalving(r)
  {
    Lookup(FactorTable, downsample, mip, DefaultFactors)
  }
}
