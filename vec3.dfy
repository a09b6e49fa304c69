/**
 * Three-axis integer vectors: the chunk shapes and per-axis factor triples that
 * the scheduler keeps as three-element Python lists.
 */
module Vec3 {

  /** One integer per spatial axis 0, 1, 2. */
  datatype Triple = Triple(x0: int, x1: int, x2: int)
  {
    /** list[i] */
    function At(i: int): int
      requires 0 <= i < 3
    {
      if i == 0 then x0 else if i == 1 then x1 else x2
    }

    /** The list after list[i] = v. */
    function With(i: int, v: int): (r: Triple)
      requires 0 <= i < 3
      ensures r.At(i) == v
      ensures forall j :: 0 <= j < 3 && j != i ==> r.At(j) == At(j)
    {
      if i == 0 then Triple(v, x1, x2)
      else if i == 1 then Triple(x0, v, x2)
      else Triple(x0, x1, v)
    }
  }

  /** Every extent is strictly positive. */
  predicate Positive(s: Triple)
  {
    s.x0 > 0 && s.x1 > 0 && s.x2 > 0
  }

  function Sum(s: Triple): int
  {
    s.x0 + s.x1 + s.x2
  }

  function Max3(s: Triple): (r: int)
    ensures r == s.x0 || r == s.x1 || r == s.x2
    ensures s.x0 <= r && s.x1 <= r && s.x2 <= r
  {
    if s.x0 >= s.x1 && s.x0 >= s.x2 then s.x0
    else if s.x1 >= s.x2 then s.x1
    else s.x2
  }

  function Min3(s: Triple): (r: int)
    ensures r == s.x0 || r == s.x1 || r == s.x2
    ensures r <= s.x0 && r <= s.x1 && r <= s.x2
  {
    if s.x0 <= s.x1 && s.x0 <= s.x2 then s.x0
    else if s.x1 <= s.x2 then s.x1
    else s.x2
  }

  /** The median extent: what is left once the largest and the smallest are taken out. */
  function Mid3(s: Triple): (r: int)
    ensures Min3(s) <= r <= Max3(s)
    ensures r == s.x0 || r == s.x1 || r == s.x2
  {
    Sum(s) - Max3(s) - Min3(s)
  }
}
