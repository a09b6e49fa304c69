# Downsample scheduler of the precomputed-volume pipeline

The pipeline turns 3-D microscopy volumes into a chunked, multi-resolution
pyramid. Each level of the pyramid is made from the one below it by dividing
every axis by a per-axis factor of 1 or 2. This project models the part that
chooses those factors, `smartspim/raw_atlas_pipeline/precomputed_utils.py`:

- `determine_factors(chunk_size)` is a greedy loop. It starts from a
  three-axis chunk shape and ranks the axes into largest `N`, middle `M` and
  smallest `P` with `numpy.argsort`. From `round(N/M)` and `round(N/P)` it
  picks a triple of factors: halve only the largest axis, halve the two
  largest, or halve all three. It floor-divides the shape by that triple and
  repeats until it picks `[2,2,2]`. It then appends 20 more `[2,2,2]` levels.
  The list it returns starts with `[1,1,1]`.
- `calculate_chunks(downsample, mip)` and `calculate_factors(downsample, mip)`
  look up the chunk shape and the factor triple for a level of the `"full"`
  profile. For any profile or level they have no entry for, they return a
  default instead of failing.

Files:

- `vec3.dfy` (module `Vec3`): a `Triple` datatype for the three-element lists
  the source keeps for shapes and factors. `At(i)` reads `list[i]` and
  `With(i, v)` models `list[i] = v`. It also holds the largest, middle and
  smallest extent of a triple.
- `py_round.dfy` (module `PyRound`): Python's `round` applied to a quotient of
  integers. It rounds half to even.
- `argsort.dfy` (module `NpArgsort`): `numpy.argsort` on three elements. The
  model chooses lower index first for equal extents. The result does not
  depend on that choice (see `SeekStep`).
- `precomputed_utils.dfy` (module `PrecomputedUtils`): the scheduler and the
  two lookup tables.
  - `DetermineFactors` is a method. It keeps the source's `while True` loop,
    with a `decreases` clause on the sum of extents, and its padding `for`
    loop.
  - The body of the seeking loop is the method `SeekStep`.
  - The method is proved against a specification. `ReferenceFactors` states
    the choice rule on values alone. `SeekFrom` lists the seeking triples
    from a shape. `Schedule` is the whole list.
  - The lookup tables are functions over constant maps.

The source's `assert all([x>0 for x in chunk_size])` becomes the error result
`Err(AssertionFailed)`. It is not a precondition.

Python's `round(N/M) > 1` holds exactly when `2N >= 3M`, and `round(N/P) <= 1`
exactly when `2N < 3P`. `RoundAboveOne` proves this. At a ratio of exactly 3/2,
`round` gives 2, so only the largest axis is halved.

Two behaviours of the code that a reader might not expect:

- `determine_factors` stores `[1,1,1]` as entry 0 of its result (line 18), and
  so does `Schedule`.
- Equal extents can be ranked in more than one order. The model chooses lower
  index first. `SeekStep`'s contract holds for any sorted ranking, so it shows
  that every ranking gives the same triple and the choice does not matter.

## Model

| member | source | states |
|---|---|---|
| `PyRound.RoundHalfEven` | smartspim/raw_atlas_pipeline/precomputed_utils.py:28-29 | `round(a/b)`: the result is within 1/2 of a/b, and on an exact half it is the even neighbour |
| `PyRound.RoundAboveOne` | smartspim/raw_atlas_pipeline/precomputed_utils.py:28-32 | `round(N/M) > 1` holds exactly when `2N >= 3M`, in both directions. Negated, this also gives `round(N/P) <= 1` exactly when `2N < 3P` |
| `PyRound.NearestAboveOne` | smartspim/raw_atlas_pipeline/precomputed_utils.py:28-32 | the same equivalence for any integer within 1/2 of a/b that takes exact halves to even, so it depends only on `RoundHalfEven`'s contract |
| `NpArgsort.Argsort` | smartspim/raw_atlas_pipeline/precomputed_utils.py:21-27 | returns each axis once, ordered by non-decreasing extent, with equal extents in index order |
| `NpArgsort.StableRankingUnique` | smartspim/raw_atlas_pipeline/precomputed_utils.py:21-24 | any ranking that is sorted and breaks ties by index is the one `Argsort` returns, so the ranking is determined by its contract |
| `NpArgsort.RankedValues` | smartspim/raw_atlas_pipeline/precomputed_utils.py:25-27 | for any sorted ranking, tied or not, the extents read at positions 2, 1, 0 are the largest, middle and smallest extents |
| `PrecomputedUtils.ReferenceFactors` | smartspim/raw_atlas_pipeline/precomputed_utils.py:20-37 | the factor rule stated on values: every factor is 1 or 2; every axis of largest extent gets 2; the triple is `[2,2,2]` exactly when `2*largest < 3*smallest`; otherwise no axis of smallest extent is halved (no overshoot) |
| `PrecomputedUtils.SeekStep` | smartspim/raw_atlas_pipeline/precomputed_utils.py:20-41 | the loop body, for ANY ranking of the current shape: the chosen triple equals `ReferenceFactors` (tie-independence plus the integer branch rule), and the new shape is the old one floor-divided by it |
| `PrecomputedUtils.Shrink` | smartspim/raw_atlas_pipeline/precomputed_utils.py:38-41 | each new extent is the old one where the factor is 1, and the floor of half of it where the factor is 2 |
| `PrecomputedUtils.HalvedAxesAreLong` | smartspim/raw_atlas_pipeline/precomputed_utils.py:30-41 | before the final step, every axis the rule halves is at least 2 long |
| `PrecomputedUtils.StepProgress` | smartspim/raw_atlas_pipeline/precomputed_utils.py:19-44 | a step that does not pick `[2,2,2]` keeps every extent at least 1 and strictly lowers the sum of extents, so the `while True` loop reaches its `break` |
| `PrecomputedUtils.SeekFrom` | smartspim/raw_atlas_pipeline/precomputed_utils.py:19-44 | the seeking loop's triples: the list is not empty, it ends with `[2,2,2]`, no earlier triple is `[2,2,2]`, and every triple is made of 1s and 2s |
| `PrecomputedUtils.SeekReplay` | smartspim/raw_atlas_pipeline/precomputed_utils.py:19-44 | triple k is the rule applied to the shape that the first k triples produce by floor division, and that shape is still positive |
| `PrecomputedUtils.ScheduleShape` | smartspim/raw_atlas_pipeline/precomputed_utils.py:18-47 | the schedule starts with `[1,1,1]` and is at least 22 long. Its last 21 entries are `[2,2,2]` and no entry before them is. Once `[2,2,2]` appears, every later entry is `[2,2,2]` |
| `PrecomputedUtils.DetermineFactors` | smartspim/raw_atlas_pipeline/precomputed_utils.py:4-48 | fails with the assertion error exactly when some extent is not positive; otherwise returns `Schedule(chunk_size)` |
| `PrecomputedUtils.ScheduleOfCube` | smartspim/raw_atlas_pipeline/precomputed_utils.py:18-47 | `[8,8,8]` gives `[1,1,1]` followed by 21 × `[2,2,2]` |
| `PrecomputedUtils.ScheduleOfUnit` | smartspim/raw_atlas_pipeline/precomputed_utils.py:18-47 | `[1,1,1]` gives `[1,1,1]` followed by 21 × `[2,2,2]`. The scheduler does not clamp extents at 1 |
| `PrecomputedUtils.ScheduleOfSlab` | smartspim/raw_atlas_pipeline/precomputed_utils.py:18-47 | `[1024,1024,64]` gives `[1,1,1]`, then 4 × `[2,2,1]`, then 21 × `[2,2,2]` |
| `PrecomputedUtils.FactorsAtHalfRatio` | smartspim/raw_atlas_pipeline/precomputed_utils.py:28-33 | at a largest-to-middle ratio of exactly 3/2 only the largest axis is halved (`[3,2,2]` gives `[2,1,1]`); just below it, at 29/20, the two largest are (`[29,20,2]` gives `[2,2,1]`) |
| `PrecomputedUtils.CalculateChunks` | smartspim/raw_atlas_pipeline/precomputed_utils.py:50-72 | `"full"` level -1 gives `[1024,1024,1]`; levels 0..4 give `[128,128,64]`; levels 5..9 give `[64,64,64]`; every other profile or level gives the default `[64,64,64]` |
| `PrecomputedUtils.CalculateFactors` | smartspim/raw_atlas_pipeline/precomputed_utils.py:74-94 | `"full"` level 0 gives `[2,2,1]`; levels 1..9 give `[2,2,2]`; every other profile or level, `"full"` level -1 included, gives the default `[2,2,1]`. The result is always a triple of 1s and 2s |

## Left out

- Floating point: the source computes `round(N/M)`, `round(N/P)` and `int(N/D)` on floats. The model computes them on exact integers. The two `round` comparisons can differ from the model only once the middle or smallest extent exceeds 2^52 (about 4.5·10^15). For example, N = 3·2^51+1 and M = P = 2^52+1 give a float `N/M` of exactly 1.5, so `round` gives 2 although `2N < 3M`. The halving `int(N/2)` can differ once an extent exceeds 2^53: 2^54+3 becomes 2^53+2 as a float quotient instead of 2^53+1.
- Input shape: `determine_factors` accepts a list of any length. The model takes exactly three extents. A shorter list fails at `argsort[2]` in the source. With a longer list, `argsort[0..2]` pick the three smallest extents, and if any of them sits at index 3 or beyond, the assignments to `factors` at lines 35-37 raise `IndexError` (for `[4,3,2,1]`, `P_i` is 3). Neither case is modelled.
- `argsort` internals: numpy's sorting algorithm is not modelled, nor the order it gives to equal extents. The model picks lower index first, and tie-independence makes that choice irrelevant to the result.
- The bare `except:` in `calculate_chunks` and `calculate_factors` also catches failures other than a missing key, such as an unhashable `mip`. The model takes string profiles and integer levels only. With those, a missing key is the only failure.
- `lavision/raw_atlas_pipeline/make_precomputed_rawatlas.py` imports `calculate_chunks` and `calculate_factors` (line 20) and calls them (lines 145, 163-164); no caller of `determine_factors` is part of this model. That script and the pipeline's other scripts are outside the model. They do volume-store and task-queue work, read and write TIFF files, keep progress marker files and run worker pools. That is I/O, concurrency and calls into foreign libraries.
- Ratios after the seeking phase: the model states no property about the largest-to-smallest ratio once halving is uniform. Floor-halving can raise that ratio: extents 5 and 3 become 2 and 1. `ScheduleOfUnit` shows that the code goes on halving even below one voxel.
