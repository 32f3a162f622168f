/** What the multi-origin mean-squared-displacement compute accumulates, stated
    declaratively: which frames register time origins, which (frame, origin) pairs
    are counted under which lag, which squared displacements each pair adds, and the
    normalised rows written for each selected type name.

    The definitions follow the loops of `evaluate` as written: the origin list holds
    the origin counter `k + 1`, not a frame index, so the pair (frame `f`, origin
    `tau`) falls under lag `f - tau` and compares frame `f - tau` with frame `tau`.
    Particle types are the names of the first frame. */
module Msd {
  import opened Machine
  import opened Vector3
  import opened Frames

  /** `std::max((int)getNumTypes(), 1)`: the number of accumulator rows. A type count
      of 2^31 or more turns negative under the cast and leaves one row. */
  function TypeSize(numTypes: uint32): (r: nat)
    ensures r >= 1
    ensures 1 <= numTypes < TWO_TO_THE_31 ==> r == numTypes
    ensures numTypes == 0 || numTypes >= TWO_TO_THE_31 ==> r == 1
  {
    var s := SignedOf(numTypes);
    if s >= 1 then s else 1
  }

  /** The trajectory as the compute sees it: its frames, its particle count, its type
      count and its name-to-type registry. */
  datatype Trajectory = Trajectory(frames: seq<Frame>, n: nat, numTypes: uint32, typeIndex: string -> nat)
  {
    /** What `evaluate` relies on without checking it: at least one frame (it reads
        `frames[0]`), frame indices fit in `unsigned int`, every frame holds `n`
        particles, and every name of the first frame has a registry index that is a
        row of the accumulator. */
    predicate Valid() {
      && 1 <= |frames| < TWO_TO_THE_32
      && (forall f | 0 <= f < |frames| :: frames[f].Valid() && frames[f].N() == n)
      && (forall i | 0 <= i < n :: typeIndex(frames[0].names[i]) < TypeSize(numTypes))
    }

    /** The registry index of particle `i`, from the first frame's names. */
    function TypeOf(i: nat): nat
      requires Valid() && i < n
    {
      typeIndex(frames[0].names[i])
    }
  }

  /** `origins` may only be 0 when there is a single frame: `f % origins` is evaluated
      for every frame after the first. */
  predicate OriginSpacingOk(tr: Trajectory, origins: nat) {
    origins > 0 || |tr.frames| == 1
  }

  /* ---------------------------------------------------------------------------
     Time origins and pairs
     ------------------------------------------------------------------------- */

  /** Frame `f` registers a time origin. */
  predicate Registers(f: nat, origins: nat)
    requires origins > 0 || f == 0
  {
    f == 0 || f % origins == 0
  }

  /** `t0` once frame `f` has been visited: the number of origins registered at frames
      `0..f`. */
  function OriginCount(f: nat, origins: nat): (r: nat)
    requires origins > 0 || f == 0
    ensures 1 <= r <= f + 1
  {
    if f == 0 then 1 else OriginCount(f - 1, origins) + (if Registers(f, origins) then 1 else 0)
  }

  lemma MulAtLeast(x: int, b: nat)
    requires x >= 1 && b > 0
    ensures x * b >= b
  {
    var y := x - 1;
    assert y * b >= 0;
    assert x * b == y * b + b;
  }

  /** Euclidean division is determined by quotient and remainder. */
  lemma DivModUnique(a: nat, b: nat, q: int, r: int)
    requires b > 0 && a == q * b + r && 0 <= r < b
    ensures a / b == q && a % b == r
  {
    var q' := a / b;
    var r' := a % b;
    assert a == q' * b + r';
    var e := q - q';
    assert e * b == q * b - q' * b;
    assert e * b == r' - r;
    if e >= 1 {
      MulAtLeast(e, b);
    } else if e <= -1 {
      MulAtLeast(-e, b);
    }
  }

  /** Stepping from `f - 1` to `f` raises the quotient by one exactly when `f` is a
      multiple of `b`. */
  lemma QuotientStep(f: nat, b: nat)
    requires b > 0 && f > 0
    ensures f / b == (f - 1) / b + (if f % b == 0 then 1 else 0)
  {
    var q := (f - 1) / b;
    var r := (f - 1) % b;
    if r == b - 1 {
      DivModUnique(f, b, q + 1, 0);
    } else {
      DivModUnique(f, b, q, r + 1);
    }
  }

  /** After frame `f` there are `f / origins + 1` origins. */
  lemma {:induction false} OriginCountClosedForm(f: nat, origins: nat)
    requires origins > 0
    ensures OriginCount(f, origins) == f / origins + 1
  {
    if f > 0 {
      OriginCountClosedForm(f - 1, origins);
      QuotientStep(f, origins);
    }
  }

  /** The pair (frame `f`, origin `tau`) is filed under lag `d` when `tau = f - d` is
      one of the origins registered by then. */
  predicate PairWithLag(f: nat, d: nat, k: nat) {
    d <= f && f - d < k
  }

  /** `ntime[d]` after the frames `0..upto-1`: the pairs with lag `d` among them. */
  function PairCount(d: nat, upto: nat, origins: nat): (r: nat)
    requires origins > 0 || upto <= 1
    ensures d < upto ==> r >= 1
    ensures r <= upto
  {
    if upto == 0 then 0
    else PairCount(d, upto - 1, origins) + (if PairWithLag(upto - 1, d, OriginCount(upto - 1, origins)) then 1 else 0)
  }

  /** With an origin at every frame, lag `d` is counted once for each frame from `d` on. */
  lemma {:induction false} EveryFrameAnOrigin(d: nat, upto: nat)
    ensures PairCount(d, upto, 1) == if d <= upto then upto - d else 0
  {
    if upto > 0 {
      EveryFrameAnOrigin(d, upto - 1);
      OriginCountClosedForm(upto - 1, 1);
    }
  }

  /* ---------------------------------------------------------------------------
     Squared displacements, one table per axis
     ------------------------------------------------------------------------- */

  /** Particle `i`'s squared displacement along `ax` from frame `b` to frame `a`, if it
      has type `t`: one `diff_pos.x * diff_pos.x` term. */
  function AtomSquare(tr: Trajectory, ax: Axis, a: nat, b: nat, t: nat, i: nat): real
    requires tr.Valid() && a < |tr.frames| && b < |tr.frames| && i < tr.n
  {
    if tr.TypeOf(i) == t then Square(Coord(Sub(tr.frames[a].positions[i], tr.frames[b].positions[i]), ax)) else 0.0
  }

  /** The squared displacements along `ax` of the particles `0..m-1` of type `t`. */
  function TypeSquares(tr: Trajectory, ax: Axis, a: nat, b: nat, t: nat, m: nat): (r: real)
    requires tr.Valid() && a < |tr.frames| && b < |tr.frames| && m <= tr.n
    ensures r >= 0.0
  {
    if m == 0 then 0.0 else TypeSquares(tr, ax, a, b, t, m - 1) + AtomSquare(tr, ax, a, b, t, m - 1)
  }

  /** What frame `f` adds to `msd.<ax>[t][d]` through its first `k` origins: the pair
      with origin `f - d`, comparing frame `d` with frame `f - d`. */
  function FrameContribution(tr: Trajectory, ax: Axis, t: nat, d: nat, f: nat, k: nat): real
    requires tr.Valid() && d < |tr.frames| && f < |tr.frames|
  {
    if PairWithLag(f, d, k) then TypeSquares(tr, ax, d, f - d, t, tr.n) else 0.0
  }

  /** `msd.<ax>[t][d]` after the frames `0..upto-1`. */
  function LagSum(tr: Trajectory, origins: nat, ax: Axis, t: nat, d: nat, upto: nat): (r: real)
    requires tr.Valid() && OriginSpacingOk(tr, origins) && d < |tr.frames| && upto <= |tr.frames|
    ensures r >= 0.0
  {
    if upto == 0 then 0.0
    else LagSum(tr, origins, ax, t, d, upto - 1) + FrameContribution(tr, ax, t, d, upto - 1, OriginCount(upto - 1, origins))
  }

  /** The three tables' entries `[t][d]` side by side. */
  function Buckets(tr: Trajectory, origins: nat, t: nat, d: nat, upto: nat): Vec3
    requires tr.Valid() && OriginSpacingOk(tr, origins) && d < |tr.frames| && upto <= |tr.frames|
  {
    Vec3(LagSum(tr, origins, X, t, d, upto), LagSum(tr, origins, Y, t, d, upto), LagSum(tr, origins, Z, t, d, upto))
  }

  /** With an origin at every frame, frame `f` files one pair under each lag `d <= f`,
      comparing frame `d` with frame `f - d`. */
  lemma LagSumEveryOrigin(tr: Trajectory, ax: Axis, t: nat, d: nat, f: nat)
    requires tr.Valid() && d < |tr.frames| && f < |tr.frames|
    ensures LagSum(tr, 1, ax, t, d, f + 1)
      == LagSum(tr, 1, ax, t, d, f) + if d <= f then TypeSquares(tr, ax, d, f - d, t, tr.n) else 0.0
  {
    OriginCountClosedForm(f, 1);
  }

  /** A type no particle has accumulates nothing. */
  lemma {:induction false} AbsentTypeStaysZero(tr: Trajectory, origins: nat, ax: Axis, t: nat, d: nat, upto: nat)
    requires tr.Valid() && OriginSpacingOk(tr, origins) && d < |tr.frames| && upto <= |tr.frames|
    requires forall i | 0 <= i < tr.n :: tr.TypeOf(i) != t
    ensures LagSum(tr, origins, ax, t, d, upto) == 0.0
  {
    if upto > 0 {
      AbsentTypeStaysZero(tr, origins, ax, t, d, upto - 1);
      var f := upto - 1;
      if PairWithLag(f, d, OriginCount(f, origins)) {
        NoParticlesOfTypeNoSquares(tr, ax, d, f - d, t, tr.n);
      }
    }
  }

  lemma {:induction false} NoParticlesOfTypeNoSquares(tr: Trajectory, ax: Axis, a: nat, b: nat, t: nat, m: nat)
    requires tr.Valid() && a < |tr.frames| && b < |tr.frames| && m <= tr.n
    requires forall i | 0 <= i < tr.n :: tr.TypeOf(i) != t
    ensures TypeSquares(tr, ax, a, b, t, m) == 0.0
  {
    if m > 0 {
      NoParticlesOfTypeNoSquares(tr, ax, a, b, t, m - 1);
    }
  }

  /* ---------------------------------------------------------------------------
     Output rows
     ------------------------------------------------------------------------- */

  /** One output line: the frame's time, then the total and per-axis sums each divided
      by the lag's pair count. */
  datatype Row = Row(time: real, total: real, x: real, y: real, z: real)

  function Normalise(time: real, s: Vec3, count: nat): (r: Row)
    requires count > 0
    ensures r.time == time
    ensures r.x * count as real == s.x && r.y * count as real == s.y && r.z * count as real == s.z
    ensures r.total == r.x + r.y + r.z
  {
    var c := count as real;
    Row(time, (s.x + s.y + s.z) / c, s.x / c, s.y / c, s.z / c)
  }

  datatype OutputFile = OutputFile(path: string, rows: seq<Row>)

  /** `<stem>_<type>.dat` */
  function OutputPath(stem: string, name: string): string {
    stem + "_" + name + ".dat"
  }

  /** The rows of the file for accumulator row `t`: one per frame, in frame order. */
  function Rows(tr: Trajectory, origins: nat, t: nat): (r: seq<Row>)
    requires tr.Valid() && OriginSpacingOk(tr, origins)
    ensures |r| == |tr.frames|
    ensures forall i {:trigger r[i]} | 0 <= i < |r| ::
      var count := PairCount(i, |tr.frames|, origins);
      && count >= 1
      && r[i] == Normalise(tr.frames[i].time, Buckets(tr, origins, t, i, |tr.frames|), count)
  {
    seq(|tr.frames|, i requires 0 <= i < |tr.frames| =>
      Normalise(tr.frames[i].time, Buckets(tr, origins, t, i, |tr.frames|), PairCount(i, |tr.frames|, origins)))
  }

  /** The files `evaluate` writes: one per selected name, in selection order, the k-th
      holding the rows of accumulator row k. */
  function Report(tr: Trajectory, origins: nat, stem: string, typeNames: seq<string>): (r: seq<OutputFile>)
    requires tr.Valid() && OriginSpacingOk(tr, origins) && |typeNames| <= TypeSize(tr.numTypes)
    ensures |r| == |typeNames|
    ensures forall k {:trigger r[k]} | 0 <= k < |r| ::
      r[k].path == OutputPath(stem, typeNames[k]) && r[k].rows == Rows(tr, origins, k)
  {
    seq(|typeNames|, k requires 0 <= k < |typeNames| => OutputFile(OutputPath(stem, typeNames[k]), Rows(tr, origins, k)))
  }
}
