/** Two places where `evaluate` does not compute what a mean squared displacement is.
    For each, a small trajectory shows the as-written result, and a corrected
    definition is given with the property it was evidently meant to have.

    1. The origin loop uses the origin counter `tau` as a frame index and reads the
       "current" positions from frame `delta_t` rather than from the frame being
       visited, so a pair compares frame `f - tau` with frame `tau`.
    2. The output file of the k-th selected name is written from accumulator row k,
       not from the row the registry gives that name. */
module MsdFindings {
  import opened Wrappers
  import opened Vector3
  import opened Frames
  import opened Msd

  /* ---------------------------------------------------------------------------
     Corrected definitions
     ------------------------------------------------------------------------- */

  /** What origin frame `o` adds to lag `d` when pairs compare the frame `o + d` with
      the origin frame `o`. */
  function IntendedContribution(tr: Trajectory, origins: nat, ax: Axis, t: nat, d: nat, o: nat): real
    requires tr.Valid() && OriginSpacingOk(tr, origins) && o < |tr.frames|
  {
    if Registers(o, origins) && o + d < |tr.frames| then TypeSquares(tr, ax, o + d, o, t, tr.n) else 0.0
  }

  /** The intended `msd.<ax>[t][d]`, summed over the origin frames `0..upto-1`. */
  function IntendedLagSum(tr: Trajectory, origins: nat, ax: Axis, t: nat, d: nat, upto: nat): (r: real)
    requires tr.Valid() && OriginSpacingOk(tr, origins) && upto <= |tr.frames|
    ensures r >= 0.0
  {
    if upto == 0 then 0.0
    else IntendedLagSum(tr, origins, ax, t, d, upto - 1) + IntendedContribution(tr, origins, ax, t, d, upto - 1)
  }

  /** The intended `ntime[d]`: the origin frames `o < upto` with a frame `o + d`. */
  function IntendedPairCount(tr: Trajectory, origins: nat, d: nat, upto: nat): (r: nat)
    requires tr.Valid() && OriginSpacingOk(tr, origins) && upto <= |tr.frames|
    ensures 0 < upto && d < |tr.frames| ==> r >= 1
    ensures r <= upto
  {
    if upto == 0 then 0
    else IntendedPairCount(tr, origins, d, upto - 1) + (if Registers(upto - 1, origins) && upto - 1 + d < |tr.frames| then 1 else 0)
  }

  function IntendedBuckets(tr: Trajectory, origins: nat, t: nat, d: nat): Vec3
    requires tr.Valid() && OriginSpacingOk(tr, origins)
  {
    var upto := |tr.frames|;
    Vec3(IntendedLagSum(tr, origins, X, t, d, upto), IntendedLagSum(tr, origins, Y, t, d, upto), IntendedLagSum(tr, origins, Z, t, d, upto))
  }

  /** The intended rows of the file for type `t`: lag `d` averaged over its own pairs. */
  function IntendedRows(tr: Trajectory, origins: nat, t: nat): (r: seq<Row>)
    requires tr.Valid() && OriginSpacingOk(tr, origins)
    ensures |r| == |tr.frames|
    ensures forall d {:trigger r[d]} | 0 <= d < |r| ::
      var count := IntendedPairCount(tr, origins, d, |tr.frames|);
      && count >= 1
      && r[d] == Normalise(tr.frames[d].time, IntendedBuckets(tr, origins, t, d), count)
  {
    seq(|tr.frames|, d requires 0 <= d < |tr.frames| =>
      Normalise(tr.frames[d].time, IntendedBuckets(tr, origins, t, d), IntendedPairCount(tr, origins, d, |tr.frames|)))
  }

  /** The intended files: the file of each selected name holds the rows of that
      name's own registry index. */
  function IntendedReport(tr: Trajectory, origins: nat, stem: string, typeNames: seq<string>): (r: seq<OutputFile>)
    requires tr.Valid() && OriginSpacingOk(tr, origins)
    ensures |r| == |typeNames|
    ensures forall k {:trigger r[k]} | 0 <= k < |r| ::
      r[k].path == OutputPath(stem, typeNames[k]) && r[k].rows == IntendedRows(tr, origins, tr.typeIndex(typeNames[k]))
  {
    seq(|typeNames|, k requires 0 <= k < |typeNames| =>
      OutputFile(OutputPath(stem, typeNames[k]), IntendedRows(tr, origins, tr.typeIndex(typeNames[k]))))
  }

  /** A frame compared with itself has no displacement. */
  lemma {:induction false} SameFrameNoSquares(tr: Trajectory, ax: Axis, a: nat, t: nat, m: nat)
    requires tr.Valid() && a < |tr.frames| && m <= tr.n
    ensures TypeSquares(tr, ax, a, a, t, m) == 0.0
  {
    if m > 0 {
      SameFrameNoSquares(tr, ax, a, t, m - 1);
    }
  }

  /** Under the intended pairing the displacement at lag 0 is zero. */
  lemma {:induction false} IntendedLagZeroIsZero(tr: Trajectory, origins: nat, ax: Axis, t: nat, upto: nat)
    requires tr.Valid() && OriginSpacingOk(tr, origins) && upto <= |tr.frames|
    ensures IntendedLagSum(tr, origins, ax, t, 0, upto) == 0.0
  {
    if upto > 0 {
      IntendedLagZeroIsZero(tr, origins, ax, t, upto - 1);
      SameFrameNoSquares(tr, ax, upto - 1, t, tr.n);
    }
  }

  /** Under the intended output, a selected name no particle has gets an all-zero file. */
  lemma {:induction false} IntendedAbsentTypeStaysZero(tr: Trajectory, origins: nat, ax: Axis, t: nat, d: nat, upto: nat)
    requires tr.Valid() && OriginSpacingOk(tr, origins) && upto <= |tr.frames|
    requires forall i | 0 <= i < tr.n :: tr.TypeOf(i) != t
    ensures IntendedLagSum(tr, origins, ax, t, d, upto) == 0.0
  {
    if upto > 0 {
      IntendedAbsentTypeStaysZero(tr, origins, ax, t, d, upto - 1);
      if upto - 1 + d < |tr.frames| {
        NoParticlesOfTypeNoSquares(tr, ax, upto - 1 + d, upto - 1, t, tr.n);
      }
    }
  }

  /** With an origin at every frame, the intended count of lag `d` over the origin
      frames `0..upto-1` is the number of them that have a frame `d` later. */
  lemma {:induction false} IntendedCountEveryOrigin(tr: Trajectory, d: nat, upto: nat)
    requires tr.Valid() && upto <= |tr.frames|
    ensures IntendedPairCount(tr, 1, d, upto)
      == if d >= |tr.frames| then 0 else if upto <= |tr.frames| - d then upto else |tr.frames| - d
  {
    if upto > 0 {
      IntendedCountEveryOrigin(tr, d, upto - 1);
      assert Registers(upto - 1, 1);
    }
  }

  /** With an origin at every frame the as-written pair counts are the intended ones:
      `F - d` pairs for every lag `d`. The two definitions differ in what the pairs
      compare, not in how many there are. */
  lemma CountsAgreeEveryOrigin(tr: Trajectory, d: nat)
    requires tr.Valid() && d < |tr.frames|
    ensures PairCount(d, |tr.frames|, 1) == |tr.frames| - d
    ensures IntendedPairCount(tr, 1, d, |tr.frames|) == |tr.frames| - d
  {
    EveryFrameAnOrigin(d, |tr.frames|);
    IntendedCountEveryOrigin(tr, d, |tr.frames|);
  }

  /* ---------------------------------------------------------------------------
     Finding 1: one particle moving one unit per frame
     ------------------------------------------------------------------------- */

  /** Three frames; one particle, of type 0, whose x coordinate is 0, 1, 2. The other
      coordinates are left free: the x column does not depend on them. */
  predicate UnitWalk(tr: Trajectory) {
    && tr.Valid() && |tr.frames| == 3 && tr.n == 1 && tr.TypeOf(0) == 0
    && (forall k | 0 <= k < 3 :: tr.frames[k].positions[0].x == k as real)
  }

  /** With a single particle, of type `t`, the sum is that particle's squares. */
  lemma SingleParticleSquares(tr: Trajectory, ax: Axis, a: nat, b: nat, t: nat)
    requires tr.Valid() && a < |tr.frames| && b < |tr.frames| && tr.n == 1 && tr.TypeOf(0) == t
    ensures TypeSquares(tr, ax, a, b, t, 1) == Square(Coord(tr.frames[a].positions[0], ax) - Coord(tr.frames[b].positions[0], ax))
  {
    assert TypeSquares(tr, ax, a, b, t, 1) == 0.0 + AtomSquare(tr, ax, a, b, t, 0);
    assert Coord(Sub(tr.frames[a].positions[0], tr.frames[b].positions[0]), ax)
      == Coord(tr.frames[a].positions[0], ax) - Coord(tr.frames[b].positions[0], ax);
  }

  /** The walker's squared x displacement between frames `a` and `b`. */
  lemma WalkSquares(tr: Trajectory, a: nat, b: nat)
    requires UnitWalk(tr) && a < 3 && b < 3
    ensures a == b ==> TypeSquares(tr, X, a, b, 0, 1) == 0.0
    ensures (a == b + 1 || b == a + 1) ==> TypeSquares(tr, X, a, b, 0, 1) == 1.0
    ensures (a == b + 2 || b == a + 2) ==> TypeSquares(tr, X, a, b, 0, 1) == 4.0
  {
    SingleParticleSquares(tr, X, a, b, 0);
    assert tr.frames[a].positions[0].x == a as real;
    assert tr.frames[b].positions[0].x == b as real;
    var dx := tr.frames[a].positions[0].x - tr.frames[b].positions[0].x;
    assert TypeSquares(tr, X, a, b, 0, 1) == Square(dx);
    if a == b {
      assert dx == 0.0;
    } else if a == b + 1 {
      assert dx == 1.0;
    } else if b == a + 1 {
      assert dx == -1.0;
    } else if a == b + 2 {
      assert dx == 2.0;
    } else {
      assert dx == -2.0;
    }
  }

  /** As written, with an origin at every frame, lag 0 sums the squared distances of
      every frame from frame 0 (0 + 1 + 4) over 3 pairs. */
  lemma AsWrittenWalkLagZero(tr: Trajectory)
    requires UnitWalk(tr)
    ensures LagSum(tr, 1, X, 0, 0, 3) == 5.0 && PairCount(0, 3, 1) == 3
  {
    WalkSquares(tr, 0, 0);
    WalkSquares(tr, 0, 1);
    WalkSquares(tr, 0, 2);
    LagSumEveryOrigin(tr, X, 0, 0, 0);
    LagSumEveryOrigin(tr, X, 0, 0, 1);
    LagSumEveryOrigin(tr, X, 0, 0, 2);
    EveryFrameAnOrigin(0, 3);
  }

  /** As written, lag 1 sums the pairs (frame 1, frame 0) and (frame 1, frame 1):
      1 + 0 over 2 pairs. */
  lemma AsWrittenWalkLagOne(tr: Trajectory)
    requires UnitWalk(tr)
    ensures LagSum(tr, 1, X, 0, 1, 3) == 1.0 && PairCount(1, 3, 1) == 2
  {
    WalkSquares(tr, 1, 0);
    WalkSquares(tr, 1, 1);
    LagSumEveryOrigin(tr, X, 0, 1, 0);
    LagSumEveryOrigin(tr, X, 0, 1, 1);
    LagSumEveryOrigin(tr, X, 0, 1, 2);
    EveryFrameAnOrigin(1, 3);
  }

  /** So lag 0 reports 5/3 where the walker has not moved ... */
  lemma AsWrittenWalkRowZero(tr: Trajectory)
    requires UnitWalk(tr)
    ensures Rows(tr, 1, 0)[0].x == 5.0 / 3.0
  {
    AsWrittenWalkLagZero(tr);
  }

  /** ... and lag 1 reports 0.5 where every step has length 1. */
  lemma AsWrittenWalkRowOne(tr: Trajectory)
    requires UnitWalk(tr)
    ensures Rows(tr, 1, 0)[1].x == 0.5
  {
    AsWrittenWalkLagOne(tr);
  }

  /** With an origin at every frame, origin frame `o` adds the pair (`o + d`, `o`) to
      lag `d` when frame `o + d` exists. */
  lemma IntendedEveryOrigin(tr: Trajectory, ax: Axis, t: nat, d: nat, o: nat)
    requires tr.Valid() && o < |tr.frames|
    ensures IntendedLagSum(tr, 1, ax, t, d, o + 1)
      == IntendedLagSum(tr, 1, ax, t, d, o) + if o + d < |tr.frames| then TypeSquares(tr, ax, o + d, o, t, tr.n) else 0.0
    ensures IntendedPairCount(tr, 1, d, o + 1)
      == IntendedPairCount(tr, 1, d, o) + if o + d < |tr.frames| then 1 else 0
  {
    assert Registers(o, 1);
  }

  /** With the intended pairing, lag 1 sums the pairs (1, 0) and (2, 1). */
  lemma IntendedWalkLagOne(tr: Trajectory)
    requires UnitWalk(tr)
    ensures IntendedLagSum(tr, 1, X, 0, 1, 3) == 2.0 && IntendedPairCount(tr, 1, 1, 3) == 2
  {
    WalkSquares(tr, 1, 0);
    WalkSquares(tr, 2, 1);
    IntendedEveryOrigin(tr, X, 0, 1, 0);
    IntendedEveryOrigin(tr, X, 0, 1, 1);
    IntendedEveryOrigin(tr, X, 0, 1, 2);
  }

  /** With the intended pairing, lag 2 has the single pair (2, 0). */
  lemma IntendedWalkLagTwo(tr: Trajectory)
    requires UnitWalk(tr)
    ensures IntendedLagSum(tr, 1, X, 0, 2, 3) == 4.0 && IntendedPairCount(tr, 1, 2, 3) == 1
  {
    WalkSquares(tr, 2, 0);
    IntendedEveryOrigin(tr, X, 0, 2, 0);
    IntendedEveryOrigin(tr, X, 0, 2, 1);
    IntendedEveryOrigin(tr, X, 0, 2, 2);
  }

  /** So the intended rows give 0 at lag 0, 1 at lag 1 and 4 at lag 2: the squared
      distance covered in d frames. */
  lemma IntendedWalkRowZero(tr: Trajectory)
    requires UnitWalk(tr)
    ensures IntendedRows(tr, 1, 0)[0].x == 0.0
  {
    IntendedLagZeroIsZero(tr, 1, X, 0, 3);
  }

  lemma IntendedWalkRowOne(tr: Trajectory)
    requires UnitWalk(tr)
    ensures IntendedRows(tr, 1, 0)[1].x == 1.0
  {
    IntendedWalkLagOne(tr);
  }

  lemma IntendedWalkRowTwo(tr: Trajectory)
    requires UnitWalk(tr)
    ensures IntendedRows(tr, 1, 0)[2].x == 4.0
  {
    IntendedWalkLagTwo(tr);
  }

  /* ---------------------------------------------------------------------------
     Finding 2: a selected name whose registry index is not its position
     ------------------------------------------------------------------------- */

  /** Two registered types, "B" at index 1; one particle, named "B", whose x coordinate
      is 0 and then 1. */
  predicate MovingB(tr: Trajectory) {
    && tr.Valid() && |tr.frames| == 2 && tr.n == 1 && tr.numTypes == 2
    && tr.frames[0].names[0] == "B" && tr.typeIndex("B") == 1
    && tr.frames[0].positions[0].x == 0.0 && tr.frames[1].positions[0].x == 1.0
  }

  /** As written, the file of "B", the only selected name, is written from row 0,
      which no particle has: every line of it is zero although "B" moves. */
  lemma AsWrittenFileOfB(tr: Trajectory)
    requires MovingB(tr)
    ensures Report(tr, 1, "msd", ["B"])[0].path == "msd_B.dat"
    ensures |Report(tr, 1, "msd", ["B"])[0].rows| == 2
    ensures forall i | 0 <= i < 2 ::
      var row := Report(tr, 1, "msd", ["B"])[0].rows[i];
      row.total == 0.0 && row.x == 0.0 && row.y == 0.0 && row.z == 0.0
  {
    forall d | 0 <= d < 2
      ensures Buckets(tr, 1, 0, d, 2) == Vec3(0.0, 0.0, 0.0)
    {
      AbsentTypeStaysZero(tr, 1, X, 0, d, 2);
      AbsentTypeStaysZero(tr, 1, Y, 0, d, 2);
      AbsentTypeStaysZero(tr, 1, Z, 0, d, 2);
    }
  }

  /** With the intended row selection the file of "B" shows its displacement. */
  lemma IntendedFileOfB(tr: Trajectory)
    requires MovingB(tr)
    ensures IntendedReport(tr, 1, "msd", ["B"])[0].path == "msd_B.dat"
    ensures IntendedReport(tr, 1, "msd", ["B"])[0].rows[1].x == 1.0
  {
    SingleParticleSquares(tr, X, 1, 0, 1);
    IntendedEveryOrigin(tr, X, 1, 1, 0);
    IntendedEveryOrigin(tr, X, 1, 1, 1);
  }
}
