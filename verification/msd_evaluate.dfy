/** `MeanSquaredDisplacement::evaluate` as written: the frame loop that registers time
    origins, the origin loop that files each (frame, origin) pair under its lag, the
    particle loop that adds squared displacements into the type-indexed buckets, and
    the output loop. Each method is proved to compute what the declarative `Msd`
    definitions describe. */
module MsdEvaluate {
  import opened Wrappers
  import opened Machine
  import opened Vector3
  import opened Msd

  datatype MsdError = NeedsTimeData

  /** `rows` accumulator rows of `cols` buckets each; one vector stands for the three
      per-axis arrays `msd.x`, `msd.y`, `msd.z`. */
  predicate Shaped(acc: seq<seq<Vec3>>, rows: nat, cols: nat) {
    |acc| == rows && forall t | 0 <= t < rows :: |acc[t]| == cols
  }

  /** `frame_idx - time0[tau] + 1` in `unsigned int` arithmetic. */
  function LagOf(f: uint32, origin: uint32): uint32 {
    AddU32(SubU32(f, origin), 1)
  }

  /** With `time0[tau] == tau + 1` the lag is `f - tau`: when `tau == f` the subtraction
      wraps to 2^32 - 1 and the addition wraps back to 0. So the lag never exceeds the
      frame index and the `delta_t < frames.size()` guard never rejects a pair. */
  lemma LagWrapCancels(f: uint32, tau: nat)
    requires tau <= f && tau + 1 < TWO_TO_THE_32
    ensures LagOf(f, tau + 1) == f - tau
  {
    if tau == f {
      assert SubU32(f, tau + 1) == TWO_TO_THE_32 - 1;
    }
  }

  /** `t0` before frame `f` is visited. */
  function OriginsBefore(f: nat, origins: nat): nat
    requires origins > 0 || f <= 1
  {
    if f == 0 then 0 else OriginCount(f - 1, origins)
  }

  /** The origin list: entry `k` is the counter value `k + 1`. */
  predicate OriginList(time0: seq<uint32>, count: nat) {
    |time0| == count && forall k | 0 <= k < |time0| :: time0[k] == k + 1
  }

  /** Origin registration at frame `f`: frame 0 and every multiple of `origins` push
      the incremented counter. Afterwards `t0 == f / origins + 1`. */
  method RegisterOrigin(f: uint32, origins: uint32, t0: uint32, time0: seq<uint32>)
    returns (t0': uint32, time0': seq<uint32>)
    requires origins > 0 || f == 0
    requires f + 1 < TWO_TO_THE_32
    requires t0 == OriginsBefore(f, origins) && OriginList(time0, t0)
    ensures t0' == OriginCount(f, origins) && OriginList(time0', t0')
    ensures origins > 0 ==> t0' == f / origins + 1
    ensures time0'[..t0] == time0
  {
    t0', time0' := t0, time0;
    if f == 0 || f % origins == 0 {
      t0' := t0 + 1;
      time0' := time0 + [t0'];
    }
    if origins > 0 {
      OriginCountClosedForm(f, origins);
    }
  }

  /** The particle loop of one pair: every particle adds its squared displacement
      from frame `tau` to frame `d`, axis by axis, into bucket `[its type][d]`. Only
      column `d` changes, and no bucket decreases. */
  method AddPair(tr: Trajectory, acc: seq<seq<Vec3>>, d: nat, tau: nat) returns (next: seq<seq<Vec3>>)
    requires tr.Valid() && d < |tr.frames| && tau < |tr.frames|
    requires Shaped(acc, TypeSize(tr.numTypes), |tr.frames|)
    ensures Shaped(next, TypeSize(tr.numTypes), |tr.frames|)
    ensures forall t, e, ax | 0 <= t < |next| && 0 <= e < |tr.frames| ::
      Coord(next[t][e], ax) == Coord(acc[t][e], ax) + if e == d then TypeSquares(tr, ax, d, tau, t, tr.n) else 0.0
    ensures forall t, e, ax | 0 <= t < |next| && 0 <= e < |tr.frames| :: Coord(acc[t][e], ax) <= Coord(next[t][e], ax)
  {
    next := acc;
    var i := 0;
    assert forall t, ax :: TypeSquares(tr, ax, d, tau, t, 0) == 0.0;
    while i < tr.n
      invariant 0 <= i <= tr.n
      invariant Shaped(next, TypeSize(tr.numTypes), |tr.frames|)
      invariant forall t, e, ax | 0 <= t < |next| && 0 <= e < |tr.frames| ::
        Coord(next[t][e], ax) == Coord(acc[t][e], ax) + if e == d then TypeSquares(tr, ax, d, tau, t, i) else 0.0
    {
      var ty := tr.TypeOf(i);
      var diff := Sub(tr.frames[d].positions[i], tr.frames[tau].positions[i]);
      next := next[ty := next[ty][d := AddSquares(next[ty][d], diff)]];
      i := i + 1;
    }
  }

  /** The accumulators once the frames before `f` are done: bucket `[t][d]` holds
      `LagSum` on each axis and `ntime[d]` holds `PairCount`. */
  predicate Accumulated(tr: Trajectory, origins: nat, acc: seq<seq<Vec3>>, ntime: seq<nat>, f: nat)
    requires tr.Valid() && OriginSpacingOk(tr, origins) && f <= |tr.frames|
  {
    && Shaped(acc, TypeSize(tr.numTypes), |tr.frames|) && |ntime| == |tr.frames|
    && (forall t, d, ax | 0 <= t < |acc| && 0 <= d < |tr.frames| :: Coord(acc[t][d], ax) == LagSum(tr, origins, ax, t, d, f))
    && (forall d | 0 <= d < |tr.frames| :: ntime[d] == PairCount(d, f, origins))
  }

  /** The accumulators part way through frame `f`, after its first `k` origins. */
  predicate AccumulatedPart(tr: Trajectory, origins: nat, acc: seq<seq<Vec3>>, ntime: seq<nat>, f: nat, k: nat)
    requires tr.Valid() && OriginSpacingOk(tr, origins) && f < |tr.frames|
  {
    && Shaped(acc, TypeSize(tr.numTypes), |tr.frames|) && |ntime| == |tr.frames|
    && (forall t, d, ax | 0 <= t < |acc| && 0 <= d < |tr.frames| ::
          Coord(acc[t][d], ax) == LagSum(tr, origins, ax, t, d, f) + FrameContribution(tr, ax, t, d, f, k))
    && (forall d | 0 <= d < |tr.frames| ::
          ntime[d] == PairCount(d, f, origins) + if PairWithLag(f, d, k) then 1 else 0)
  }

  /** The origin loop of frame `f`: the pair with origin `tau` goes to lag `f - tau`,
      counted once in `ntime` and added particle by particle. */
  method ProcessFrame(tr: Trajectory, origins: uint32, f: uint32, time0: seq<uint32>, acc: seq<seq<Vec3>>, ntime: seq<nat>)
    returns (acc': seq<seq<Vec3>>, ntime': seq<nat>)
    requires tr.Valid() && OriginSpacingOk(tr, origins) && f < |tr.frames|
    requires OriginList(time0, OriginCount(f, origins))
    requires Accumulated(tr, origins, acc, ntime, f)
    ensures Accumulated(tr, origins, acc', ntime', f + 1)
  {
    acc', ntime' := acc, ntime;
    var tau := 0;
    while tau < |time0|
      invariant 0 <= tau <= |time0|
      invariant AccumulatedPart(tr, origins, acc', ntime', f, tau)
    {
      var delta := LagOf(f, time0[tau]);
      LagWrapCancels(f, tau);
      if delta < |tr.frames| {
        ntime' := ntime'[delta := ntime'[delta] + 1];
        acc' := AddPair(tr, acc', delta, tau);
      }
      tau := tau + 1;
    }
  }

  /** The frame loop: every frame registers its origin, if it is one, and then has
      its pairs accumulated. */
  method Accumulate(tr: Trajectory, origins: uint32) returns (acc: seq<seq<Vec3>>, ntime: seq<nat>)
    requires tr.Valid() && OriginSpacingOk(tr, origins)
    ensures Accumulated(tr, origins, acc, ntime, |tr.frames|)
  {
    acc := seq(TypeSize(tr.numTypes), _ => seq(|tr.frames|, _ => Zero));
    ntime := seq(|tr.frames|, _ => 0);
    var time0: seq<uint32> := [];
    var t0: uint32 := 0;
    var f := 0;
    while f < |tr.frames|
      invariant 0 <= f <= |tr.frames|
      invariant t0 == OriginsBefore(f, origins) && OriginList(time0, t0)
      invariant Accumulated(tr, origins, acc, ntime, f)
    {
      t0, time0 := RegisterOrigin(f, origins, t0, time0);
      acc, ntime := ProcessFrame(tr, origins, f, time0, acc, ntime);
      f := f + 1;
    }
  }

  /** The rows of one output file: frame `i`'s time and bucket `[t][i]` divided by
      `ntime[i]`. */
  method WriteRows(tr: Trajectory, origins: uint32, t: nat, acc: seq<seq<Vec3>>, ntime: seq<nat>) returns (out: seq<Row>)
    requires tr.Valid() && OriginSpacingOk(tr, origins) && t < TypeSize(tr.numTypes)
    requires Accumulated(tr, origins, acc, ntime, |tr.frames|)
    ensures out == Rows(tr, origins, t)
  {
    out := [];
    var i := 0;
    while i < |tr.frames|
      invariant 0 <= i <= |tr.frames|
      invariant out == Rows(tr, origins, t)[..i]
    {
      assert acc[t][i] == Buckets(tr, origins, t, i, |tr.frames|) by {
        assert Coord(acc[t][i], X) == LagSum(tr, origins, X, t, i, |tr.frames|);
        assert Coord(acc[t][i], Y) == LagSum(tr, origins, Y, t, i, |tr.frames|);
        assert Coord(acc[t][i], Z) == LagSum(tr, origins, Z, t, i, |tr.frames|);
      }
      out := out + [Normalise(tr.frames[i].time, acc[t][i], ntime[i])];
      i := i + 1;
    }
  }

  /** `evaluate`: fails before accumulating anything when the first frame has no
      time; otherwise writes exactly the files `Report` describes, the k-th selected
      name's file from accumulator row k. */
  method Evaluate(tr: Trajectory, origins: uint32, stem: string, typeNames: seq<string>)
    returns (r: Result<seq<OutputFile>, MsdError>)
    requires tr.Valid() && OriginSpacingOk(tr, origins) && |typeNames| <= TypeSize(tr.numTypes)
    ensures r.Failure? <==> !tr.frames[0].hasTime
    ensures r.Success? ==> r.value == Report(tr, origins, stem, typeNames)
  {
    if !tr.frames[0].hasTime {
      return Failure(NeedsTimeData);
    }
    var acc, ntime := Accumulate(tr, origins);
    var files: seq<OutputFile> := [];
    var k := 0;
    while k < |typeNames|
      invariant 0 <= k <= |typeNames|
      invariant files == Report(tr, origins, stem, typeNames)[..k]
    {
      var out := WriteRows(tr, origins, k, acc, ntime);
      files := files + [OutputFile(OutputPath(stem, typeNames[k]), out)];
      k := k + 1;
    }
    return Success(files);
  }
}
