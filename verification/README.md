# mdalyzer core in Dafny: the `.gro` reader and the mean-squared-displacement compute

This project models two sequential pieces of the mdalyzer molecular-dynamics
post-processing library and proves properties of them.

- **`GROTrajectory`**, the fixed-column GROMACS `.gro` reader. It turns the lines of
  the attached files into frames. For each frame it does the following:
  - takes the time after the first `t=` of a comment line;
  - reads an unsigned particle count N;
  - reads N fixed-column particle lines, whose field width depends on `precision`;
  - reconciles 1-based particle ids into 0-based slots, with an auto-numbering latch;
  - reads a box line with three mandatory numbers and up to six optional ones.

  Every parser is a pure function over `seq<string>` that returns a `Result`, or the
  frames read plus the error that stopped the read. Each parser also returns the lines
  it did not consume, just as successive `getline` calls leave the rest of the stream
  unread.
- **`MeanSquaredDisplacement`**, the multi-origin MSD compute, and its ordered list of
  selected type names (`addType`, `deleteType`). `evaluate` is modelled twice:
  - declaratively, in module `Msd`: which frames register time origins, which
    (frame, origin) pairs are filed under which lag, what squared displacements they
    add, and the normalised output rows;
  - imperatively, in module `MsdEvaluate`: methods that follow the C++ loops. Each
    method is proved to compute the declarative definition, with loop invariants that
    track `t0`, `time0`, `ntime` and the accumulators.

Modules:

| module | file | contents |
|---|---|---|
| `Wrappers` | wrappers.dfy | `Option`, `Result` |
| `Machine` | machine.dfy | `unsigned int` / `int` ranges, wrap-around subtraction and addition, `(int)` cast |
| `Vector3` | vector3.dfy | `Vector3<double>` with `real` components, axes, `TriclinicBox` |
| `Frames` | frame.dfy | `Frame` and its setters |
| `Text` | text.dfy | `boost::algorithm::trim`, `substr`, `find`, and the abstract numeric conversions |
| `GroTrajectory` | gro_trajectory.dfy | the reader |
| `TypeSelection` | type_selection.dfy | `addType`, `deleteType` |
| `Msd` | msd.dfy | declarative MSD |
| `MsdEvaluate` | msd_evaluate.dfy | `evaluate`, loop by loop |
| `MsdFindings` | msd_findings.dfy | two discrepancies in `evaluate`, each with a corrected definition |

The numeric text conversions (`istream >> double`, `istream >> unsigned int`,
`strtod`, `atoi`) are not modelled internally. They are fields of a `NumericText`
record that every parser takes as a parameter, so each property holds for every
conversion behaviour. `istream >> double` reports one of three outcomes:
- a value and the rest of the text;
- nothing left (only whitespace remained, and the target is untouched);
- a malformed token (since C++11 the target is set to 0).

The type registry `getTypeByName` is a parameter too: a total function from name to
index.

Four facts about the code decide the shape of the model:

- **Where types come from.** `evaluate` reads the particle names of the first frame
  once (MeanSquaredDisplacement.cc:57). It looks up every particle's type from those
  names for every pair of frames (MeanSquaredDisplacement.cc:83). Names that later
  frames carry play no part.
- **Which frames a pair compares.** A pair compares frame `delta_t` with frame `tau`
  (MeanSquaredDisplacement.cc:73-80). Here `tau` is the origin's position in the
  origin list, not a frame index (see Findings).
- **Pair counts.** Every lag `d < F` gets the pair (frame `d`, origin 0), so
  `ntime[d] >= 1` and the normalisation never divides by zero. `PairCount` proves it.
- **The ninth box field.** The box line is read as v1.x, v2.y, v3.z, then v1.y, v1.z,
  v2.x, v2.z, v3.x, v3.z (GROTrajectory.cc:157-173). So a ninth number overwrites
  `v3.z`, and `v3.y` is never read.

## Model

| member | source | states |
|---|---|---|
| `GroTrajectory.ReadLine` | libmdalyzer/trajectories/GROTrajectory.cc:195-230 | A line shorter than `21 + 5*(precision+5)` is rejected with the too-short error, and every longer line is accepted. Then the name is the trimmed `line[10..15)` and the id is `atoi(line[15..20))`. The six numeric fields of width `precision+5` start at column 20 and follow one another, giving pos.x..z and vel.x..z. With the minimum length and the column offsets computed on unbounded integers, no `substr` goes out of range; the C++ `unsigned int` arithmetic keeps this only for field widths below 858,993,455 (see "## Left out"). |
| `GroTrajectory.FieldValue` | libmdalyzer/trajectories/GROTrajectory.cc:211-229 | `strtod` of a field succeeds exactly when its start is within the line, and then reads the field cut at the end of the line. |
| `GroTrajectory.PlaceParticle` | libmdalyzer/trajectories/GROTrajectory.cc:113-129 | An id is accepted exactly when auto-numbering is on, or the id is in `1..N` with `N < 2^31` (the `(int)` cast), or it is a 0 id on the first particle. The slot is always below N. It is `id-1` without auto-numbering and the read position with it. Auto-numbering is on afterwards exactly when it was already on or the id was not in `1..N`. Anything else is the ids-run-1-to-N error. |
| `GroTrajectory.StoreParticle` | libmdalyzer/trajectories/GROTrajectory.cc:131-138 | The slot gets the position and velocity. It gets the name only when the trimmed name is non-empty, and otherwise keeps its old one. The particle count, the time and the box are unchanged. |
| `GroTrajectory.StoreParticleKeepsOtherSlots` | libmdalyzer/trajectories/GROTrajectory.cc:131-138 | Every slot other than the one written keeps its position, velocity and name. |
| `GroTrajectory.ReadParticles` | libmdalyzer/trajectories/GROTrajectory.cc:104-145 | On success the frame keeps its particle count, time and box, and exactly N − cur lines are consumed. Running out of lines first is an error. |
| `GroTrajectory.ParseFailureStep` | libmdalyzer/trajectories/GROTrajectory.cc:104-111 | A particle line that `readLine` rejects stops the loop with that line's error. |
| `GroTrajectory.IdOutsideStep` | libmdalyzer/trajectories/GROTrajectory.cc:113-129 | Without auto-numbering, a parsed id outside `1..N` (or any id when N is not below 2^31) that is not a 0 id on the first particle stops the loop with the ids-run-1-to-N error. |
| `GroTrajectory.AutoNumberingReadsAll` | libmdalyzer/trajectories/GROTrajectory.cc:104-145 | With auto-numbering on, the loop succeeds exactly when its N − cur particle lines are there and every one parses. |
| `GroTrajectory.ReadsWithoutAutoNumbering` | libmdalyzer/trajectories/GROTrajectory.cc:104-145 | With auto-numbering off, the loop succeeds exactly when its N − cur particle lines are there and all parse, and either the first particle of the frame has id 0 or every id is in `1..N` with N below 2^31. |
| `GroTrajectory.AutoNumberingRunsOut` | libmdalyzer/trajectories/GROTrajectory.cc:104-145 | With auto-numbering on, lines that all parse but stop before the N − cur particle lines end the loop with the count-mismatch error. |
| `GroTrajectory.RunsOutWithoutAutoNumbering` | libmdalyzer/trajectories/GROTrajectory.cc:104-145 | With auto-numbering off, lines that all parse, and whose ids are all in `1..N` (N below 2^31) or start with a 0 id on the frame's first particle, but that stop before the N − cur particle lines, end the loop with the count-mismatch error. |
| `GroTrajectory.ReadParticlesLeavesRest` | libmdalyzer/trajectories/GROTrajectory.cc:104-145 | A successful loop leaves exactly the lines after its N − cur particle lines, for the box line to read. |
| `GroTrajectory.StoreThenFillIsReadOrder` | libmdalyzer/trajectories/GROTrajectory.cc:131-140 | If the first line's particle is stored in slot `cur` and the rest are filled in read order from `cur + 1`, then all lines are filled in read order from `cur`. |
| `GroTrajectory.AutoNumberingFillsInReadOrder` | libmdalyzer/trajectories/GROTrajectory.cc:118-138 | Once auto-numbering is on, the k-th line read fills slot `cur + k`, whatever its id field says. The slot gets the line's position and velocity, and its trimmed name unless that is empty, in which case the slot keeps its old name. Slots before `cur` keep their position, velocity and name. |
| `GroTrajectory.FirstIdZeroFillsInReadOrder` | libmdalyzer/trajectories/GROTrajectory.cc:118-138 | A 0 id on the first particle latches auto-numbering. So every particle's position, velocity and non-empty name go to the slot of its read position. |
| `GroTrajectory.SequentialIdsAsAutoNumbering` | libmdalyzer/trajectories/GROTrajectory.cc:113-129 | Without auto-numbering, ids that count up `cur+1, cur+2, …` in read order give the same outcome as auto-numbering: the same frame or error and the same lines left. |
| `GroTrajectory.SequentialIdsFillInReadOrder` | libmdalyzer/trajectories/GROTrajectory.cc:113-138 | Without auto-numbering, ids that run `cur+1, cur+2, …` in read order put each particle's position, velocity and non-empty name in the slot of its read position. Slots before `cur` keep theirs. |
| `GroTrajectory.CommentTime` | libmdalyzer/trajectories/GROTrajectory.cc:64-79 | The result is the time-required error exactly when no first `t=` has a character after it. It is the must-follow error exactly when the text after the first `t=` does not begin with a number. It succeeds exactly when that text begins with a number, and then the time is that number. |
| `GroTrajectory.OptionalFieldsFollowScan` | libmdalyzer/trajectories/GROTrajectory.cc:162-181 | The nested optional reads from field k on set field j's component (v1.y v1.z v2.x v2.z v3.x v3.z) only when every field before j was read. A malformed token stores 0 and stops. Components not reached keep their values. |
| `GroTrajectory.ReadBox` | libmdalyzer/trajectories/GROTrajectory.cc:147-190 | The line fails with the box-required error exactly when fewer than three numbers can be read from it. Otherwise the box has the first three numbers on the diagonal. The optional numbers fill the off-diagonals greedily, a ninth overwrites `v3.z`, `v3.y` is 0, and unread components are 0. |
| `GroTrajectory.ReadFrame` | libmdalyzer/trajectories/GROTrajectory.cc:62-191 | A frame read is complete (time and box set). Its time is the comment line's time, and N is the value read from the count line. Its box is the box line read after exactly N particle lines. It consumes N + 2 lines after the comment. Its particle slots are exactly what the particle loop produces when it runs over the lines after the count. The loop uses `ReadLine`, starts from a new frame of N particles carrying that time, and starts with auto-numbering off. |
| `GroTrajectory.ReadFrameOutcome` | libmdalyzer/trajectories/GROTrajectory.cc:62-191 | A frame reads exactly when the comment gives a time, the count line is there and reads as N, the particle loop over the next lines succeeds, at least N + 2 lines follow the comment, and the box line after the N particle lines reads. Each failure has its error: a bad comment gives its time error; a missing or unreadable count line gives the particle-count error; a failing particle loop gives the loop's own error; running out of lines just before the box line, or a box line with fewer than three numbers, gives the box-required error. |
| `GroTrajectory.ReadParticlesIgnoresLater` | libmdalyzer/trajectories/GROTrajectory.cc:104-145 | The particle loop reads only its N − cur lines: appending lines to its input gives the same frame and appends them to the lines it leaves. |
| `GroTrajectory.ReadFrameIgnoresLater` | libmdalyzer/trajectories/GROTrajectory.cc:62-191 | A frame that reads uses only its own N + 2 lines: with more lines appended it reads the same frame and leaves the appended lines after its own rest. |
| `GroTrajectory.ReadFrameInReadOrder` | libmdalyzer/trajectories/GROTrajectory.cc:88-140 | In a frame read with N below 2^31, suppose the particle lines' ids count 1..N or the first id is 0. Then every particle line's position, velocity and non-empty name sit in the slot of its read position. |
| `GroTrajectory.ReadFromFile` | libmdalyzer/trajectories/GROTrajectory.cc:51-193 | Every frame returned is complete, and the frames fit in the lines of the file. When the first line is not empty it opens a frame. If that frame does not read, its error ends the file with no frames; if it does, it is the file's first frame. |
| `GroTrajectory.ReadFromFileConcat` | libmdalyzer/trajectories/GROTrajectory.cc:51-193 | When a file's lines read to their end without an error, any lines appended after them read on: the frames are those of the first part followed by those of the second, and the error is the second part's. |
| `GroTrajectory.EmptyLinesSkipped` | libmdalyzer/trajectories/GROTrajectory.cc:56-60 | Empty lines before a comment line do not change what a file reads as. |
| `GroTrajectory.ReadFiles` | libmdalyzer/trajectories/GROTrajectory.cc:31-41 | A read that ends without an error found every attached file. |
| `GroTrajectory.ReadFilesComplete` | libmdalyzer/trajectories/GROTrajectory.cc:31-41 | Every frame read from the attached files is complete when the per-file reader only returns complete frames, as `ReadFromFile` does. |
| `GroTrajectory.Read` | libmdalyzer/trajectories/GROTrajectory.cc:29-43 | The frames already held are kept as a prefix. After them come exactly the frames that reading the attached files in order with `ReadFromFile` yields, and every frame appended is complete. The error is the one that stopped that read. The must-read flag stays set only if it was set and some file failed. |
| `GroTrajectory.ReadFilesInOrder` | libmdalyzer/trajectories/GROTrajectory.cc:31-41 | Reading files `a + b` reads `a`. It then reads `b` only if every file of `a` read without error. |
| `GroTrajectory.MissingFileStopsRead` | libmdalyzer/trajectories/GROTrajectory.cc:34-38 | The first attached file that cannot be opened stops the read with an error naming its path. The frames read are those of the files before it. |
| `Text.TrimRemovesOuterSpace` | libmdalyzer/trajectories/GROTrajectory.cc:208-209 | The trimmed name is an infix of the field with only whitespace around it. When non-empty it starts and ends with a non-space, and it is empty exactly when the field is all whitespace. |
| `Text.Substr` | libmdalyzer/trajectories/GROTrajectory.cc:208-229 | `substr(pos, len)` is defined exactly when `pos <= |s|`. It is then the `min(len, |s|-pos)` characters from `pos`. |
| `Text.Find` | libmdalyzer/trajectories/GROTrajectory.cc:66 | `find` returns the first position where the pattern occurs, and none exactly when it occurs nowhere. |
| `Frames.NewFrame` | libmdalyzer/trajectories/GROTrajectory.cc:90 | A new frame of N particles has N positions, velocities and names, all at default values, and no time or box. |
| `TypeSelection.IndexOf` | libmdalyzer/computes/MeanSquaredDisplacement.cc:20 | `std::find`: none exactly when the name is absent. Otherwise it is the first position holding the name. |
| `TypeSelection.AddType` | libmdalyzer/computes/MeanSquaredDisplacement.cc:18-25 | The result holds exactly the old names plus the new one. The old list is its prefix, it grows by at most one, and it is unchanged if the name was present. A duplicate-free list stays duplicate-free. |
| `TypeSelection.DeleteType` | libmdalyzer/computes/MeanSquaredDisplacement.cc:26-37 | It fails, naming the name, exactly when the name is absent. Otherwise the result is the list with its first occurrence of the name cut out. |
| `TypeSelection.DeleteRemovesExactlyThatName` | libmdalyzer/computes/MeanSquaredDisplacement.cc:26-37 | On a duplicate-free list, deleting a present name leaves a duplicate-free list holding every other name and not that one. |
| `TypeSelection.DeleteUndoesAdd` | libmdalyzer/computes/MeanSquaredDisplacement.cc:18-37 | Deleting a name just added gives back the original list. |
| `TypeSelection.AddThenDeleteDropsName` | libmdalyzer/computes/MeanSquaredDisplacement.cc:18-37 | On a duplicate-free list, add followed by delete always succeeds and leaves the name absent. |
| `Msd.TypeSize` | libmdalyzer/computes/MeanSquaredDisplacement.cc:52 | `max((int)numTypes, 1)`: the type count when it is below 2^31 and non-zero, and 1 otherwise. |
| `Msd.OriginCountClosedForm` | libmdalyzer/computes/MeanSquaredDisplacement.cc:61-68 | After frame f there are `f / origins + 1` registered origins. |
| `Msd.PairCount` | libmdalyzer/computes/MeanSquaredDisplacement.cc:59-76 | `ntime[d]` never exceeds the number of frames visited, and it is at least 1 for every lag below it, so the normalisation never divides by zero. |
| `Msd.EveryFrameAnOrigin` | libmdalyzer/computes/MeanSquaredDisplacement.cc:59-76 | With `origins == 1`, `ntime[d] == F - d`. |
| `Msd.TypeSquares` | libmdalyzer/computes/MeanSquaredDisplacement.cc:81-90 | The squared displacements a pair adds to a bucket are non-negative. |
| `Msd.LagSum` | libmdalyzer/computes/MeanSquaredDisplacement.cc:62-93 | Every accumulator entry stays non-negative. |
| `Msd.LagSumEveryOrigin` | libmdalyzer/computes/MeanSquaredDisplacement.cc:62-93 | With an origin at every frame, frame f adds to lag `d <= f` exactly the squares between frames d and `f - d`. |
| `Msd.AbsentTypeStaysZero` | libmdalyzer/computes/MeanSquaredDisplacement.cc:81-90 | A type that no particle of the first frame has keeps all-zero buckets. |
| `Msd.NoParticlesOfTypeNoSquares` | libmdalyzer/computes/MeanSquaredDisplacement.cc:83-90 | If no particle has type t, a pair adds nothing to row t. |
| `Msd.Normalise` | libmdalyzer/computes/MeanSquaredDisplacement.cc:109-116 | A row keeps the frame's time. Each per-axis value times the pair count is the bucket, and the total is the sum of the three per-axis values. |
| `MsdEvaluate.LagWrapCancels` | libmdalyzer/computes/MeanSquaredDisplacement.cc:73-74 | With `time0[tau] == tau + 1`, the lag `frame_idx - time0[tau] + 1` in unsigned arithmetic is `frame_idx - tau`. So the `delta_t < F` guard never rejects. |
| `MsdEvaluate.RegisterOrigin` | libmdalyzer/computes/MeanSquaredDisplacement.cc:64-68 | After frame f, `t0 == f / origins + 1`, `time0[k] == k + 1` for every k, and earlier entries are unchanged. |
| `MsdEvaluate.AddPair` | libmdalyzer/computes/MeanSquaredDisplacement.cc:81-91 | The particle loop adds to `[t][d]`, on each axis, the squared displacements of the type-t particles between frames d and tau. No other bucket changes and no bucket decreases. |
| `MsdEvaluate.ProcessFrame` | libmdalyzer/computes/MeanSquaredDisplacement.cc:70-93 | The origin loop of frame f moves the accumulators and `ntime` from their values after frames `0..f-1` to those after `0..f`. |
| `MsdEvaluate.Accumulate` | libmdalyzer/computes/MeanSquaredDisplacement.cc:59-94 | After the frame loop every bucket holds `LagSum` and every `ntime[d]` holds `PairCount`. |
| `MsdEvaluate.WriteRows` | libmdalyzer/computes/MeanSquaredDisplacement.cc:106-118 | One row per frame, in frame order. Row i is frame i's time and bucket `[t][i]` normalised by `ntime[i]`. |
| `MsdEvaluate.Evaluate` | libmdalyzer/computes/MeanSquaredDisplacement.cc:39-121 | It fails exactly when the first frame has no time. Otherwise it writes one file per selected name, in selection order. The file is named `<stem>_<name>.dat`, and the k-th file holds the rows of accumulator row k. |
| `MsdFindings.AsWrittenWalkRowZero` | libmdalyzer/computes/MeanSquaredDisplacement.cc:73-90 | As written, a particle at x = 0, 1, 2 in three frames with an origin at every frame reports 5/3 at lag 0, where it has not moved. |
| `MsdFindings.AsWrittenWalkRowOne` | libmdalyzer/computes/MeanSquaredDisplacement.cc:73-90 | As written, the same walker reports 0.5 at lag 1, where every step has length 1. |
| `MsdFindings.AsWrittenWalkLagZero` | libmdalyzer/computes/MeanSquaredDisplacement.cc:73-90 | As written, lag 0 of the walker sums 0 + 1 + 4 over 3 pairs. |
| `MsdFindings.AsWrittenWalkLagOne` | libmdalyzer/computes/MeanSquaredDisplacement.cc:73-90 | As written, lag 1 of the walker sums 1 + 0 over 2 pairs. |
| `MsdFindings.WalkSquares` | libmdalyzer/computes/MeanSquaredDisplacement.cc:84-88 | The walker's squared x displacement between frames a and b is 0, 1 or 4 for `|a - b|` = 0, 1 or 2. |
| `MsdFindings.SingleParticleSquares` | libmdalyzer/computes/MeanSquaredDisplacement.cc:81-90 | With one particle, of type t, a pair adds that particle's squared displacement. |
| `MsdFindings.IntendedLagSum` | libmdalyzer/computes/MeanSquaredDisplacement.cc:70-90 | With the pairing corrected to compare frame `o + d` with origin frame o, the corrected buckets stay non-negative. |
| `MsdFindings.IntendedPairCount` | libmdalyzer/computes/MeanSquaredDisplacement.cc:70-76 | The corrected pair count is at most the number of origin frames, and at least 1 for every lag. |
| `MsdFindings.SameFrameNoSquares` | libmdalyzer/computes/MeanSquaredDisplacement.cc:84-90 | A frame compared with itself adds nothing. |
| `MsdFindings.IntendedLagZeroIsZero` | libmdalyzer/computes/MeanSquaredDisplacement.cc:70-90 | With the corrected pairing, lag 0 is always zero. |
| `MsdFindings.IntendedAbsentTypeStaysZero` | libmdalyzer/computes/MeanSquaredDisplacement.cc:81-90 | With the corrected pairing, a type that no particle has keeps all-zero buckets. |
| `MsdFindings.IntendedCountEveryOrigin` | libmdalyzer/computes/MeanSquaredDisplacement.cc:59-76 | With an origin at every frame, the corrected count of lag d over the first origins is the number of them that have a frame d later. |
| `MsdFindings.CountsAgreeEveryOrigin` | libmdalyzer/computes/MeanSquaredDisplacement.cc:59-76 | With an origin at every frame, the as-written and corrected pair counts both equal `F - d`. The two pairings differ in what they compare, not in how many pairs there are. |
| `MsdFindings.IntendedEveryOrigin` | libmdalyzer/computes/MeanSquaredDisplacement.cc:70-90 | With the corrected pairing and an origin at every frame, origin frame o adds the pair (o + d, o) to lag d when that frame exists. |
| `MsdFindings.IntendedWalkLagOne` | libmdalyzer/computes/MeanSquaredDisplacement.cc:70-90 | With the corrected pairing, the walker's lag 1 sums the pairs (1, 0) and (2, 1): 2 over 2 pairs. |
| `MsdFindings.IntendedWalkLagTwo` | libmdalyzer/computes/MeanSquaredDisplacement.cc:70-90 | With the corrected pairing, the walker's lag 2 has the single pair (2, 0): 4 over 1 pair. |
| `MsdFindings.IntendedWalkRowZero` | libmdalyzer/computes/MeanSquaredDisplacement.cc:106-116 | The corrected rows give 0 at lag 0. |
| `MsdFindings.IntendedWalkRowOne` | libmdalyzer/computes/MeanSquaredDisplacement.cc:106-116 | The corrected rows give 1 at lag 1. |
| `MsdFindings.IntendedWalkRowTwo` | libmdalyzer/computes/MeanSquaredDisplacement.cc:106-116 | The corrected rows give 4 at lag 2. |
| `MsdFindings.IntendedReport` | libmdalyzer/computes/MeanSquaredDisplacement.cc:99-120 | With the row selection corrected, the file of each selected name is `<stem>_<name>.dat` and holds the rows of that name's registry index. |
| `MsdFindings.AsWrittenFileOfB` | libmdalyzer/computes/MeanSquaredDisplacement.cc:99-116 | Suppose two types are registered with "B" at index 1, and one particle named "B" moves by 1. Selecting only "B" writes `msd_B.dat` from row 0. Both of its lines are 0 in the total and in x, y and z. |
| `MsdFindings.IntendedFileOfB` | libmdalyzer/computes/MeanSquaredDisplacement.cc:99-116 | With the corrected row selection, the same file shows the particle's squared displacement, 1, at lag 1. |

## Left out

- File I/O. Opening a file is modelled by whether its lines are given (`SourceFile`
  holds `None` for a file that cannot be opened). Writing produces `OutputFile`
  values. The header line `time msd-total  -x  -y  -z`, the tab separators and
  `outf.precision(4)` are not modelled.
- Floating point. `double` positions and the `float` accumulators are `real`, so
  rounding and the float/double conversions are not modelled.
- Numeric text conversion internals. `strtod`, `atoi`, `istream >> double` and
  `istream >> unsigned int` are abstract functions passed as parameters.
- The Python bindings (`export_GROTrajectory`, `export_MeanSquaredDisplacement`) and
  mdalyzer/compute.py, a thin wrapper around a compute whose code is not part of this
  model.
- `Trajectory` internals. The reload on `getFrames` and the name registry are
  Trajectory.h/.cc, which are not part of this model. The registry is a function
  parameter. `evaluate` requires that every name of the first frame maps to a row
  below `max(numTypes, 1)`, that every frame holds N particles, and that at least one
  frame exists; the C++ indexes out of bounds otherwise.
- Frame.h and TriclinicBox.h are not part of this model. `Frame` and `TriclinicBox`
  are plain datatypes with sequence-update setters.
- `Frames.NewFrame`: the zero positions and velocities, empty names and absent time
  and box of `new Frame(n)` are assumed, because Frame.h is not part of this model.
  They decide what a slot that no particle line wrote holds, as with duplicate ids.
- Bytes. A line is a `seq<char>` and each `char` stands for one byte of the file. The
  C++ columns count bytes (`substr(10,5)`, `substr(15,5)`, `20 + k*w`,
  `line.length()`). A multi-byte UTF-8 character in a name would shift the later C++
  columns, but not the model's.
- `GroTrajectory.ReadLine`: the field width `precision + 5`, the minimum length
  `21 + 5*(precision + 5)` and the column offsets `20 + k*(precision + 5)` are computed
  on `nat`. In C++, `precision + 5` is `unsigned int` arithmetic (GROTrajectory.cc:20)
  and `extract` is an `unsigned int` (GROTrajectory.cc:213-227); the members'
  declarations are in GROTrajectory.h, which is not part of this model. With 32-bit
  members these wrap modulo 2^32: the field width for a precision within 5 of 2^32,
  the minimum length (GROTrajectory.cc:22) once the field width reaches 858,993,455,
  and `extract` soon after. A too-short line then passes the length check, and
  `substr` throws `std::out_of_range` where the model rejects the line with the
  too-short error.
- `ntime` entries are `nat`. The C++ `unsigned int` counters cannot overflow for fewer
  than 2^32 frames, and the model requires fewer.
- `Msd.OriginSpacingOk`: `origins == 0` with more than one frame divides by zero in
  C++ (`frame_idx % m_origins`). This is excluded by precondition.
- `MsdEvaluate.Evaluate`: requires at most `max(numTypes, 1)` selected names, because
  the C++ reads `msd.x[cur_type]` out of bounds for more.
- `GroTrajectory.ReadParticles`: stated for any line parser, not only `ReadLine`, so
  that the read-order lemmas hold whatever the lines contain.
- `GroTrajectory.ReadFilesInOrder` and `GroTrajectory.MissingFileStopsRead`: stated
  for any per-file reader, not only `ReadFromFile`, so that they hold whatever the
  files contain.
- `GroTrajectory.ReadFromFile`: its contract names only the first frame. The frames
  after it follow from `ReadFromFileConcat` and `ReadFrameIgnoresLater`, and the
  skipping of empty lines from `EmptyLinesSkipped`.

## Findings

| source | as written | input that shows it | evidently intended | confidence | as-written member | corrected member |
|---|---|---|---|---|---|---|
| libmdalyzer/computes/MeanSquaredDisplacement.cc:73-80 | `time0[tau]` holds the origin counter `tau + 1`, not a frame index. So the pair (frame f, origin tau) is filed under lag `f - tau` and compares frame `f - tau` with frame `tau`, not frame f with the origin frame. | one particle at x = 0, 1, 2 in three frames, `origins == 1`: lag 0 reports 5/3 and lag 1 reports 0.5 | each origin frame o is compared with frame `o + d` under lag d, giving 0, 1, 4 for lags 0, 1, 2 | not executed | `MsdFindings.AsWrittenWalkRowOne` | `MsdFindings.IntendedWalkRowOne` |
| libmdalyzer/computes/MeanSquaredDisplacement.cc:99-116 | the file of the k-th selected name is written from accumulator row k | types "A" (index 0) and "B" (index 1), one moving particle named "B", only "B" selected: `msd_B.dat` is all zero | the file of a name is written from the row `getTypeByName(name)` | not executed | `MsdFindings.AsWrittenFileOfB` | `MsdFindings.IntendedFileOfB` |

The imperative `MsdEvaluate` follows the code as written. Each corrected definition
(`IntendedLagSum`, `IntendedPairCount`, `IntendedRows`, `IntendedReport`) sits next
to the as-written one, and lemmas prove the evidently intended values for it:
- lag 0 is zero (`IntendedLagZeroIsZero`);
- the walker gives 0, 1, 4 (`IntendedWalkRowZero`, `IntendedWalkRowOne`,
  `IntendedWalkRowTwo`);
- the moving "B" is reported (`IntendedFileOfB`).
