/** The fixed-column GROMACS `.gro` trajectory reader.

    A file is a stream of lines. Each frame is a comment line carrying `t= <time>`,
    a line with the particle count N, N fixed-column particle lines and a box line.
    Parsers take the unread lines and return the lines left after them, like
    successive `getline` calls on one `std::ifstream`. */
module GroTrajectory {
  import opened Wrappers
  import opened Machine
  import opened Vector3
  import opened Frames
  import opened Text

  /** The `std::runtime_error`s (and the one `std::out_of_range`) the reader can raise. */
  datatype GroError =
    | CannotFindFile(path: string)
    | TimeMustFollowMarker
    | TimeRequired
    | ParticleCountRequired
    | ParticleLineTooShort
    | SubstrOutOfRange
    | ParticleIdsOneToN
    | ParticleCountMismatch
    | BoxRequired

  /* ---------------------------------------------------------------------------
     Particle lines
     ------------------------------------------------------------------------- */

  /** `m_n_gro_digits`: characters in one position or velocity field. */
  function FieldWidth(precision: nat): nat {
    precision + 5
  }

  /** `m_gro_line_length`: four 5-character columns, five full numeric fields
      and at least one character of the sixth. */
  function MinLineLength(precision: nat): nat {
    21 + 5 * FieldWidth(precision)
  }

  /** The text of the `w`-wide numeric field that starts at column `start`, cut at
      the end of the line. */
  function FieldText(line: string, start: nat, w: nat): string
    requires start <= |line|
  {
    line[start..Min(start + w, |line|)]
  }

  /** What one particle line supplies. */
  datatype ParticleLine = ParticleLine(name: string, id: int32, pos: Vec3, vel: Vec3)

  /** `strtod` of `line.substr(extract, w)`, which throws `std::out_of_range` when
      `extract` is past the end of the line. */
  function FieldValue(conv: NumericText, line: string, extract: nat, w: nat): (r: Result<real, GroError>)
    ensures r.Success? <==> extract <= |line|
    ensures r.Success? ==> r.value == conv.strtod(FieldText(line, extract, w))
  {
    match Substr(line, extract, w)
    case None => Failure(SubstrOutOfRange)
    case Some(text) => Success(conv.strtod(text))
  }

  /** `readLine`: the fixed-column extraction of one particle line. The field cursor
      starts at column 20 and moves on by one field width per field, so field k
      starts at column 20 + k * w. */
  function ReadLine(conv: NumericText, precision: nat, line: string): (r: Result<ParticleLine, GroError>)
    ensures r.Failure? <==> |line| < 21 + 5 * (precision + 5)
    ensures r.Failure? ==> r.error == ParticleLineTooShort
    ensures r.Success? ==> r.value.name == Trim(line[10..15]) && r.value.id == conv.atoi(line[15..20])
    ensures r.Success? ==> var w := precision + 5;
      && r.value.pos == Vec3(conv.strtod(FieldText(line, 20, w)), conv.strtod(FieldText(line, 20 + w, w)),
                             conv.strtod(FieldText(line, 20 + 2 * w, w)))
      && r.value.vel == Vec3(conv.strtod(FieldText(line, 20 + 3 * w, w)), conv.strtod(FieldText(line, 20 + 4 * w, w)),
                             conv.strtod(FieldText(line, 20 + 5 * w, w)))
  {
    if |line| < MinLineLength(precision) then Failure(ParticleLineTooShort)
    else
      var w := FieldWidth(precision);
      var name := Substr(line, 10, 5);
      var id := Substr(line, 15, 5);
      var px := FieldValue(conv, line, 20, w);
      var py := FieldValue(conv, line, 20 + w, w);
      var pz := FieldValue(conv, line, 20 + 2 * w, w);
      var vx := FieldValue(conv, line, 20 + 3 * w, w);
      var vy := FieldValue(conv, line, 20 + 4 * w, w);
      var vz := FieldValue(conv, line, 20 + 5 * w, w);
      if name.None? || id.None? || px.Failure? || py.Failure? || pz.Failure? || vx.Failure? || vy.Failure? || vz.Failure?
      then Failure(SubstrOutOfRange)
      else
        Success(ParticleLine(Trim(name.value), conv.atoi(id.value),
                             Vec3(px.value, py.value, pz.value), Vec3(vx.value, vy.value, vz.value)))
  }

  /** Where a particle line goes, and whether auto-numbering is on after it. */
  datatype Placement = Placement(slot: nat, autoNumber: bool)

  /** Id reconciliation: 1-based ids in 1..N go to slot id-1 unless auto-numbering is
      on; a 0 id on the first particle switches auto-numbering on, and from then on
      particles fill slots in read order. The upper bound is `(int)N`, which is
      negative once N reaches 2^31. */
  function PlaceParticle(id: int32, n: uint32, cur: nat, autoNumber: bool): (r: Result<Placement, GroError>)
    requires cur < n
    ensures r.Success? <==> autoNumber || (1 <= id <= n && n < TWO_TO_THE_31) || (cur == 0 && id == 0)
    ensures r.Failure? ==> r.error == ParticleIdsOneToN
    ensures r.Success? ==> r.value.slot < n
    ensures r.Success? ==> (r.value.autoNumber <==> autoNumber || !(1 <= id <= n && n < TWO_TO_THE_31))
    ensures r.Success? ==> r.value.slot == if r.value.autoNumber then cur else id - 1
  {
    if !autoNumber && (id > 0 && id <= SignedOf(n)) then Success(Placement(id - 1, false))
    else if autoNumber || (cur == 0 && id == 0) then Success(Placement(cur, true))
    else Failure(ParticleIdsOneToN)
  }

  /** Stores one particle line in `slot`: the name only when the trimmed name is not
      empty, the position and velocity always; every other slot is left as it was. */
  function StoreParticle(frame: Frame, slot: nat, p: ParticleLine): (f: Frame)
    requires frame.Valid() && slot < frame.N()
    ensures f.Valid() && f.N() == frame.N()
    ensures f.time == frame.time && f.hasTime == frame.hasTime && f.box == frame.box
    ensures f.positions[slot] == p.pos && f.velocities[slot] == p.vel
    ensures f.names[slot] == if p.name == "" then frame.names[slot] else p.name
  {
    var named := if |p.name| > 0 then frame.SetName(slot, p.name) else frame;
    named.SetPosition(slot, p.pos).SetVelocity(slot, p.vel)
  }

  /** Storing a particle touches no slot but its own. */
  lemma StoreParticleKeepsOtherSlots(frame: Frame, slot: nat, p: ParticleLine)
    requires frame.Valid() && slot < frame.N()
    ensures var f := StoreParticle(frame, slot, p);
      forall i | 0 <= i < frame.N() && i != slot ::
        f.positions[i] == frame.positions[i] && f.velocities[i] == frame.velocities[i] && f.names[i] == frame.names[i]
  {
  }

  /** How the particle loop turns one line into a particle: `ReadLine` at a fixed
      precision in the reader, any parser in the lemmas about the loop. */
  type LineParser = string -> Result<ParticleLine, GroError>

  function ParticleLineParser(conv: NumericText, precision: nat): (parse: LineParser)
    ensures forall line :: parse(line) == ReadLine(conv, precision, line)
  {
    line => ReadLine(conv, precision, line)
  }

  /** One turn of the particle loop: the particle of `line` stored where
      `PlaceParticle` puts it, and whether auto-numbering is on after it. */
  datatype Turn = Turn(frame: Frame, autoNumber: bool)

  function ParticleTurn(parse: LineParser, line: string, frame: Frame, cur: nat, autoNumber: bool): (r: Result<Turn, GroError>)
    requires frame.Valid() && cur < frame.N() < TWO_TO_THE_32
    ensures r.Success? ==> r.value.frame.Valid() && r.value.frame.N() == frame.N()
    ensures r.Success? ==> r.value.frame.time == frame.time && r.value.frame.hasTime == frame.hasTime && r.value.frame.box == frame.box
  {
    match parse(line)
    case Failure(e) => Failure(e)
    case Success(p) =>
      match PlaceParticle(p.id, frame.N(), cur, autoNumber)
      case Failure(e) => Failure(e)
      case Success(place) => Success(Turn(StoreParticle(frame, place.slot, p), place.autoNumber))
  }

  /** The particle loop: reads lines until `frame.N()` particles are stored. Running
      out of lines first is an error. */
  function ReadParticles(parse: LineParser, lines: seq<string>, frame: Frame, cur: nat, autoNumber: bool)
    : (r: Result<(Frame, seq<string>), GroError>)
    requires frame.Valid() && cur <= frame.N() < TWO_TO_THE_32
    ensures r.Success? ==> r.value.0.Valid() && r.value.0.N() == frame.N()
    ensures r.Success? ==> r.value.0.time == frame.time && r.value.0.hasTime == frame.hasTime && r.value.0.box == frame.box
    ensures r.Success? ==> frame.N() - cur <= |lines| && |r.value.1| == |lines| - (frame.N() - cur)
    decreases frame.N() - cur
  {
    if cur == frame.N() then Success((frame, lines))
    else if lines == [] then Failure(ParticleCountMismatch)
    else
      match ParticleTurn(parse, lines[0], frame, cur, autoNumber)
      case Failure(e) => Failure(e)
      case Success(turn) => ReadParticles(parse, lines[1..], turn.frame, cur + 1, turn.autoNumber)
  }

  /** A successful loop leaves exactly the lines after its N - cur particle lines. */
  lemma {:induction false} ReadParticlesLeavesRest(parse: LineParser, lines: seq<string>, frame: Frame, cur: nat, autoNumber: bool)
    requires frame.Valid() && cur <= frame.N() < TWO_TO_THE_32
    ensures var r := ReadParticles(parse, lines, frame, cur, autoNumber);
      r.Success? ==> r.value.1 == lines[frame.N() - cur..]
    decreases frame.N() - cur
  {
    if cur < frame.N() && ReadParticles(parse, lines, frame, cur, autoNumber).Success? {
      var turn := ParticleTurn(parse, lines[0], frame, cur, autoNumber).value;
      ReadParticlesLeavesRest(parse, lines[1..], turn.frame, cur + 1, turn.autoNumber);
      assert lines[1..][frame.N() - (cur + 1)..] == lines[frame.N() - cur..];
    }
  }

  /** Slot `j` of `filled` holds what it held in `frame`. */
  predicate SlotKept(frame: Frame, filled: Frame, j: nat)
    requires frame.Valid() && filled.Valid() && filled.N() == frame.N() && j < frame.N()
  {
    && filled.positions[j] == frame.positions[j]
    && filled.velocities[j] == frame.velocities[j]
    && filled.names[j] == frame.names[j]
  }

  /** Slot `j` of `filled` holds particle `p` stored over `frame`: its position and
      velocity, and its name unless that is empty. */
  predicate SlotHolds(frame: Frame, filled: Frame, j: nat, p: ParticleLine)
    requires frame.Valid() && filled.Valid() && filled.N() == frame.N() && j < frame.N()
  {
    && filled.positions[j] == p.pos
    && filled.velocities[j] == p.vel
    && filled.names[j] == if p.name == "" then frame.names[j] else p.name
  }

  /** Every particle line the loop read from slot `cur` on went to the slot of its
      read position, and the slots before `cur` were left alone. */
  predicate FilledInReadOrder(parse: LineParser, lines: seq<string>, frame: Frame, cur: nat, filled: Frame)
    requires frame.Valid() && filled.Valid() && filled.N() == frame.N() && cur <= frame.N() <= cur + |lines|
  {
    && (forall j | 0 <= j < cur :: SlotKept(frame, filled, j))
    && (forall k | 0 <= k < frame.N() - cur ::
          parse(lines[k]).Success? && SlotHolds(frame, filled, cur + k, parse(lines[k]).value))
  }

  /** Storing the first line's particle in slot `cur`, then filling the rest in read
      order from `cur + 1`, fills everything in read order from `cur`. */
  lemma StoreThenFillIsReadOrder(parse: LineParser, lines: seq<string>, frame: Frame, cur: nat, filled: Frame)
    requires frame.Valid() && filled.Valid() && filled.N() == frame.N() && cur < frame.N() <= cur + |lines|
    requires parse(lines[0]).Success?
    requires var stored := StoreParticle(frame, cur, parse(lines[0]).value);
      FilledInReadOrder(parse, lines[1..], stored, cur + 1, filled)
    ensures FilledInReadOrder(parse, lines, frame, cur, filled)
  {
    var stored := StoreParticle(frame, cur, parse(lines[0]).value);
    StoreParticleKeepsOtherSlots(frame, cur, parse(lines[0]).value);
    forall j | 0 <= j < cur
      ensures SlotKept(frame, filled, j)
    {
      assert SlotKept(stored, filled, j);
    }
    forall k | 0 <= k < frame.N() - cur
      ensures parse(lines[k]).Success? && SlotHolds(frame, filled, cur + k, parse(lines[k]).value)
    {
      if k == 0 {
        assert SlotKept(stored, filled, cur);
      } else {
        assert lines[k] == lines[1..][k - 1];
        assert SlotHolds(stored, filled, cur + 1 + (k - 1), parse(lines[1..][k - 1]).value);
      }
    }
  }

  /** One turn of the particle loop, as the induction step of the lemmas below: the
      first line is parsed, placed and stored, and the loop goes on after it. */
  lemma ReadParticlesStep(parse: LineParser, lines: seq<string>, frame: Frame, cur: nat, autoNumber: bool)
    requires frame.Valid() && cur < frame.N() < TWO_TO_THE_32
    requires ReadParticles(parse, lines, frame, cur, autoNumber).Success?
    ensures lines != [] && parse(lines[0]).Success?
    ensures var p := parse(lines[0]).value;
      && PlaceParticle(p.id, frame.N(), cur, autoNumber).Success?
      && var place := PlaceParticle(p.id, frame.N(), cur, autoNumber).value;
      ReadParticles(parse, lines, frame, cur, autoNumber)
        == ReadParticles(parse, lines[1..], StoreParticle(frame, place.slot, p), cur + 1, place.autoNumber)
  {
  }

  /** Once auto-numbering is on, particles fill the slots in the order they are read,
      whatever their id fields say. */
  lemma {:induction false} AutoNumberingFillsInReadOrder(parse: LineParser, lines: seq<string>, frame: Frame, cur: nat)
    requires frame.Valid() && cur <= frame.N() < TWO_TO_THE_32
    ensures var r := ReadParticles(parse, lines, frame, cur, true);
      r.Success? ==> FilledInReadOrder(parse, lines, frame, cur, r.value.0)
    decreases frame.N() - cur
  {
    if cur < frame.N() && ReadParticles(parse, lines, frame, cur, true).Success? {
      ReadParticlesStep(parse, lines, frame, cur, true);
      var p := parse(lines[0]).value;
      var stored := StoreParticle(frame, cur, p);
      AutoNumberingFillsInReadOrder(parse, lines[1..], stored, cur + 1);
      StoreThenFillIsReadOrder(parse, lines, frame, cur, ReadParticles(parse, lines, frame, cur, true).value.0);
    }
  }

  /** A 0 id on the first particle switches auto-numbering on for the rest of the
      frame: every particle line fills the slot of its read position. */
  lemma FirstIdZeroFillsInReadOrder(parse: LineParser, lines: seq<string>, frame: Frame)
    requires frame.Valid() && 0 < frame.N() < TWO_TO_THE_32 && lines != []
    requires parse(lines[0]).Success? && parse(lines[0]).value.id == 0
    ensures var r := ReadParticles(parse, lines, frame, 0, false);
      r.Success? ==> FilledInReadOrder(parse, lines, frame, 0, r.value.0)
  {
    if !ReadParticles(parse, lines, frame, 0, false).Success? {
      return;
    }
    var p := parse(lines[0]).value;
    var stored := StoreParticle(frame, 0, p);
    AutoNumberingFillsInReadOrder(parse, lines[1..], stored, 1);
    StoreThenFillIsReadOrder(parse, lines, frame, 0, ReadParticles(parse, lines, frame, 0, false).value.0);
  }

  /** The id columns of the first `count` lines count up from `first`. */
  predicate IdsCountFrom(parse: LineParser, lines: seq<string>, first: int, count: nat) {
    forall k | 0 <= k < count && k < |lines| && parse(lines[k]).Success? :: parse(lines[k]).value.id == first + k
  }

  /** Ids that count up from `first` still count up, from `first + 1`, after the first line. */
  lemma IdsCountOn(parse: LineParser, lines: seq<string>, first: int, count: nat)
    requires lines != [] && count > 0 && IdsCountFrom(parse, lines, first, count)
    ensures IdsCountFrom(parse, lines[1..], first + 1, count - 1)
  {
    forall k | 0 <= k < count - 1 && k < |lines[1..]| && parse(lines[1..][k]).Success?
      ensures parse(lines[1..][k]).value.id == first + 1 + k
    {
      assert lines[1..][k] == lines[k + 1];
    }
  }

  /** A line whose id is `cur + 1` goes to slot `cur` with or without auto-numbering,
      and leaves auto-numbering as it was. */
  lemma SequentialIdTurn(parse: LineParser, line: string, frame: Frame, cur: nat)
    requires frame.Valid() && cur < frame.N() < TWO_TO_THE_31
    requires parse(line).Success? && parse(line).value.id == cur + 1
    ensures var stored := StoreParticle(frame, cur, parse(line).value);
      && ParticleTurn(parse, line, frame, cur, false) == Success(Turn(stored, false))
      && ParticleTurn(parse, line, frame, cur, true) == Success(Turn(stored, true))
  {
  }

  /** The particle loop reads the same with auto-numbering off and on. */
  predicate ReadsAlike(parse: LineParser, lines: seq<string>, frame: Frame, cur: nat)
    requires frame.Valid() && cur <= frame.N() < TWO_TO_THE_32
  {
    ReadParticles(parse, lines, frame, cur, false) == ReadParticles(parse, lines, frame, cur, true)
  }

  /** One line with id `cur + 1`: if the rest of the block reads alike, the whole
      block does. */
  lemma SequentialIdsStep(parse: LineParser, lines: seq<string>, frame: Frame, cur: nat)
    requires frame.Valid() && cur < frame.N() < TWO_TO_THE_31
    requires lines != [] && parse(lines[0]).Success? && parse(lines[0]).value.id == cur + 1
    requires ReadsAlike(parse, lines[1..], StoreParticle(frame, cur, parse(lines[0]).value), cur + 1)
    ensures ReadsAlike(parse, lines, frame, cur)
  {
    SequentialIdTurn(parse, lines[0], frame, cur);
  }

  /** Without auto-numbering, ids that run 1, 2, 3, ... in read order lead to exactly
      what auto-numbering would: the id column then makes no difference. */
  lemma {:induction false} SequentialIdsAsAutoNumbering(parse: LineParser, lines: seq<string>, frame: Frame, cur: nat)
    requires frame.Valid() && cur <= frame.N() < TWO_TO_THE_31
    requires IdsCountFrom(parse, lines, cur + 1, frame.N() - cur)
    ensures ReadsAlike(parse, lines, frame, cur)
    decreases frame.N() - cur
  {
    if cur < frame.N() && lines != [] && parse(lines[0]).Success? {
      IdsCountOn(parse, lines, cur + 1, frame.N() - cur);
      SequentialIdsAsAutoNumbering(parse, lines[1..], StoreParticle(frame, cur, parse(lines[0]).value), cur + 1);
      SequentialIdsStep(parse, lines, frame, cur);
    }
  }

  /** Without auto-numbering, ids that count 1, 2, 3, ... down the block put every
      particle in the slot of its read position. */
  lemma SequentialIdsFillInReadOrder(parse: LineParser, lines: seq<string>, frame: Frame, cur: nat)
    requires frame.Valid() && cur <= frame.N() < TWO_TO_THE_31
    requires IdsCountFrom(parse, lines, cur + 1, frame.N() - cur)
    ensures var r := ReadParticles(parse, lines, frame, cur, false);
      r.Success? ==> FilledInReadOrder(parse, lines, frame, cur, r.value.0)
  {
    SequentialIdsAsAutoNumbering(parse, lines, frame, cur);
    AutoNumberingFillsInReadOrder(parse, lines, frame, cur);
  }

  /** The first `count` lines are there and every one of them parses. */
  predicate LinesParse(parse: LineParser, lines: seq<string>, count: nat)
    decreases count
  {
    count == 0 || (lines != [] && parse(lines[0]).Success? && LinesParse(parse, lines[1..], count - 1))
  }

  /** Every id among the first `count` lines that parse is in `1..n`, and `(int)n` is
      not negative when there is such a line to check. */
  predicate IdsWithin(parse: LineParser, lines: seq<string>, n: nat, count: nat)
    decreases count
  {
    || count == 0
    || lines == []
    || (&& n < TWO_TO_THE_31
        && (parse(lines[0]).Success? ==> 1 <= parse(lines[0]).value.id <= n)
        && IdsWithin(parse, lines[1..], n, count - 1))
  }

  /** A line that does not parse stops the loop with its error. */
  lemma ParseFailureStep(parse: LineParser, lines: seq<string>, frame: Frame, cur: nat, autoNumber: bool)
    requires frame.Valid() && cur < frame.N() < TWO_TO_THE_32 && lines != [] && parse(lines[0]).Failure?
    ensures ReadParticles(parse, lines, frame, cur, autoNumber) == Failure(parse(lines[0]).error)
  {
    assert ParticleTurn(parse, lines[0], frame, cur, autoNumber) == Failure(parse(lines[0]).error);
  }

  /** With auto-numbering on, the loop reads the block exactly when its N - cur particle
      lines are there and all parse. */
  predicate AcceptedWithAutoNumbering(parse: LineParser, lines: seq<string>, frame: Frame, cur: nat)
    requires frame.Valid() && cur <= frame.N() < TWO_TO_THE_32
  {
    ReadParticles(parse, lines, frame, cur, true).Success? <==> LinesParse(parse, lines, frame.N() - cur)
  }

  /** A line that parses goes to slot `cur`, so the block is accepted when the rest is. */
  lemma AutoNumberingAcceptStep(parse: LineParser, lines: seq<string>, frame: Frame, cur: nat)
    requires frame.Valid() && cur < frame.N() < TWO_TO_THE_32 && lines != [] && parse(lines[0]).Success?
    requires AcceptedWithAutoNumbering(parse, lines[1..], StoreParticle(frame, cur, parse(lines[0]).value), cur + 1)
    ensures AcceptedWithAutoNumbering(parse, lines, frame, cur)
  {
    assert ParticleTurn(parse, lines[0], frame, cur, true)
        == Success(Turn(StoreParticle(frame, cur, parse(lines[0]).value), true));
  }

  /** With auto-numbering on, the loop reads a block exactly when its N - cur particle
      lines are there and all parse: the id fields are never checked. */
  lemma {:induction false} AutoNumberingReadsAll(parse: LineParser, lines: seq<string>, frame: Frame, cur: nat)
    requires frame.Valid() && cur <= frame.N() < TWO_TO_THE_32
    ensures AcceptedWithAutoNumbering(parse, lines, frame, cur)
    decreases frame.N() - cur
  {
    if cur < frame.N() && lines != [] {
      if parse(lines[0]).Failure? {
        ParseFailureStep(parse, lines, frame, cur, true);
      } else {
        AutoNumberingReadsAll(parse, lines[1..], StoreParticle(frame, cur, parse(lines[0]).value), cur + 1);
        AutoNumberingAcceptStep(parse, lines, frame, cur);
      }
    }
  }

  /** The first particle line of the frame has id 0, which switches auto-numbering on. */
  predicate LatchesOnFirst(parse: LineParser, lines: seq<string>, n: nat, cur: nat) {
    cur == 0 && 0 < n && lines != [] && parse(lines[0]).Success? && parse(lines[0]).value.id == 0
  }

  /** Without auto-numbering, the loop reads the block exactly when its N - cur particle
      lines are there and all parse, and either the frame's first id is 0 or every id
      is in `1..N`. */
  predicate AcceptedWithoutAutoNumbering(parse: LineParser, lines: seq<string>, frame: Frame, cur: nat)
    requires frame.Valid() && cur <= frame.N() < TWO_TO_THE_32
  {
    ReadParticles(parse, lines, frame, cur, false).Success? <==>
      && LinesParse(parse, lines, frame.N() - cur)
      && (LatchesOnFirst(parse, lines, frame.N(), cur) || IdsWithin(parse, lines, frame.N(), frame.N() - cur))
  }

  /** A line with an id in `1..N` goes to slot `id - 1` and leaves auto-numbering off,
      so the block is accepted when the rest is. */
  lemma IdWithinAcceptStep(parse: LineParser, lines: seq<string>, frame: Frame, cur: nat)
    requires frame.Valid() && cur < frame.N() < TWO_TO_THE_31 && lines != []
    requires parse(lines[0]).Success? && 1 <= parse(lines[0]).value.id <= frame.N()
    requires AcceptedWithoutAutoNumbering(parse, lines[1..],
      StoreParticle(frame, parse(lines[0]).value.id - 1, parse(lines[0]).value), cur + 1)
    ensures AcceptedWithoutAutoNumbering(parse, lines, frame, cur)
  {
    assert ParticleTurn(parse, lines[0], frame, cur, false)
        == Success(Turn(StoreParticle(frame, parse(lines[0]).value.id - 1, parse(lines[0]).value), false));
  }

  /** A 0 id on the frame's first line switches auto-numbering on, after which every
      line that parses is read. */
  lemma LatchAcceptStep(parse: LineParser, lines: seq<string>, frame: Frame)
    requires frame.Valid() && frame.N() < TWO_TO_THE_32 && LatchesOnFirst(parse, lines, frame.N(), 0)
    requires AcceptedWithAutoNumbering(parse, lines[1..], StoreParticle(frame, 0, parse(lines[0]).value), 1)
    ensures AcceptedWithoutAutoNumbering(parse, lines, frame, 0)
  {
    assert ParticleTurn(parse, lines[0], frame, 0, false)
        == Success(Turn(StoreParticle(frame, 0, parse(lines[0]).value), true));
  }

  /** Without auto-numbering, any other id on a line that parses is the
      ids-run-1-to-N error. */
  lemma IdOutsideStep(parse: LineParser, lines: seq<string>, frame: Frame, cur: nat)
    requires frame.Valid() && cur < frame.N() < TWO_TO_THE_32 && lines != [] && parse(lines[0]).Success?
    requires !(1 <= parse(lines[0]).value.id <= frame.N() && frame.N() < TWO_TO_THE_31)
    requires !LatchesOnFirst(parse, lines, frame.N(), cur)
    ensures ReadParticles(parse, lines, frame, cur, false) == Failure(ParticleIdsOneToN)
    ensures AcceptedWithoutAutoNumbering(parse, lines, frame, cur)
  {
    assert ParticleTurn(parse, lines[0], frame, cur, false) == Failure(ParticleIdsOneToN);
  }

  /** Without auto-numbering, the loop reads a block exactly when its N - cur particle
      lines are there and all parse, and either the frame's first id is 0 or every id
      is in `1..N` (with N below 2^31, for the `(int)` cast). */
  lemma {:induction false} ReadsWithoutAutoNumbering(parse: LineParser, lines: seq<string>, frame: Frame, cur: nat)
    requires frame.Valid() && cur <= frame.N() < TWO_TO_THE_32
    ensures AcceptedWithoutAutoNumbering(parse, lines, frame, cur)
    decreases frame.N() - cur
  {
    if cur < frame.N() && lines != [] {
      if parse(lines[0]).Failure? {
        ParseFailureStep(parse, lines, frame, cur, false);
      } else {
        var p := parse(lines[0]).value;
        if 1 <= p.id <= frame.N() && frame.N() < TWO_TO_THE_31 {
          ReadsWithoutAutoNumbering(parse, lines[1..], StoreParticle(frame, p.id - 1, p), cur + 1);
          IdWithinAcceptStep(parse, lines, frame, cur);
        } else if LatchesOnFirst(parse, lines, frame.N(), cur) {
          AutoNumberingReadsAll(parse, lines[1..], StoreParticle(frame, 0, p), 1);
          LatchAcceptStep(parse, lines, frame);
        } else {
          IdOutsideStep(parse, lines, frame, cur);
        }
      }
    }
  }

  /** With auto-numbering on, a block whose lines all parse but stop before its
      N - cur particle lines ends the loop with the count-mismatch error. */
  predicate ShortBlockWithAutoNumbering(parse: LineParser, lines: seq<string>, frame: Frame, cur: nat)
    requires frame.Valid() && cur <= frame.N() < TWO_TO_THE_32
  {
    |lines| < frame.N() - cur && LinesParse(parse, lines, |lines|) ==>
      ReadParticles(parse, lines, frame, cur, true) == Failure(ParticleCountMismatch)
  }

  lemma AutoNumberingShortStep(parse: LineParser, lines: seq<string>, frame: Frame, cur: nat)
    requires frame.Valid() && cur < frame.N() < TWO_TO_THE_32 && lines != [] && parse(lines[0]).Success?
    requires ShortBlockWithAutoNumbering(parse, lines[1..], StoreParticle(frame, cur, parse(lines[0]).value), cur + 1)
    ensures ShortBlockWithAutoNumbering(parse, lines, frame, cur)
  {
    assert ParticleTurn(parse, lines[0], frame, cur, true)
        == Success(Turn(StoreParticle(frame, cur, parse(lines[0]).value), true));
  }

  /** With auto-numbering on, running out of lines that all parse is the
      count-mismatch error. */
  lemma {:induction false} AutoNumberingRunsOut(parse: LineParser, lines: seq<string>, frame: Frame, cur: nat)
    requires frame.Valid() && cur <= frame.N() < TWO_TO_THE_32
    ensures ShortBlockWithAutoNumbering(parse, lines, frame, cur)
    decreases frame.N() - cur
  {
    if cur < frame.N() && lines != [] && parse(lines[0]).Success? {
      AutoNumberingRunsOut(parse, lines[1..], StoreParticle(frame, cur, parse(lines[0]).value), cur + 1);
      AutoNumberingShortStep(parse, lines, frame, cur);
    }
  }

  /** Without auto-numbering, a block whose lines all parse and would all be accepted,
      but stop before its N - cur particle lines, ends the loop with the
      count-mismatch error. */
  predicate ShortBlockWithoutAutoNumbering(parse: LineParser, lines: seq<string>, frame: Frame, cur: nat)
    requires frame.Valid() && cur <= frame.N() < TWO_TO_THE_32
  {
    && |lines| < frame.N() - cur
    && LinesParse(parse, lines, |lines|)
    && (LatchesOnFirst(parse, lines, frame.N(), cur) || IdsWithin(parse, lines, frame.N(), |lines|))
    ==> ReadParticles(parse, lines, frame, cur, false) == Failure(ParticleCountMismatch)
  }

  lemma IdWithinShortStep(parse: LineParser, lines: seq<string>, frame: Frame, cur: nat)
    requires frame.Valid() && cur < frame.N() < TWO_TO_THE_31 && lines != []
    requires parse(lines[0]).Success? && 1 <= parse(lines[0]).value.id <= frame.N()
    requires ShortBlockWithoutAutoNumbering(parse, lines[1..],
      StoreParticle(frame, parse(lines[0]).value.id - 1, parse(lines[0]).value), cur + 1)
    ensures ShortBlockWithoutAutoNumbering(parse, lines, frame, cur)
  {
    assert ParticleTurn(parse, lines[0], frame, cur, false)
        == Success(Turn(StoreParticle(frame, parse(lines[0]).value.id - 1, parse(lines[0]).value), false));
  }

  lemma LatchShortStep(parse: LineParser, lines: seq<string>, frame: Frame)
    requires frame.Valid() && frame.N() < TWO_TO_THE_32 && LatchesOnFirst(parse, lines, frame.N(), 0)
    requires ShortBlockWithAutoNumbering(parse, lines[1..], StoreParticle(frame, 0, parse(lines[0]).value), 1)
    ensures ShortBlockWithoutAutoNumbering(parse, lines, frame, 0)
  {
    assert ParticleTurn(parse, lines[0], frame, 0, false)
        == Success(Turn(StoreParticle(frame, 0, parse(lines[0]).value), true));
  }

  /** Without auto-numbering, running out of lines that all parse, whose ids are all
      in `1..N` or whose first id is 0, is the count-mismatch error. */
  lemma {:induction false} RunsOutWithoutAutoNumbering(parse: LineParser, lines: seq<string>, frame: Frame, cur: nat)
    requires frame.Valid() && cur <= frame.N() < TWO_TO_THE_32
    ensures ShortBlockWithoutAutoNumbering(parse, lines, frame, cur)
    decreases frame.N() - cur
  {
    if cur < frame.N() && lines != [] && parse(lines[0]).Success? {
      var p := parse(lines[0]).value;
      if 1 <= p.id <= frame.N() && frame.N() < TWO_TO_THE_31 {
        RunsOutWithoutAutoNumbering(parse, lines[1..], StoreParticle(frame, p.id - 1, p), cur + 1);
        IdWithinShortStep(parse, lines, frame, cur);
      } else if LatchesOnFirst(parse, lines, frame.N(), cur) {
        AutoNumberingRunsOut(parse, lines[1..], StoreParticle(frame, 0, p), 1);
        LatchShortStep(parse, lines, frame);
      }
    }
  }

  /* ---------------------------------------------------------------------------
     Comment line
     ------------------------------------------------------------------------- */

  /** `t=` first occurs at position `k` of `line`. */
  predicate TimeMarkerAt(line: string, k: nat) {
    Occurs(line, "t=", k) && forall i | 0 <= i < k :: !Occurs(line, "t=", i)
  }

  /** The time of a frame, read with `>> double` from just after the first `t=`.
      The marker needs at least one character after it. */
  function CommentTime(conv: NumericText, line: string): (r: Result<real, GroError>)
    ensures r == Failure(TimeRequired) <==> forall k: nat | TimeMarkerAt(line, k) :: |line| <= k + 2
    ensures r == Failure(TimeMustFollowMarker) <==>
      exists k: nat | TimeMarkerAt(line, k) :: k + 2 < |line| && !conv.extractReal(line[k + 2..]).Extracted?
    ensures r.Success? <==>
      exists k: nat | TimeMarkerAt(line, k) :: k + 2 < |line| && conv.extractReal(line[k + 2..]).Extracted?
    ensures r.Success? ==>
      exists k: nat | TimeMarkerAt(line, k) :: k + 2 < |line| && conv.extractReal(line[k + 2..]).Extracted?
        && conv.extractReal(line[k + 2..]).value == r.value
  {
    match Find(line, "t=")
    case Some(k) =>
      assert TimeMarkerAt(line, k);
      assert forall j: nat | TimeMarkerAt(line, j) :: j == k;
      if k + 2 < |line| then
        match conv.extractReal(line[k + 2..])
        case Extracted(t, _) => Success(t)
        case _ => Failure(TimeMustFollowMarker)
      else Failure(TimeRequired)
    case None => Failure(TimeRequired)
  }

  /* ---------------------------------------------------------------------------
     Box line
     ------------------------------------------------------------------------- */

  /** Successive `>> double` extractions from one line: the values read before the
      first failure (at most `limit` of them), and whether that failure met a token
      that is not a number. */
  datatype Scanned = Scanned(values: seq<real>, malformedStop: bool)

  function Scan(conv: NumericText, s: string, limit: nat): (r: Scanned)
    ensures |r.values| <= limit
    ensures r.malformedStop ==> |r.values| < limit
    decreases limit
  {
    if limit == 0 then Scanned([], false)
    else
      match conv.extractReal(s)
      case Extracted(v, rest) =>
        var more := Scan(conv, rest, limit - 1);
        Scanned([v] + more.values, more.malformedStop)
      case NothingLeft => Scanned([], false)
      case Malformed => Scanned([], true)
  }

  /** Writes field `k` of a box line into the component the reader assigns it:
      v1.x v2.y v3.z v1.y v1.z v2.x v2.z v3.x, and the ninth field again into v3.z. */
  function SetBoxField(b: TriclinicBox, k: nat, v: real): TriclinicBox
    requires k < 9
  {
    match k
    case 0 => b.(v1 := b.v1.(x := v))
    case 1 => b.(v2 := b.v2.(y := v))
    case 2 => b.(v3 := b.v3.(z := v))
    case 3 => b.(v1 := b.v1.(y := v))
    case 4 => b.(v1 := b.v1.(z := v))
    case 5 => b.(v2 := b.v2.(x := v))
    case 6 => b.(v2 := b.v2.(z := v))
    case 7 => b.(v3 := b.v3.(x := v))
    case _ => b.(v3 := b.v3.(z := v))
  }

  /** The nested optional reads of fields `k`..8: each one only when all before it
      succeeded. A read that meets a malformed token stores 0 (C++11 `num_get`). */
  function ReadOptionalBoxFields(conv: NumericText, s: string, b: TriclinicBox, k: nat): TriclinicBox
    requires 3 <= k <= 9
    decreases 9 - k
  {
    if k == 9 then b
    else
      match conv.extractReal(s)
      case Extracted(v, rest) => ReadOptionalBoxFields(conv, rest, SetBoxField(b, k, v), k + 1)
      case NothingLeft => b
      case Malformed => SetBoxField(b, k, 0.0)
  }

  /** Field `j` of a scan when it was read; 0 when the scan stopped on a malformed
      token exactly there; `otherwise` when it was never reached. */
  function FieldOr(sc: Scanned, j: nat, otherwise: real): real {
    if j < |sc.values| then sc.values[j]
    else if sc.malformedStop && j == |sc.values| then 0.0
    else otherwise
  }

  /** The box the reader builds from a line whose scan read at least three fields. */
  function BoxOfFields(sc: Scanned): (b: TriclinicBox)
    requires |sc.values| >= 3
  {
    TriclinicBox(
      Vec3(sc.values[0], FieldOr(sc, 3, 0.0), FieldOr(sc, 4, 0.0)),
      Vec3(FieldOr(sc, 5, 0.0), sc.values[1], FieldOr(sc, 6, 0.0)),
      Vec3(FieldOr(sc, 7, 0.0), 0.0, FieldOr(sc, 8, sc.values[2])))
  }

  /** The optional reads from field `k` on leave every component of `b` the reader
      does not reach, and put field `j` where `SetBoxField` says. */
  lemma {:induction false} OptionalFieldsFollowScan(conv: NumericText, s: string, b: TriclinicBox, k: nat)
    requires 3 <= k <= 9
    ensures var sc := Scan(conv, s, 9 - k);
      ReadOptionalBoxFields(conv, s, b, k) == TriclinicBox(
        Vec3(b.v1.x, if k <= 3 then FieldOr(sc, 3 - k, b.v1.y) else b.v1.y,
                     if k <= 4 then FieldOr(sc, 4 - k, b.v1.z) else b.v1.z),
        Vec3(if k <= 5 then FieldOr(sc, 5 - k, b.v2.x) else b.v2.x, b.v2.y,
             if k <= 6 then FieldOr(sc, 6 - k, b.v2.z) else b.v2.z),
        Vec3(if k <= 7 then FieldOr(sc, 7 - k, b.v3.x) else b.v3.x, b.v3.y,
             if k <= 8 then FieldOr(sc, 8 - k, b.v3.z) else b.v3.z))
    decreases 9 - k
  {
    if k < 9 {
      match conv.extractReal(s)
      case Extracted(v, rest) =>
        OptionalFieldsFollowScan(conv, rest, SetBoxField(b, k, v), k + 1);
      case NothingLeft =>
      case Malformed =>
    }
  }

  /** The box line: three mandatory numbers for the diagonal, then up to six optional
      ones taken greedily. */
  function ReadBox(conv: NumericText, line: string): (r: Result<TriclinicBox, GroError>)
    ensures var sc := Scan(conv, line, 9);
      && (r.Failure? <==> |sc.values| < 3)
      && (r.Failure? ==> r.error == BoxRequired)
      && (r.Success? ==> r.value == BoxOfFields(sc))
  {
    match conv.extractReal(line) {
      case Extracted(a, r1) =>
        match conv.extractReal(r1) {
          case Extracted(b, r2) =>
            match conv.extractReal(r2) {
              case Extracted(c, r3) =>
                var diagonal := TriclinicBox(Vec3(a, 0.0, 0.0), Vec3(0.0, b, 0.0), Vec3(0.0, 0.0, c));
                OptionalFieldsFollowScan(conv, r3, diagonal, 3);
                Success(ReadOptionalBoxFields(conv, r3, diagonal, 3))
              case _ => Failure(BoxRequired)
            }
          case _ => Failure(BoxRequired)
        }
      case _ => Failure(BoxRequired)
    }
  }

  /* ---------------------------------------------------------------------------
     Frames and files
     ------------------------------------------------------------------------- */

  /** A frame the reader completed: its time and box are set. */
  predicate Complete(f: Frame) {
    f.Valid() && f.hasTime && f.box.Some?
  }

  /** The particle lines and the box line of a frame whose time and count N are known:
      the particle loop from a new frame of N particles, then the box line after it. */
  function ReadParticlesAndBox(conv: NumericText, precision: nat, time: real, n: uint32, body: seq<string>)
    : (r: Result<(Frame, seq<string>), GroError>)
    ensures r.Success? ==> Complete(r.value.0) && r.value.0.N() == n as nat && r.value.0.time == time
    ensures r.Success? ==> n as nat + 1 <= |body| && r.value.1 == body[n as nat + 1..]
    ensures r.Success? ==> ReadBox(conv, body[n]) == Success(r.value.0.box.value)
    ensures r.Success? ==>
      ReadParticles(ParticleLineParser(conv, precision), body, NewFrame(n as nat).SetTime(time), 0, false)
        == Success((r.value.0.(box := None), body[n..]))
  {
    ReadParticlesLeavesRest(ParticleLineParser(conv, precision), body, NewFrame(n as nat).SetTime(time), 0, false);
    match ReadParticles(ParticleLineParser(conv, precision), body, NewFrame(n as nat).SetTime(time), 0, false)
    case Failure(e) => Failure(e)
    case Success((frame, rest)) =>
      if rest == [] then Failure(BoxRequired)
      else
        match ReadBox(conv, rest[0])
        case Failure(e) => Failure(e)
        case Success(box) =>
          LineAfter(body, n as nat, rest);
          assert frame.SetBox(box).(box := None) == frame;
          Success((frame.SetBox(box), rest[1..]))
  }

  /** The lines after line `k`, read from the lines from `k` on. */
  lemma LineAfter(lines: seq<string>, k: nat, rest: seq<string>)
    requires k < |lines| && rest == lines[k..]
    ensures rest[0] == lines[k] && rest[1..] == lines[k + 1..]
  {
  }

  /** One frame, from its (non-empty) comment line and the lines after it. */
  function ReadFrame(conv: NumericText, precision: nat, comment: string, lines: seq<string>)
    : (r: Result<(Frame, seq<string>), GroError>)
    ensures r.Success? ==> Complete(r.value.0)
    ensures r.Success? ==> r.value.0.N() + 2 <= |lines| && r.value.1 == lines[r.value.0.N() + 2..]
    ensures r.Success? ==> CommentTime(conv, comment) == Success(r.value.0.time)
    ensures r.Success? ==> r.value.0.N() < TWO_TO_THE_32 && conv.extractUnsigned(lines[0]) == Some(r.value.0.N() as uint32)
    ensures r.Success? ==> ReadBox(conv, lines[r.value.0.N() + 1]) == Success(r.value.0.box.value)
    ensures r.Success? ==>
      ReadParticles(ParticleLineParser(conv, precision), lines[1..], NewFrame(r.value.0.N()).SetTime(r.value.0.time), 0, false)
        == Success((r.value.0.(box := None), lines[r.value.0.N() + 1..]))
  {
    match CommentTime(conv, comment)
    case Failure(e) => Failure(e)
    case Success(time) =>
      if lines == [] then Failure(ParticleCountRequired)
      else
        match conv.extractUnsigned(lines[0])
        case None => Failure(ParticleCountRequired)
        case Some(n) =>
          var r := ReadParticlesAndBox(conv, precision, time, n, lines[1..]);
          if r.Failure? then r
          else
            assert lines[1..][n as nat + 1..] == lines[n as nat + 2..];
            assert lines[1..][n as nat..] == lines[n as nat + 1..];
            r
  }

  /** Which frames are read and which error stops the others: a frame is read exactly
      when its time, count, N particle lines and box line all read. A missing or
      unreadable count line is the particle-count error, and running out of lines
      before the box line is the box error. */
  lemma ReadFrameOutcome(conv: NumericText, precision: nat, comment: string, lines: seq<string>)
    ensures CommentTime(conv, comment).Failure? ==> ReadFrame(conv, precision, comment, lines) == Failure(CommentTime(conv, comment).error)
    ensures CommentTime(conv, comment).Success? && (lines == [] || conv.extractUnsigned(lines[0]).None?)
      ==> ReadFrame(conv, precision, comment, lines) == Failure(ParticleCountRequired)
    ensures ReadFrame(conv, precision, comment, lines).Success? <==>
      && CommentTime(conv, comment).Success?
      && lines != [] && conv.extractUnsigned(lines[0]).Some?
      && ReadParticles(ParticleLineParser(conv, precision), lines[1..],
           NewFrame(conv.extractUnsigned(lines[0]).value as nat).SetTime(CommentTime(conv, comment).value), 0, false).Success?
      && conv.extractUnsigned(lines[0]).value as nat + 2 <= |lines|
      && ReadBox(conv, lines[conv.extractUnsigned(lines[0]).value as nat + 1]).Success?
    ensures
      && CommentTime(conv, comment).Success?
      && lines != [] && conv.extractUnsigned(lines[0]).Some?
      && ReadParticles(ParticleLineParser(conv, precision), lines[1..],
           NewFrame(conv.extractUnsigned(lines[0]).value as nat).SetTime(CommentTime(conv, comment).value), 0, false).Success?
      && |lines| == conv.extractUnsigned(lines[0]).value as nat + 1
      ==> ReadFrame(conv, precision, comment, lines) == Failure(BoxRequired)
    ensures
      && CommentTime(conv, comment).Success?
      && lines != [] && conv.extractUnsigned(lines[0]).Some?
      && ReadParticles(ParticleLineParser(conv, precision), lines[1..],
           NewFrame(conv.extractUnsigned(lines[0]).value as nat).SetTime(CommentTime(conv, comment).value), 0, false).Failure?
      ==> ReadFrame(conv, precision, comment, lines)
            == Failure(ReadParticles(ParticleLineParser(conv, precision), lines[1..],
                 NewFrame(conv.extractUnsigned(lines[0]).value as nat).SetTime(CommentTime(conv, comment).value), 0, false).error)
    ensures
      && CommentTime(conv, comment).Success?
      && lines != [] && conv.extractUnsigned(lines[0]).Some?
      && ReadParticles(ParticleLineParser(conv, precision), lines[1..],
           NewFrame(conv.extractUnsigned(lines[0]).value as nat).SetTime(CommentTime(conv, comment).value), 0, false).Success?
      && conv.extractUnsigned(lines[0]).value as nat + 2 <= |lines|
      && ReadBox(conv, lines[conv.extractUnsigned(lines[0]).value as nat + 1]).Failure?
      ==> ReadFrame(conv, precision, comment, lines) == Failure(BoxRequired)
  {
    if CommentTime(conv, comment).Success? && lines != [] && conv.extractUnsigned(lines[0]).Some? {
      var n := conv.extractUnsigned(lines[0]).value as nat;
      ReadParticlesLeavesRest(ParticleLineParser(conv, precision), lines[1..],
        NewFrame(n).SetTime(CommentTime(conv, comment).value), 0, false);
    }
  }

  /** In a frame read with ids `1, 2, ..., N` in file order, or with a 0 id on its first
      particle line, the particles sit in the slots of their lines' read order. */
  lemma ReadFrameInReadOrder(conv: NumericText, precision: nat, comment: string, lines: seq<string>)
    ensures var r := ReadFrame(conv, precision, comment, lines);
      var parse := ParticleLineParser(conv, precision);
      r.Success? && r.value.0.N() < TWO_TO_THE_31 &&
      (IdsCountFrom(parse, lines[1..], 1, r.value.0.N()) || (r.value.0.N() > 0 && parse(lines[1]).Success? && parse(lines[1]).value.id == 0))
      ==> FilledInReadOrder(parse, lines[1..], NewFrame(r.value.0.N()).SetTime(r.value.0.time), 0, r.value.0.(box := None))
  {
    var r := ReadFrame(conv, precision, comment, lines);
    var parse := ParticleLineParser(conv, precision);
    if r.Success? && r.value.0.N() < TWO_TO_THE_31 {
      var start := NewFrame(r.value.0.N()).SetTime(r.value.0.time);
      if IdsCountFrom(parse, lines[1..], 1, r.value.0.N()) {
        SequentialIdsFillInReadOrder(parse, lines[1..], start, 0);
      } else if r.value.0.N() > 0 && parse(lines[1]).Success? && parse(lines[1]).value.id == 0 {
        FirstIdZeroFillsInReadOrder(parse, lines[1..], start);
      }
    }
  }

  /** Lines after those a successful particle loop reads do not change what it reads. */
  predicate LoopIgnoresLater(parse: LineParser, lines: seq<string>, frame: Frame, cur: nat, autoNumber: bool, later: seq<string>)
    requires frame.Valid() && cur <= frame.N() < TWO_TO_THE_32
  {
    ReadParticles(parse, lines, frame, cur, autoNumber).Success? ==>
      ReadParticles(parse, lines + later, frame, cur, autoNumber)
        == Success((ReadParticles(parse, lines, frame, cur, autoNumber).value.0,
                    ReadParticles(parse, lines, frame, cur, autoNumber).value.1 + later))
  }

  lemma LoopIgnoresLaterStep(parse: LineParser, lines: seq<string>, frame: Frame, cur: nat, autoNumber: bool, later: seq<string>)
    requires frame.Valid() && cur < frame.N() < TWO_TO_THE_32
    requires lines != [] && ParticleTurn(parse, lines[0], frame, cur, autoNumber).Success?
    requires LoopIgnoresLater(parse, lines[1..], ParticleTurn(parse, lines[0], frame, cur, autoNumber).value.frame, cur + 1,
                              ParticleTurn(parse, lines[0], frame, cur, autoNumber).value.autoNumber, later)
    ensures LoopIgnoresLater(parse, lines, frame, cur, autoNumber, later)
  {
    assert (lines + later)[0] == lines[0];
    assert (lines + later)[1..] == lines[1..] + later;
  }

  /** The particle loop reads only its N - cur lines: appending lines to its input
      appends them to what it leaves. */
  lemma {:induction false} ReadParticlesIgnoresLater(parse: LineParser, lines: seq<string>, frame: Frame, cur: nat, autoNumber: bool, later: seq<string>)
    requires frame.Valid() && cur <= frame.N() < TWO_TO_THE_32
    ensures LoopIgnoresLater(parse, lines, frame, cur, autoNumber, later)
    decreases frame.N() - cur
  {
    if cur < frame.N() && lines != [] && ParticleTurn(parse, lines[0], frame, cur, autoNumber).Success? {
      var turn := ParticleTurn(parse, lines[0], frame, cur, autoNumber).value;
      ReadParticlesIgnoresLater(parse, lines[1..], turn.frame, cur + 1, turn.autoNumber, later);
      LoopIgnoresLaterStep(parse, lines, frame, cur, autoNumber, later);
    }
  }

  /** Appending lines keeps the first line and appends to the lines after it. */
  lemma AppendAfterFirst(lines: seq<string>, later: seq<string>)
    requires lines != []
    ensures (lines + later)[0] == lines[0] && (lines + later)[1..] == lines[1..] + later
  {
  }

  /** The particle and box lines of a frame are all it reads. */
  lemma ReadParticlesAndBoxIgnoresLater(conv: NumericText, precision: nat, time: real, n: uint32, body: seq<string>,
                                        frame: Frame, rest: seq<string>, later: seq<string>)
    requires ReadParticlesAndBox(conv, precision, time, n, body) == Success((frame, rest))
    ensures ReadParticlesAndBox(conv, precision, time, n, body + later) == Success((frame, rest + later))
  {
    var parse := ParticleLineParser(conv, precision);
    var start := NewFrame(n as nat).SetTime(time);
    ReadParticlesIgnoresLater(parse, body, start, 0, false, later);
    var particles := ReadParticles(parse, body, start, 0, false).value;
    AppendAfterFirst(particles.1, later);
  }

  /** A frame reads only its own N + 2 lines: appending lines to a file after a frame
      that reads leaves the frame as it is and hands the new lines on with the rest. */
  lemma ReadFrameIgnoresLater(conv: NumericText, precision: nat, comment: string, lines: seq<string>,
                              frame: Frame, rest: seq<string>, later: seq<string>)
    requires ReadFrame(conv, precision, comment, lines) == Success((frame, rest))
    ensures ReadFrame(conv, precision, comment, lines + later) == Success((frame, rest + later))
  {
    AppendAfterFirst(lines, later);
    ReadParticlesAndBoxIgnoresLater(conv, precision, CommentTime(conv, comment).value,
      conv.extractUnsigned(lines[0]).value, lines[1..], frame, rest, later);
  }

  /** Lines a sequence of frames occupies in a file: comment, count, particles, box. */
  function LinesUsed(frames: seq<Frame>): nat {
    if frames == [] then 0 else frames[0].N() + 3 + LinesUsed(frames[1..])
  }

  /** What reading one file left behind: the frames completed, in order, and the
      error that stopped the read, if any. */
  datatype FileOutcome = FileOutcome(frames: seq<Frame>, error: Option<GroError>)

  /** `readFromFile`: skips empty lines, then reads frames until the end of the file.
      The first non-empty line opens a frame: when that frame does not read, its error
      ends the file with no frames; when it does, it is the file's first frame. */
  function ReadFromFile(conv: NumericText, precision: nat, lines: seq<string>): (r: FileOutcome)
    ensures forall i | 0 <= i < |r.frames| :: Complete(r.frames[i])
    ensures LinesUsed(r.frames) <= |lines|
    ensures lines != [] && lines[0] != "" && ReadFrame(conv, precision, lines[0], lines[1..]).Failure? ==>
      r == FileOutcome([], Some(ReadFrame(conv, precision, lines[0], lines[1..]).error))
    ensures lines != [] && lines[0] != "" && ReadFrame(conv, precision, lines[0], lines[1..]).Success? ==>
      r.frames != [] && r.frames[0] == ReadFrame(conv, precision, lines[0], lines[1..]).value.0
    decreases |lines|
  {
    if lines == [] then FileOutcome([], None)
    else if lines[0] == "" then ReadFromFile(conv, precision, lines[1..])
    else
      match ReadFrame(conv, precision, lines[0], lines[1..])
      case Failure(e) => FileOutcome([], Some(e))
      case Success((frame, rest)) =>
        var more := ReadFromFile(conv, precision, rest);
        assert ([frame] + more.frames)[1..] == more.frames;
        FileOutcome([frame] + more.frames, more.error)
  }

  /** Empty lines before a comment line are skipped. */
  lemma {:induction false} EmptyLinesSkipped(conv: NumericText, precision: nat, blank: seq<string>, lines: seq<string>)
    requires forall i | 0 <= i < |blank| :: blank[i] == ""
    ensures ReadFromFile(conv, precision, blank + lines) == ReadFromFile(conv, precision, lines)
    decreases |blank|
  {
    if blank == [] {
      assert blank + lines == lines;
    } else {
      var all := blank + lines;
      assert all[0] == "";
      assert all[1..] == blank[1..] + lines;
      assert ReadFromFile(conv, precision, all) == ReadFromFile(conv, precision, all[1..]);
      EmptyLinesSkipped(conv, precision, blank[1..], lines);
    }
  }

  /** Reading `first` then `second` as one file reads the frames of each in turn,
      provided `first` reads to its end without an error. */
  predicate ReadsAsConcat(conv: NumericText, precision: nat, first: seq<string>, second: seq<string>) {
    ReadFromFile(conv, precision, first).error.None? ==>
      ReadFromFile(conv, precision, first + second)
        == FileOutcome(ReadFromFile(conv, precision, first).frames + ReadFromFile(conv, precision, second).frames,
                       ReadFromFile(conv, precision, second).error)
  }

  lemma BlankLineConcatStep(conv: NumericText, precision: nat, first: seq<string>, second: seq<string>)
    requires first != [] && first[0] == ""
    requires ReadsAsConcat(conv, precision, first[1..], second)
    ensures ReadsAsConcat(conv, precision, first, second)
  {
    AppendAfterFirst(first, second);
    assert ReadFromFile(conv, precision, first + second) == ReadFromFile(conv, precision, first[1..] + second);
  }

  /** A file whose first line opens a frame that reads is that frame, then the rest. */
  lemma FrameThenRest(conv: NumericText, precision: nat, lines: seq<string>, frame: Frame, rest: seq<string>)
    requires lines != [] && lines[0] != ""
    requires ReadFrame(conv, precision, lines[0], lines[1..]) == Success((frame, rest))
    ensures ReadFromFile(conv, precision, lines)
      == FileOutcome([frame] + ReadFromFile(conv, precision, rest).frames, ReadFromFile(conv, precision, rest).error)
  {
  }

  lemma ConsAppend(frame: Frame, x: seq<Frame>, y: seq<Frame>)
    ensures [frame] + x + y == [frame] + (x + y)
  {
  }

  lemma FrameConcatStep(conv: NumericText, precision: nat, first: seq<string>, second: seq<string>, frame: Frame, rest: seq<string>)
    requires first != [] && first[0] != ""
    requires ReadFrame(conv, precision, first[0], first[1..]) == Success((frame, rest))
    requires ReadsAsConcat(conv, precision, rest, second)
    ensures ReadsAsConcat(conv, precision, first, second)
  {
    AppendAfterFirst(first, second);
    ReadFrameIgnoresLater(conv, precision, first[0], first[1..], frame, rest, second);
    FrameThenRest(conv, precision, first, frame, rest);
    FrameThenRest(conv, precision, first + second, frame, rest + second);
    ConsAppend(frame, ReadFromFile(conv, precision, rest).frames, ReadFromFile(conv, precision, second).frames);
  }

  lemma FrameFailureConcatStep(conv: NumericText, precision: nat, first: seq<string>, second: seq<string>)
    requires first != [] && first[0] != ""
    requires ReadFrame(conv, precision, first[0], first[1..]).Failure?
    ensures ReadsAsConcat(conv, precision, first, second)
  {
    assert ReadFromFile(conv, precision, first).error.Some?;
  }

  lemma {:induction false} ReadsAsConcatEverywhere(conv: NumericText, precision: nat, first: seq<string>, second: seq<string>)
    ensures ReadsAsConcat(conv, precision, first, second)
    decreases |first|, 1
  {
    if first == [] {
      assert first + second == second;
    } else if first[0] == "" {
      ReadsAsConcatEverywhere(conv, precision, first[1..], second);
      BlankLineConcatStep(conv, precision, first, second);
    } else {
      FrameLineReadsAsConcat(conv, precision, first, second);
    }
  }

  lemma {:induction false} FrameLineReadsAsConcat(conv: NumericText, precision: nat, first: seq<string>, second: seq<string>)
    requires first != [] && first[0] != ""
    ensures ReadsAsConcat(conv, precision, first, second)
    decreases |first|, 0
  {
    match ReadFrame(conv, precision, first[0], first[1..])
    case Failure(_) =>
      FrameFailureConcatStep(conv, precision, first, second);
    case Success((frame, rest)) =>
      ReadsAsConcatEverywhere(conv, precision, rest, second);
      FrameConcatStep(conv, precision, first, second, frame, rest);
  }

  /** A file that reads to its end without an error can be followed by any other
      lines: the frames of the two parts are read one after the other, and only the
      second part can stop the read. */
  lemma {:induction false} ReadFromFileConcat(conv: NumericText, precision: nat, first: seq<string>, second: seq<string>)
    requires ReadFromFile(conv, precision, first).error.None?
    ensures ReadFromFile(conv, precision, first + second)
      == FileOutcome(ReadFromFile(conv, precision, first).frames + ReadFromFile(conv, precision, second).frames,
                     ReadFromFile(conv, precision, second).error)
  {
    ReadsAsConcatEverywhere(conv, precision, first, second);
  }

  /** An attached file: its path and its lines, or `None` when it cannot be opened. */
  datatype SourceFile = SourceFile(path: string, lines: Option<seq<string>>)

  /** The reader's state: precision, attached files, frames read so far, and the
      flag that says the files still have to be read. */
  datatype GroReader = GroReader(precision: nat, files: seq<SourceFile>, frames: seq<Frame>, mustReadFromFile: bool)

  /** How `read` turns the lines of one file into frames: `ReadFromFile` at a fixed
      precision in the reader, any reader in the lemmas about file order. */
  type FileParser = seq<string> -> FileOutcome

  function FileReader(conv: NumericText, precision: nat): (read: FileParser)
    ensures forall lines :: read(lines) == ReadFromFile(conv, precision, lines)
  {
    lines => ReadFromFile(conv, precision, lines)
  }

  /** The frames of the files in attachment order, up to the first file that is
      missing or malformed, and the error that stopped the read. */
  function ReadFiles(readFile: FileParser, files: seq<SourceFile>): (r: (seq<Frame>, Option<GroError>))
    ensures r.1.None? ==> forall j | 0 <= j < |files| :: files[j].lines.Some?
    decreases |files|
  {
    if files == [] then ([], None)
    else
      match files[0].lines
      case None => ([], Some(CannotFindFile(files[0].path)))
      case Some(lines) =>
        var out := readFile(lines);
        if out.error.Some? then (out.frames, out.error)
        else
          var more := ReadFiles(readFile, files[1..]);
          assert forall j | 1 <= j < |files| :: files[j] == files[1..][j - 1];
          (out.frames + more.0, more.1)
  }

  /** A file reader whose frames are all complete. */
  ghost predicate CompleteReader(readFile: FileParser) {
    forall lines, i | 0 <= i < |readFile(lines).frames| :: Complete(readFile(lines).frames[i])
  }

  lemma FileReaderComplete(conv: NumericText, precision: nat)
    ensures CompleteReader(FileReader(conv, precision))
  {
  }

  /** Every frame a complete reader reads from the attached files is complete. */
  lemma {:induction false} ReadFilesComplete(readFile: FileParser, files: seq<SourceFile>)
    requires CompleteReader(readFile)
    ensures forall i | 0 <= i < |ReadFiles(readFile, files).0| :: Complete(ReadFiles(readFile, files).0[i])
    decreases |files|
  {
    if files != [] && files[0].lines.Some? {
      var out := readFile(files[0].lines.value);
      if out.error.None? {
        ReadFilesComplete(readFile, files[1..]);
        var more := ReadFiles(readFile, files[1..]).0;
        assert forall i | |out.frames| <= i < |out.frames + more| :: (out.frames + more)[i] == more[i - |out.frames|];
      }
    }
  }

  datatype ReadOutcome = ReadOutcome(reader: GroReader, error: Option<GroError>)

  /** `read`: appends the frames of all attached files, in order; the must-read flag
      is cleared only when every file was read without error. */
  function Read(conv: NumericText, g: GroReader): (r: ReadOutcome)
    ensures r.reader.precision == g.precision && r.reader.files == g.files
    ensures |g.frames| <= |r.reader.frames| && r.reader.frames[..|g.frames|] == g.frames
    ensures forall i | |g.frames| <= i < |r.reader.frames| :: Complete(r.reader.frames[i])
    ensures r.reader.mustReadFromFile <==> g.mustReadFromFile && r.error.Some?
    ensures var (frames, error) := ReadFiles(FileReader(conv, g.precision), g.files);
      r.reader.frames == g.frames + frames && r.error == error
  {
    var readFile := FileReader(conv, g.precision);
    var (frames, error) := ReadFiles(readFile, g.files);
    FileReaderComplete(conv, g.precision);
    ReadFilesComplete(readFile, g.files);
    assert (g.frames + frames)[..|g.frames|] == g.frames;
    assert forall i | |g.frames| <= i < |g.frames + frames| :: (g.frames + frames)[i] == frames[i - |g.frames|];
    ReadOutcome(g.(frames := g.frames + frames, mustReadFromFile := g.mustReadFromFile && error.Some?), error)
  }

  /** A file that can be opened and reads without error. */
  predicate ReadsCleanly(readFile: FileParser, f: SourceFile) {
    f.lines.Some? && readFile(f.lines.value).error.None?
  }

  /** Files are read in attachment order: reading `a + b` reads `a`, and then `b`
      only when every file of `a` read cleanly. */
  lemma {:induction false} ReadFilesInOrder(readFile: FileParser, a: seq<SourceFile>, b: seq<SourceFile>)
    ensures var ra := ReadFiles(readFile, a);
      var rb := ReadFiles(readFile, b);
      ReadFiles(readFile, a + b) == if ra.1.Some? then ra else (ra.0 + rb.0, rb.1)
    decreases |a|
  {
    if a == [] {
      assert a + b == b;
      assert [] + ReadFiles(readFile, b).0 == ReadFiles(readFile, b).0;
    } else {
      assert (a + b)[0] == a[0];
      assert (a + b)[1..] == a[1..] + b;
      ReadFilesInOrder(readFile, a[1..], b);
      var ra := ReadFiles(readFile, a[1..]);
      var rb := ReadFiles(readFile, b);
      if a[0].lines.Some? {
        var out := readFile(a[0].lines.value);
        assert out.frames + (ra.0 + rb.0) == (out.frames + ra.0) + rb.0;
      }
    }
  }

  /** The first attached file that cannot be opened stops the read with an error
      naming it, after the frames of the files before it. */
  lemma {:induction false} MissingFileStopsRead(readFile: FileParser, files: seq<SourceFile>, k: nat)
    requires k < |files| && files[k].lines.None?
    requires forall i | 0 <= i < k :: ReadsCleanly(readFile, files[i])
    ensures ReadFiles(readFile, files).1 == Some(CannotFindFile(files[k].path))
    ensures ReadFiles(readFile, files).0 == ReadFiles(readFile, files[..k]).0
    decreases k
  {
    if k > 0 {
      assert files[1..][k - 1] == files[k];
      assert files[1..][..k - 1] == files[..k][1..];
      MissingFileStopsRead(readFile, files[1..], k - 1);
    } else {
      assert files[..k] == [];
    }
  }

}
