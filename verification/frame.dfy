/** One simulation snapshot: per-particle positions, velocities and names, an optional
    time and an optional box. The particle count is fixed when the frame is built. */
module Frames {
  import opened Wrappers
  import opened Vector3

  datatype Frame = Frame(
    positions: seq<Vec3>,
    velocities: seq<Vec3>,
    names: seq<string>,
    time: real,
    hasTime: bool,
    box: Option<TriclinicBox>)
  {
    /** Every per-particle sequence has one entry per particle. */
    predicate Valid() {
      |velocities| == |positions| && |names| == |positions|
    }

    function N(): nat {
      |positions|
    }

    function SetPosition(i: nat, v: Vec3): (f: Frame)
      requires Valid() && i < N()
      ensures f.Valid() && f.N() == N()
    {
      this.(positions := positions[i := v])
    }

    function SetVelocity(i: nat, v: Vec3): (f: Frame)
      requires Valid() && i < N()
      ensures f.Valid() && f.N() == N()
    {
      this.(velocities := velocities[i := v])
    }

    function SetName(i: nat, s: string): (f: Frame)
      requires Valid() && i < N()
      ensures f.Valid() && f.N() == N()
    {
      this.(names := names[i := s])
    }

    function SetTime(t: real): Frame {
      this.(time := t, hasTime := true)
    }

    function SetBox(b: TriclinicBox): Frame {
      this.(box := Some(b))
    }
  }

  /** A frame of `n` particles at the origin, at rest, unnamed, without time or box. */
  function NewFrame(n: nat): (f: Frame)
    ensures f.Valid() && f.N() == n && !f.hasTime && f.box.None?
    ensures forall i | 0 <= i < n :: f.positions[i] == Zero && f.velocities[i] == Zero && f.names[i] == ""
  {
    Frame(seq(n, _ => Zero), seq(n, _ => Zero), seq(n, _ => ""), 0.0, false, None)
  }
}
