/**
 * The particle record and the vertex-attribute layout that both the update
 * pass and the render pass use to read it out of a flat float buffer.
 */
module Layout {

  datatype Vec3 = Vec3(x: real, y: real, z: real)

  const Zero: Vec3 := Vec3(0.0, 0.0, 0.0)

  function Components(v: Vec3): seq<real> {
    [v.x, v.y, v.z]
  }

  function ToVec3(s: seq<real>): Vec3
    requires |s| == 3
  {
    Vec3(s[0], s[1], s[2])
  }

  /** One particle: where it is, how long it has lived, how long it may live, how it moves. */
  datatype Particle = Particle(position: Vec3, age: real, life: real, velocity: Vec3)

  datatype Field = Position | Age | Life | Velocity

  /** A float vertex attribute: the field it carries, its component count and its offset in floats. */
  datatype Attribute = Attribute(field: Field, components: nat, offset: nat)

  const F32Size: nat := 4

  /** Floats per particle record. */
  const Stride: nat := 3 + 1 + 1 + 3

  /** The stride handed to `vertex_attrib_pointer`, in bytes. */
  const ByteStride: nat := Stride * F32Size

  /** The attributes bound to each update vertex array, in record order. */
  const UpdateAttributes: seq<Attribute> := [
    Attribute(Position, 3, 0),
    Attribute(Age, 1, 3),
    Attribute(Life, 1, 4),
    Attribute(Velocity, 3, 5)
  ]

  /** The attributes bound for drawing; velocity is not consumed. */
  const RenderAttributes: seq<Attribute> := [
    Attribute(Position, 3, 0),
    Attribute(Age, 1, 3),
    Attribute(Life, 1, 4)
  ]

  /** The byte offset handed to `vertex_attrib_pointer`. */
  function ByteOffset(a: Attribute): nat {
    a.offset * F32Size
  }

  /** `attrs` lie back to back, each non-empty, starting at `start` and ending at `end`. */
  predicate Tiles(attrs: seq<Attribute>, start: nat, end: nat)
    decreases |attrs|
  {
    if |attrs| == 0 then start == end
    else
      && attrs[0].offset == start
      && 0 < attrs[0].components
      && Tiles(attrs[1..], start + attrs[0].components, end)
  }

  /** Slot k of a record belongs to attribute a. */
  predicate Holds(a: Attribute, k: int) {
    a.offset <= k < a.offset + a.components
  }

  predicate Covered(attrs: seq<Attribute>, k: int) {
    exists i :: 0 <= i < |attrs| && Holds(attrs[i], k)
  }

  /** A tiling stays inside its range, never overlaps, and leaves no slot uncovered. */
  lemma {:induction false} TilingIsPartition(attrs: seq<Attribute>, start: nat, end: nat)
    requires Tiles(attrs, start, end)
    ensures forall i :: 0 <= i < |attrs| ==> start <= attrs[i].offset && attrs[i].offset + attrs[i].components <= end
    ensures forall i, j :: 0 <= i < j < |attrs| ==> attrs[i].offset + attrs[i].components <= attrs[j].offset
    ensures forall k :: start <= k < end ==> Covered(attrs, k)
  {
    if |attrs| > 0 {
      var rest := attrs[1..];
      TilingIsPartition(rest, start + attrs[0].components, end);
      assert forall i :: 1 <= i < |attrs| ==> attrs[i] == rest[i - 1];
      forall k | start <= k < end
        ensures Covered(attrs, k)
      {
        if k < start + attrs[0].components {
          assert Holds(attrs[0], k);
        } else {
          assert Covered(rest, k);
          var i :| 0 <= i < |rest| && Holds(rest[i], k);
          assert Holds(attrs[i + 1], k);
        }
      }
    } else {
      assert start == end;
    }
  }

  /**
   * The update layout splits the 8-float record into position, age, life and
   * velocity: every slot belongs to exactly one attribute.
   */
  lemma RecordLayoutIsPartition()
    ensures forall i :: 0 <= i < |UpdateAttributes| ==> UpdateAttributes[i].offset + UpdateAttributes[i].components <= Stride
    ensures forall k :: 0 <= k < Stride ==> Covered(UpdateAttributes, k)
    ensures forall i, j, k :: 0 <= i < j < |UpdateAttributes| && Holds(UpdateAttributes[i], k) ==> !Holds(UpdateAttributes[j], k)
  {
    assert Tiles(UpdateAttributes, 0, Stride);
    TilingIsPartition(UpdateAttributes, 0, Stride);
  }

  /** Rendering binds the update layout's first three attributes, at the same offsets and stride. */
  lemma RenderLayoutIsUpdatePrefix()
    ensures RenderAttributes == UpdateAttributes[..3]
    ensures forall a :: a in RenderAttributes ==> a.field != Velocity
    ensures ByteStride == 32
    ensures forall i :: 0 <= i < |UpdateAttributes| ==> ByteOffset(UpdateAttributes[i]) == [0, 12, 16, 20][i]
  {
  }

  /** The floats of one field of a particle, in component order. */
  function FieldValue(p: Particle, f: Field): seq<real> {
    match f
    case Position => Components(p.position)
    case Age => [p.age]
    case Life => [p.life]
    case Velocity => Components(p.velocity)
  }

  /** The floats an attribute reads out of one record. */
  function Read(rec: seq<real>, a: Attribute): seq<real>
    requires a.offset + a.components <= |rec|
  {
    rec[a.offset .. a.offset + a.components]
  }

  /** A particle as the 8 floats of its record. */
  function Encode(p: Particle): (rec: seq<real>)
    ensures |rec| == Stride
    ensures forall a :: a in UpdateAttributes ==> Read(rec, a) == FieldValue(p, a.field)
  {
    FieldValue(p, Position) + FieldValue(p, Age) + FieldValue(p, Life) + FieldValue(p, Velocity)
  }

  /** The particle a record holds, read through the update layout. */
  function Decode(rec: seq<real>): (p: Particle)
    requires |rec| == Stride
  {
    Particle(
      ToVec3(Read(rec, UpdateAttributes[0])),
      Read(rec, UpdateAttributes[1])[0],
      Read(rec, UpdateAttributes[2])[0],
      ToVec3(Read(rec, UpdateAttributes[3])))
  }

  lemma DecodeEncode(p: Particle)
    ensures Decode(Encode(p)) == p
  {
  }

  lemma EncodeDecode(rec: seq<real>)
    requires |rec| == Stride
    ensures Encode(Decode(rec)) == rec
  {
    assert Encode(Decode(rec)) == rec[0..3] + rec[3..4] + rec[4..5] + rec[5..8];
    assert rec == rec[0..3] + rec[3..4] + rec[4..5] + rec[5..8];
  }

  /** A buffer holding the given particles back to back. */
  function Flatten(ps: seq<Particle>): (buf: seq<real>)
    ensures |buf| == Stride * |ps|
  {
    if |ps| == 0 then [] else Encode(ps[0]) + Flatten(ps[1..])
  }

  /** The i-th record of a buffer. */
  function RecordAt(buf: seq<real>, i: nat): Particle
    requires Stride * (i + 1) <= |buf|
  {
    Decode(buf[Stride * i .. Stride * (i + 1)])
  }

  /** The records of a buffer that holds whole records. */
  function Records(buf: seq<real>): (ps: seq<Particle>)
    requires |buf| % Stride == 0
    decreases |buf|
  {
    if |buf| == 0 then [] else [Decode(buf[..Stride])] + Records(buf[Stride..])
  }

  lemma {:induction false} FlattenAppend(ps: seq<Particle>, p: Particle)
    ensures Flatten(ps + [p]) == Flatten(ps) + Encode(p)
  {
    if |ps| == 0 {
      assert ps + [p] == [p];
    } else {
      assert (ps + [p])[1..] == ps[1..] + [p];
      FlattenAppend(ps[1..], p);
    }
  }

  /** Record i of a flattened buffer is exactly the encoding of particle i. */
  lemma {:induction false} FlattenSlice(ps: seq<Particle>, i: nat)
    requires i < |ps|
    ensures Flatten(ps)[Stride * i .. Stride * (i + 1)] == Encode(ps[i])
  {
    if i > 0 {
      FlattenSlice(ps[1..], i - 1);
      assert Flatten(ps)[Stride * i .. Stride * (i + 1)]
          == Flatten(ps[1..])[Stride * (i - 1) .. Stride * i];
    }
  }

  /** Reading a flattened buffer back record by record yields the particles written. */
  lemma RecordAtFlatten(ps: seq<Particle>)
    ensures forall i :: 0 <= i < |ps| ==> RecordAt(Flatten(ps), i) == ps[i]
  {
    forall i | 0 <= i < |ps|
      ensures RecordAt(Flatten(ps), i) == ps[i]
    {
      FlattenSlice(ps, i);
      DecodeEncode(ps[i]);
    }
  }

  lemma {:induction false} RecordsFlatten(ps: seq<Particle>)
    ensures Records(Flatten(ps)) == ps
  {
    if |ps| > 0 {
      var buf := Flatten(ps);
      assert buf[..Stride] == Encode(ps[0]);
      assert buf[Stride..] == Flatten(ps[1..]);
      DecodeEncode(ps[0]);
      RecordsFlatten(ps[1..]);
    }
  }

  lemma {:induction false} FlattenRecords(buf: seq<real>)
    requires |buf| % Stride == 0
    ensures Flatten(Records(buf)) == buf
    decreases |buf|
  {
    if |buf| > 0 {
      FlattenRecords(buf[Stride..]);
      EncodeDecode(buf[..Stride]);
      assert Records(buf)[1..] == Records(buf[Stride..]);
      assert buf == buf[..Stride] + buf[Stride..];
    }
  }
}
