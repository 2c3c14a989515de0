/**
 * The emitter state machine of `src/particle.rs`: an emitter owns two particle
 * buffers; each update runs the GPU kernel over one buffer into the other and
 * bumps the generation counter; rendering draws one of the two buffers.
 */
module Particle {
  import opened Wrappers
  import opened Numeric
  import opened Gl
  import opened Layout
  import opened Seed

  /** `std::f32::consts::PI` as an `f32` literal. */
  const Pi: real := 3.1415927

  /** Side of the square noise texture. */
  const NoiseSize: nat := 512

  const TextureError: string := "Could not create texture handle"
  const BufferError: string := "Could not create buffer"
  const VertexArrayError: string := "Could not create vertex array"

  datatype EmitterOptions = EmitterOptions(
    numParticles: U32,
    gravity: Vec3,
    origin: Vec3,
    minAge: real,
    maxAge: real,
    minTheta: real,
    maxTheta: real,
    minSpeed: real,
    maxSpeed: real)

  /** `EmitterOptions::default()`. */
  const DefaultOptions: EmitterOptions :=
    EmitterOptions(800, Zero, Zero, 0.3, 0.9, -Pi, Pi, 0.5, 1.0)

  /** A vertex-array object: the buffer it reads and the attribute layout it reads it with. */
  datatype VertexArray = VertexArray(buffer: nat, attributes: seq<Attribute>, byteStride: nat)

  /** Two particle buffers, a vertex array per buffer, and the count of completed updates. */
  datatype Emitter = Emitter(
    options: EmitterOptions,
    generation: nat,
    buffers: seq<seq<real>>,
    vaos: seq<VertexArray>)
  {
    /** Records each buffer holds, and each update or draw processes. */
    function Count(): nat {
      ParticleCount(options.numParticles)
    }

    /** What `create_emitter` establishes and every later operation keeps. */
    predicate Valid() {
      && |buffers| == 2
      && |vaos| == 2
      && (forall i :: 0 <= i < 2 ==> |buffers[i]| == Stride * Count())
      && (forall i :: 0 <= i < 2 ==> vaos[i] == VertexArray(i, UpdateAttributes, ByteStride))
    }
  }

  /** The uniforms the update kernel sees, with the noise texture bound to unit 0. */
  datatype Uniforms = Uniforms(
    timeDelta: real,
    noise: Texture,
    gravity: Vec3,
    origin: Vec3,
    minTheta: real,
    maxTheta: real,
    minSpeed: real,
    maxSpeed: real)

  /**
   * The update vertex shader as a per-vertex function: from the uniforms, the
   * vertex index and the record read, the record captured by transform feedback.
   */
  type Kernel = (Uniforms, nat, Particle) -> Particle

  /** The compiled update program and its noise texture. */
  datatype UpdateSystem = UpdateSystem(kernel: Kernel, noise: Texture)

  /** `UpdateSystem::new`, once the update program has been built. */
  function NewUpdateSystem(gl: GlContext, kernel: Kernel, rand: Random): (r: Result<UpdateSystem>)
    ensures r.Ok? <==> gl.canCreateTexture && gl.acceptsTextureUpload
    ensures !gl.canCreateTexture ==> r == Err(Message(TextureError))
    ensures gl.canCreateTexture && !gl.acceptsTextureUpload ==> r == Err(Browser)
    ensures r.Ok? ==>
      && r.value.kernel == kernel
      && r.value.noise.WellFormed()
      && r.value.noise.data == RandomRgData(NoiseSize, NoiseSize, rand)
      && r.value.noise.format == RG8
      && r.value.noise.width == NoiseSize && r.value.noise.height == NoiseSize
      && r.value.noise.wrap == MirroredRepeat
      && r.value.noise.minFilter == Nearest && r.value.noise.magFilter == Nearest
      && (UnitDraws(rand, 2 * NoiseSize * NoiseSize) ==>
            forall k :: 0 <= k < |r.value.noise.data| ==> r.value.noise.data[k] <= 254)
  {
    if !gl.canCreateTexture then Err(Message(TextureError))
    else if !gl.acceptsTextureUpload then Err(Browser)
    else
      var data := RandomRgData(NoiseSize, NoiseSize, rand);
      assert UnitDraws(rand, 2 * NoiseSize * NoiseSize) ==> forall k :: 0 <= k < |data| ==> data[k] <= 254 by {
        if UnitDraws(rand, 2 * NoiseSize * NoiseSize) {
          forall k | 0 <= k < |data|
            ensures data[k] <= 254
          {
            NoiseByteBounds(rand(k));
          }
        }
      }
      Ok(UpdateSystem(kernel, Texture(NoiseSize, NoiseSize, RG8, data, MirroredRepeat, Nearest, Nearest)))
  }

  /**
   * `UpdateSystem::create_emitter`: both buffers get the same seed data, each
   * vertex array binds its own buffer with the update layout, generation is 0.
   */
  function CreateEmitter(gl: GlContext, options: EmitterOptions, rand: Random): (r: Result<Emitter>)
    ensures r.Ok? <==> gl.canCreateBuffer && gl.canCreateVertexArray
    ensures !gl.canCreateBuffer ==> r == Err(Message(BufferError))
    ensures gl.canCreateBuffer && !gl.canCreateVertexArray ==> r == Err(Message(VertexArrayError))
    ensures r.Ok? ==>
      && r.value.Valid()
      && r.value.options == options
      && r.value.generation == 0
      && r.value.buffers[0] == r.value.buffers[1]
      && forall i :: 0 <= i < r.value.Count() ==>
           RecordAt(r.value.buffers[0], i) == SeedParticle(SeedLife(options.minAge, options.maxAge, rand(i)))
  {
    if !gl.canCreateBuffer then Err(Message(BufferError))
    else
      var data := InitialParticleData(U32AsI32(options.numParticles), options.minAge, options.maxAge, rand);
      if !gl.canCreateVertexArray then Err(Message(VertexArrayError))
      else
        var vaos := seq(2, i requires 0 <= i < 2 => VertexArray(i, UpdateAttributes, ByteStride));
        InitialRecords(U32AsI32(options.numParticles), options.minAge, options.maxAge, rand);
        Ok(Emitter(options, 0, [data, data], vaos))
  }

  /** The buffer an update at this generation reads. */
  function ReadIndex(generation: nat): (i: nat)
    ensures i < 2
  {
    generation % 2
  }

  /** Successive updates read alternate buffers, returning to the same one every two updates. */
  lemma ReadIndexAlternates(generation: nat)
    ensures ReadIndex(generation + 1) != ReadIndex(generation)
    ensures ReadIndex(generation + 2) == ReadIndex(generation)
  {
  }

  /**
   * On a 32-bit target the generation counter wraps at 2^32 in a release
   * build; 2^32 is even, so the wrapped counter selects the same buffers.
   */
  lemma WrappedGenerationKeepsParity(generation: nat)
    ensures ReadIndex(generation % 0x1_0000_0000) == ReadIndex(generation)
    ensures WriteIndex(generation % 0x1_0000_0000) == WriteIndex(generation)
  {
  }

  /** The buffer an update at this generation writes: always the other one. */
  function WriteIndex(generation: nat): (w: nat)
    ensures w < 2 && ReadIndex(generation) < 2
    ensures w != ReadIndex(generation)
    ensures w == ReadIndex(generation + 1)
  {
    (generation + 1) % 2
  }

  /** The uniforms `update` uploads for an emitter and a time step. */
  function UpdateUniforms(sys: UpdateSystem, options: EmitterOptions, delta: real): Uniforms {
    Uniforms(delta, sys.noise, options.gravity, options.origin,
             options.minTheta, options.maxTheta, options.minSpeed, options.maxSpeed)
  }

  /** One transform-feedback pass: vertex k of src goes through the kernel into record k. */
  function Feedback(kernel: Kernel, u: Uniforms, src: seq<real>, count: nat): (dst: seq<real>)
    requires |src| == Stride * count
    ensures |dst| == |src|
    ensures forall k :: 0 <= k < count ==> RecordAt(dst, k) == kernel(u, k, RecordAt(src, k))
  {
    var out := seq(count, k requires 0 <= k < count => kernel(u, k, RecordAt(src, k)));
    RecordAtFlatten(out);
    Flatten(out)
  }

  /**
   * `UpdateSystem::update`: reads buffer `generation % 2` through its vertex
   * array, captures the kernel's output into buffer `(generation + 1) % 2`,
   * then increments the generation.
   */
  function Update(sys: UpdateSystem, e: Emitter, delta: real): (e': Emitter)
    requires e.Valid()
    ensures e'.Valid()
    ensures e'.options == e.options && e'.vaos == e.vaos
    ensures e'.generation == e.generation + 1
    ensures e'.buffers[ReadIndex(e.generation)] == e.buffers[ReadIndex(e.generation)]
    ensures forall k :: 0 <= k < e.Count() ==>
      RecordAt(e'.buffers[WriteIndex(e.generation)], k)
        == sys.kernel(UpdateUniforms(sys, e.options, delta), k, RecordAt(e.buffers[ReadIndex(e.generation)], k))
  {
    var read := e.generation % 2;
    var write := (e.generation + 1) % 2;
    var src := e.buffers[e.vaos[read].buffer];
    var dst := Feedback(sys.kernel, UpdateUniforms(sys, e.options, delta), src, e.Count());
    e.(generation := e.generation + 1, buffers := e.buffers[write := dst])
  }

  /** A column-major 4x4 matrix uniform. */
  type Mat4 = seq<real>

  /** What the render vertex shader receives for one point. */
  datatype RenderVertex = RenderVertex(position: Vec3, age: real, life: real)

  /** The render-relevant part of a particle. */
  function Visible(p: Particle): RenderVertex {
    RenderVertex(p.position, p.age, p.life)
  }

  /** The single `draw_arrays(POINTS, 0, count)` a render issues, with what it reads. */
  datatype DrawCall = DrawCall(
    bufferIndex: nat,
    attributes: seq<Attribute>,
    byteStride: nat,
    count: int,
    projection: Mat4,
    view: Mat4,
    points: seq<RenderVertex>)

  /** Vertex k of a buffer, read through the render layout. */
  function RenderVertexAt(buf: seq<real>, k: nat): RenderVertex
    requires Stride * (k + 1) <= |buf|
  {
    var rec := buf[Stride * k .. Stride * (k + 1)];
    RenderVertex(
      ToVec3(Read(rec, RenderAttributes[0])),
      Read(rec, RenderAttributes[1])[0],
      Read(rec, RenderAttributes[2])[0])
  }

  /**
   * `Render::render`: binds buffer `(generation + 1) % 2` (the one the next
   * update writes and the last update read) and draws `num_particles` points.
   */
  function Render(e: Emitter, projection: Mat4, view: Mat4): (d: DrawCall)
    requires e.Valid()
    ensures d.bufferIndex == WriteIndex(e.generation)
    ensures d.bufferIndex != ReadIndex(e.generation)
    ensures d.count == U32AsI32(e.options.numParticles)
    ensures d.attributes == RenderAttributes && d.byteStride == ByteStride
    ensures d.projection == projection && d.view == view
    ensures |d.points| == e.Count()
    ensures forall k :: 0 <= k < e.Count() ==> d.points[k] == Visible(RecordAt(e.buffers[d.bufferIndex], k))
  {
    var index := (e.generation + 1) % 2;
    var buf := e.buffers[index];
    var points := seq(e.Count(), k requires 0 <= k < e.Count() => RenderVertexAt(buf, k));
    DrawCall(index, RenderAttributes, ByteStride, U32AsI32(e.options.numParticles), projection, view, points)
  }

  /**
   * Rendering right after an update draws the buffer that update read, not the
   * one it wrote: the picture lags the simulation by one step.
   */
  lemma RenderAfterUpdateShowsSource(sys: UpdateSystem, e: Emitter, delta: real, projection: Mat4, view: Mat4)
    requires e.Valid()
    ensures Update(sys, e, delta).Valid()
    ensures Render(Update(sys, e, delta), projection, view).bufferIndex == ReadIndex(e.generation)
    ensures Render(Update(sys, e, delta), projection, view).bufferIndex != WriteIndex(e.generation)
    ensures forall k :: 0 <= k < e.Count() ==>
      Render(Update(sys, e, delta), projection, view).points[k] == Visible(RecordAt(e.buffers[ReadIndex(e.generation)], k))
  {
  }

  /**
   * After two updates, the points drawn are the kernel's output of the first
   * of them: every frame shows the state one update behind the newest.
   */
  lemma RenderLagsOneUpdate(sys: UpdateSystem, e: Emitter, d1: real, d2: real, projection: Mat4, view: Mat4)
    requires e.Valid()
    ensures Update(sys, e, d1).Valid() && Update(sys, Update(sys, e, d1), d2).Valid()
    ensures forall k :: 0 <= k < e.Count() ==>
      Render(Update(sys, Update(sys, e, d1), d2), projection, view).points[k]
        == Visible(sys.kernel(UpdateUniforms(sys, e.options, d1), k, RecordAt(e.buffers[ReadIndex(e.generation)], k)))
  {
    var e1 := Update(sys, e, d1);
    var e2 := Update(sys, e1, d2);
    assert e2.buffers[ReadIndex(e1.generation)] == e1.buffers[WriteIndex(e.generation)];
    RenderAfterUpdateShowsSource(sys, e1, d2, projection, view);
  }

  /**
   * A freshly created emitter draws seed data: buffer 1, whose particles all
   * sit at the origin with an age past their life, so none is yet alive.
   */
  lemma CreatedEmitterRendersSeed(gl: GlContext, options: EmitterOptions, rand: Random, projection: Mat4, view: Mat4)
    requires CreateEmitter(gl, options, rand).Ok?
    ensures CreateEmitter(gl, options, rand).value.Valid()
    ensures Render(CreateEmitter(gl, options, rand).value, projection, view).bufferIndex == 1
    ensures forall k :: 0 <= k < |Render(CreateEmitter(gl, options, rand).value, projection, view).points| ==>
      var v := Render(CreateEmitter(gl, options, rand).value, projection, view).points[k];
      v.position == Zero && v.age > v.life
  {
    var e := CreateEmitter(gl, options, rand).value;
    InitialRecords(U32AsI32(options.numParticles), options.minAge, options.maxAge, rand);
    assert e.buffers[1] == e.buffers[0];
  }

  /**
   * The default emitter: 800 particles, lives drawn from [0.3, 0.9), a full
   * circle of emission angles and speeds in [0.5, 1.0].
   */
  lemma DefaultEmitter(gl: GlContext, rand: Random)
    requires gl.canCreateBuffer && gl.canCreateVertexArray
    ensures CreateEmitter(gl, DefaultOptions, rand).Ok?
    ensures CreateEmitter(gl, DefaultOptions, rand).value.Count() == 800
    ensures DefaultOptions.minTheta == -DefaultOptions.maxTheta && DefaultOptions.minSpeed < DefaultOptions.maxSpeed
    ensures UnitDraws(rand, 800) ==>
      forall i :: 0 <= i < 800 ==>
        var p := RecordAt(CreateEmitter(gl, DefaultOptions, rand).value.buffers[0], i);
        0.3 <= p.life < 0.9 && p.age == p.life + 1.0
  {
    var e := CreateEmitter(gl, DefaultOptions, rand).value;
    InitialRecords(800, 0.3, 0.9, rand);
    assert U32AsI32(DefaultOptions.numParticles) == 800;
  }
}
