# Ping-pong GPU particle emitter — Dafny model

A model of the Rust side of a WebGL2 particle system whose particles live
entirely in GPU buffers. An **emitter** owns two buffers of 8-float particle
records (position 3, age 1, life 1, velocity 3) and a **generation** counter.
Each **update** runs the update vertex shader over one buffer and captures its
output, via transform feedback, into the other buffer, then increments the
generation. **Render** draws one of the two buffers as points. The frame
closure in `src/lib.rs` updates only when the time since the previous frame is
below 150 ms, always renders, and always remembers the current time. A small
serialiser packs an RGBA gradient into texture bytes.

Modules, following the source:

- `Wrappers` (`wrappers.dfy`): `Result` and the failure kinds. A failure is an
  `assert!` panic, an error string written in the code, or an exception thrown
  by the browser.
- `Numeric` (`numeric.dfy`): `u32`/`u8`, and Rust's `u32 as i32` and float
  `as u8` casts written out.
- `Gl` (`gl.dfy`): which fallible WebGL creations succeed (`GlContext`), and
  textures as uploaded.
- `Layout` (`layout.dfy`): the particle record and the fixed attribute layout.
  Also record encode/decode and buffers as back-to-back records.
- `Seed` (`seed.dfy`): `generate_initial_particle_data` and
  `generate_random_rg_data`. Each has a loop method and a declarative
  reference definition.
- `Particle` (`particle.dfy`): `EmitterOptions` and its default, `Emitter`,
  `UpdateSystem::new`, `create_emitter`, `update` and `render`.
- `Frame` (`frame.dfy`): the per-frame closure, and runs of many frames.
- `Gradient` (`gradient.dfy`): `create_gradient_texture`.

Modelling choices:

- `f32`/`f64` values are `real`.
- `Math.random()` is a `Random`: an infinite sequence of draws, given as a
  function from call number to value. Each operation that draws
  (`NewUpdateSystem`, `CreateEmitter`) takes its own `Random`, counted from
  that operation's first draw. In the program both share one stream, so
  `create_emitter`'s draws follow the 2 * 512 * 512 noise draws of
  `UpdateSystem::new` (src/lib.rs:29, 33). Draw bounds `[0, 1)` are stated as a
  hypothesis (`UnitDraws`) where a property needs them.
- The update shader's source is not part of this model. It is a `Kernel`
  parameter: a function from the uniforms, the vertex index and the record
  read to the record captured. Transform feedback captures one record per
  vertex, so an update preserves buffer lengths by construction.
- Matrices and the camera's view matrix are parameters.
- `Emitter.Valid()` is the invariant that `create_emitter` establishes and
  every operation keeps. It says there are two buffers of `8 * count` floats,
  and that vertex array `i` reads buffer `i` with the update layout. The Rust
  fields are private, so every emitter satisfies it.

Behaviours of the code worth knowing:

- `render` binds buffer `(generation + 1) % 2` (src/particle.rs:346). After an
  update this is the buffer that update read, so the picture shows the state
  one update behind the newest (`RenderAfterUpdateShowsSource`,
  `RenderLagsOneUpdate`). Rendering never reads the buffer written by the same
  frame's update.
- `create_emitter` seeds both buffers with the same data
  (src/particle.rs:176-187).
- With draws in `[0, 1)` and `min_age < max_age`, a seeded life lies in
  `[min_age, max_age)` over the reals (`InitialRecords`; src/particle.rs:411).
  The options' fields are public, so equal or inverted bounds are accepted:
  equal bounds give `life == min_age` (`SeedLifeBounds`), and inverted bounds
  give a life in `(max_age, min_age]` (`SeedLifeInverted`). For `f32` rounding see "## Left out".
- Seeding puts every particle at position zero and ignores `origin`
  (src/particle.rs:407-409).
- `num_particles as i32` (src/particle.rs:172) turns counts of 2^31 and above
  negative. Such an emitter seeds, updates and draws zero records
  (`ParticleCount`).
- The update uploads the time delta, the noise texture on unit 0, gravity,
  origin and the angle and speed bounds (src/particle.rs:263-273). `min_age`
  and `max_age` are not uploaded, so the update kernel never sees them
  (`UpdateUniforms`).

## Model

| member | source | states |
|---|---|---|
| Numeric.U32AsI32 | src/particle.rs:172 | `num_particles as i32` keeps the same 32 bits: congruent mod 2^32 and within i32 range. Counts up to i32::MAX are kept; larger ones become negative |
| Numeric.FloatToU8 | src/particle.rs:397-398 | float `as u8`: values below 1 give 0, values of 255 and above give 255, and in between the byte is the value rounded toward zero |
| Layout.TilingIsPartition | src/particle.rs:202-243 | attributes laid back to back from `start` to `end` stay within the range, are ordered without overlap, and cover every slot |
| Layout.RecordLayoutIsPartition | src/particle.rs:202-243 | position@0(3), age@3(1), life@4(1), velocity@5(3) cover the 8-float stride, and every slot belongs to exactly one attribute |
| Layout.RenderLayoutIsUpdatePrefix | src/particle.rs:348-379 | render binds position, age and life at byte offsets 0/12/16, the update layout's first three offsets (of 0/12/16/20), with a 32-byte stride. Velocity is not bound |
| Layout.Encode | src/particle.rs:202-243 | a particle's record is 8 floats, and reading any update attribute out of it yields that particle field |
| Layout.DecodeEncode | src/particle.rs:202-243 | decoding a particle's record through the layout gives the particle back |
| Layout.EncodeDecode | src/particle.rs:202-243 | every 8-float record is the encoding of the particle it decodes to |
| Layout.FlattenAppend | src/particle.rs:403-423 | appending a particle appends its 8-float record to the buffer |
| Layout.FlattenSlice | src/particle.rs:403-423 | floats `8i..8i+8` of a buffer of records are the encoding of particle i |
| Layout.RecordAtFlatten | src/particle.rs:403-423 | reading record i of a buffer of records yields particle i |
| Layout.RecordsFlatten | src/particle.rs:403-423 | splitting a flattened buffer into records gives the particle sequence back |
| Layout.FlattenRecords | src/particle.rs:403-423 | every buffer of whole records is the flattening of its records |
| Seed.ParticleCount | src/particle.rs:171-175 | the records seeded, updated and drawn: `num_particles` when it fits in i32, else 0 |
| Seed.SeedLifeBounds | src/particle.rs:411 | a draw in [0,1) gives a life in [min_age, max_age] that is below max_age, or equal to min_age when the bounds meet |
| Seed.SeedLifeInverted | src/particle.rs:411 | options with max_age below min_age are not rejected; a draw in [0,1) then gives a life in (max_age, min_age] |
| Seed.InitialParticleData | src/particle.rs:403-423 | seed data has exactly 8 floats per loop iteration |
| Seed.GenerateInitialParticleData | src/particle.rs:403-423 | the push loop produces the reference seed data: one record per particle, with the life drawn from the particle's own random draw |
| Seed.InitialRecords | src/particle.rs:405-421 | every seeded record has zero position and velocity, `age == life + 1 > life`, and `life == min_age + r*(max_age - min_age)`. With draws in [0,1) and min_age < max_age, the life is in [min_age, max_age) |
| Seed.NoiseByteBounds | src/particle.rs:397-398 | a draw in [0,1) becomes `floor(r*255)`, which is at most 254 |
| Seed.RandomRgData | src/particle.rs:393-401 | noise data has exactly `2*width*height` bytes |
| Seed.GenerateRandomRgData | src/particle.rs:393-401 | the loop pushes a red and a green byte per texel, giving byte k from draw k. With draws in [0,1) every byte is at most 254 |
| Particle.NewUpdateSystem | src/particle.rs:107-141 | texture-handle failure and upload failure are reported. On success, the noise texture is 512x512 RG8 holding exactly the generated noise bytes (`RandomRgData`), with mirrored-repeat wrap and nearest filtering, and its bytes are at most 254 |
| Particle.CreateEmitter | src/particle.rs:164-255 | a buffer failure is reported before a vertex-array failure. On success: generation 0, options stored unchanged, both buffers hold the same seed records, and the invariant holds |
| Particle.ReadIndexAlternates | src/particle.rs:258 | the read index `ReadIndex(g) = g % 2` switches buffers on every update and returns to the same buffer every two updates |
| Particle.WriteIndex | src/particle.rs:258-259 | the write index differs from the read index `g % 2`, and is the next generation's read index |
| Particle.Feedback | src/particle.rs:275-290 | one transform-feedback pass preserves length, and record k of the output is the kernel applied to vertex k's record |
| Particle.Update | src/particle.rs:257-297 | keeps the invariant, the options and the vertex arrays, and sets generation to g+1. Buffer `ReadIndex(g)` is unchanged. Every record of buffer `WriteIndex(g)` is the kernel's output for the same record of buffer `ReadIndex(g)`. The kernel runs under the uniforms `UpdateUniforms` builds from lines 263-273: delta, noise, gravity, origin, and theta and speed bounds |
| Particle.Render | src/particle.rs:326-390 | binds buffer `(g+1) % 2` (not the current one) with the render layout and a 32-byte stride, and sets the projection and view uniforms. It draws the i32-cast particle count. Each point, read by `RenderVertexAt` through the render layout (lines 348-379), is the position/age/life of the matching record |
| Particle.WrappedGenerationKeepsParity | src/particle.rs:296 | reducing the generation mod 2^32, as a wrapping 32-bit `usize` would, selects the same read and write buffers |
| Particle.RenderAfterUpdateShowsSource | src/particle.rs:344-347 | render right after an update draws the buffer that update read (never the one it wrote), point for point |
| Particle.RenderLagsOneUpdate | src/particle.rs:344-347 | after two updates, render draws the kernel output of the first of them |
| Particle.CreatedEmitterRendersSeed | src/particle.rs:176-187 | a new emitter draws buffer 1, which is seeded too: every point at the origin with age past its life |
| Particle.DefaultEmitter | src/particle.rs:59-73 | default options: 800 particles, symmetric angle bounds, min speed below max speed. Every seeded life is in [0.3, 0.9) with age = life + 1 |
| Frame.RunFromStart | src/lib.rs:56-60 | starting with `prev_time = start_time` (`Start`), the first frame updates exactly when less than 0.15 s have passed since start. Over any run from there, `start_time` is unchanged and the generation grows by the number of short deltas, the first measured from the start time |
| Frame.Step | src/lib.rs:58-88 | updates iff `current - prev < 0.15`, so generation grows by exactly 0 or 1 and the emitter is unchanged on skip. It always renders the post-update emitter with the camera at the elapsed time, sets `prev_time` to the current time, keeps options and the invariant, and never draws the buffer just written |
| Frame.Run | src/lib.rs:58-90 | over n frames: one draw per frame, options and invariant kept, generation grows by at most n, `start_time` unchanged, and `prev_time` ends at the last frame's time |
| Frame.RunDrawAt | src/lib.rs:58-90 | draw k of a run is exactly the draw the frame step makes at time k from the state the first k frames leave |
| Frame.RunGeneration | src/lib.rs:68-71 | over any run, generation grows by exactly the number of frames whose delta (time minus previous frame's time) is below 0.15 |
| Frame.DeltasTail | src/lib.rs:59-60 | the first frame's delta is measured from the stored `prev_time`, and each later one from the previous frame's time |
| Gradient.ComponentByteUnit | src/lib.rs:104 | a component in [0,1] becomes `floor(c*255)` without saturating, within one unit of `c*255` |
| Gradient.ComponentByteSaturates | src/lib.rs:104 | components at or below 0 pack to 0, and at or above 1 pack to 255 |
| Gradient.Pack | src/lib.rs:100-105 | the packed bytes number `4*len`, with component i of colour j at index `4j+i`, in x,y,z,w order |
| Gradient.PackUnpack | src/lib.rs:100-105 | every byte string of whole RGBA texels is the packing of the colours it denotes |
| Gradient.UnpackPack | src/lib.rs:100-105 | colours whose components are exact byte values `b/255` come back unchanged from packing and unpacking |
| Gradient.CreateGradientTexture | src/lib.rs:94-151 | more than 256 colours panic before anything else; texture creation and upload failures are reported. On success the texture is `len x 1` RGBA with the packed bytes, clamp-to-edge and linear filtering |

## Left out

- The GLSL update and render shaders: respawn, integration, angle/speed sampling and colouring. Their source is not part of this model, so the update kernel is an opaque `Kernel` parameter.
- Shader compilation, program linking, attribute and uniform location lookup: `compile_shader`, `link_program`, `get_uniform`, `Render::new`, and the program half of `UpdateSystem::new`. These are thin wrappers over the browser API and are treated as succeeding. `create_buffer`'s wrapper is the exception: its failure, with its message "Could not create buffer", is modelled in `CreateEmitter`. `UpdateSystem::new` is modelled from its noise texture on.
- WebGL state changes (binding, enabling, clearing, uniform upload calls). Only their effect is modelled: which buffer is read or written, with which layout, and with which uniform values.
- Camera and projection math (`sin`/`cos`, `look_at_rh`, `perspective_infinite_rh`). The view comes from a `Camera` parameter and the projection is a parameter.
- `requestAnimationFrame` scheduling, `performance.now()` (frame times are inputs), `console.log`, and canvas/context acquisition in `display_model`.
- The gradient argument passed to `render` at src/lib.rs:84. It has no matching parameter in `Render::render`, so gradient colouring is not modelled.
- GL errors raised at draw time by a negative vertex count (particle counts of 2^31 and above). The model draws nothing in that case.
- Seed.ParticleCount: memory is unbounded in the model. On wasm32 a `Vec<f32>` cannot exceed `isize::MAX` = 2^31 - 1 bytes. So the push loop (src/particle.rs:405-420) panics with a capacity overflow once it must grow past 2^28 floats, at the latest above 2^25 particles, and an allocation failure can abort earlier. `create_emitter` then never returns, while the model seeds every count up to i32::MAX.
- Seed.SeedLifeBounds: proves `life < max_age` over reals. In `f32`, `Math.random() as f32` can round a draw just below 1.0 up to 1.0, giving `life == max_age`.
- Numeric.FloatToU8: reals have no NaN. Rust casts NaN to 0.
- Particle.Update: the generation is an unbounded `nat`. The crate targets wasm32, where `usize` is 32 bits. So `emitter.generation + 1` (src/particle.rs:259, 296 and 346) overflows once the generation reaches 2^32 - 1, about 2.3 years at 60 frames per second. A debug build panics at that point. A release build wraps to 0, which keeps the buffer parity (`WrappedGenerationKeepsParity`).
- The `origin` option in seeding: the code never uses it there.
