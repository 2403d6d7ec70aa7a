# Particle-to-texel layout of the GPGPU particle demo

The demo keeps one particle per texel of a square floating-point RGBA
texture. The render side draws one point per particle, and each point finds
its particle's state by sampling that texture at a UV stored in a vertex
attribute. This project models the CPU-side layout code that makes the two
sides agree, and proves that they do:

- **Grid sizing** (`src/gpgpu.ts`, module `Gpgpu`). The texture side is
  `Math.ceil(Math.sqrt(count))`. It is modelled as the exact integer ceiling
  square root `GridSize`, proved to be the least side whose square grid holds
  every particle.
- **Seeding** (`src/gpgpu.ts`, module `Gpgpu`). A loop copies the flat
  3-stride position array into the texture's flat 4-stride buffer and puts one
  random value into each texel's fourth channel. `Seed` is that loop over an
  `array<real>`. It is proved against `SeededTexture`, which is the buffer's
  contents afterwards as a function of the initial buffer. Texel `i` holds
  particle `i`, and padding texels keep their initial contents.
- **Render lookup tables** (`src/main.ts`, module `Particles`). A nested
  `y`/`x` walk over the whole grid gives particle `i = y*size + x` the UV of
  its texel's centre and a random size. The typed arrays only have room for
  `count` particles, so writes at `i >= count` are dropped.
  `BuildParticleAttributes` is that walk with guarded writes. It is proved
  against `UvTable` and the random stream. The draw range is `[0, count)`.
- **The cross-file claim.** Every drawn point's UV falls in texel `i`, and
  seeding filled texel `i` with particle `i`. This is proved in
  `DrawnParticleSamplesItsSeed` for the pure functions, and in `Setup` for
  the start-up sequence on arrays.

Conventions of the model:

- `Math.random` is an injected sequence of reals (`randoms`). The `k`-th call
  returns element `k`. The seeding loop draws `count` values. The UV walk draws
  one value per grid cell, `size*size` in all, including cells whose write is
  dropped.
- The position attribute is a read-only input sequence of length `3*count`.
- The texture buffer made by the computation renderer's `createTexture` is
  assumed to have `4*size*size` slots. `Seed` requires this. `Setup` creates
  it zero-filled, as three.js does.
- UVs are exact reals. The texel under a UV `(u, v)` is
  `floor(v*size)*size + floor(u*size)` (`TexelUnder`). This is the
  nearest-texel convention the vertex shader is taken to use; the shader is
  not part of this model. At a texel centre, nearest and linear sampling
  return the same texel.
- The seeding loop never touches the padding texels (src/gpgpu.ts:36-46).
  They are zero only because the created buffer starts zeroed. So `Seed`
  leaves padding unchanged, and `Setup` shows the zero padding.

## Model

| member | source | states |
|---|---|---|
| `Gpgpu.GridSize` | src/gpgpu.ts:17 | the side's square holds every particle; for `count > 0` one side fewer does not; `count == 0` gives side 0 |
| `Gpgpu.GridSizeIsLeast` | src/gpgpu.ts:17 | no side whose square holds `count` particles is smaller than `GridSize(count)` |
| `Gpgpu.GridSizeUnique` | src/gpgpu.ts:17 | any side meeting the two ceil-sqrt conditions equals `GridSize(count)` |
| `Gpgpu.GridSizeExamples` | src/gpgpu.ts:17 | 0, 1, 2, 64 and 65 particles give sides 0, 1, 2, 8 and 9 |
| `Gpgpu.SeededTexture` | src/gpgpu.ts:36-45 | buffer length is unchanged; texel `i < count` is `(x_i, y_i, z_i, r_i)` from offset `3i` of the positions and the `i`-th random; every slot at or past `4*count` keeps its initial value; random channels lie in `[0,1)` when the draws do |
| `Gpgpu.SeedSlotsInBounds` | src/gpgpu.ts:17-44 | for `i < count`, the reads `3i..3i+2` stay below `3*count` and the writes `4i..4i+3` stay below `4*size*size` |
| `Gpgpu.SeedFits` | src/gpgpu.ts:17-34 | the `4*count` seeded slots fit in the `4*size*size` buffer |
| `Gpgpu.Seed` | src/gpgpu.ts:36-46 | the loop leaves the buffer equal to `SeededTexture` of its old contents; its invariant says earlier texels are final and later slots are untouched, so the 4-slot writes are disjoint |
| `Particles.RowMajorInjective` | src/main.ts:29-31 | cell `(x, y)` of the grid gets index `y*size + x < size*size`, and the index's column and row give back `x` and `y` |
| `Particles.RowMajorSurjective` | src/main.ts:29-31 | every index below `size*size` is the row-major index of the cell `(i mod size, i div size)` inside the grid |
| `Particles.TexelCentre` | src/main.ts:33-34 | the UV `(x + 0.5)/size` lies strictly inside `(0, 1)` and `floor(uv*size) == x` |
| `Particles.ParticleUvOfCell` | src/main.ts:31-34 | the UV pair computed at cell `(x, y)` is the UV of particle `y*size + x` |
| `Particles.ParticleUvRoundTrip` | src/main.ts:31-34 | the texel under particle `i`'s UV is texel `i` |
| `Particles.ParticleUvInjective` | src/main.ts:31-37 | distinct particles get distinct UV pairs |
| `Particles.UvTable` | src/main.ts:26-37 | the UV table has `2*count` slots, and slots `2i, 2i+1` hold `((i mod size + 0.5)/size, (i div size + 0.5)/size)` for every `i < count` |
| `Particles.UvTableUnique` | src/main.ts:26-37 | a sequence of `2*count` slots giving every particle its UV is exactly `UvTable` |
| `Particles.BuildParticleAttributes` | src/main.ts:26-41 | after the grid walk the UV array equals `UvTable(count, size)` and `sizesArray[i]` is the `i`-th random draw for every `i < count`; out-of-range writes are dropped and every in-range slot is written |
| `Particles.ParticleDrawRange` | src/main.ts:54 | a vertex is drawn exactly when its index is below `count`; padding texels are never drawn |
| `Particles.DrawnParticleSamplesItsSeed` | src/main.ts:29-54 | for every drawn point `i`: its UV is inside the table, the UV addresses texel `i`, and the seeded texel `i` holds particle `i`'s position and random value |
| `Particles.Setup` | src/main.ts:26-54 | on the arrays made at start-up: the texture has `4*size*size` slots with zero padding; the UV array equals `UvTable`, so every drawn point holds its texel-centre UV; the draw range is `[0, count)`; every drawn point's UV addresses its own texel, that texel holds its seeded particle, and its size is its random draw |

## Left out

- The simulation itself is out of scope. The texture pair, the ping-pong scheduling, the variable dependencies and the per-frame `compute` belong to the three.js computation renderer (`addVariable`, `setVariableDependencies`, `init`, `compute`, `getCurrentRenderTarget`). That library and the GLSL integration shader are not part of this model.
- `createTexture` is not modelled. Only its buffer length, `4*size*size`, is kept as a precondition of `Seed`.
- The vertex and fragment shaders are not part of this model. `TexelUnder` states the nearest-texel convention they are taken to use.
- Floating point is not modelled. `Math.sqrt`/`Math.ceil` are the exact integer ceiling square root. UVs are exact reals. Float32 storage rounding is ignored.
- `Math.random` is an injected sequence. The model does not assume that `Setup`'s two streams are consecutive draws of one generator; any draws made between them are not part of this model.
- glTF geometry extraction (the mesh's position and color attributes, and `count` taken from the position attribute) is not modelled. Positions are an input sequence of length `3*count`; the color attribute is passed through untouched.
- The uniforms, GUI sliders, debug plane, tick subscribers, `console.log`, scene graph, bounding-box centring and resize handler are left out. They are UI and scene assembly with nothing to prove.
- `src/setup.ts` (canvas, loaders, camera, controls, renderer, resize listener, timer and animation loop) is browser I/O and is not part of this model.
- `Particles.ParticleDrawRange`: `setDrawRange` mutates a three.js geometry. It is modelled as the range value that it stores.
