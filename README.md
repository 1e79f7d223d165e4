# Particle effect: pooled particles under a cursor

This project models the particle system in `particleEffects.js`:

- A `Particle` object is re-initialised in place by `init` and advanced one frame by `move`.
- A `ParticlesEffect` object keeps two lists:
  - a bounded active list of particles, oldest first;
  - a reuse stack (the pool).
- `spawn` evicts the oldest particle when the active list is full. It then reuses the top of the pool, or constructs a new particle, and re-initialises it at the pointer.
- Each frame of `animate` walks the active list from the back. Live particles move. Dead ones are spliced out and pushed onto the pool.
- `onMouseMove` spawns `ceil(n)` particles at the pointer, with `n` drawn from [2, 5).

The project has four modules:

- `Kinematics` (kinematics.dfy) holds the particle state as a value (`ParticleState`) and the pure step functions:
  - `Initialised`, `Launched`, `Moved` and `Stepped`;
  - lemmas on lifetime and speed.
- `Pooling` (pooling.dfy) holds the bookkeeping over particle identities as pure functions:
  - `Slots`: the active list, the pool and the record of every particle constructed;
  - `Spawned`, `SpawnedAll`, `Culled`, `CullDown`;
  - the invariant `Inv`: every constructed particle is in exactly one list, once; the active list is within capacity; at most `maxParticles` particles are ever constructed.
- `Particles` (particle.dfy) holds the mutable `Particle` class. `Init` and `Move` assign fields in place and are proved to produce exactly `Initialised` and `Moved`.
- `Effect` (effect.dfy) holds the mutable `ParticlesEffect` class:
  - `particles` and `pool` are sequence fields, and the ghost `created` records every particle constructed.
  - Its methods are proved against the `Pooling` and `Kinematics` functions.
  - Both constructors establish the object invariant `Valid()`, and `Spawn`, `SpawnNext`, `Animate` and `OnMouseMove` keep it.
  - The steps of the cull loop (`MoveAt`, `SpliceAt`, `Visit`) keep the loop invariant `Swept` instead. `Sweep`, the loop itself, keeps every pooled particle dead and ends with the lists `CullDown` gives, and `Animate` re-establishes `Valid()` from that.

Randomness, `Math.sin` and `Math.cos` become inputs:

- `SpawnDraw` holds the draws of one `spawn`.
- `Wobble` holds the draws of one `move`.

The ranges the source draws them from are the preconditions (`ValidDraw`, `ValidWobble`).

Two consequences of the code are worth spelling out:

- **Spawn count.** The loop at particleEffects.js:127 runs `ceil(n)` times for `n` drawn from [2, 5), so a pointer move spawns between two and five particles. `Effect.FiveSpawnsReachable` shows five happening.
- **Eviction at capacity.** The particle evicted at capacity does not stay in the pool. Line 97 pushes it onto the pool, and line 99 pops it straight back out and re-initialises it. At capacity a spawn therefore rotates the active list and leaves the pool unchanged. With capacity 3, four spawns leave the pool empty and the first particle at the back of the list (`Pooling.FourSpawnsIntoThree`).

## Model

| member | source | states |
|---|---|---|
| Kinematics.OrDefault | particleEffects.js:23-30 | `a \|\| d` on a number: `undefined` and 0 give the default, any other number is kept |
| Kinematics.Initialised | particleEffects.js:20-34 | `init` sets every field whatever the previous state was: alive, zero velocity, wander 0.15, drag 0.92, colour `#fff`, radius and position from the arguments or their defaults (10, 0, 0) |
| Kinematics.Launched | particleEffects.js:100-110 | after `spawn` the particle is alive at (x, y) with the chosen colour, radius in [3, 15), drag in [0.9, 0.99), wander in [0.5, 2) |
| Kinematics.LaunchSpeed | particleEffects.js:106-110 | each launch velocity component lies within [-8, 8] |
| Kinematics.Moved | particleEffects.js:36-49 | `move` advances the position by the old velocity, damps the velocity by drag and adds the heading push, turns the heading by wander times the random turn, strictly shrinks a positive radius, and sets alive exactly when the new radius exceeds 0.5 |
| Kinematics.Stepped | particleEffects.js:139-148 | one frame on the states of the active list keeps their number; what happens at each index is stated by `SteppedAt` |
| Kinematics.SteppedAt | particleEffects.js:139-148 | in one frame, index i is moved exactly when it was alive and is left unchanged otherwise |
| Kinematics.MovedAll | particleEffects.js:36-49 | repeated `move` never changes wander, drag or colour, and after at least one move the particle is alive exactly when its radius exceeds 0.5 |
| Kinematics.MovedAllRadius | particleEffects.js:47-48 | after n moves the radius is the starting radius shrunk n times by the factor 0.96, and after at least one move the particle is alive exactly when that radius exceeds 0.5 |
| Kinematics.RadiusShrinks | particleEffects.js:47 | a positive radius strictly decreases with every further move |
| Kinematics.DeadStaysDead | particleEffects.js:47-48 | once a move has made a particle dead, no further moves make it alive again |
| Kinematics.SpawnedLifetime | particleEffects.js:47-48 | a particle spawned with radius in [3, 15) is still alive after 43 moves and dead after 84 |
| Kinematics.SpeedStaysBounded | particleEffects.js:40-45 | with drag below 0.99, velocity components in [-10, 10] stay there over any number of moves, and drag never changes |
| Kinematics.MoveKeepsSpeed | particleEffects.js:40-45 | one move keeps each velocity component within [-10, 10] |
| Particles.Particle.constructor | particleEffects.js:15-17 | `new Particle(x, y, radius)` leaves exactly the state `init` gives for those arguments |
| Particles.Particle.Init | particleEffects.js:20-34 | the fields after `init` are exactly `Initialised` of the arguments |
| Particles.Particle.Move | particleEffects.js:36-49 | the fields after `move` are exactly `Moved` of the fields before |
| Pooling.Evicted | particleEffects.js:97 | eviction never constructs a particle; at capacity the front particle leaves the active list and is pushed onto the pool; below capacity nothing changes |
| Pooling.Spawned | particleEffects.js:97-112 | the three cases of `spawn`: at capacity the list rotates and the pool is untouched; below capacity the pool top is reused; with an empty pool one particle is constructed |
| Pooling.SpawnedKeepsInv | particleEffects.js:94-113 | `spawn` keeps every constructed particle in exactly one list, keeps the active list within capacity, constructs at most `maxParticles` particles overall, and grows the active list by one until it is full |
| Pooling.SpawnedAll | particleEffects.js:127-129 | a run of spawns never forgets a construction and constructs at most one particle per spawn |
| Pooling.SpawnedAllLength | particleEffects.js:127-129 | k spawns grow the active list by k up to the capacity and never past it |
| Pooling.SpawnedSameEnd | particleEffects.js:97-112 | a spawn drops at most the front of the active list and appends at the back, so a list ending with the earlier spawns ends with them followed by the new particle |
| Pooling.SameEndSuffix | particleEffects.js:127-129 | two lists that end alike have the shorter as a suffix of the longer: the spawned particles are the tail of the active list, or fill it |
| Pooling.SpawnedAllSnoc | particleEffects.js:127-129 | the spawn loop runs one `spawn` per iteration on the result of the previous ones |
| Pooling.SpawnedAllAtCapacity | particleEffects.js:97-99 | FIFO eviction: at capacity, k spawns recycle the k oldest particles in order, moving them to the back, and the pool is unchanged |
| Pooling.FourSpawnsIntoThree | particleEffects.js:97-112 | with capacity 3, four spawns give active list [b, c, a], an empty pool and three constructed particles |
| Pooling.Culled | particleEffects.js:139-148 | the cull constructs nothing and only appends to the pool |
| Pooling.CullAt | particleEffects.js:142-146 | one visit keeps the indices below i; a live particle leaves both lists as they are; a dead one is removed, the particles above it close up, and it lands on top of the pool; nothing is lost or constructed |
| Pooling.CullDown | particleEffects.js:139-148 | the back-to-front walk constructs nothing, loses no particle, and only adds on top of the old pool |
| Pooling.CullDownCulls | particleEffects.js:139-148 | walking the list from the back, one index at a time, yields the survivors in order and the dead in reverse index order on the pool |
| Pooling.CullDownIsCulled | particleEffects.js:139-148 | the whole back-to-front walk equals `Culled` |
| Pooling.CulledSeparates | particleEffects.js:142-146 | with conserved lists, a particle stays active exactly when its flag was set and is in the pool exactly when it was clear |
| Pooling.CullSeparates | particleEffects.js:142-146 | in a duplicate-free list, index i survives exactly when alive and is dropped exactly when dead |
| Pooling.CullSplits | particleEffects.js:146 | survivors and dropped together are a permutation of the active list |
| Pooling.CullWithin | particleEffects.js:146 | both parts of the cull hold only particles of the list |
| Pooling.SurvivorsAppend | particleEffects.js:139-147 | survivors keep their relative order |
| Pooling.DroppedAppend | particleEffects.js:139-146 | dead particles reach the pool from the highest index down |
| Pooling.CulledKeepsInv | particleEffects.js:139-148 | the cull keeps the invariant and the total number of listed particles |
| Pooling.ConservedDisjoint | particleEffects.js:97-99 | no particle is twice in the active list or the pool, and none is in both |
| Effect.Ceil | particleEffects.js:127 | the loop `i < n` with a real n runs the least integer at least n times |
| Effect.CountTest | particleEffects.js:127 | before the count reaches `ceil(n)`, the loop test `i < n` holds exactly when `i < ceil(n)` |
| Effect.AtPointerSnoc | particleEffects.js:127-129 | appending a particle alive at the pointer to particles alive at the pointer keeps them all alive at the pointer |
| Effect.SpawnCountRange | particleEffects.js:127 | a pointer move spawns between 2 and 5 particles |
| Effect.FiveSpawnsReachable | particleEffects.js:127 | any draw above 4 gives five spawns |
| Effect.Relaunch | particleEffects.js:100-110 | the particle's fields after re-initialisation are exactly `Launched` |
| Effect.ParticlesEffect.constructor | particleEffects.js:61-66 | a new effect has empty lists, the given capacity and palette, and the invariant |
| Effect.ParticlesEffect.Default | particleEffects.js:61-66 | the default options: capacity 280 and the seven-colour palette |
| Effect.ParticlesEffect.Obtain | particleEffects.js:97-99 | eviction then pop or construction, as `Spawned` before the append; the pool never holds the obtained particle; a particle is constructed only when it is fresh |
| Effect.ParticlesEffect.Spawn | particleEffects.js:94-113 | the lists become `Spawned` of the old lists, the invariant holds, the re-initialised particle is the one at the back of the active list, it is `Launched` at (x, y), and no other particle changes |
| Effect.ParticlesEffect.MoveAt | particleEffects.js:140-144 | a live particle at index i moves and the lists stay as they are |
| Effect.ParticlesEffect.SpliceAt | particleEffects.js:145-146 | a dead particle at index i is spliced out and pushed onto the pool |
| Effect.ParticlesEffect.Visit | particleEffects.js:140-147 | one iteration of the cull loop takes the walk one index lower |
| Effect.ParticlesEffect.Sweep | particleEffects.js:139-148 | the lists become the back-to-front walk over the flags read before the frame, and every listed particle ends in the state `Stepped` gives |
| Effect.ParticlesEffect.Animate | particleEffects.js:139-148 | the lists become `Culled` of the old lists and their flags before the moves, the invariant holds, the particle states are `Stepped`, and a particle is still listed exactly when it was alive before this frame's move |
| Effect.ParticlesEffect.SpawnNext | particleEffects.js:128 | one iteration of the spawn loop: the particles spawned so far gain the one this spawn appends; the lists take one more `Spawned` step; the invariant holds; that particle is last in the active list, which still ends with the earlier spawns in order; every particle spawned so far is alive at (x, y); every other particle keeps its state |
| Effect.ParticlesEffect.OnMouseMove | particleEffects.js:127-129 | `ceil(n)` spawns: the lists are `SpawnedAll` of the old lists and the invariant holds; the active list grows by `ceil(n)` up to the capacity; it ends with the particles spawned, in spawn order, as far as its length allows; every particle spawned is alive at the pointer; every particle no spawn appended keeps its state |

## Left out

- Drawing and the page are not modelled:
  - the canvas and its 2D context, `draw`, `clearRect` and the composite mode;
  - `resize` and the event-listener registration in the constructor;
  - `requestAnimationFrame` scheduling and the first `animate()` call from the constructor;
  - the example instantiation at the end of the file.

  None of these changes the particle lists or states.
- The pointer-to-canvas coordinate mapping of `onMouseMove` (lines 116-125) is not modelled. `OnMouseMove` receives the mapped coordinates as `x` and `y`.
- `random` (lines 4-12), `Math.sin` and `Math.cos` become inputs (`SpawnDraw`, `Wobble`) with the source's ranges as preconditions.
  - The heading drawn inside `init` and the launch heading are independent inputs.
  - `Math.PI * 2` is the decimal constant `TwoPi`.
- Numbers are reals. IEEE double rounding is not modelled, and neither are NaN or the infinities. For example, NaN is falsy in `radius || 10`, but `OrDefault` treats only `undefined` and 0 as falsy.
- Arguments that are neither numbers nor `undefined` are not modelled.
- `Effect.ParticlesEffect.constructor` requires `maxParticles >= 1` and a non-empty palette. With capacity 0, `spawn` pushes `undefined` onto the pool, pops it again and fails calling `init` on it. With an empty palette, `random([])` yields `undefined` as the colour. Neither behaviour is modelled.
- `Particles.Particle.constructor` takes the heading draw of its `init` as a parameter. The file itself only calls `new Particle()` without arguments (line 99), and the new particle's heading is overwritten at once by the following `init`.
- `Effect.ParticlesEffect.Animate` takes one `Wobble` per listed particle. The entries at indices of dead particles are not used.
