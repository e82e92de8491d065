# Portfolio website effects, modelled in Dafny

This project models the parts of the portfolio site that keep state and compute
things. The rest is rendering.

- **Particle engine.** A pool of particle slots lives in parallel attribute arrays.
  - A circular cursor places each emitted particle and overwrites the oldest slots
    when the pool wraps.
  - Before each render the pool works out which parts of every attribute array must
    be sent to the GPU again.
- **Emitters.** Each frame an emitter decides how many particles are due, either on
  an elapsed-time ramp or all at once in a burst. Its setup callback builds each
  particle from the emitter's ranges and random draws.
- **Registry.** A small store connects emitters to pools by name.
- **Tuning panel.** It packs its flat colour controls into colour lists, and unpacks
  an emitter's settings back into controls.
- **Flipbook.** A page table is built from the experience images, and a click
  handler turns the pages and opens and closes the book.
- **Trail.** A trail follows a moving target with a fixed-length queue of points and
  draws them as a ribbon.
- **Fairy.** A controller cycles the flying fairy through flying, exiting and
  returning phases.
- **Fireworks.** A list gains one record per launch and drops records after their
  four-second life.

One module per source file:

| module | file |
|---|---|
| `Basics`, `Arith` | shared value types, `randFloat`/`randInt`, modular arithmetic facts |
| `Particles` | `vfx_particles.dfy`: components/VFXParticles.jsx |
| `Emitter` | `vfx_emitter.dfy`: components/VFXEmitter.jsx |
| `Store` | `vfx_store.dfy`: hooks/VFXStore.js |
| `Builder` | `vfx_builder.dfy`: components/VFXBuilder.jsx |
| `FlipBookPages` | `flipbook_pages.dfy`: components/FlipBookUI.jsx |
| `FlipBook` | `flipbook.dfy`: components/FlipBook.jsx |
| `Trail` | `simple_trail.dfy`: components/SimpleTrail.jsx |
| `Tinkerbell` | `tinkerbell.dfy`: components/TinkerbellUIV2.jsx |
| `Fireworks` | `fireworks.dfy`: hooks/useFireworks.js |

Code that updates state in place is modelled as classes with `modifies` frames:
- the pool's cursor and typed attribute arrays;
- the emitter's counters;
- the registry map;
- the book's page;
- the trail's queue and vertex buffer;
- the fairy's phase.

The particle pool's writes, the emitter's frame, the registry's updates and the trail's
redraw are proved against specification functions (`RingWrite`, `DirtyRanges`, `Step`,
`Registered`, `Unregistered`, `VertexAt`), and the properties are proved about those
functions as lemmas. The book's click handlers, the registry's `emit`, the emitter's
restart and the fairy's frame state their new state directly in their contracts.
Pure code becomes datatypes and functions:
- the setup record;
- the packing of the panel;
- the page table;
- the firework records and their pruning.

Every `Math.random()` draw becomes a parameter `u` with `0 <= u < 1`. Every
`Date.now()` reading and clock value also becomes a parameter. Numbers are exact
reals.

### What the code does where a reader might expect otherwise

- **Dirty ranges.** The update ranges (components/VFXParticles.jsx:211-226) are
  computed from `lastCursor` and `cursor` alone. They do not always cover every slot
  written since the last upload: they cover the last `K mod n` writes, where `K` is
  the number of particles emitted since the last upload and `n` is the pool size.
  When `K` is a multiple of `n`, they cover nothing (`Particles.UploadCoversPending`).
- **Time ramp.** The ramp's target, `floor((elapsed - delay) / duration * nbParticles)`
  (components/VFXEmitter.jsx:137-142), is not capped at `nbParticles`, although the
  emitter's parameter notes describe `nbParticles` as the number of particles to emit.
  A frame that arrives late can request more particles than that
  (`Emitter.RampOvershoots`).
- **Looping.** The parameter notes say `loop` makes the emitter emit particles
  indefinitely (components/VFXEmitter.jsx:10). The frame body never resets `emitted`;
  only the Restart button does (components/VFXEmitter.jsx:115-118), so between restarts
  `loop` only lifts the `emitted < nbParticles` guard (components/VFXEmitter.jsx:129).
  A looping burst emitter requests its `nbParticles` once and then nothing
  (`Emitter.BurstRequestsOnce`, `Emitter.LoopingBurstFallsSilent`).

## Model

| member | source | states |
|---|---|---|
| Basics.RandFloat | PortfolioWebsite/src/components/VFXEmitter.jsx:156 | `randFloat(low, high)` lies in `[low, high]` for an ordered pair and never reaches `high` when `low < high` |
| Basics.RandInt | PortfolioWebsite/src/components/VFXEmitter.jsx:157-158 | `randInt(low, high)` lies in `[low, high]`, so an index drawn over `[0, len - 1]` is a valid index |
| Basics.RandVec | PortfolioWebsite/src/components/VFXEmitter.jsx:161-183 | a per-axis draw between two corner vectors lies in their box on every ordered axis |
| Particles.RingWrite | PortfolioWebsite/src/components/VFXParticles.jsx:109-154 | writing a batch through the wrapping cursor never changes the number of slots |
| Particles.RingWriteExtend | PortfolioWebsite/src/components/VFXParticles.jsx:134-153 | one more turn of the emit loop writes the next particle to slot `(start + i) % n` |
| Particles.RingWriteAt | PortfolioWebsite/src/components/VFXParticles.jsx:109-154 | after a batch, each slot holds the last particle that landed on it, or its old value if none did |
| Particles.RingWriteNoLap | PortfolioWebsite/src/components/VFXParticles.jsx:134-153 | with at most `n` particles, particle `i` lands in slot `(start + i) % n` and the slots past the batch are untouched |
| Particles.RingWriteFullLap | PortfolioWebsite/src/components/VFXParticles.jsx:110-153 | a batch of `n` or more overwrites every slot with one of the batch's last `n` particles |
| Particles.SixIntoFour | PortfolioWebsite/src/components/VFXParticles.jsx:109-154 | six particles into four slots from 0 leave the slots holding particles 5, 6, 3, 4: the last two overwrite the first two |
| Particles.DirtyRanges | PortfolioWebsite/src/components/VFXParticles.jsx:211-226 | one update range, or two when the cursor wrapped; every range has a nonnegative length and lies inside the attribute array |
| Particles.DirtyRangesCover | PortfolioWebsite/src/components/VFXParticles.jsx:211-226 | an array element is in the update ranges exactly when its slot lies in the circular interval from `lastCursor` to `cursor` |
| Particles.RangesBySlot | PortfolioWebsite/src/components/VFXParticles.jsx:211-226 | in element terms the ranges are `[last*k, cur*k)`, or its complement when the cursor wrapped |
| Particles.UploadCoversPending | PortfolioWebsite/src/components/VFXParticles.jsx:152-226 | after `K` emits the ranges cover exactly the last `K mod n` written slots: all of them when `K < n`, none when `n` divides `K` |
| Particles.ParticlePool.constructor | PortfolioWebsite/src/components/VFXParticles.jsx:78-90 | arrays sized `n` times each item size and zero-filled, both cursors at 0, no update pending, the pool invariant established |
| Particles.ParticlePool.SetItems | PortfolioWebsite/src/components/VFXParticles.jsx:138-150 | `attribute.set(vals, offset)` changes exactly the elements from `offset` on, to `vals`, and no others |
| Particles.ParticlePool.WriteSlot | PortfolioWebsite/src/components/VFXParticles.jsx:134-150 | writing slot `s` makes it hold the new particle and leaves every other slot of every attribute as it was |
| Particles.ParticlePool.WriteNext | PortfolioWebsite/src/components/VFXParticles.jsx:115-153 | one loop turn writes the slot under the cursor and advances the cursor by one modulo `n`, keeping the invariant |
| Particles.ParticlePool.WriteAll | PortfolioWebsite/src/components/VFXParticles.jsx:109-154 | the emit loop leaves the slots equal to the ring write of the batch and the cursor at `(c + count) % n` |
| Particles.ParticlePool.Emit | PortfolioWebsite/src/components/VFXParticles.jsx:95-165 | `emit` keeps the cursor in range at `(c + count) % n`, leaves the slots equal to the ring write of the batch, each particle stored as `Stored` gives it (matrix from position, rotation and scale, colours resolved by `style`, `StoredAll` for the batch), and always flags an update, even for zero particles |
| Particles.ParticlePool.OnBeforeRender | PortfolioWebsite/src/components/VFXParticles.jsx:195-232 | does nothing unless flagged and the mesh exists; otherwise every attribute gets its dirty ranges for its item size, `lastCursor` catches up and the flag clears |
| Emitter.Target | PortfolioWebsite/src/components/VFXEmitter.jsx:134-142 | the particles due are never negative, and a burst is due all `nbParticles` at once |
| Emitter.Step | PortfolioWebsite/src/components/VFXEmitter.jsx:127-201 | elapsed time always grows by `delta`; nothing is requested before the delay or by a finished non-looping emitter; a frame that may emit, past the delay and behind the target, requests exactly `target - emitted`; a firing frame brings `emitted` to the target; `emitted` never drops |
| Emitter.RunCountsRequests | PortfolioWebsite/src/components/VFXEmitter.jsx:144-197 | over any run of frames, `emitted` grows by exactly the number of particles requested |
| Emitter.BurstRequestsOnce | PortfolioWebsite/src/components/VFXEmitter.jsx:129-147 | a burst emitter from zero requests all `nbParticles` in its first frame past the delay and nothing afterwards |
| Emitter.RunNeverDecreases | PortfolioWebsite/src/components/VFXEmitter.jsx:127-201 | across frames `emitted` never decreases and the elapsed time is the sum of the deltas |
| Emitter.LoopingBurstFallsSilent | PortfolioWebsite/src/components/VFXEmitter.jsx:129-147 | a looping burst emitter that has requested its `nbParticles` requests nothing in any later frame |
| Emitter.RampHalfway | PortfolioWebsite/src/components/VFXEmitter.jsx:137-142 | a two-second ramp for 100 particles has 50 due after one second and 100 after two |
| Emitter.RampOvershoots | PortfolioWebsite/src/components/VFXEmitter.jsx:129-145 | a late first frame of a non-looping emitter requests twice its particle count, because the ramp is not capped |
| Emitter.Setup | PortfolioWebsite/src/components/VFXEmitter.jsx:147-195 | the start colour is one of the list; the end colour falls back to it when there is no end list; scale is uniform within `size`; position is the world position plus an offset in the start box; other attributes within their ranges; birth time is the frame clock |
| Emitter.VFXEmitter.constructor | PortfolioWebsite/src/components/VFXEmitter.jsx:124-125 | both counters start at 0 |
| Emitter.VFXEmitter.OnRestart | PortfolioWebsite/src/components/VFXEmitter.jsx:115-118 | restart zeroes both counters |
| Emitter.VFXEmitter.Frame | PortfolioWebsite/src/components/VFXEmitter.jsx:127-201 | the frame body's request count and new counters are those of the schedule `Step` |
| Store.Registered | PortfolioWebsite/src/hooks/VFXStore.js:13-22 | registering a taken name changes nothing; a new name adds exactly that entry and keeps every other |
| Store.Unregistered | PortfolioWebsite/src/hooks/VFXStore.js:23-28 | unregistering drops exactly that name, and leaves the map as it was when the name is absent |
| Store.RegisterThenUnregister | PortfolioWebsite/src/hooks/VFXStore.js:13-28 | registering a fresh name and unregistering it restores the map |
| Store.FirstRegistrationWins | PortfolioWebsite/src/hooks/VFXStore.js:13-17 | a second registration under a name keeps the first callback |
| Store.Registry.constructor | PortfolioWebsite/src/hooks/VFXStore.js:12 | the registry starts empty |
| Store.Registry.RegisterEmitter | PortfolioWebsite/src/hooks/VFXStore.js:13-22 | the new map is the registration of the old one |
| Store.Registry.UnregisterEmitter | PortfolioWebsite/src/hooks/VFXStore.js:23-28 | the new map is the old one without the name |
| Store.Registry.Emit | PortfolioWebsite/src/hooks/VFXStore.js:29-36 | a call is made exactly when the name is registered, to that callback with the parameters unchanged |
| Builder.ColorCount | PortfolioWebsite/src/components/VFXBuilder.jsx:137-144 | a panel exports between one and three colours, exactly `nbColors` of them when it is 1, 2 or 3 |
| Builder.Pack | PortfolioWebsite/src/components/VFXBuilder.jsx:127-144 | the exported lists are the first `ColorCount` start and end controls in order; every non-colour control is carried over unchanged |
| Builder.Unpack | PortfolioWebsite/src/components/VFXBuilder.jsx:150-165 | the loop sets `nbColors` to `min(L, 2)` for `L` start colours and fills the first two start and end controls from the lists independently |
| Builder.SettingsRoundTrip | PortfolioWebsite/src/components/VFXBuilder.jsx:127-191 | opening the panel on settings (`Apply` of `Unpacking`: `set` names every control, supplied values replace the panel's and undefined ones leave them) and exporting again gives the first `min(L, 2)` start colours, the matching end colours, each control the settings supply with their value and every other control with the panel's |
| Builder.PanelRoundTrip | PortfolioWebsite/src/components/VFXBuilder.jsx:127-191 | exporting a panel and opening it again (`Apply` of `Unpacking` of `Pack`) restores it, except that three colours come back as two |
| FlipBookPages.BuildPages | PortfolioWebsite/src/components/FlipBookUI.jsx:33-53 | cover, inner leaves of images `2k-1` and `2k`, back cover; `(n-1)/2 + 2` leaves; every image once in order, the last twice when `n` is odd |
| FlipBookPages.BuildStep | PortfolioWebsite/src/components/FlipBookUI.jsx:42-47 | each loop turn adds the leaf for the next two images, so the fallback back page is never used |
| FlipBookPages.BuildFinish | PortfolioWebsite/src/components/FlipBookUI.jsx:49-53 | the back cover completes the book with the count and reading order above |
| FlipBookPages.ExperiencePages | PortfolioWebsite/src/components/FlipBookUI.jsx:7-53 | the twelve shipped images make seven leaves, from the title cover to the back cover |
| FlipBook.OpenedFlags | PortfolioWebsite/src/components/FlipBook.jsx:336-341 | leaf `k` is shown turned exactly when the page is past it |
| FlipBook.OpenedCount | PortfolioWebsite/src/components/FlipBook.jsx:341 | exactly `min(page, pages.length)` leaves are turned |
| FlipBook.ClosedWhenAllOrNoneOpened | PortfolioWebsite/src/components/FlipBook.jsx:341-342 | the book shows closed exactly when no leaf or every leaf is turned |
| FlipBook.Book.constructor | PortfolioWebsite/src/components/FlipBook.jsx:253-255 | the book starts shut on page 0 |
| FlipBook.Book.HandleBookClick | PortfolioWebsite/src/components/FlipBook.jsx:267-285 | a closed book opens on its page; an open one turns a leaf, and past the last leaf closes on page 0; the page stays within `[0, pages.length]` |
| FlipBook.Book.HandleBackgroundClick | PortfolioWebsite/src/components/FlipBook.jsx:288-298 | a click on the book changes nothing; any other click closes it on page 0 |
| Trail.Shift | PortfolioWebsite/src/components/SimpleTrail.jsx:47-52 | the newest point goes in front, the others move back one place and the oldest drops off; the length is unchanged |
| Trail.FollowKeepsLatest | PortfolioWebsite/src/components/SimpleTrail.jsx:32-52 | after any moves the queue keeps its length and holds the latest moves newest first, then the oldest remaining points |
| Trail.VertexPairs | PortfolioWebsite/src/components/SimpleTrail.jsx:57-68 | pair `i` is drawn at the `i`-th oldest point: both vertices share its x and z, one half a height below it and one half a height above, so they lie exactly `height` apart |
| Trail.SimpleTrail.constructor | PortfolioWebsite/src/components/SimpleTrail.jsx:32-34 | the queue starts as `numPoints` copies of the origin |
| Trail.SimpleTrail.Frame | PortfolioWebsite/src/components/SimpleTrail.jsx:36-72 | nothing changes without mesh and target; otherwise the queue shifts only when the target is farther than `minDistance` from the newest point (`FartherThan`, the distance test on squares), and every vertex is redrawn from the queue |
| Trail.SimpleTrail.Redraw | PortfolioWebsite/src/components/SimpleTrail.jsx:57-68 | every vertex `v` holds the ribbon vertex of pair `v / 2`, oldest point first |
| Tinkerbell.CycleOfThree | PortfolioWebsite/src/components/TinkerbellUIV2.jsx:89-130 | the phases cycle flying, exiting, returning, and every transition changes the phase |
| Tinkerbell.OffscreenThreshold | PortfolioWebsite/src/components/TinkerbellUIV2.jsx:56-89 | on any screen width the crossing, with x interpolated by `FlyX` and the edge test `Offscreen`, ends past progress 13/12 going right and 71/60 going left |
| Tinkerbell.TravelPositive | PortfolioWebsite/src/components/TinkerbellUIV2.jsx:24-32 | a crossing (`TravelDuration`, a quarter second per width unit, 0.28 on phones) takes a positive time on any positive width |
| Tinkerbell.FlyingAdvances | PortfolioWebsite/src/components/TinkerbellUIV2.jsx:46-53 | every flying frame with positive `delta` increases the eased progress `FlyProgress` |
| Tinkerbell.Controller.constructor | PortfolioWebsite/src/components/TinkerbellUIV2.jsx:12-17 | the fairy starts flying left to right at progress 0 and the start depth |
| Tinkerbell.Controller.Frame | PortfolioWebsite/src/components/TinkerbellUIV2.jsx:35-132 | visible exactly while flying; only cycle transitions, each resetting progress; direction flips only on exit to return and stays ±1; flying follows `FlyProgress` and `FlyX` to the `Offscreen` edge; exit and return advance by `delta / 0.5` along `ExitZ` and `ReturnZ` until progress reaches 1, holding x at the edge the fairy left by |
| Fireworks.NewFirework | PortfolioWebsite/src/hooks/useFireworks.js:16-23 | the key embeds the clock, a salt in `[0, 100]` and the list length; origin position, the two colours, velocity in `[-8,8]x[5,10]x[-8,8]`, delay in `[0.8, 2]` |
| Fireworks.AddFirework | PortfolioWebsite/src/hooks/useFireworks.js:11-26 | a launch appends exactly one record keyed by the earlier length and keeps the earlier records in order |
| Fireworks.Prune | PortfolioWebsite/src/hooks/useFireworks.js:29-33 | the sweep keeps exactly the records younger than 4000 ms and never grows the list |
| Fireworks.PruneConcat | PortfolioWebsite/src/hooks/useFireworks.js:30-32 | the sweep works record by record, so it keeps the original order |
| Fireworks.PruneIdempotent | PortfolioWebsite/src/hooks/useFireworks.js:30-32 | a second sweep at the same time removes nothing more |
| Fireworks.SweepAfterLaunch | PortfolioWebsite/src/hooks/useFireworks.js:11-34 | a sweep after a launch keeps the earlier survivors in order, then the new record when it is still young |

## Left out

- GLSL shaders (components/VFXParticles.jsx:301-456): GPU floating-point animation, not state.
- The uniform updates and clock logging in the pool's per-frame hook (components/VFXParticles.jsx:175-192): renderer plumbing.
- three.js internals are foreign code:
  - `Matrix4.compose` with its Euler and quaternion: the instance matrix is kept as the opaque triple of position, rotation and scale.
  - `Color.setStyle`: CSS colour parsing is the parameter `style`.
  - `updateWorldMatrix` and `decompose` in the emitter: the world position is a parameter. The world rotation and scale, which are never used, are left out.
  - The GPU upload itself: the model records the update ranges and the `needsUpdate` flag, not the transfer.
- Float32 storage and float rounding: the attribute arrays and every calculation are exact reals.
- Randomness and clocks: `Math.random()` draws, `Date.now()` and the frame clock are parameters.
- React, leva and zustand glue:
  - the `useEffect` that registers and unregisters a pool on mount and unmount (the two registry operations themselves are modelled);
  - refs and `useImperativeHandle`;
  - the panel's export button and clipboard;
  - `useSpring`;
  - the emitter's `emit` call through the store (the frame returns the count it would pass).
- The `setTimeout` that schedules the fireworks sweep: timer behaviour. The sweep is modelled at the time `now` it runs.
- The flipbook's skinned page bending and animation, and its console logging.
- The trail's material, opacity and the `needsUpdate` flag on its position attribute: rendering only.
- The fairy's y wave, rotations and the phase-change logging. State updates from React setters take effect at the end of the frame in the model, which is when the next frame first sees them.
- The pool's `cursor >= nbParticles` reset inside the emit loop (components/VFXParticles.jsx:110-113): the pool invariant keeps the cursor below `nbParticles`, so the reset can never fire and the model has no such branch.
- The emitter's `!ref` test (components/VFXEmitter.jsx:130-132): a React ref object is always present, so the test never fires.
- Store.Registered: does not model the registry as a plain JavaScript object, whose inherited keys such as `toString` would already read as present; names are exact map keys.
- Builder.Unpack: when the settings' start-colour list or end-colour list is empty, the source forwards that list itself to the panel's `colorStart` or `colorEnd` control; the model treats it as not supplied and the control keeps its value.
- Builder.SettingsRoundTrip: assumes the panel keeps a control's value when `set` sends it `undefined`, and ignores keys of the settings that are not controls.
- Emitter.Target: requires a non-zero duration in time mode; with zero the source divides by zero and floats give `Infinity` or `NaN`.
- Emitter.Step: carries the same non-zero-duration requirement as `Emitter.Target`, for the same reason.
- Emitter.VFXEmitter.Frame: carries the same non-zero-duration requirement as `Emitter.Target`, for the same reason.
- Emitter.Setup: takes `colorEnd` as a list of colour names. An emitter in the site passes a single string (components/Experience.jsx:414), and indexing it picks one character of the string; the model does not capture a string in place of the list.
- Tinkerbell.Controller.Frame: requires a positive viewport width.
