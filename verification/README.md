# Paged image plug-in: verified models

Models, in Dafny 4.11, of the parts of the Paged image editor whose correctness is not visible in any one function body. `dafny verify dfyconfig.toml` checks the whole project.

| area | modules |
|---|---|
| paint-to-grow selection | `Grid`, `Tiles`, `Statistics`, `Growth`, `GrowthExamples`, `GateExample`, `QuickSelect` |
| content-addressed session store and its garbage collection | `PartPaths`, `SessionParts`, `SessionStore`, `SessionRuns` |
| blending and compositing | `Blends`, `BlendLaws`, `BlendTable`, `BlendColours`, `Composite`, `BlendLayers`, `CompositeLoops` |
| brush gesture and its asynchronous pump | `BrushPump`, `BrushTool` |
| latest-wins coalescer | `Coalesce` |
| EXIF reader and turning an image upright | `Exif`, `ExifPrinter`, `ExifRoundTrip`, `ExifMeaning`, `Orient` |
| raw strips | `RawRows`, `Raw`, `RawTransfer` |
| colour cubes | `Cube`, `CubeKernel` |
| decode pool | `DecodePool`, `DecodeWorkers` |
| engine image handles | `SessionHandles`, `SessionMeaning`, `SessionOwnership`, `SessionClaims`, `SessionImages` |
| shared types and arithmetic | `Basics`, `Reals` |

## How the models are built

Code that changes things step by step is modelled as classes and array methods. Each is proved against a specification function or a transition system on values, and the properties over whole runs are lemmas about that specification. Numbers are exact: integers are unbounded with the source's limits written out, and floating point becomes `real`. A square root is any function `f` with `f(v) >= 0` and `f(v) * f(v) == v`.

- **Selection.** `QuickSelectStroke` has the coverage and flag planes, reject list, statistics, box and tile cache as fields. `Growth.AfterDab` says, on sets of cells, what one dab that the cap does not stop must leave: a least set closed under 4-neighbour steps.
- **Session store.** The store is a map from paths to bytes; every awaited write or delete appends the store it leaves to a ghost history. SHA-256 is an injective function to hex strings and the record's JSON an encoding that decodes to itself; any other bytes may decode to anything or to nothing. A host may refuse any deletion, and a commit may end with its marker refused or its write cut short.
- **Brush pump and coalescer.** The steps are pointer events and answers to awaited calls, in any order. The coalescer's runs settle with an outcome; a finished run is cleared, and the trailing one started, in two separate steps.
- **Image handles.** An operation that awaits the engine is two events, its begin and its landing; it goes on with the source object it began with, and anything may happen in between.
- **EXIF.** A document is a main directory and an optional sub-directory. `Print` lays it out in either byte order (TIFF Revision 6.0, section 2). An orientation is known by the sides of the upright image its first row and first column belong on.
- **Blending.** The blends follow section 10 of W3C Compositing and Blending Level 1 and the extended Photoshop set, with the branch order and constants of the code. `BlendTable` and `BlendColours` give each blend as a relation in plain arithmetic with one result, and tie the code to it.

## What the proofs found

Each of these is a lemma below.

- The comments on the reject shell say that a refused pixel gets a fresh test once the gate has moved. The code re-tests only its neighbours: `Growth.RefusedCellRetested` gives the exact condition and `GrowthExamples.ToleratedCellStaysOut` an image where a tolerated pixel beside the selection stays out.
- For the same reason growth is not always 4-connected to the paint, as the comment on the third step of a dab has it. It is exactly when no tolerated cell beside the refused shell lies outside what the disc and the coverage reach (`Growth.GrowthIsConnected`), which a first dab always meets. A second identical dab can step over a one-pixel wall (`GrowthExamples.RepeatedDabJumpsWall`); `Growth.RepeatedDab` says exactly when a repeated dab adds nothing.
- The coalescer's header promises one run in flight. That holds throughout a history exactly when no trailing run starts while the slot is taken (`Coalesce.OneRunAtATime`). A call between the clearing of a finished run and the trailing start takes the slot; the two overlap exactly when the run it started is not yet cleared at the trailing start (`Coalesce.GapCallOverlaps`; `Coalesce.TwoRunsAtOnce` overlaps, `Coalesce.GapCallInTime` does not).
- A stroke abandoned while `begin` is unanswered leaves the pump's gate open when `begin` then succeeds (`BrushPump.GateAfterDead`).
- `writeSession` keeps a part already stored under a buffer's hash without reading it, so a write reads back intact exactly when no such part was damaged (`SessionParts.WrittenReadsBack`).
- The EXIF comment says that an absent resolution unit gives no density; the code takes it as inches, as TIFF does. The model follows the code (`ExifRoundTrip.AbsentUnitIsInch`).
- Colour burn tests the black source before the white backdrop, so it is the mirror of dodge everywhere but at that one point (`Blends.BurnIsDualOfDodge`), and vivid light inherits two such points (`BlendLaws.VividLightMirrors`).
- An in-place commit that reports another extent leaves an active tile claim at the old one: a claim has its source's extent throughout a run exactly when no such commit lands (`SessionClaims.ClaimFollowsSource`, `SessionClaims.ClaimLeftBehind`).
- The engine's images are exactly those the session holds, throughout a run, if and only if every awaited operation that lands with a new image finds the source object it began with still bound, or for a preview no proxy installed meanwhile (`SessionOwnership.OwnedExactlyWhenLandingsAreSafe`). A resize that lands after another ingest frees a second time and strands an image (`SessionOwnership.ResizeAcrossIngest`), two awaited previews strand one (`SessionOwnership.OverlappingPreviews`), and a landing after disposal leaves the engine empty only in the cases `SessionOwnership.LandingAfterDispose` gives.
- Reopening layers changes the pixels without counting an edit, so a preview copy under the key of the moment is stale exactly if one is there at that moment (`SessionClaims.ReusedProxyIsFresh`).
- The decode worker reports which display transform the pixels went through and the pool's result type has room for it, but neither the worker's reply nor the pool hands it on: no image ever arrives with one (`DecodePool.DisplayIsLost`), so the session labels every pooled decode as assumed sRGB.
- A commit whose marker the document refuses leaves a record whose number the next commit uses again; the store stays healthy and every completed session within the limit still reads back (`SessionRuns.NewestReadBack`).

## Model

| member | source | states |
|---|---|---|
| Grid.ClosureIsLeast | glue/src/quick-select.ts:326-353 | what the four-neighbour walks from the seeds reach inside the ground is closed under such steps and contained in every closed set |
| Grid.LeastIsClosure | glue/src/quick-select.ts:326-353 | conversely, a closed set contained in every closed set is exactly what the walks reach |
| Grid.ClosureThroughSeeds | glue/src/quick-select.ts:286-353 | walks may run through passing seeds: seeds plus the growth outside them is seeds plus the growth through them |
| Grid.NeighboursAre | glue/src/quick-select.ts:334-338 | the cells adjacent to a pixel are the ones left, right, above and below it, within the image |
| Tiles.TileKeyInjective | glue/src/quick-select.ts:202-215 | two pixels of the image share a cache key if and only if they lie in the same tile |
| Tiles.TileReadsImage | glue/src/quick-select.ts:206-223 | with a clipped, tightly packed window reader the four bytes cut from a tile are the image's bytes at that pixel, for every image size and tile size |
| QuickSelect.QuickSelectStroke.ReadPixel | glue/src/quick-select.ts:206-223 | a read through the cache answers as a fresh read would, and every cached tile stays what the reader gives |
| Statistics.SumAdd | glue/src/quick-select.ts:293-301 | adding one new cell to the evidence adds its value and its square to the sums |
| Statistics.SpreadOfEvidence | glue/src/quick-select.ts:237-242 | n times the sum of squares is at least the square of the sum, with equality exactly on uniform evidence |
| Growth.VarianceClampIdle | glue/src/quick-select.ts:239-241 | in exact arithmetic the clamp of the variance at zero never acts, and the variance is zero exactly on uniform evidence |
| Growth.ToleranceBetween | glue/src/quick-select.ts:235-247 | the tolerance lies between floor and ceiling and is the floor exactly on uniform evidence when weight and ceiling leave room above it |
| Growth.GateWithoutRoot | glue/src/quick-select.ts:245-254 | the gate as a rational inequality: under the ceiling, and the excess over the floor squared is at most the squared weight times the variance |
| Growth.PassingMeans | glue/src/quick-select.ts:235-254 | a readable cell passes exactly when each of its red, green, blue and alpha is within the ceiling of the painted mean, and within the floor or with its excess squared at most the squared weight times the variance, mean and variance given by the count, the sum and the sum of squares |
| Growth.DiscMeans | glue/src/quick-select.ts:287-295 | a dab paints exactly the pixels that can be read and whose centres are no further than the radius from its centre |
| Growth.DabKeepsCoherent | glue/src/quick-select.ts:273-355 | a dab leaves covered and refused cells disjoint and readable, and all painted cells covered |
| Growth.ShellFailsGate | glue/src/quick-select.ts:345-351 | every cell a dab refuses fails the gate the dab grew under |
| Growth.FirstDabIsConnectedClosure | glue/src/quick-select.ts:286-353 | a first dab selects exactly the disc and what is 4-connected to it through passing cells, and every uncovered neighbour of the selection fails the gate |
| Growth.RefusedCellRetested | glue/src/quick-select.ts:315-328 | a refused cell the moved gate now passes is selected if and only if a neighbour is in the disc, was refused before, or is itself uncovered and passing |
| Growth.RepeatedDab | glue/src/quick-select.ts:315-353 | painting again on painted ground keeps the evidence, and adds nothing if and only if no uncovered passing cell lies beside the disc or the refused shell |
| Growth.GrowthIsConnected | glue/src/quick-select.ts:315-353 | a dab's growth is 4-connected to the disc and the coverage through passing cells if and only if every passing uncovered cell beside the refused shell is |
| GrowthExamples.RepeatedDabJumpsWall | glue/src/quick-select.ts:315-328 | an image on which the same dab given twice selects a cell that no walk through passing cells joins to the paint |
| GrowthExamples.ToleratedCellStaysOut | glue/src/quick-select.ts:315-324 | an image on which a refused cell, passing after the second dab and beside a selected cell, is not selected and leaves the reject list |
| GateExample.ClearPixelIsRefused | glue/src/quick-select.ts:249-254 | an image on which a cell that agrees with the paint in red, green and blue is refused for its alpha alone |
| Growth.PaintedIsUnion | glue/src/quick-select.ts:287-301 | over any run of dabs the evidence is exactly the union of the discs |
| Growth.GateIgnoresOrder | glue/src/quick-select.ts:235-301 | runs of the same discs in any order and with any repeats open the same gate |
| Growth.RunKeepsCoherent | glue/src/quick-select.ts:273-355 | over every run the state stays coherent and the selection only grows |
| QuickSelect.QuickSelectStroke.constructor | glue/src/quick-select.ts:167-199 | a new stroke is blank, uncapped and consistent, and reads nothing |
| QuickSelect.QuickSelectStroke.RecomputeGate | glue/src/quick-select.ts:235-247 | mean, deviation and tolerance become those of the painted cells |
| QuickSelect.QuickSelectStroke.Accepts | glue/src/quick-select.ts:249-254 | the sampled pixel is accepted exactly when its cell passes the gate of the painted evidence |
| QuickSelect.QuickSelectStroke.Select | glue/src/quick-select.ts:257-270 | one more cell is covered and counted, its refusal cleared, and the box stays tight |
| QuickSelect.QuickSelectStroke.BoundingBox | glue/src/quick-select.ts:360-363 | the box touches the coverage on all four sides and holds all of it; nothing when the coverage is empty |
| QuickSelect.QuickSelectStroke.TakeEvidence | glue/src/quick-select.ts:293-301 | a pixel enters the evidence and the sums once, and only when it can be read |
| QuickSelect.QuickSelectStroke.Claim | glue/src/quick-select.ts:302-308 | an uncovered pixel of the disc is covered unless the cap is met, which latches |
| QuickSelect.QuickSelectStroke.PaintDisc | glue/src/quick-select.ts:277-311 | the evidence gains exactly the readable disc; the coverage gains it too, or part of it once the cap is met; the frontier holds the disc |
| QuickSelect.QuickSelectStroke.Requeue | glue/src/quick-select.ts:319-324 | the refused cells follow the frontier in the queue, in order, and all refusals are cleared |
| QuickSelect.QuickSelectStroke.Judge | glue/src/quick-select.ts:344-345 | a neighbour is unreadable, or accepted exactly when it passes the gate of the painted evidence |
| QuickSelect.QuickSelectStroke.TestNeighbour | glue/src/quick-select.ts:339-351 | one neighbour is skipped, stops at the cap, is selected and queued, or is refused, as the gate and its flags say |
| QuickSelect.QuickSelectStroke.Expand | glue/src/quick-select.ts:331-352 | after a queued cell every neighbour of it is covered, refused or unreadable, unless the cap stopped it |
| QuickSelect.QuickSelectStroke.Grow | glue/src/quick-select.ts:329-353 | the growth loop ends, with every queued cell explored or at the cap |
| QuickSelect.GrowthEnds | glue/src/quick-select.ts:329-353 | once every queued cell is explored the growth added exactly the least closed set and refused exactly its rim |
| QuickSelect.MoveKeepsGrowing | glue/src/quick-select.ts:339-351 | one neighbour test keeps what the growth has selected inside every closed set and tests no cell twice |
| QuickSelect.DabEnds | glue/src/quick-select.ts:286-353 | disc, requeued shell and growth together make the dab's specified result, with or without the cap |
| QuickSelect.QuickSelectStroke.Dab | glue/src/quick-select.ts:273-355 | an uncapped dab yields exactly the specified stroke; a capped one stops at exactly the cap, inside that stroke, covering the disc's first cells in row-major order, growing only once the disc is full and only by cells joined to the disc or the refused shell inside the selection; count, box, rejects, sums and cache stay consistent; a capped stroke gains nothing; no cell is gate-tested twice; the queue never exceeds disc plus old rejects plus new cells |
| QuickSelect.QuickSelectStroke.PaintStroke | glue/src/quick-select.ts:140-157 | a whole stroke leaves the evidence as the union of its discs and, unless capped, the state the specification of its dabs gives; a capped one keeps exactly the coverage that the one dab which met the cap left |
| PartPaths.RevOfRecordPath | glue/src/session-store.ts:48-49 | the revision read out of a record's path is the revision it was made with |
| PartPaths.RevOfHashedPath | glue/src/session-store.ts:139-141 | the revision is also read out of a record path that carries a content hash after its number |
| PartPaths.RevOfMeans | glue/src/session-store.ts:139-142 | on any path whatever, a revision number is found exactly when the path ends in `/r`, digits, perhaps a dash and a hex hash, and `.json`, and it is the number the digits spell |
| PartPaths.Sanitize | glue/src/session-store.ts:48-49 | letters, digits, `_` and `-` stay in place and every other character becomes `_` |
| PartPaths.PathsLook | glue/src/session-store.ts:47-49 | the path of a record and of a buffer, spelled out |
| PartPaths.RecordPathInjective | glue/src/session-store.ts:48-49 | two records share a path only when sanitised frame and revision agree |
| PartPaths.FrameDirOfRecord | glue/src/session-store.ts:136-141 | the folder listed for one frame holds only records of the same sanitised frame |
| PartPaths.BlobPathInjective | glue/src/session-store.ts:47 | buffers of different hashes have different paths |
| SessionParts.LoadsIntactOrNotAtAll | glue/src/session-store.ts:90-119 | on any store, damaged or not, a session reported as loaded has buffers that hash to the names in its record |
| SessionParts.RefusalsMean | glue/src/session-store.ts:97-119 | what each refusal to load says of the store: no part there, text that is no record, another version, a named buffer missing or one whose bytes have another hash |
| SessionParts.StoredParts | glue/src/session-store.ts:64-73 | storing buffers keeps every part, adds only buffers under their own hash, and holds each intact exactly when no other content sat under its name |
| SessionParts.WriteKeepsHealthy | glue/src/session-store.ts:64-84 | a write leaves every readable record with all its buffers present under matching hashes |
| SessionParts.WrittenReadsBack | glue/src/session-store.ts:56-119 | a written session reads back with version 1, its width, its height, its baked hash, the hashes of its buffers in order and the buffers themselves, if and only if no buffer's name was already taken by other content |
| SessionParts.CollectKeepsHealthy | glue/src/session-store.ts:129-163 | a collection, and every store it passes through, leaves every readable record with all its buffers |
| SessionParts.CollectedIsClean | glue/src/session-store.ts:146-162 | after a complete collection every remaining buffer is named by a remaining record and a second collection deletes nothing |
| SessionParts.CollectedExactly | glue/src/session-store.ts:136-162 | what a complete collection leaves: of the folder's revisions exactly those above the cutoff, of the buffers exactly those a record left, of any folder, mentions, and everything else, all as it was |
| SessionStore.WriteSession | glue/src/session-store.ts:56-85 | the store becomes the specified one, its record holding version 1, width, height, baked hash and the buffers' hashes in order, and passes only through stores with some of the buffers in and no record yet; the count is that of new parts |
| SessionStore.ReadBack | glue/src/session-store.ts:90-119 | the loop reads exactly what the specification of a read gives |
| SessionStore.LiveBuffers | glue/src/session-store.ts:146-158 | the set gathered is exactly the paths named by records, readable ones and those that give up their manifest alone |
| SessionStore.CollectRecords | glue/src/session-store.ts:136-145 | only this frame's records at or below the cutoff go, all of them when no deletion is refused |
| SessionStore.CollectBuffers | glue/src/session-store.ts:159-162 | only buffers no remaining record names go, all of them when no deletion is refused |
| SessionStore.CollectGarbage | glue/src/session-store.ts:129-164 | both halves: what may go, what must go when nothing is refused, every intermediate store allowed, and the two counts account for every deleted part |
| SessionRuns.CommitToDocument | glue/src/session.ts:2633-2675 | one commit writes its session and, unless the document refuses its marker, collects the frame's revisions beyond the newest kept |
| SessionRuns.HealthyThroughout | glue/src/session.ts:2633-2675 | at every store a commit passes through, each readable record has its buffers |
| SessionRuns.RunStaysHealthy | glue/src/session.ts:2633-2675 | over every run of commits of any frames, completed, unmarked or cut short, the store stays healthy |
| SessionRuns.NewestReadBack | glue/src/session.ts:2633-2675 | after any run, whatever deletions were refused and commits abandoned, a session followed by fewer than `keep` completed commits of its frame reads back with its own width, height, baked hash, manifest and buffers |
| SessionRuns.OldRecordGone | glue/src/session-store.ts:136-145 | when no deletion is refused a session followed by `keep` completed commits of its frame is gone |
| SessionRuns.OtherFramesUntouched | glue/src/session-store.ts:136-145 | a commit leaves every record outside its frame's folder as it was |
| SessionRuns.NothingLeftBehind | glue/src/session-store.ts:146-162 | after a commit with no refused deletion every buffer is named by a record and collecting again changes nothing |
| Blends.CurveStays | image-conformance/src/compose_ref.rs:159-170 | both arms of the soft-light curve stay in the unit range, and they meet at a quarter |
| Blends.SoftLightStays | image-conformance/src/compose_ref.rs:159-170 | soft light is closed on the unit range, cubic and root arms included |
| Blends.BurnIsDualOfDodge | image-conformance/src/compose_ref.rs:131-153 | burn is the complement-dual of dodge if and only if not at a white backdrop with a black source |
| BlendLaws.NeutralSources | image-conformance/src/compose_ref.rs:90-257 | each separable blend has its neutral source and returns the backdrop there; the two-armed ones at one half |
| BlendLaws.ExtremeSources | image-conformance/src/compose_ref.rs:90-257 | what each separable blend gives under a black and under a white source |
| BlendLaws.ComplementMirrors | image-conformance/src/compose_ref.rs:95-222 | screen mirrors multiply, linear dodge mirrors linear burn, and hard light, overlay, linear light and pin light are their own mirrors |
| BlendLaws.VividLightMirrors | image-conformance/src/compose_ref.rs:198-208 | vivid light is its own mirror if and only if not at the two corners where burn and dodge disagree |
| BlendLaws.LinearLightArms | image-conformance/src/compose_ref.rs:210-214 | the clamp is linear burn below the middle and linear dodge above it |
| BlendLaws.Symmetries | image-conformance/src/compose_ref.rs:95-180 | which blends commute, and exclusion and difference in terms of the others |
| BlendLaws.HardMixOnLevels | image-conformance/src/compose_ref.rs:226-237 | on 8-bit levels hard mix is white exactly above the anti-diagonal |
| BlendLaws.DodgeUndone | image-conformance/src/compose_ref.rs:131-139 | dodge never darkens, and multiplying back gives the backdrop unless it clipped |
| BlendLaws.BurnUndone | image-conformance/src/compose_ref.rs:145-153 | burn never brightens, and multiplying back gives the backdrop's complement unless it clipped |
| BlendLaws.DivideUndone | image-conformance/src/compose_ref.rs:247-257 | divide never darkens, and multiplying back gives the backdrop unless it clipped |
| BlendLaws.DarkerAndLighterShare | image-conformance/src/compose_ref.rs:368-394 | darker and lighter colour are idempotent, and they share the two colours out and commute exactly off a tie |
| BlendLaws.DarkestOfRun | image-conformance/src/compose_ref.rs:368-394 | any run of darker-colour layers ends with one of its colours, at most one tie brighter than the darkest |
| BlendLaws.LightestOfRun | image-conformance/src/compose_ref.rs:368-394 | any run of lighter-colour layers ends with one of its colours, at most one tie darker than the lightest |
| BlendTable.ChannelIsBlended | image-conformance/src/compose_ref.rs:90-257 | which formula belongs to which of the 20 separable blends, in arithmetic on backdrop and source, quotients named by what multiplies back |
| BlendTable.BlendedIsOne | image-conformance/src/compose_ref.rs:90-257 | that relation leaves each separable blend one result |
| BlendColours.ApplyIsBlendOf | image-conformance/src/compose_ref.rs:552-582 | all 26: which colour gives luminosity (weights 0.3, 0.59, 0.11), saturation and hue in the whole-colour blends, how far a colour out of range is drawn back, and which of two colours darker and lighter colour choose |
| BlendColours.BlendOfIsOne | image-conformance/src/compose_ref.rs:552-582 | those relations leave each of the 26 blends one result |
| Blends.RanksArePermutation | image-conformance/src/compose_ref.rs:309-332 | under any ties the three ranks are three different channels, the top one a maximum and the bottom one a minimum |
| Blends.SetSatIsExact | image-conformance/src/compose_ref.rs:309-346 | a non-flat colour gets saturation exactly s with its least channel at 0; a flat one goes to black |
| Blends.SetSatIsLinear | image-conformance/src/compose_ref.rs:309-346 | every channel is its height above the least one, scaled by the same factor |
| Blends.SetSatOrders | image-conformance/src/compose_ref.rs:309-346 | the order of the channels is kept |
| Blends.ClipColorKeepsLum | image-conformance/src/compose_ref.rs:276-291 | the clip keeps the luminosity of every colour it is defined on, both pulls firing or not, and ends in range if and only if that luminosity is |
| Blends.ClippableUnlessFlat | image-conformance/src/compose_ref.rs:276-291 | the clip divides by zero on the flat colours outside the unit range and on no other |
| Blends.SetLumIsExact | image-conformance/src/compose_ref.rs:294-297 | the result has exactly the luminosity asked for and is in range |
| Blends.WholeColourBlends | image-conformance/src/compose_ref.rs:349-394 | hue, saturation and colour keep the backdrop's luminosity, luminosity takes the source's, and all whole-colour results are in range |
| CompositeLoops.ClipColorInPlace | image-conformance/src/compose_ref.rs:276-291 | the in-place loops compute the specified clip: the luminosity stays, and the channels end in range if and only if it is |
| CompositeLoops.SetSatOf | image-conformance/src/compose_ref.rs:309-346 | the assignments by rank compute the specified colour |
| CompositeLoops.CompositePixels | image-conformance/src/compose_ref.rs:596-625 | the channel loop computes the specified pixel, which is valid, and which for two opaque pixels is the blend of their colours in plain arithmetic |
| Composite.BlendStays | image-conformance/src/compose_ref.rs:552-585 | every one of the 26 blends maps unit-range colours to unit-range colours |
| Composite.MixAreas | image-conformance/src/compose_ref.rs:612-623 | the three terms weigh source, blend and backdrop by areas that add up to the resulting alpha |
| Composite.CompositeStays | image-conformance/src/compose_ref.rs:596-625 | one layer under any blend and opacity leaves 0 <= colour <= alpha <= 1 |
| Composite.Flatten | image-conformance/src/compose_ref.rs:596-625 | folding any list of valid layers keeps the pixel valid at every step |
| Composite.NormalIsOver | image-conformance/src/compose_ref.rs:596-625 | a normal layer at any opacity is Porter-Duff over on premultiplied values |
| Composite.OverAssociates | image-conformance/src/compose_ref.rs:596-625 | over is associative |
| Composite.NormalRunFlattens | image-conformance/src/compose_ref.rs:596-625 | a run of normal layers is the run flattened by itself and laid over |
| Composite.FlatteningARunChangesNothing | image-conformance/src/compose_ref.rs:596-625 | replacing any contiguous run of normal layers by its flattening leaves the whole stack's result the same |
| Composite.ZeroOpacityIsNothing | image-conformance/src/compose_ref.rs:596-625 | at zero opacity every blend leaves the backdrop as it is |
| Composite.OpaqueShowsTheBlend | image-conformance/src/compose_ref.rs:596-625 | over an opaque backdrop an opaque layer gives the blend of the two colours, faded in linearly by the opacity |
| Composite.OverNothing | image-conformance/src/compose_ref.rs:596-625 | over a clear backdrop a layer gives itself, faded, under every blend |
| BlendLayers.OpaqueBlends | image-conformance/src/compose_ref.rs:596-625 | an opaque layer over an opaque backdrop gives, for each of the 26 blends, the result its formula gives on the two colours |
| BlendLayers.EveryBlend | image-conformance/src/compose_ref.rs:596-625 | at any alphas and any opacity each blend gives backdrop and source where only one of them shows and its formula on their colours where both do, in proportion to those areas |
| BrushPump.RunKeepsInv | glue/src/brush-tool.ts:106-209 | in every interleaving every accepted sample is sent or queued in order, and the pump is where its one unanswered call says |
| BrushPump.MoveIsTaken | glue/src/brush-machine.ts:208-220 | while a stroke is drawn a finite sample other than the last accepted one is accepted, whatever is still queued; any other move adds nothing |
| BrushPump.LogIsPath | glue/src/brush-machine.ts:197-226 | in every run what is accepted is the press, then the finite samples of the moves before the release, immediate repeats once, as long as the stroke lives |
| BrushPump.DeadExactlyWhen | glue/src/brush-tool.ts:116-188 | a stroke dies exactly when a begin or extend of it is refused or the tool is deactivated |
| BrushPump.WholePathIsSent | glue/src/brush-tool.ts:106-135 | a stroke whose commit is answered and that did not die has sent its whole path |
| BrushPump.StrokeIsSafe | glue/src/brush-tool.ts:106-135 | at most one call is unanswered, what was sent is a prefix of what was accepted, and there is at most one commit, after everything was sent |
| BrushPump.StepIsSafe | glue/src/brush-tool.ts:106-209 | from a stroke in the order every interleaving keeps, any event leaves one call at most unanswered, the sent samples a prefix of those accepted and the commit last, and a dead stroke silent |
| BrushPump.RestsOnlyWhenDone | glue/src/brush-tool.ts:106-135 | a released stroke neither refused nor abandoned rests only with every sample sent and its one commit answered |
| BrushPump.FavourableAnswersFinish | glue/src/brush-tool.ts:106-135 | a released stroke reaches its commit after a stated number of favourable answers |
| BrushPump.DeadStaysSilent | glue/src/brush-tool.ts:116-123 | after a refusal or a deactivation no further extend or commit of the stroke is issued |
| BrushPump.GateAfterDead | glue/src/brush-tool.ts:146-188 | a dead stroke's last answer leaves the gate open if and only if it is a favourable answer to begin |
| BrushPump.NormalizePressure | glue/src/brush-machine.ts:78-86 | a pen's finite reading in the unit range passes unchanged and one outside goes to the end it passed; every other device or reading gives one |
| BrushTool.BrushMachine.Press | glue/src/brush-machine.ts:197-206 | a press while drawing is refused; otherwise it clears the machine and opens the stroke with its finite sample, the only one queued |
| BrushTool.BrushMachine.MoveTo | glue/src/brush-machine.ts:208-220 | a move is queued exactly when drawing, finite and different from the last sample, whatever else is queued, and otherwise changes nothing |
| BrushTool.BrushMachine.Next | glue/src/brush-machine.ts:228-230 | samples leave the queue in order |
| BrushTool.BrushMachine.Release | glue/src/brush-machine.ts:222-226 | a release ends drawing and lets the queue drain |
| BrushTool.BrushMachine.Cancel | glue/src/brush-machine.ts:236-242 | a cancel drops every sample and closes the stroke |
| BrushTool.BrushGesture.constructor | glue/src/brush-tool.ts:156-188 | a press queues its sample and asks for begin, the gate still shut |
| BrushTool.BrushGesture.RunPump | glue/src/brush-tool.ts:106-135 | the pump takes its specified step up to the next awaited call, and is not re-entered |
| BrushTool.BrushGesture.CallAnswered | glue/src/brush-tool.ts:112-134 | an answered begin, extend or commit takes its specified step; the gesture stays valid, at most one call is unanswered, and what was sent is a prefix of what was accepted |
| BrushTool.BrushGesture.PointerMove | glue/src/brush-tool.ts:190-202 | a pointer move adds its sample to the path exactly when the stroke is drawn and the sample finite and no repeat, takes its specified step, and keeps the gesture valid, its samples in order and a dead stroke silent |
| BrushTool.BrushGesture.PointerUp | glue/src/brush-tool.ts:204-209 | a pointer release takes its specified step and keeps the gesture valid, its samples in order and a dead stroke silent |
| BrushTool.BrushGesture.Deactivate | glue/src/brush-tool.ts:146-154 | a deactivation shuts the gate, clears the machine and keeps the gesture valid |
| Coalesce.HistoryKeepsInv | glue/src/coalesce.ts:16-41 | in every history each ticket has a run started at or after its call, or waits for the pending trailing run |
| Coalesce.CallersAreServedFresh | glue/src/coalesce.ts:12-14 | each caller is settled by a run that started at or after its call, and runs never exceed calls |
| Coalesce.CallersAreToldTheirOwnRun | glue/src/coalesce.ts:20-39 | a caller is told the outcome its own run settled with, whatever the run it waited for came to |
| Coalesce.RunSettlesOnce | glue/src/coalesce.ts:20-26 | no run settles twice in any history |
| Coalesce.OutcomesSteerNothing | glue/src/coalesce.ts:32-37 | a failed run wedges nothing: whatever the runs come to, the same calls and completions lead to the same starts, slots and servers |
| Coalesce.RestServesAll | glue/src/coalesce.ts:28-40 | when only a new call could happen every caller has a finished run |
| Coalesce.BurstCostsOneRun | glue/src/coalesce.ts:30-39 | any number of calls while a run is in flight start none and share one trailing promise |
| Coalesce.RunsStartExactly | glue/src/coalesce.ts:20-40 | in every history a run starts, there and then and into the slot, at a call that finds the slot empty and at a trailing start and at no other step; the slot empties only when its run is cleared, and a trailing start follows the settling and clearing of the run it waited for |
| Coalesce.OneRunAtATime | glue/src/coalesce.ts:20-37 | up to any point of any history at most one run is unfinished throughout if and only if no trailing run has started while another held the slot |
| Coalesce.GapCallOverlaps | glue/src/coalesce.ts:29-37 | a trailing start after the gap opened overlaps another run if and only if a run started by a call in the gap is not yet cleared |
| Coalesce.TwoRunsAtOnce | glue/src/coalesce.ts:29-37 | a history that gets there: three calls, three runs, two at once |
| Coalesce.GapCallInTime | glue/src/coalesce.ts:29-37 | a history with a call in the gap and never two runs at once |
| Coalesce.LatestWins.Invoke | glue/src/coalesce.ts:28-40 | a call takes its specified step |
| Coalesce.LatestWins.ClearRun | glue/src/coalesce.ts:21-23 | a finished run clears the slot only when it is still the one there |
| Coalesce.LatestWins.ContinueTrailing | glue/src/coalesce.ts:32-37 | the trailing continuation takes its specified step |
| Exif.IterIfd | image-codecs/src/exif.rs:285-319 | on any bytes the walk yields exactly the specified entries, at most 512, stopping at the first unreadable one |
| Exif.ParseBlock | image-codecs/src/exif.rs:206-281 | the reader's loops compute the specified facts on every byte string |
| Exif.DirectoryInPlace | image-codecs/src/exif.rs:285-319 | a walk gives the entries at their twelve-byte places in order, and ends only at the declared count, at 512, or at the first unreadable entry |
| Exif.HeaderDecides | image-codecs/src/exif.rs:206-222 | exactly the blocks of eight bytes or more that begin with `II*` or `MM*` in the byte order they announce are read; of any other nothing is reported |
| ExifPrinter.HeaderBytes | image-codecs/src/exif.rs:206-222 | the eight header bytes of each byte order, fixing which order is which |
| ExifPrinter.FieldRead | image-codecs/src/exif.rs:295-317 | twelve printed bytes read back as their entry, its value inline or at its offset |
| ExifPrinter.DirectoryRead | image-codecs/src/exif.rs:285-319 | a printed directory of up to 512 entries in either byte order is walked back entry by entry |
| ExifRoundTrip.ReadFraction | image-codecs/src/exif.rs:322-333 | a printed rational reads back as its first fraction, or as nothing for another type, no values or a zero denominator |
| ExifRoundTrip.GatheredIsStated | image-codecs/src/exif.rs:228-257 | after any number of entries the walk holds what the fields so far state, the last one of a tag winning |
| ExifRoundTrip.ParseInvertsPrint | image-codecs/src/exif.rs:206-333 | reading the print of any document in either byte order returns exactly the facts it states, unit scaling and sub-directory included |
| ExifRoundTrip.AbsentUnitIsInch | image-codecs/src/exif.rs:253-266 | a printed document reads back with a density if and only if it has the fraction and its unit is absent, inch or centimetre; absent counts as inch |
| ExifRoundTrip.BuildLeIsPrint | image-codecs/src/exif.rs:343-425 | the minimal little-endian block is the print of its document |
| ExifRoundTrip.ParseInvertsBuildLe | image-codecs/src/exif.rs:343-425 | the reader inverts the builder for every choice of its four optional arguments: the listed orientation, the fraction scaled by its unit, and 1, 0xFFFF or another colour space |
| ExifMeaning.OrientationMeans | image-codecs/src/exif.rs:54-108 | for every orientation value, the sides of the upright image on which the first row and column belong, none outside 1 to 8, and width and height swapped exactly from 5 on |
| ExifMeaning.EveryFactRead | image-codecs/src/exif.rs:206-281 | a block with every field, in either byte order: each value is reported under its own tag, both densities scaled by the unit |
| ExifMeaning.TypeSizes | image-codecs/src/exif.rs:196-204 | how many bytes a value of each field type takes |
| Orient.SourceMeans | image-js/src/ingest.rs:983-1002 | a shown pixel is the stored one as many lines in from the sides of row 0 and column 0 as its row and column say, for all eight orientations |
| Orient.ShownOnce | image-js/src/ingest.rs:990-1006 | every stored pixel is shown at exactly one place |
| Orient.SwapsMeans | image-codecs/src/exif.rs:97-108 | width and height change places exactly when row 0 becomes a column |
| Orient.ApplyOrientation | image-js/src/ingest.rs:974-1009 | the loops give the turned extent and put every pixel in its place; the identity gives the bytes back |
| Orient.PixelsStand | image-js/src/ingest.rs:974-1009 | the four bytes of every stored pixel lie in the turned image where its orientation puts them |
| RawRows.InsideWhenUnclipped | image-core/src/region.rs:65-81 | a region is its own intersection with an image exactly when it is a non-empty part of it |
| RawRows.PixelSizes | image-core/src/format.rs:52-60 | the bytes of a pixel for every layout and depth |
| RawRows.BlitRow | image-codecs/src/raw.rs:115-123 | byte k of copied row q is byte k of row q of the source, at any two strides |
| RawRows.BlitGap | image-codecs/src/raw.rs:115-123 | a byte between or after the copied rows stays |
| RawRows.BlitPacked | image-codecs/src/raw.rs:115-123 | copied rows pack to what the source rows pack to, whatever the strides |
| Raw.BlitShows | image-codecs/src/raw.rs:115-123 | byte k of row q of the slice is the source's byte of row roi.y + q, roi.x pixels and k bytes in |
| Raw.ReadRegion | image-codecs/src/raw.rs:96-125 | a read succeeds exactly when nothing is shrunk, the formats agree and the slice has room for a non-empty part of the image; it then shows that part byte by byte and changes nothing else, and otherwise refuses with the stated error and changes nothing |
| Raw.NewSource | image-codecs/src/raw.rs:56-76 | a source is made, and kept as given, exactly when its pixels are height tight rows |
| Raw.RawTarget.Begin | image-codecs/src/raw.rs:179-199 | begin opens an idle target of addressable extent; otherwise it errs and changes nothing |
| Raw.RawTarget.WriteStrip | image-codecs/src/raw.rs:201-238 | a strip is taken exactly when the target is open, the format its own, the strip full width, next in order and within the height; its rows are then appended to those accepted, and any other strip errs and leaves state and buffer alone, a finished one included |
| Raw.RawTarget.Finish | image-codecs/src/raw.rs:240-261 | finish succeeds exactly when the accepted strips cover every row, and the buffer is then all of them; out of sequence it changes nothing, early it gives the buffer up |
| Raw.RawTarget.IntoPixels | image-codecs/src/raw.rs:168-175 | the pixels are the accepted rows after a successful finish and nothing otherwise |
| RawTransfer.ReadStrip | image-codecs/src/raw.rs:96-125 | a full-width strip read at any row padding packs to that run of the source's bytes |
| RawTransfer.Transfer | image-codecs/src/raw.rs:178-261 | strips of any heights and paddings carry the image over exactly if and only if none is empty, they sum to the height, and the extent is addressable |
| Cube.Checked | glue/src/cube.ts:59-68 | the closing checks accept a table exactly when its size is 2 to 256, its count is the one that size needs and its domain is proper on every channel, and then keep it as read |
| Cube.CellAt | glue/src/cube.ts:74-78 | the lower lattice index leaves room for the upper one, and index plus fraction is the clamped value scaled to the lattice |
| Cube.PlaceInRange | glue/src/cube.ts:82 | the triple of any lattice point lies inside the table |
| Cube.EntryLayout | glue/src/cube.ts:82-90 | red changes fastest, then green, then blue, three values at a time |
| Cube.WeightsSumToOne | glue/src/cube.ts:83-93 | the eight weights are between 0 and 1 and sum to 1 |
| Cube.SampleIsTrilinear | glue/src/cube.ts:72-95 | the eight-corner sum is three nested linear blends of the surrounding entries |
| Cube.SampleStaysInRange | glue/src/cube.ts:72-95 | a sample at any point lies within the table's range |
| Cube.AffineTablesAreReproduced | glue/src/cube.ts:72-95 | an affine table is reproduced exactly on the unit cube and clamped to it outside |
| Cube.ExactOnTheLattice | glue/src/cube.ts:72-95 | at a lattice point the sample is the entry there, the last point of each axis included |
| CubeKernel.Sample | glue/src/cube.ts:72-95 | the loops, zero weights skipped, compute the specified sample |
| CubeKernel.ToKernelCube | glue/src/cube.ts:98-115 | the loops fill the kernel's 729 triples, red fastest, with the specified samples |
| CubeKernel.TripleAt | glue/src/cube.ts:105-113 | which lattice point each triple of the kernel's cube belongs to |
| CubeKernel.ToDomainMeans | glue/src/cube.ts:101-104 | the domain's minimum goes to 0, its maximum to 1, and equal steps to equal steps |
| CubeKernel.KernelStaysInRange | glue/src/cube.ts:98-115 | resampling never leaves the table's range, whatever the domain |
| CubeKernel.ExactWhereShared | glue/src/cube.ts:98-115 | over the unit domain resampling is exact at every point the two lattices share, for any table size |
| CubeKernel.ExactOverDomain | glue/src/cube.ts:98-115 | over any domain, a kernel point that falls on a lattice point of the table, or beyond an end, gives the entry there |
| CubeKernel.ExactOnMultiples | glue/src/cube.ts:98-115 | when 8 divides N - 1 every kernel point over the unit domain is a lattice point of the table and gives its entry |
| CubeKernel.NineIsIdentity | glue/src/cube.ts:98-115 | a nine-point table over the unit domain resamples to itself |
| DecodePool.LeastBusy | glue/src/decode-pool.ts:145-146 | the worker chosen has the fewest requests in flight and is the first such |
| DecodePool.StepKeepsInv | glue/src/decode-pool.ts:107-183 | every decode, batch, reply and disposal keeps the ledger of requests, their owners and the counts |
| DecodePool.EachRequestOnce | glue/src/decode-pool.ts:107-183 | in every run each request is pending on the one worker it was posted to or settled, never both, and never twice; only its own worker's reply settles it |
| DecodePool.RequestsAreConserved | glue/src/decode-pool.ts:148-156 | pending and settled requests together are all those issued |
| DecodePool.CountsAreExact | glue/src/decode-pool.ts:109-115 | until disposal each count is the number pending, and the clamp at zero never acts |
| DecodePool.SettledIsFinal | glue/src/decode-pool.ts:109-126 | settlements are only ever added |
| DecodePool.DecodeGoesToLeastBusy | glue/src/decode-pool.ts:145-164 | a decode is posted to the first worker with the fewest requests pending, and to no other |
| DecodePool.ReplySettles | glue/src/decode-pool.ts:109-126 | a worker's answer settles its own request with the image or the error it carries; any other answer changes nothing |
| DecodePool.EverySettlementIsExplained | glue/src/decode-pool.ts:109-181 | in every run each settlement carries what its own worker answered for that request, or is the disposal's rejection |
| DecodePool.DisplayIsLost | glue/src/decode-pool.ts:46-55 | no image a run settles with carries the display code its type has room for |
| DecodePool.NothingAfterDispose | glue/src/decode-pool.ts:160-183 | after disposal nothing is pending, every worker is stopped, late replies settle nothing and further calls are refused |
| DecodePool.BatchInOrder | glue/src/decode-pool.ts:165-171 | a batch is numbered in input order and item i posted to worker i modulo their number |
| DecodePool.BatchIsEven | glue/src/decode-pool.ts:165-171 | no worker gets more than one item of a batch more than another |
| DecodeWorkers.DecodePoolObject.LeastBusyWorker | glue/src/decode-pool.ts:145-146 | the reduction finds the specified worker |
| DecodeWorkers.DecodePoolObject.DecodeOn | glue/src/decode-pool.ts:148-156 | a request takes the next number, is recorded pending and is posted once |
| DecodeWorkers.DecodePoolObject.Decode | glue/src/decode-pool.ts:161-164 | a decode takes its specified step |
| DecodeWorkers.DecodePoolObject.DecodeBatch | glue/src/decode-pool.ts:165-171 | the mapping loop takes the batch's step and returns its numbers in input order |
| DecodeWorkers.DecodePoolObject.OnMessage | glue/src/decode-pool.ts:109-126 | a message, with its image or error, takes its specified step, unknown ids included |
| DecodeWorkers.DecodePoolObject.DisposePool | glue/src/decode-pool.ts:172-181 | the nested loops reject every pending request once and stop every worker; a second disposal does nothing |
| SessionMeaning.LandingSetsExtent | glue/src/session.ts:1302-1316 | after a landing its object has the reported width and height under the new image, or under its own when edited in place; every other object is as it was and none is bound |
| SessionMeaning.OtherStepsKeepExtents | glue/src/session.ts:1857-1904 | of the other events only an ingest makes and binds an object, at the reported extent, and only a disposal lets the bound one go; images and extents there are stay |
| SessionMeaning.ExtentIsLastReported | glue/src/session.ts:3070-3084 | in every run, late landings included, each object has the width and height last reported for it, in that order |
| SessionMeaning.StepCounts | glue/src/session.ts:1234-1316 | what each event does to the edit count and to the claim: counted one by one, released with the image or extent, or one revision on |
| SessionMeaning.PreviewMeans | glue/src/session.ts:1775-1806 | when a preview runs on the source, on the proxy at hand, or on a resample it awaits, and for which image, edits and size |
| SessionOwnership.OwnedExactlyWhenLandingsAreSafe | glue/src/session.ts:1302-1316 | in every run the engine's images are exactly those held, each once and none freed twice, throughout if and only if every landing with a new image finds its source object still bound, or no proxy installed meanwhile |
| SessionOwnership.StepKeepsOwned | glue/src/session.ts:1302-1316 | a step from an owned state leaves the images owned if and only if it is not an unsafe landing: a new image for an object no longer bound, or a proxy over another |
| SessionOwnership.LandingAfterDispose | glue/src/session.ts:4208-4225 | a disposal frees everything, and what is awaited then lands without a trace if and only if it brings no new image or is a canvas operation |
| SessionOwnership.SequentialIsSafe | glue/src/session.ts:3062-3084 | when each awaited operation lands before anything else happens every landing is safe |
| SessionOwnership.NoHandleLeaks | glue/src/session.ts:4208-4225 | over every such run the live images are exactly the distinct source, pattern and proxy held, none freed twice, and none is left after disposal |
| SessionOwnership.ResizeAcrossIngest | glue/src/session.ts:3062-3084 | a run in which a resize lands after another ingest: one image freed twice, one live and held by nobody |
| SessionOwnership.OverlappingPreviews | glue/src/session.ts:1790-1797 | a run in which two awaited previews land: the first proxy stays live and held by nobody |
| SessionClaims.StepKeepsClaimCurrent | glue/src/session.ts:1302-1316 | a step keeps an active tile claim at the source's extent if and only if it is not an in-place commit reporting another extent |
| SessionClaims.ClaimFollowsSource | glue/src/session.ts:4143-4191 | in every run an active claim has the source's extent throughout if and only if no such commit lands |
| SessionClaims.ClaimLeftBehind | glue/src/session.ts:1302-1316 | a run of an ingest, a claim and an in-place commit of another extent that leaves the claim at the old one |
| SessionClaims.EveryChangeIsCounted | glue/src/session.ts:1234-1246 | in every run, late landings included, an active claim's revision has moved on at least once for each change of the source's pixels |
| SessionClaims.ReusedProxyIsFresh | glue/src/session.ts:1790-1797 | in every run, awaited resamples included, a proxy that fits the key of the moment shows the source's present pixels throughout if and only if no reopening changes them while a copy fits |
| SessionImages.ImageSession.SwapSource | glue/src/session.ts:1302-1316 | from a session that owns its images and one just made, adopting that one for the bound object leaves it owning exactly its images; a claim survives only together with the handle, one revision on |
| SessionImages.ImageSession.DropSource | glue/src/session.ts:1417-1462 | source, proxy and claim are let go, and of a valid session's images only the pattern's stays |
| SessionImages.ImageSession.DropProxy | glue/src/session.ts:1758-1761 | of a valid session's images exactly the proxy's goes |
| SessionImages.ImageSession.DecodeInto | glue/src/session.ts:1857-1904 | an ingest leaves exactly the new image and the pattern's live, and a failed one changes nothing |
| SessionImages.ImageSession.SetPattern | glue/src/session.ts:2692-2720 | a new pattern's image takes the place of the old one's |
| SessionImages.ImageSession.PreviewNow | glue/src/session.ts:1775-1806 | a preview below full size finds its proxy or frees the one there and awaits a resample; the session stays valid |
| SessionImages.ImageSession.BeginOn | glue/src/session.ts:2446-2463 | an awaited resize, crop, commit or canvas operation starts only with a source and leaves the session valid |
| SessionImages.ImageSession.LandNow | glue/src/session.ts:2163-2192 | an awaited operation takes its landing step, and the session owns exactly its images afterwards if and only if the landing is safe |
| SessionImages.ImageSession.LandReplacement | glue/src/session.ts:3070-3084 | a resize or crop that lands releases the claim, frees the object's image and gives it the new one |
| SessionImages.ImageSession.LandCommit | glue/src/session.ts:2457-2475 | a commit that lands edits in place or replaces the image, as the handle it comes back with says |
| SessionImages.ImageSession.LandExtent | glue/src/session.ts:2171-2190 | a canvas operation that lands keeps the handle, releases the claim and takes the new extent |
| SessionImages.ImageSession.ReopenLayers | glue/src/session.ts:1060-1091 | reopened layers bump the claim and may change the pixels, without an edit counted |
| SessionImages.ImageSession.Fold | glue/src/session.ts:1271-1292 | a successful fold bumps the claim and counts as an edit; a failed one changes nothing here; the session owns exactly its images |
| SessionImages.ImageSession.Claim | glue/src/session.ts:4143-4191 | a claim replaces the old one and takes the present extent of the source; the session stays valid |
| SessionImages.ImageSession.Close | glue/src/session.ts:4208-4225 | a disposal leaves the engine empty, with no claim and nothing freed twice |

## Left out

- Floating-point rounding, NaN and infinities: all arithmetic is exact; the brush machine's finiteness tests are kept as a tagged reading.
- The wasm engine and its bindings, GPU dispatch, colour management, the plug-in host, panels, menus and the other tools: foreign calls, or wiring that would only add easy members.
- `composite_normal_gamma`: its power function has no exact counterpart.
- Text-level JSON, the tokenising of .cube files, PSD keys, file reading and worker spawning.
- Which of several missing or damaged buffers a refusal to load names, and the promise of a whole decode batch, which the code settles with its first failure where the comment speaks of results item by item: the model settles its requests one by one.
- The wording of refusals: a stored record that parses without what it should hold is refused as unreadable, where the source gives or throws the error it ran into.
- SHA-256 itself: an injective function stands for it, so colliding buffers are not modelled.
- Overlapping strokes, overlapping commits, frame ids that sanitise to the same folder, and a revision number used again after undo and reopening.
- A fold, a decode and a reopening are single events of the session, at the moment they finish; a fold that finishes after its source was let go is not one of them.
- Fractional image and tile sizes: a grid and its tiles have whole sizes, and the default brush radius is always passed in.
- The size of integers the source keeps in 32-bit or word-sized variables, except where it checks them (`Raw.RawTarget.Begin`); the products of `RawSource::new` and of `read_region` are taken not to overflow.
- The pressure and geometry of the pointer (`pageToImage`, the tip outline) and the eyedropper and clone-source clicks that never start a stroke.
- Tile claims towards the host: a claim here is its extent and revision, not the tiles it serves.
- Raw.RawTarget.WriteStrip: requires that a strip passing the checks holds the rows it claims; the source copies without checking and panics otherwise.
- Blends.ClipColorKeepsLum: requires a colour other than the flat ones outside the unit range, on which the source divides zero by zero.
- CompositeLoops.ClipColorInPlace: requires the same, for the same reason.
- CompositeLoops.CompositePixels: requires premultiplied pixels (0 <= colour <= alpha <= 1) and an opacity in the unit range, which the source documents and does not check.
- QuickSelect.QuickSelectStroke.Dab: once the cap is met it does not state in which order the growth reached the cells it selected.
