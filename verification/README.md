# Verified model of the arm core: bus, slot, poses, profiles, fake arm, frames

A Dafny model of the parts of the core library where the behaviour is hard to see by reading one
function, with proofs about all inputs, all runs or all interleavings.

- **Command bus** (`futures`, `bus_protocol`, `bus_invariant`, `bus_theorems`, `bus_outcomes`,
  `bus_single_consumer`, `command_bus`). A labelled transition system whose step is one locked section, one
  future operation, the end of one handler call, or one client `cancel()`; every `submit` and `drain` call is
  a process of its own. `CommandBus` is the object itself: its methods act in steps of the protocol, and
  between two of them `Interfere` stands for whatever other threads (or a handler that calls back) may do, so
  a caller knows no more than its contract. The library's `Future` is a datatype with its four legal operations.
- **Latest-value slot** (`slot_protocol`, `slot_theorems`, `latest_slot`). The same arrangement for the slot
  whose event is swapped under the lock and set outside it. A wait that times out is a step that is always
  possible.
- **Rotations and poses** (`real_algebra`, `vectors`, `quaternions`, `rotations`, `shepperd`, `rot6d`,
  `poses`, `pose_matrix`, `leash`). Over exact reals. A square root the program takes is a parameter `s` with
  `s >= 0` and `s * s == x`, so each statement holds of the root whenever there is one; for unit
  quaternions it is proved to be 1. "The same orientation" means equal, or opposite with w == 0.
- **Profile store** (`migration`, `name_order`, `profile_directory`, `profile_designation`,
  `profile_history`, `profile_crashes`, `profile_store`). The directory is a map from file names to contents. Every operation
  yields the sequence of directories after each file-system step, and a crash is any prefix of it.
  `ProfileStore` is the object; its ghost `trail` records those directories. Migration tables are arbitrary.
- **Fake arm** (`arm_motion`, `arm_state`, `fake_arm`). The rate-limited step on values, and the object with
  its three arrays, which never alias each other or a caller's.
- **Frame references** (`frames`).

Where the code and its documentation differ, the model follows the code:

- `submit` says that a full queue resolves the future at once. It does so after leaving the lock, but before
  anybody else has the future, so no client can cancel it in between; the model has no such step.
- `set_initial` says that a crash leaves zero flags, never two. "Zero" holds exactly in a call that completes,
  between the step that rewrites the last rival and the last step of all, and only if the target had no flag
  (`FlaglessExactly`); `CrashKeepsFlag` is a directory on which it fails. "Never two" holds exactly when there
  were not two before (`NeverTwoExactly`); `CrashKeepsTwo` is a directory with two. `SetInitialExactly` says
  what every crash leaves.
- A file that was put into the directory by hand may hold a profile whose id matches its name but is not a
  valid id. If that profile is a flagged rival, `set_initial` raises part-way; `SetInitialCompletes` says
  exactly when, and `ForeignRival` is such a directory.
- `save` does not clear other flags; `SaveKeepsOneExactly` says when that is harmless.
- The leash calls itself idempotent; with a negative length it is not (`IdempotentExactly`, and
  `NegativeLeashFails` for inputs). From which length on it brings no two targets farther apart is
  `NonExpansiveExactly`.

## Model

| member | source | states |
|---|---|---|
| `BusTheorems.EveryRunIsSafe` | src/apollo_mavis_v2_core/bus.py:57-93 | over every interleaving of submitters, cancelling clients and drains: no future operation is applied where it raises, the queue stays within max(0, maxsize), no handler is called twice or on a cancelled command, and each unresolved future is held in exactly one place (queue, a drain's remaining batch or current command, the full-queue path) |
| `BusInvariant.StepInv` | src/apollo_mavis_v2_core/bus.py:57-93 | the invariant behind that is kept by every single step: one locked section, one future operation, one handler end, one cancel |
| `BusInvariant.FaultExactly` | src/apollo_mavis_v2_core/bus.py:63-93 | a fault is recorded exactly when a result is set on a cancelled or finished future, or one that is not pending or freshly cancelled is told to run |
| `BusTheorems.VerdictIsFinal` | src/apollo_mavis_v2_core/bus.py:52-93 | a future becomes terminal at most once; whatever happens later, its result or its cancellation stays |
| `BusTheorems.CancelledNeverRuns` | src/apollo_mavis_v2_core/bus.py:83-87 | a successful `cancel()` promises that the handler is never called on the command |
| `BusTheorems.QuiescentMeansResolved` | src/apollo_mavis_v2_core/bus.py:49-50 | when the queue is empty and all calls have returned, every future ever submitted is resolved |
| `BusTheorems.AcceptedIffRoom` | src/apollo_mavis_v2_core/bus.py:63-67 | a submit is accepted exactly when the queue had room inside its own locked section |
| `BusTheorems.RefusedHoldBusFull` | src/apollo_mavis_v2_core/bus.py:68-69 | a refused submit holds "bus full" under the command's id, or is about to |
| `BusTheorems.DrainDecidesItsBatch` | src/apollo_mavis_v2_core/bus.py:79-93 | a drain keeps the batch it took whatever is submitted meanwhile, its own steps are bounded, and when it returns every command of the batch is decided |
| `BusTheorems.DrainTerminates` | src/apollo_mavis_v2_core/bus.py:71-93 | from the snapshot of n commands: at most 3n + 1 steps of its own, and when it returns each of those n is finished or has been told it was cancelled |
| `BusTheorems.DrainNeverStuck` | src/apollo_mavis_v2_core/bus.py:82-93 | a drain that has not returned always has a next step, so it ends whenever each handler does |
| `BusOutcomes.ResultsAreOutcomes` | src/apollo_mavis_v2_core/bus.py:88-92 | over every run: an accepted command that is resolved, or about to be, has the outcome of a handler call on itself: the returned result as it is, or for an exception `ok=False`, the command's own id and the exception's text |
| `BusOutcomes.OutcomeIsVerdict` | src/apollo_mavis_v2_core/bus.py:88-92 | once a handler call on a command has ended, its future is running until it is finished with that outcome, and with no other ever after |
| `BusSingleConsumer.HandledInOrder` | src/apollo_mavis_v2_core/bus.py:46-48 | with one consumer whose handler does not drain: the handled commands are, in order, exactly the accepted ones reached so far whose cancel did not succeed, each once |
| `BusSingleConsumer.OutstandingBound` | src/apollo_mavis_v2_core/bus.py:46-48 | with one consumer at most 2 * max(0, maxsize) accepted commands are unresolved at any time |
| `CommandBusObject.CommandBus.Submit` | src/apollo_mavis_v2_core/bus.py:57-69 | with room: appended at the end and pending, as of the end of the locked section; without: finished with "bus full" and not in the queue, whatever other threads do between the locked section and the `set_result` |
| `CommandBusObject.CommandBus.Enqueue` | src/apollo_mavis_v2_core/bus.py:64-67 | the locked section: appended exactly when there is room |
| `CommandBusObject.CommandBus.CancelFuture` | src/apollo_mavis_v2_core/bus.py:83-86 | a client cancel fails exactly on a running or finished future and changes no other |
| `CommandBusObject.CommandBus.Take` | src/apollo_mavis_v2_core/bus.py:79-81 | the locked section: the batch is the whole queue, owned by this call from then on |
| `CommandBusObject.CommandBus.Tell` | src/apollo_mavis_v2_core/bus.py:83-87 | a command is skipped only when its cancel has succeeded; otherwise it is running, cannot be cancelled any more and goes to the handler |
| `CommandBusObject.CommandBus.Handle` | src/apollo_mavis_v2_core/bus.py:88-91 | the result is what the handler returned, or a failure under the command's id with the exception's text if it raised |
| `CommandBusObject.OthersMayDo` | src/apollo_mavis_v2_core/bus.py:64-93 | between two steps of a call, other threads may take every step but that call's own |
| `CommandBusObject.CommandBus.RunOne` | src/apollo_mavis_v2_core/bus.py:83-92 | one turn of the loop, under any interference: the command is found cancelled and the handler is never called on it, or it is called once and the future is finished with the result it returned, or with `ok=False`, the command's id and the exception's text if it raised |
| `CommandBusObject.CommandBus.Drain` | src/apollo_mavis_v2_core/bus.py:71-93 | returns the size of its snapshot; each of its commands is cancelled, or finished with what the handler returned, or with `ok=False`, its own id and the exception's text; the handler was called once on each whose cancel did not succeed and on no other of them |
| `SlotTheorems.Freshness` | src/apollo_mavis_v2_core/bus.py:127-139 | a successful `wait_fresh` returns the newest value at the time it reads, and that value's put entered its locked section after the waiter captured its event, whichever `event.set()` ran in between; never the initial empty value |
| `SlotTheorems.NoLostWakeup` | src/apollo_mavis_v2_core/bus.py:111-139 | in every state the current event is not set, every retired event is set or exactly one put is about to set it, and a blocked waiter can wake exactly when its event is retired and nobody owes it |
| `SlotTheorems.RetiredSetOnce` | src/apollo_mavis_v2_core/bus.py:117-118 | every `event.set()` sets for the first time the event its own put retired, and it stays set |
| `SlotTheorems.GetIsLastPut` | src/apollo_mavis_v2_core/bus.py:120-125 | `get` returns the last locked put, nothing before the first; with a monotone clock its times never decrease |
| `SlotProtocol.StepInv` | src/apollo_mavis_v2_core/bus.py:104-139 | the event, value, clock and waiter invariants are kept by every step |
| `LatestSlotObject.OthersMayDo` | src/apollo_mavis_v2_core/bus.py:111-139 | between two steps of a call, other puts and waiters may take every step of theirs |
| `LatestSlotObject.LatestSlot.Swap` | src/apollo_mavis_v2_core/bus.py:113-117 | the locked section: value and time are the newest entry of the log, and the retired event is the one this put now owes |
| `LatestSlotObject.LatestSlot.Block` | src/apollo_mavis_v2_core/bus.py:134-137 | a wait that succeeds found the event captured under the lock set; one whose time is not up succeeds once that event is set |
| `LatestSlotObject.LatestSlot.Await` | src/apollo_mavis_v2_core/bus.py:136-137 | the wait succeeds exactly when the event is set on entry, or is set by its end and the time is not up |
| `LatestSlotObject.LatestSlot.Put` | src/apollo_mavis_v2_core/bus.py:111-118 | adds its value to the log of locked puts and has set the event it retired when it returns, under any interference |
| `LatestSlotObject.LatestSlot.Get` | src/apollo_mavis_v2_core/bus.py:120-125 | reads the last entry of the log of locked puts, or None |
| `LatestSlotObject.LatestSlot.WaitFresh` | src/apollo_mavis_v2_core/bus.py:127-139 | success means another put locked after the call started and the newest value is returned; None means the time was up or the next put's event was not set |
| `Quaternions.NormalizeSpec` | src/apollo_mavis_v2_core/se3.py:46-55 | raises exactly below 1e-12; otherwise the unit quaternion with w >= 0 that scales back to the input, by the norm or, for negative w, by its negative |
| `Quaternions.MulAndConj` | src/apollo_mavis_v2_core/se3.py:58-75 | product and conjugate raise exactly below 1e-12 and are otherwise normalized in the same way, for any operands |
| `Quaternions.HamiltonAssoc` | src/apollo_mavis_v2_core/se3.py:58-70 | the quaternion product is associative |
| `Quaternions.Conjugation` | src/apollo_mavis_v2_core/se3.py:78-84 | `quat_rotate` computes q v q* for unit q |
| `Quaternions.RotateCompose` | src/apollo_mavis_v2_core/se3.py:58-84 | rotating by a product is rotating twice, and products of unit quaternions are unit |
| `Quaternions.RotateInverse` | src/apollo_mavis_v2_core/se3.py:73-84 | the conjugate rotates back, on both sides |
| `Quaternions.RotatePreserves` | src/apollo_mavis_v2_core/se3.py:78-84 | rotation preserves dot products and cross products |
| `Rotations.RotMatIsRotation` | src/apollo_mavis_v2_core/se3.py:87-95 | the matrix of a unit quaternion is orthonormal with determinant 1 |
| `Rotations.MatrixActs` | src/apollo_mavis_v2_core/se3.py:78-95 | that matrix acts on vectors as `quat_rotate` does |
| `Rotations.RotMatProduct` | src/apollo_mavis_v2_core/se3.py:58-95 | the matrix of a product is the product of the matrices |
| `Rotations.QuatToMatSpec` | src/apollo_mavis_v2_core/se3.py:87-95 | `quat_to_mat` raises exactly below 1e-12 and otherwise is the rotation by the normalized quaternion, whatever the norm |
| `Shepperd.MatToQuatTotal` | src/apollo_mavis_v2_core/se3.py:98-124 | for every 3x3 matrix, rotation or not: the divisor is at least 2, the norm before normalization at least 1/2, so nothing raises and the result is canonical |
| `Shepperd.FirstLargest` | src/apollo_mavis_v2_core/se3.py:103-120 | the branch is the real one for a positive trace, otherwise that of the first largest diagonal entry |
| `Shepperd.MatQuatMat` | src/apollo_mavis_v2_core/se3.py:87-124 | for every rotation matrix, in each of the four branches: the quaternion is unit before the last normalization and converting back gives the matrix |
| `Shepperd.QuatMatQuat` | src/apollo_mavis_v2_core/se3.py:87-124 | `mat_to_quat` after `quat_to_mat` gives the normalized quaternion, exactly when w != 0 and up to sign when w == 0 |
| `Shepperd.RoundTripExactly` | src/apollo_mavis_v2_core/se3.py:98-124 | at w == 0 it is the identity exactly when the component of largest magnitude (first on ties) is positive, and the negation otherwise |
| `Rot6d.DecodeIsRotation` | src/apollo_mavis_v2_core/se3.py:178-199 | every accepted input decodes to an orthonormal right-handed matrix |
| `Rot6d.AcceptedExactly` | src/apollo_mavis_v2_core/se3.py:189-196 | accepted are exactly the inputs with both columns at least 1e-6 long and the second at least 1e-6 from the line of the first; a short column and near-parallel columns give their own errors |
| `Rot6d.DecodeEncode` | src/apollo_mavis_v2_core/se3.py:166-199 | decoding the first two columns of a rotation gives exactly that rotation |
| `Rot6d.DecodeInvariant` | src/apollo_mavis_v2_core/se3.py:178-199 | unchanged by positive scaling of either column and by adding a multiple of the first to the second, when both inputs pass the checks |
| `Rot6d.QuatThroughRot6d` | src/apollo_mavis_v2_core/se3.py:202-208 | `rot6d_to_quat` after `quat_to_rot6d` gives the normalized quaternion, up to sign only at w == 0 |
| `Poses.MakePoseSpec` | src/apollo_mavis_v2_core/types.py:45-57 | the constructor refuses exactly below norm 1e-9 and otherwise holds the canonical unit quaternion of the input |
| `Poses.PoseMulNeverRaises` | src/apollo_mavis_v2_core/se3.py:270-275 | composition of poses never raises, and its normalizations divide by 1 |
| `Poses.PoseAssoc` | src/apollo_mavis_v2_core/se3.py:270-275 | composition is associative: positions exactly, orientations up to sign only at w == 0 |
| `Poses.PoseIdentity` | src/apollo_mavis_v2_core/types.py:59-66 | the identity pose is a two-sided unit, exactly |
| `Poses.PoseInverse` | src/apollo_mavis_v2_core/se3.py:278-280 | the inverse is two-sided, exactly |
| `Poses.BetweenRecomposes` | src/apollo_mavis_v2_core/se3.py:283-285 | `pose_mul(a, pose_between(a, b))` is b |
| `Poses.TcpRoundTrip` | src/apollo_mavis_v2_core/se3.py:299-317 | `tcp_to_flange` and `flange_to_tcp` undo each other in both orders, with and without a gripper |
| `Poses.ToolFrame` | src/apollo_mavis_v2_core/se3.py:304-317 | with a gripper the tool frame is the flange's turned half round about its z axis and moved 0.172 along it; without one it is the flange's |
| `PoseMatrix.ToMatrixProduct` | src/apollo_mavis_v2_core/types.py:73-79 | `to_matrix` turns composition into the 4x4 matrix product |
| `PoseMatrix.FromToMatrix` | src/apollo_mavis_v2_core/types.py:81-88 | `from_matrix` undoes `to_matrix` |
| `PoseMatrix.ToFromMatrix` | src/apollo_mavis_v2_core/types.py:73-88 | `to_matrix` undoes `from_matrix` on every rigid transform |
| `PoseMatrix.FromAnyMatrix` | src/apollo_mavis_v2_core/types.py:81-88 | on every 4x4 matrix `from_matrix` succeeds, with the translation as position, ignoring the bottom row |
| `Leash.BoundExactly` | src/apollo_mavis_v2_core/se3.py:346-352 | the result is within a non-negative leash exactly when the target was inside or farther than 1e-12 from the anchor |
| `Leash.NearestPoint` | src/apollo_mavis_v2_core/se3.py:346-352 | no point of the ball is closer to the target than the result |
| `Leash.UnchangedExactly` | src/apollo_mavis_v2_core/se3.py:346-352 | for every length, the target is returned unchanged exactly when it is within it, or within 1e-12 of the anchor |
| `Leash.IdempotentExactly` | src/apollo_mavis_v2_core/se3.py:343-352 | clamping twice is clamping once exactly when the leash is at least -1e-12 or the target is within 1e-12 of the anchor |
| `Leash.NegativeLeashFails` | src/apollo_mavis_v2_core/se3.py:343-352 | for every length below -1e-12, a target on which clamping twice is not clamping once |
| `Leash.NonExpansive` | src/apollo_mavis_v2_core/se3.py:346-352 | with a leash of at least 1e-12 two results are no farther apart than their targets |
| `Leash.ShortLeashExpands` | src/apollo_mavis_v2_core/se3.py:346-352 | for every shorter length, negative ones included: two targets that the leash moves apart |
| `Leash.NonExpansiveExactly` | src/apollo_mavis_v2_core/se3.py:346-352 | no two results are ever farther apart than their targets exactly when the length is at least 1e-12 |
| `Migration.Migrate` | src/apollo_mavis_v2_core/profiles/store.py:40-56 | the loop terminates for every table and computes the specification function |
| `Migration.MigratedExactly` | src/apollo_mavis_v2_core/profiles/store.py:31-56 | succeeds exactly when a run of advancing upgrades ends at the supported version, with that data; fails exactly, and with the matching error, on a junk version, a gap, a step that does not advance, or a version past the supported one |
| `Migration.UntouchedByMigration` | src/apollo_mavis_v2_core/profiles/store.py:31-56 | without a version or at version 1 a file is taken as it is; a newer one, an older one without an upgrader and junk are refused with their errors |
| `Migration.ChainLength` | src/apollo_mavis_v2_core/profiles/store.py:40-56 | a run makes at most (supported version - start version) upgrades |
| `Migration.MigrateTwice` | src/apollo_mavis_v2_core/profiles/store.py:40-56 | what migration returns carries the supported version and migrates to itself |
| `ProfileDirectory.LoadsExactly` | src/apollo_mavis_v2_core/profiles/store.py:82-98 | a file loads as a profile exactly when it holds an object from which upgrades reach the supported version with valid fields, and the id is the file's stem |
| `ProfileDirectory.FailsExactly` | src/apollo_mavis_v2_core/profiles/store.py:82-98 | and fails, with which error, exactly on text that is not JSON, JSON that is no object, a failed migration, rejected fields, or an id that is not the stem |
| `ProfileDirectory.LoadsWithoutVersion` | src/apollo_mavis_v2_core/profiles/store.py:31-37 | a file without a version loads as version 1 |
| `ProfileDirectory.SavedLoadsBack` | src/apollo_mavis_v2_core/profiles/store.py:82-98 | a written profile loads back as itself, whatever the migrations, exactly when it carries the supported version |
| `ProfileDirectory.OtherVersionsReload` | src/apollo_mavis_v2_core/profiles/store.py:52-55 | a profile saved at a newer version is refused on loading, one at an older version without an upgrader too |
| `ProfileDirectory.LoadedIsCurrent` | src/apollo_mavis_v2_core/profiles/store.py:82-98 | a loaded profile carries the supported version and the id its file is named after |
| `ProfileDirectory.WriteIsAtomic` | src/apollo_mavis_v2_core/profiles/store.py:112-120 | after each step of a write the `*.json` files are exactly the old ones, and after the last exactly the old ones with the one entry replaced; the temporary file is never among them |
| `ProfileDirectory.WriteTouchesTwo` | src/apollo_mavis_v2_core/profiles/store.py:112-120 | the temporary file is opened empty, filled, and moved over the entry; none is left and no other file is touched |
| `ProfileDirectory.FoundIsLookup` | src/apollo_mavis_v2_core/profiles/store.py:128-133 | `get` finds exactly the loadable profile of that valid id |
| `ProfileDirectory.FoundFails` | src/apollo_mavis_v2_core/profiles/store.py:128-133 | and otherwise says exactly why: an id that is not valid, no such file, or the reason the file does not load |
| `ProfileDirectory.IdsAreNotPaths` | src/apollo_mavis_v2_core/profiles/store.py:74-79 | a valid id holds no separator, dot or white space |
| `ProfileDirectory.WordsAreValid` | src/apollo_mavis_v2_core/profiles/store.py:74 | letters, digits, underscores and hyphens make a valid id |
| `ProfileDirectory.HexIsValid` | src/apollo_mavis_v2_core/profiles/store.py:140 | a fresh id of 32 hex digits is valid |
| `ProfileDirectory.StemMeans` | src/apollo_mavis_v2_core/profiles/store.py:94 | the stem is the name without `.json`, and a bare `.json` is its own stem |
| `ProfileDirectory.NamesOfA` | src/apollo_mavis_v2_core/profiles/store.py:80-115 | the profile "a" is kept in a.json by way of a.json.tmp; the glob sees names that end in .json, .json itself among them, and no others |
| `ProfileDesignation.ScanSplits` | src/apollo_mavis_v2_core/profiles/store.py:100-110 | `_scan` splits the `*.json` files into the loaded profiles and the recorded errors, none twice, none dropped |
| `ProfileDesignation.ScanInOrder` | src/apollo_mavis_v2_core/profiles/store.py:104 | profiles and recorded errors each come in ascending order of their file names |
| `NameOrder.SortedPermutation` | src/apollo_mavis_v2_core/profiles/store.py:124-126 | `list` is in order: of two profiles the first was created at an earlier time, compared as strings by code point, or at the same time and with the smaller id; each scanned profile is there as often as in the scan |
| `NameOrder.LeMeans` | src/apollo_mavis_v2_core/profiles/store.py:104 | names compare as a prefix or by the first differing character |
| `NameOrder.SortStable` | src/apollo_mavis_v2_core/profiles/store.py:124-126 | profiles with equal keys stay in file-name order |
| `NameOrder.ListingUnique` | src/apollo_mavis_v2_core/profiles/store.py:104 | there is one ascending listing of the files, so a scan is a function of the directory |
| `ProfileHistory.WriteIsMapUpdate` | src/apollo_mavis_v2_core/profiles/store.py:112-133 | for `get` of every id: nothing changes until the last step of a write, then one id gives the new profile (at the supported version) and every other what it did |
| `ProfileHistory.SaveThenGet` | src/apollo_mavis_v2_core/profiles/store.py:135-146 | an empty id becomes the fresh one, an empty creation time the current one, nothing else changes; `get` after `save` returns that exactly for a valid id and version 1; every other id is as before; an invalid id is refused with no step |
| `ProfileHistory.SaveWithoutId` | src/apollo_mavis_v2_core/profiles/store.py:138-146 | a profile without an id is always saved under a valid fresh one, and found there |
| `ProfileHistory.SaveAgain` | src/apollo_mavis_v2_core/profiles/store.py:135-146 | saving again what `save` returned assigns nothing new and leaves every visible file as it was |
| `ProfileHistory.RenameIsMapUpdate` | src/apollo_mavis_v2_core/profiles/store.py:159-169 | `rename` replaces the name and, when given, the notes of one entry and none of its other fields, or fails as `get` does with nothing changed |
| `ProfileHistory.DeleteIsMapRemoval` | src/apollo_mavis_v2_core/profiles/store.py:148-157 | `delete` removes one unflagged entry and nothing else; a flagged one is refused |
| `ProfileDesignation.SetInitialStages` | src/apollo_mavis_v2_core/profiles/store.py:171-181 | at every file-system step (so at every crash) either some rivals have lost their flag and nothing else changed as loaded, or the designation is complete; a call without error ends complete, whatever the starting count |
| `ProfileCrashes.SetInitialExactly` | src/apollo_mavis_v2_core/profiles/store.py:171-181 | position by position: with R flagged rivals in file-name order, the first whose id is not valid stops the call, otherwise it takes 3 R + 3 steps; after k steps exactly the first k / 3 rivals have lost their flags and nothing else that loads has changed, until the last step completes the designation |
| `ProfileCrashes.SetInitialRefusal` | src/apollo_mavis_v2_core/profiles/store.py:171-181 | a failing call has the error of `get` and no step, or the error of the first rival whose id is not valid |
| `ProfileCrashes.FlaglessExactly` | src/apollo_mavis_v2_core/profiles/store.py:172-173 | a crash leaves no flag of the kind exactly in a call that completes, from the step that rewrites the last rival up to the last step of all, and only if the target had no flag; a call that a rival with an invalid id stops never leaves zero |
| `ProfileCrashes.NeverTwoExactly` | src/apollo_mavis_v2_core/profiles/store.py:172-173 | every crash after the first step or later leaves at most one flag per kind exactly when there was at most one before the call |
| `ProfileCrashes.FirstStepsChangeNothing` | src/apollo_mavis_v2_core/profiles/store.py:171-181 | a crash before the third step leaves every loadable profile as it was, flags included |
| `ProfileCrashes.CrashKeepsFlag` | src/apollo_mavis_v2_core/profiles/store.py:172-173 | a directory and a designation whose crash after one step does not leave zero flags |
| `ProfileCrashes.CrashKeepsTwo` | src/apollo_mavis_v2_core/profiles/store.py:172-173 | a directory with two flags of a kind and a crash that leaves both |
| `ProfileDesignation.DesignatedMeans` | src/apollo_mavis_v2_core/profiles/store.py:171-181 | complete means: the target is the only flagged profile of its kind, the other kind is untouched, every other field is as it was |
| `ProfileDesignation.SetInitialCompletes` | src/apollo_mavis_v2_core/profiles/store.py:112-120 | `set_initial` completes exactly when the target is found and no flagged rival carries an id that is not valid |
| `ProfileCrashes.ForeignRival` | src/apollo_mavis_v2_core/profiles/store.py:76-80 | a directory on which it does not complete: the target is found, and a flagged rival has an id that matches its file name but is not valid |
| `ProfileDesignation.SetInitialKeepsOne` | src/apollo_mavis_v2_core/profiles/store.py:171-181 | from at most one flag per kind, every crash state and every error leaves at most one |
| `ProfileHistory.SaveKeepsOneExactly` | src/apollo_mavis_v2_core/profiles/store.py:135-146 | a save, at any version, keeps at most one flag per kind exactly when what the written file loads as, if it loads, brings no flag that another file of the kind holds |
| `ProfileHistory.StoppedStepByStep` | src/apollo_mavis_v2_core/profiles/store.py:112-181 | before its first step an operation has done nothing, after its last all, and each step makes a directory of its own |
| `ProfileHistory.HistoryGrows` | src/apollo_mavis_v2_core/profiles/store.py:112-181 | a longer history continues where the shorter one was stopped |
| `ProfileHistory.HistoryKeepsOne` | src/apollo_mavis_v2_core/profiles/store.py:135-188 | over every history of renames, deletes, designations and saves at any version (of files that load without a rival flag), each stopped after any of its steps, at most one loadable profile per kind is flagged |
| `ProfileHistory.FlagStays` | src/apollo_mavis_v2_core/profiles/store.py:148-181 | a flagged profile keeps file, kind and flag through every delete and rename, every save into another file and every designation of the other kind, crashed or not |
| `ProfileHistory.InitialForExact` | src/apollo_mavis_v2_core/profiles/store.py:183-188 | `initial_for` returns a flagged profile of the kind if there is one, with several the earliest by creation time and id, else None |
| `ProfileHistory.InitialForStays` | src/apollo_mavis_v2_core/profiles/store.py:183-188 | over a history of that sort that neither saves into the flagged file nor designates another of its kind, `initial_for` keeps answering with that file |
| `ProfileHistory.DesignatedIsInitial` | src/apollo_mavis_v2_core/profiles/store.py:171-188 | after a completed `set_initial`, `initial_for` of the kind returns the target |
| `ProfileHistory.OtherKindKeepsInitial` | src/apollo_mavis_v2_core/profiles/store.py:171-188 | for the other kind `initial_for` returns what it did before, however many profiles are flagged and wherever `set_initial` crashes, is refused or completes |
| `ProfileStoreObject.ProfileStore.Load` | src/apollo_mavis_v2_core/profiles/store.py:82-98 | loads a file or gives the first error of parsing, migration, validation and file name |
| `ProfileStoreObject.ProfileStore.Names` | src/apollo_mavis_v2_core/profiles/store.py:104 | the `*.json` files in ascending order |
| `ProfileStoreObject.ProfileStore.Write` | src/apollo_mavis_v2_core/profiles/store.py:112-120 | performs exactly the three file-system steps of the specification, or refuses an invalid id with none |
| `ProfileStoreObject.ProfileStore.Scan` | src/apollo_mavis_v2_core/profiles/store.py:100-110 | returns the loaded profiles in file-name order and records exactly the failures; the directory is unchanged |
| `ProfileStoreObject.ProfileStore.List` | src/apollo_mavis_v2_core/profiles/store.py:124-126 | the scanned profiles, each as often, earliest creation time first and by id among equals |
| `ProfileStoreObject.ProfileStore.Get` | src/apollo_mavis_v2_core/profiles/store.py:128-133 | invalid id, missing file, or what loading the file gives |
| `ProfileStoreObject.ProfileStore.Save` | src/apollo_mavis_v2_core/profiles/store.py:135-146 | the steps and the answer of the specification |
| `ProfileStoreObject.ProfileStore.Delete` | src/apollo_mavis_v2_core/profiles/store.py:148-157 | one unlink, or the error with no step |
| `ProfileStoreObject.ProfileStore.Rename` | src/apollo_mavis_v2_core/profiles/store.py:159-169 | the steps of one write and the renamed profile, or the error of `get` with no step |
| `ProfileStoreObject.ProfileStore.SetInitial` | src/apollo_mavis_v2_core/profiles/store.py:171-181 | goes through exactly the directories of the specification, rivals first and target last |
| `ProfileStoreObject.ProfileStore.InitialFor` | src/apollo_mavis_v2_core/profiles/store.py:183-188 | the first flagged profile of the kind in the listing |
| `ArmMotion.StepsAreOneStep` | src/apollo_mavis_v2_core/testing.py:109-122 | for a fixed target, steps of any positive times reach the position and time of one step of their sum, at any speeds |
| `ArmMotion.DistanceLaw` | src/apollo_mavis_v2_core/testing.py:109-122 | after total time T a joint with speed >= 0 is max(0, d0 - speed * T) from its target, between start and target |
| `ArmMotion.ReachMeans` | src/apollo_mavis_v2_core/testing.py:114-116 | that speed is the joint speed, and the rail speed for the rail |
| `ArmMotion.VelocityReported` | src/apollo_mavis_v2_core/testing.py:119-121 | the reported velocity is the one of the move, within the speed limit; the rail's is zero |
| `ArmMotion.RailSafeExactly` | src/apollo_mavis_v2_core/testing.py:75-122 | the rail stays in [0, 0.65] under every sequence of calls exactly when it starts there and its speed is not negative |
| `ArmMotion.StopHolds` | src/apollo_mavis_v2_core/testing.py:70-72 | after `stop` no sequence of steps moves the arm exactly when its joint speed and, with a rail, its rail speed are not negative; stopping twice is stopping once |
| `ArmMotion.TargetsMean` | src/apollo_mavis_v2_core/testing.py:75-96 | a joint command sets each joint's target and the rail's to the nearest point of its travel, a rail command only the latter; neither moves the arm |
| `ArmMotion.RefusedExactly` | src/apollo_mavis_v2_core/testing.py:75-113 | refused are exactly a joint command of the wrong length, a rail command without a rail and a time step that is not positive |
| `ArmMotion.NewArmRests` | src/apollo_mavis_v2_core/testing.py:46-52 | a new arm is refused exactly for a wrong length, and otherwise rests where it was put, at zeros by default |
| `ArmMotion.CommandLog` | src/apollo_mavis_v2_core/testing.py:86-88 | the log is every gripper command given, in order |
| `ArmMotion.ConnectedByLast` | src/apollo_mavis_v2_core/testing.py:64-68 | connected exactly when the last connect or disconnect was a connect |
| `ArmStates.AlwaysPublishable` | src/apollo_mavis_v2_core/state.py:80-100 | after any calls on a new arm the published state passes every check of its constructor; the rail position equals the rail slot and exists only with a rail |
| `ArmStates.AcceptedExactly` | src/apollo_mavis_v2_core/state.py:80-100 | a state is accepted exactly with 7 or 8 positions, as many velocities, a rail position within 1e-9 of the eighth or none with 7, and an opening that is a fraction |
| `ArmStates.NewArmPublished` | src/apollo_mavis_v2_core/testing.py:46-61 | a new arm is published where it was put, at rest, at time zero, open and without errors |
| `ArmStates.PublishedWith` | src/apollo_mavis_v2_core/testing.py:124-139 | the pose is the kinematics of the published position, or the identity; the rail position is its rail slot; the clock is in whole nanoseconds |
| `ArmStates.OnlyStepsMove` | src/apollo_mavis_v2_core/testing.py:70-106 | no call but a step changes the published position, velocity, pose or time |
| `ArmStates.StepPublished` | src/apollo_mavis_v2_core/testing.py:109-122 | after a step the velocity is that of the move in the published positions, zero for the rail, and the time has advanced by it |
| `ArmStates.PublishedFollows` | src/apollo_mavis_v2_core/testing.py:109-139 | after any steps the published position is max(0, d0 - speed * T) from the target, between start and target |
| `ArmStates.Journey` | src/apollo_mavis_v2_core/testing.py:46-139 | put at q0, commanded to a goal and stepped, each joint is published at max(0, d0 - speed * T) from its goal, d0 being the distance of the goal from q0 |
| `ArmStates.ReportsLatched` | src/apollo_mavis_v2_core/testing.py:86-106 | what a call sets in the published reports (codes injected or cleared, gripper opening commanded) stays through any motion calls |
| `FakeArmObject.FakeArm.Create` | src/apollo_mavis_v2_core/testing.py:32-61 | refuses exactly a wrong shape; otherwise position and target are separate copies of `q0`, or zeros |
| `FakeArmObject.FakeArm.Halt` | src/apollo_mavis_v2_core/testing.py:70-72 | the target becomes a new copy of the position |
| `FakeArmObject.FakeArm.CommandJointsTo` | src/apollo_mavis_v2_core/testing.py:75-84 | a wrong shape is refused with nothing changed; otherwise the target is a new array, rail slot clamped, never the caller's |
| `FakeArmObject.FakeArm.CommandRailTo` | src/apollo_mavis_v2_core/testing.py:90-96 | refused without a rail; otherwise only slot 7 of the target changes, clamped |
| `FakeArmObject.FakeArm.CommandGripperTo` | src/apollo_mavis_v2_core/testing.py:86-88 | the command is appended to the log and becomes the reported opening |
| `FakeArmObject.FakeArm.ConnectArm` | src/apollo_mavis_v2_core/testing.py:64-65 | connects and changes nothing else |
| `FakeArmObject.FakeArm.DisconnectArm` | src/apollo_mavis_v2_core/testing.py:67-68 | disconnects and changes nothing else |
| `FakeArmObject.FakeArm.Inject` | src/apollo_mavis_v2_core/testing.py:99-102 | latches the two codes and nothing else |
| `FakeArmObject.FakeArm.Clear` | src/apollo_mavis_v2_core/testing.py:104-106 | clears the two codes and nothing else |
| `FakeArmObject.FakeArm.Advance` | src/apollo_mavis_v2_core/testing.py:109-122 | refuses dt <= 0; otherwise new position and velocity arrays as the specification's step, the target untouched |
| `FakeArmObject.FakeArm.GetState` | src/apollo_mavis_v2_core/testing.py:124-139 | the checked state with fresh arrays that no later call changes |
| `Frames.MutualInverse` | src/apollo_mavis_v2_core/types.py:127-157 | `frame_ref` of a pair is a string exactly when `parse_frame` of the string is the pair |
| `Frames.ParseExactly` | src/apollo_mavis_v2_core/types.py:127-142 | accepted are exactly "world" and kind, colon, non-empty identifier without a colon, and the pair comes back |
| `Frames.BuildExactly` | src/apollo_mavis_v2_core/types.py:145-157 | building succeeds exactly on those pairs |
| `Frames.RefusedWithoutColon` | src/apollo_mavis_v2_core/types.py:129-139 | which error a string without a colon is refused with |
| `Frames.RefusedWithColon` | src/apollo_mavis_v2_core/types.py:133-141 | which error a string with a colon is refused with |
| `Frames.BuildRefuses` | src/apollo_mavis_v2_core/types.py:145-157 | which error a pair is refused with |

## Left out

- Floating point: reals are exact, so rounding, NaN and infinity (and the checks for them) are not modelled.
- Existence of square roots: statements about non-unit quaternions, 6-D inputs and the leash are about any root the program obtains.
- Trigonometric code: roll-pitch-yaw, rotation vectors, slerp, geodesic angles, the rotation half of the leash and of twist integration.
- Array shapes other than the expected ones, outside the joint vectors of the arm.
- Handlers that raise something that is not an Exception; the id inside a result that a handler returns, which `drain` does not check.
- Wall-clock time: a timeout is a possible outcome of a wait that blocks, never a duration, and the slot's clock is assumed monotone.
- CommandBusObject.CommandBus.Drain: the handler's outcome is a function of the command, because its effects on the bus are covered by the interference around it.
- JSON text, schema validation and fsync: encoding then decoding a valid profile is assumed to be the identity, and a file that was not fully written is assumed not to be JSON.
- Migration steps that raise or never return, and versions that `int()` rejects with an overflow.
- Processes other than the store that change its directory during a call, and file systems that ignore case.
- Gripper command and arm id details of the fake arm, the fake camera and the fake workcell, and a kinematics stub that writes to the array it is given.
- Stream ids of the external protocol, the protocol and schema models, the key map and the abstract interfaces: tables and shapes that would only add easy members.
