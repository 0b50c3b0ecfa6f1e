# AR image-tracking placement core, modelled in Dafny

This project models the two state machines that drive placement in an
augmented-reality image-tracking demo.

- **The session manager** (`Assets/Scripts/ARSessionManager.cs`). It keeps an
  ordered list of tracked-image handles, one authoritative handle, a
  back-reference to the placed augment and an active flag. It ingests batched
  add/remove reports from the tracking subsystem. A newly added image becomes
  authoritative at once. Once per active frame it re-picks the authority:
  the only image when there is one, otherwise the first image with the
  strictly smallest camera distance. It raises the authority-changed event
  only when the handle actually changes. A tri-state command forces or
  toggles the session; switching it off clears the tracking state.
- **The augment** (`Assets/Scripts/Augment.cs`). On an authority change it
  looks up the first anchor with the reported reference-image name. It then
  cancels any pending settle watch (moving the content under the session
  origin), aligns the wrapper to the anchor and re-parents the content onto
  the new image. It may start a new settle watch. The watch samples the
  content's world position once per frame. After three consecutive equal
  comparisons it moves the content under the origin, once.

Modelling choices:

- Handles are identity values (`Selection.Image`), each carrying its
  reference-image name.
- The camera distance is a parameter `dist: Image -> real` of the per-frame
  evaluation. The scan starts from `FloatMax`, the value of `float.MaxValue`.
- The manager's outside effects become logs on the `SessionManager` object:
  - `events`: the authority-changed events raised;
  - `instantiated`: the parents passed to `Instantiate`;
  - `measured`: the images whose distance was taken.
- The two loops of the report handler `OnTrackedImagesChanged` are the
  methods `AddTrackedImages` and `RemoveTrackedImages`; the handler calls
  them in the source's order. `Announce` lists the events of assigning the
  added images one after the other.
- The augment's transform mutations are logged in order in `Augment.ops`
  (`SetParent(parent, worldPositionStays)`, `MatchWorldPose`,
  `AlignWrapper`). `ParentAfter` replays that log. The object invariant
  `Valid()` ties the `parent` field to the replay.
- The coroutine `DetachParentWait` becomes the explicit state
  `Watch = Idle | Watching(counter, last)`, advanced by `Sample(pos)` once per
  frame. `SettleWatch.Run` feeds it a whole sequence of frames.
- The null dereference at `ARSessionManager.cs:116` is modelled as an error
  path: `ok == false`. It happens when an evaluation of a list that does
  not hold exactly one image finds no distance below the sentinel (an empty
  list, for instance, or distances that are all infinite) while an
  authority is held. The authority is then null and no event is delivered.

Behaviour of the code that the model keeps:

- The tracked-image list is ordered. Duplicates are kept and order decides ties.
- A removal never touches the authoritative handle, which can therefore
  name an image that is no longer in the list. An evaluation over an empty
  list while such a handle is held is the error path above.
- A newly added image is made authoritative immediately, without measuring distances.
- Two additions in one report both instantiate an augment. Only the
  `OnAugmentInstantiated` callback sets the back-reference.
- Deactivation clears the manager's state. It does not cancel the
  augment's settle watch.
- After a cancelled watch the content is re-attached with world-pose
  carry-over. It is first moved to the target's pose and then re-parented
  keeping world pose, not local pose.
- The settle test compares positions by equality. The code tests
  `Vector3.Distance(...) == 0`.

## Model

| member | source | states |
|---|---|---|
| `Selection.FirstMin` | Assets/Scripts/ARSessionManager.cs:143-155 | the index returned is the first position holding the smallest distance below `float.MaxValue` (every earlier distance strictly larger, every later one no smaller); no index exactly when every distance reaches the sentinel |
| `Selection.ScanDistanceMin` | Assets/Scripts/ARSessionManager.cs:143-155 | the loop that keeps an image only when its distance is strictly below the running minimum ends with the image at `FirstMin` (the first nearest one), and with none exactly when no distance is below the sentinel; it measures every image of the list, in order |
| `Selection.Selected` | Assets/Scripts/ARSessionManager.cs:136-160 | with exactly one image that image is chosen whatever its distance; otherwise the first-minimum image, or none when no distance is below the sentinel |
| `Selection.AnnounceLast` | Assets/Scripts/ARSessionManager.cs:108-117 | after n assignments the authority is the image of the last event raised, or the starting authority when none was raised |
| `Selection.AnnounceKeepsLastEvent` | Assets/Scripts/ARSessionManager.cs:108-117 | if the log ended with the announcement of the starting authority, after n assignments it ends with the announcement of the current authority (an authority never changes silently) |
| `Selection.AnnounceNeverRepeats` | Assets/Scripts/ARSessionManager.cs:108-117 | no event re-announces the authority it replaces: the first event differs from the starting authority and consecutive events name different images |
| `Selection.StableSelectionAnnouncesOnce` | Assets/Scripts/ARSessionManager.cs:108-117 | re-selecting the same image any number of times raises one event if it was not authoritative, none if it was |
| `Selection.AnnounceFromCandidates` | Assets/Scripts/ARSessionManager.cs:108-117 | every event names an image that was assigned and carries that image's own reference name |
| `Selection.RemoveFirst` | Assets/Scripts/ARSessionManager.cs:92 | removing an absent image leaves the list unchanged; a present one shortens it by exactly one |
| `Selection.RemoveFirstAt` | Assets/Scripts/ARSessionManager.cs:92 | removal cuts out exactly the first occurrence and keeps the order of the rest |
| `Selection.RemoveFirstMultiset` | Assets/Scripts/ARSessionManager.cs:92 | removal takes away one copy of the image when present and keeps every other element |
| `Selection.RemoveEachMultiset` | Assets/Scripts/ARSessionManager.cs:90-93 | a report's removals delete one occurrence per reported image that is present, and nothing else |
| `SessionManagerModel.SessionManager.constructor` | Assets/Scripts/ARSessionManager.cs:20-22 | a new manager tracks nothing, holds no authority and no augment, and has raised nothing |
| `SessionManagerModel.SessionManager.OnSetActive` | Assets/Scripts/ARSessionManager.cs:55-75 | a null command negates the active flag, true and false force it; switching off empties the list and nulls the authority and the augment reference, switching on clears nothing; no event is raised |
| `SessionManagerModel.SessionManager.Clear` | Assets/Scripts/ARSessionManager.cs:77-82 | the list is empty and both references are null; nothing else changes |
| `SessionManagerModel.SessionManager.UpdateTrackedImageDistanceMin` | Assets/Scripts/ARSessionManager.cs:108-117 | the candidate becomes the authority; a different non-null candidate raises exactly one event with its name, the same one raises none; a null candidate replacing a held authority is the null-dereference error and raises nothing |
| `SessionManagerModel.SessionManager.AddTrackedImage` | Assets/Scripts/ARSessionManager.cs:96-106 | an augment is instantiated under the image only when no augment reference is held; the image is appended (duplicates kept) and becomes authoritative at once, announced only if it differs from the current authority |
| `SessionManagerModel.SessionManager.OnTrackedImagesChanged` | Assets/Scripts/ARSessionManager.cs:84-94 | all additions are processed before removals: the list becomes the old list plus the added images with each removal applied in turn; the authority is the last added image (unchanged when none) and removals never touch it; the events are those of assigning each added image in turn; an augment is instantiated under every added image exactly when no augment reference is held; the latest event still announces the authority |
| `SessionManagerModel.SessionManager.AddTrackedImages` | Assets/Scripts/ARSessionManager.cs:86-89 | the addition loop: the added images are appended in order, each one becomes authoritative in turn and is announced when it differs from the authority it replaces |
| `SessionManagerModel.SessionManager.RemoveTrackedImages` | Assets/Scripts/ARSessionManager.cs:90-93 | the removal loop: each reported image loses its first occurrence in the list, in report order, and absent ones change nothing |
| `SessionManagerModel.SessionManager.OnAugmentInstantiated` | Assets/Scripts/ARSessionManager.cs:119-124 | the augment reference is set to the reported augment and nothing else changes |
| `SessionManagerModel.SessionManager.Update` | Assets/Scripts/ARSessionManager.cs:126-134 | while inactive nothing changes; while active the authority becomes the selected image, with the event and error rules of the evaluation |
| `SessionManagerModel.SessionManager.FindTrackedImageDistanceMin` | Assets/Scripts/ARSessionManager.cs:136-161 | the authority becomes `Selected(images, dist)`; no distance is measured when there is one image and every image is measured otherwise; one event only when the selection differs from the old authority |
| `SettleWatch.Step` | Assets/Scripts/Augment.cs:76-88 | a sample fires the watch exactly when it equals the previous sample and two equal comparisons preceded it; firing or an idle watch leaves it idle; otherwise the running watch keeps the new sample, and its counter goes up by one on an equal sample and back to 0 on a different one, never exceeding 2 |
| `SettleWatch.IdleNeverFires` | Assets/Scripts/Augment.cs:45-48 | a cancelled or finished watch never fires, whatever positions follow |
| `SettleWatch.FiresAtMostOnce` | Assets/Scripts/Augment.cs:81-88 | a watch fires at most once over any sequence of frames |
| `SettleWatch.FiredWatchEndsIdle` | Assets/Scripts/Augment.cs:86-88 | a watch that has fired is over: it ends idle |
| `SettleWatch.StreakSettled` | Assets/Scripts/Augment.cs:80-81 | three trailing equal comparisons are the same thing as four identical trailing positions |
| `SettleWatch.StepTracksStreak` | Assets/Scripts/Augment.cs:76-84 | when the counter is the number of trailing equal comparisons of the positions seen, one sample fires exactly when it completes four identical positions, and otherwise the counter becomes the trailing-streak count of the extended history |
| `SettleWatch.RunTracksHistory` | Assets/Scripts/Augment.cs:76-84 | a watch whose counter is the trailing streak of the positions seen so far fires exactly when some later sample completes four identical positions |
| `SettleWatch.FiresExactlyWhenSettled` | Assets/Scripts/Augment.cs:72-89 | a watch started at position p fires once if the samples ever bring four identical positions in a row counting p, and never otherwise |
| `SettleWatch.FiresOnFirstSettledSample` | Assets/Scripts/Augment.cs:72-89 | the watch fires on the very sample that first completes four identical positions, not before |
| `SettleWatch.NoFireWithinTwoSamples` | Assets/Scripts/Augment.cs:74-81 | a freshly started (or restarted) watch cannot fire within its first two samples |
| `SettleWatch.ThreeStillFramesDetach` | Assets/Scripts/Augment.cs:74-88 | three samples equal to the start position fire the watch on the third and it never fires again |
| `Placement.FindAnchor` | Assets/Scripts/Augment.cs:31-40 | the index found is the first anchor whose name equals the reported name; none exactly when no anchor has that name |
| `Placement.ParentAfterAppend` | Assets/Scripts/Augment.cs:43-89 | replaying the transform log in two parts gives the same parent as replaying it whole |
| `Placement.PlacementOps` | Assets/Scripts/Augment.cs:43-65 | a placement leaves the content under the target; its first operation moves the content under the origin exactly when a watch was cancelled; the wrapper is aligned next, to the anchor; then, when the content sits under the origin, its world pose is set to the target's and kept by the final re-parent, otherwise the final re-parent keeps local pose; nothing else re-parents the content in between, and the sequence has exactly these operations |
| `Placement.Augment.constructor` | Assets/Scripts/Augment.cs:4-12 | new content sits under the tracked image it was instantiated on, with no watch and no transform operation yet |
| `Placement.Augment.OnARTrackableDistanceMinSet` | Assets/Scripts/Augment.cs:29-41 | with no anchor of the reported name parent, watch and log are untouched; otherwise the placement operations for the first matching anchor are performed |
| `Placement.Augment.SetPlacement` | Assets/Scripts/Augment.cs:43-70 | the content ends under the new target; a watch is running afterwards exactly when the detach policy is set, starting with counter 0 at the current position; the logged operations are those of the placement |
| `Placement.Augment.Sample` | Assets/Scripts/Augment.cs:76-88 | one frame of the watch: on firing the content moves under the origin keeping its world pose and the watch is over; otherwise parent and log are unchanged |

## Left out

- Unity lifecycle and delegate wiring (`Awake`, `OnEnable`, `OnDisable`, `Start`, the `ARSessionAction` channels): replaced by explicit method calls on the model objects. `ARSessionAction` is not part of this model.
- The augment's `Start` callback that reports the instantiated augment is not linked to `instantiated`; `OnAugmentInstantiated` is called by the environment.
- Enabling and disabling of the tracked-image manager and its reference library (`ARSessionManager.cs:61-69`): they only gate the tracking subsystem, which is outside the model. The report handler itself is not gated by the active flag, and neither is the model's.
- Floating-point geometry: `Vector3.Distance` to the camera is the uninterpreted `dist` parameter; the wrapper pose is recorded as "inverse of this anchor pose" (`AlignWrapper`) without computing a quaternion inverse; the anchor-lands-on-target round trip is a floating-point identity and is not stated.
- The settle comparison `Vector3.Distance(position, transform.position) == 0` is modelled as equality of positions; float underflow of very small differences and signed zeros are not modelled.
- Frame timing (`WaitForEndOfFrame`): each call of `Sample` is one frame-end resumption, and the caller supplies the world position the scene graph reports.
- The vertical lock in `Augment.Update` (Euler-angle contra-rotation): floating-point rotation arithmetic.
- Creating the augment object inside `Instantiate` (only the call and its parent are logged), the `OnValidate` assertions and the diagnostics log (`DebugOverlay.Log`): scene and editor plumbing with no effect on the modelled state.
- `SessionManagerModel.SessionManager.UpdateTrackedImageDistanceMin`: reports the null dereference whenever a null candidate replaces a held authority; the source throws only when some listener is subscribed, and otherwise clears the authority silently. The resulting authority and event log are the same in both cases.
- Assets/Scripts/DebugOverlay.cs (on-screen text, timestamps, a timed coroutine) and Assets/Scripts/UserInterface.cs (a button that sends the toggle command) are not part of this model.
