# LiDar recorder and recordings catalog, modelled in Dafny

The LiDar app scans a room with the depth sensor and keeps a catalog of saved
scans. Its logic lives in two classes, and this project models both.

- `RecordingManager` is the AR session delegate. Its scene is rebuilt from
  scratch on every frame: every child node is removed, then one node is added
  per mesh anchor of the frame. Each node's geometry comes from the anchor's
  vertex, normal and face buffers. The manager is also a two-state recorder:
  `startRecording` runs the session, and `stopAndSaveRecording` pauses it and
  writes the scene to `lidarRecording.scn` in the documents directory.
- `RecordingsViewModel` holds the list of recordings, a loading flag and an
  error message. It rebuilds the list from a listing of the `recordings`
  directory, deletes entries by position, and has a do-nothing export.

Modules: one per source file (`Capture` and `Catalog`), plus three helpers (`Wrappers`, `Paths` and `Storage`):

- `Wrappers` (`wrappers.dfy`): `Option` and `Result`.
- `Paths` (`paths.dfy`): appending a path component, taking the last
  component, and dropping the extension, on plain strings.
- `Capture` (`capture.dfy`): anchors, frames and geometry descriptors as
  datatypes. `CreateGeometry` is a function.
  - The scene a frame yields is specified by `SceneFor` and `MeshAnchors`.
  - The class `RecordingManager` has the fields `isRecording` and `nodes` (the
    root node's children), plus `log`, which lists every session call and
    scene write.
  - Its invariant `Valid` says the log is a run of complete recordings
    (run, pause, save), followed by one open run exactly while recording.
    It also says every save goes to the same target.
- `Catalog` (`catalog.dfy`): `Recording` as a datatype, the background
  mapping from a listing to recordings as functions, and removal by position.
  The class `RecordingsViewModel` has the fields `recordings`, `isLoading` and
  `errorMessage`.
- `Storage` (`storage.dfy`): relates the recorder's save target to the
  directory the catalog lists.

How things outside the program appear:

- The directory listing is an input `Result<seq<string>, ListingError>`.
- Each file's `UUID()` and `Date()` are inputs, one per listed file.
- The background and main-queue hops of `loadRecordings` are two calls:
  `LoadRecordings` raises the flag, and `CompleteLoad` is the block sent back.
- The session is a log. `supportsSceneReconstruction(.mesh)` is a parameter
  of `StartRecording`. The documents directory is a parameter of the manager's
  constructor.
- Transforms are opaque values, and buffers are handles.

Behaviour the code does not have, and so the model does not have either:

- The scene rebuild is not gated on `isRecording`. Every frame rebuilds it
  (`LiDar/RecordingManager.swift:37-39`).
- There is no per-fragment add/update/remove tracking and no geometry
  decoding. `createGeometry` only wraps the anchor's buffers.
- Deleting a recording never touches its file. Timestamps are the time of
  loading, not of capture.
- The recorder writes into the documents directory itself, but the catalog
  lists the `recordings` directory inside it. `Storage.SavedSceneIsNotListed`
  proves that the file a stop writes is not inside the listed directory. Each save also
  overwrites the previous one, because the file name is fixed.

## Model

| member | source | states |
|---|---|---|
| `Paths.LastIndexOf` | LiDar/RecordingsViewModel.swift:31 | The position found holds the character and no later position does; there is no position exactly when the character does not occur |
| `Paths.LastPathComponent` | LiDar/RecordingsViewModel.swift:31 | The result is the longest suffix of the path without a '/': it is either the whole path or it follows a '/' |
| `Paths.DeletingPathExtension` | LiDar/RecordingsViewModel.swift:31 | The result is a prefix of the name; it is the whole name without a '.', otherwise the name is cut at its last '.' |
| `Paths.AppendingPathComponent` | LiDar/RecordingManager.swift:90 | The directory is a prefix of the result, and the component ends the result right after a '/'. Nothing else lies between them: no separator when the directory already ends in '/', exactly one otherwise |
| `Paths.LastComponentOfAppended` | LiDar/RecordingManager.swift:90 | Appending a component without '/' makes it the last path component |
| `Paths.Stem` | LiDar/RecordingsViewModel.swift:31 | The display name has no '/'. It is a prefix of the file's last component: the whole component when that has no '.', otherwise the part before its last '.' |
| `Paths.StemOfFileWithExtension` | LiDar/RecordingsViewModel.swift:31 | A file `base.ext` in any directory is named `base` |
| `Paths.StemOfFileWithoutExtension` | LiDar/RecordingsViewModel.swift:31 | A file without a '.' keeps its whole name |
| `Capture.CreateGeometry` | LiDar/RecordingManager.swift:54-86 | Exactly two sources, the vertex source then the normal source, each over its own buffer, with that buffer's count and stride, in float3 format at offset 0. Exactly one triangles element over the face buffer, whose primitive count is the face count and whose index data is face count × 3 × bytes per index long |
| `Capture.NodeFor` | LiDar/RecordingManager.swift:47-49 | The node for a mesh anchor has the anchor's transform, and its geometry has two sources over the anchor's vertex and normal buffers and one triangles element over its face buffer, with one primitive per face |
| `Capture.SceneFor` | LiDar/RecordingManager.swift:41-52 | The scene a frame yields has exactly one node per mesh anchor of the frame |
| `Capture.MeshAnchors` | LiDar/RecordingManager.swift:45-46 | Every anchor that remains is a mesh anchor, and the result is no longer than the frame's anchor list |
| `Capture.MeshAnchorsCounts` | LiDar/RecordingManager.swift:45-46 | Each mesh anchor remains as often as it occurs in the frame, and no other anchor remains |
| `Capture.MeshAnchorsOfConcatenation` | LiDar/RecordingManager.swift:45-46 | Skipping non-mesh anchors keeps frame order: it distributes over concatenation |
| `Capture.SceneMatchesMeshAnchors` | LiDar/RecordingManager.swift:43-51 | The rebuilt scene has one node per mesh anchor, in frame order; node k carries mesh anchor k's transform and the geometry built from its buffers |
| `Capture.NoMeshAnchorsNoNodes` | LiDar/RecordingManager.swift:43-51 | A frame with no mesh anchor leaves the scene empty, whatever it held before |
| `Capture.SaveTarget` | LiDar/RecordingManager.swift:89-90 | The save target is `lidarRecording.scn` directly in the documents directory: the directory, at most one separator, then that name |
| `Capture.OpenRun` | LiDar/RecordingManager.swift:16-24 | A run logged from idle turns a well-formed idle log into a well-formed recording log |
| `Capture.CloseRun` | LiDar/RecordingManager.swift:28-33 | A pause and then a save logged while recording turn a well-formed recording log into a well-formed idle log |
| `Capture.RunsMatchPauses` | LiDar/RecordingManager.swift:15-34 | In any log that start and stop produce, the runs number the pauses plus one while recording, and equal them while idle |
| `Capture.SaveFollowsPause` | LiDar/RecordingManager.swift:28-33 | Every scene write in such a log comes right after a pause |
| `Capture.LastActionShowsState` | LiDar/RecordingManager.swift:15-34 | The manager is recording exactly when the last logged action is a run |
| `Capture.RecordingManager.constructor` | LiDar/RecordingManager.swift:5-13 | A new manager is idle, its scene is empty and no session call has been made |
| `Capture.RecordingManager.StartRecording` | LiDar/RecordingManager.swift:15-25 | Afterwards it is recording. From idle, exactly one run is logged, with plane detection [horizontal, vertical], mesh reconstruction only when supported, and options [resetTracking, removeExistingAnchors]. While recording, nothing is logged. The scene is untouched and the log invariant holds |
| `Capture.RecordingManager.StopAndSaveRecording` | LiDar/RecordingManager.swift:27-34 | Afterwards it is idle. From recording, exactly a pause and then a save of the current scene to the fixed target are logged. While idle, nothing is logged. The log invariant holds |
| `Capture.RecordingManager.SaveSceneToFile` | LiDar/RecordingManager.swift:88-99 | Logs one write of the current scene to the fixed target, and nothing else |
| `Capture.RecordingManager.SessionDidUpdate` | LiDar/RecordingManager.swift:37-39 | Every frame rebuilds the scene from that frame, whether or not recording; state and log are untouched |
| `Capture.RecordingManager.UpdateScene` | LiDar/RecordingManager.swift:41-52 | After clearing the children and looping over the anchors, the scene is the one the frame yields, independent of the old scene |
| `Capture.UpdateSceneIsIdempotent` | LiDar/RecordingManager.swift:41-52 | Rebuilding twice from one frame gives the scene one rebuild gives |
| `Capture.StartTwiceRunsOnce` | LiDar/RecordingManager.swift:15-25 | Two starts leave the log one start leaves: from idle the old log plus exactly the configured run, while recording the old log unchanged. The manager ends up recording and the invariant holds |
| `Catalog.RecordingsDirectory` | LiDar/RecordingsViewModel.swift:23-24 | The listed directory is `recordings` directly in the documents directory: the directory, at most one separator, then that name |
| `Catalog.LoadedRecordings` | LiDar/RecordingsViewModel.swift:29-34 | One recording per listed file, in listing order; recording k is named by file k's stem, points at file k's full path, and carries the k-th fresh identifier and date |
| `Catalog.RecordingFor` | LiDar/RecordingsViewModel.swift:29-34 | The recording for a file carries the given identifier and date, points at the file's full path, and is named by the file's stem, which has no '/' |
| `Catalog.ScanRecordings` | LiDar/RecordingsViewModel.swift:26-45 | The background block yields recordings exactly when the listing succeeds, and they are the mapped listing |
| `Catalog.RemoveAt` | LiDar/RecordingsViewModel.swift:54 | `remove(at:)` shortens the list by one; entries before the index stay and entries after it move down by one |
| `Catalog.Without` | LiDar/RecordingsViewModel.swift:48-57 | The list without the entries at the given positions is never longer than the list, and dropping no position keeps it whole |
| `Catalog.WithoutOne` | LiDar/RecordingsViewModel.swift:48-55 | Dropping one in-range position removes exactly that entry and keeps the rest in order |
| `Catalog.WithoutKeepsTheRest` | LiDar/RecordingsViewModel.swift:48-57 | Every entry at an undropped position survives, and nothing survives that was not in the list |
| `Catalog.RemoveBeforeDropped` | LiDar/RecordingsViewModel.swift:49-55 | Removing position j after dropping only later positions is the same as also dropping j |
| `Catalog.WithoutAscendingLength` | LiDar/RecordingsViewModel.swift:48-57 | Dropping n distinct in-range positions shortens the list by n |
| `Catalog.RemoveInAscendingOrder` | LiDar/RecordingsViewModel.swift:49-55 | The deletion as written, with removals in ascending order on the shrinking list: when nothing traps, the list shrinks by the number of indices |
| `Catalog.WithoutAfterRemoveAt` | LiDar/RecordingsViewModel.swift:49-55 | Removing position j and then dropping positions at or after j drops j and each of those positions one higher |
| `Catalog.AscendingRemovalHitsShifted` | LiDar/RecordingsViewModel.swift:49-55 | For every ascending index set, the deletion as written traps exactly when some k-th index is at least the list length minus k. Otherwise it drops the entries at the original positions `indices[k] + k`, not those at `indices[k]` |
| `Catalog.AscendingRemovalDropsWrongEntry` | LiDar/RecordingsViewModel.swift:49-55 | As written, deleting {0, 1} from three entries keeps the second entry, where the third should remain |
| `Catalog.AscendingRemovalTraps` | LiDar/RecordingsViewModel.swift:49-55 | As written, deleting {1, 2} from three entries traps, although both indices were in range when read |
| `Catalog.SingleRemovalAgrees` | LiDar/RecordingsViewModel.swift:48-55 | For one index, the deletion as written and the corrected one give the same list |
| `Catalog.RecordingsViewModel.constructor` | LiDar/RecordingsViewModel.swift:10-17 | A new view model has an empty list and no error, and is loading, because `init` starts the first load |
| `Catalog.RecordingsViewModel.LoadRecordings` | LiDar/RecordingsViewModel.swift:19-21 | The first phase of a load raises the loading flag and changes nothing else |
| `Catalog.RecordingsViewModel.CompleteLoad` | LiDar/RecordingsViewModel.swift:26-45 | Loading ends either way. A successful listing replaces the list with the mapped files and keeps any earlier error message. A failed listing sets the error message to "Failed to load recordings" and keeps the list |
| `Catalog.RecordingsViewModel.DeleteRecording` | LiDar/RecordingsViewModel.swift:48-57 | Every index must be in range of the list as it stands. Afterwards, exactly the entries at those positions are gone, the others keep their order, and the list is shorter by the number of indices |
| `Catalog.RecordingsViewModel.ExportRecording` | LiDar/RecordingsViewModel.swift:59-63 | Export changes no state of the view model |
| `Catalog.DeleteOneRecording` | LiDar/RecordingsViewModel.swift:48-57 | Deleting one in-range index removes exactly that entry and shortens the list by one |
| `Storage.SavedSceneIsNotListed` | LiDar/RecordingManager.swift:89-90 | For every documents directory, the file a stop writes is not inside the `recordings` directory that `loadRecordings` lists |

## Left out

- ARKit and SceneKit internals are opaque: `ARSession.run` and `pause`, geometry sources and elements, vertex formats, and the 4×4 float transforms. The session is a log of calls, and a transform is carried but never computed with.
- `Data(bytesNoCopy:)` aliasing is left out. The index data is a view of a buffer handle and a byte count; aliasing and lifetime are not modelled.
- `SCNScene.write` is left out: the save is a logged action holding the scene's nodes. Its completion callback only prints, and the file format is not modelled.
- The file system is left out. The documents-directory lookup is a constructor parameter, and `contentsOfDirectory` is an input result.
- Concurrency is left out. The `DispatchQueue.global` and `DispatchQueue.main.async` hops are sequential calls.
  - So interleavings are not modelled: a second load, or a deferred removal landing after a reload.
- `UUID()` and `Date()` are left out. They are inputs, and their uniqueness and values are not modelled.
- `print` calls, `Identifiable`/`Codable` conformance and setting the session delegate are left out. They have no observable effect on the modelled state.
- `Paths.LastPathComponent`: only the simple rule is modelled. A trailing '/' gives an empty component, where Foundation skips it.
- `Paths.DeletingPathExtension`: only the simple rule is modelled. Hidden files such as `.scn` lose their whole name, where Foundation keeps it.
- `Capture.CreateGeometry`: Swift's trap on 64-bit overflow of `faces.count * 3 * bytesPerIndex` is not modelled, and integers are unbounded.
- `Catalog.RecordingsViewModel.DeleteRecording`: this is the corrected deletion (see Findings). It removes from the highest index down. The ascending order of the source is modelled by `Catalog.RemoveInAscendingOrder`.
- All SwiftUI views are left out: `ContentView`, `RecordingsListView`, `ScanRecorderView`, `RecordingDetailView`, `OnboardingView` and the app entry point. They are UI chrome with no logic beyond the above.

## Findings

| source | as written | input that shows it | evidently intended | confidence | as-written member | corrected member |
|---|---|---|---|---|---|---|
| LiDar/RecordingsViewModel.swift:49-55 | Each queued removal calls `remove(at:)` with the index as read, in ascending order, on a list that earlier removals have already shortened | Three recordings and the index set {0, 1} leave the second recording instead of the third. The index set {1, 2} traps on the second removal | Remove exactly the entries at the given positions, for any valid index set | not executed | `Catalog.RemoveInAscendingOrder` | `Catalog.RecordingsViewModel.DeleteRecording` |
