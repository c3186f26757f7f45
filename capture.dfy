/**
  The recording manager: an AR session delegate that rebuilds a scene from
  every frame's mesh anchors, and a two-state recorder that runs the session
  on start and pauses it and writes the scene to a file on stop.

  Framework objects are abstract values here: a transform is an opaque 4×4
  matrix, a buffer is a handle, the session is a log of the calls made on it,
  and writing the scene is an entry in that log.
 */
module Capture {
  import opened Paths

  // ---------------------------------------------------------------------
  // Frames and anchors, as the sensor framework delivers them
  // ---------------------------------------------------------------------

  /** A 4×4 anchor or node transform. Its entries are carried, never computed with. */
  datatype Transform = Transform(entries: seq<real>)

  /** A Metal buffer owned by the sensor framework, known only by identity. */
  datatype BufferHandle = BufferHandle(id: nat)

  /** Per-vertex data: a buffer holding `count` records `stride` bytes apart. */
  datatype SourceBuffer = SourceBuffer(buffer: BufferHandle, count: nat, stride: nat)

  /** The faces of a mesh: `count` triangles whose indices are `bytesPerIndex` wide. */
  datatype FaceBuffer = FaceBuffer(buffer: BufferHandle, count: nat, bytesPerIndex: nat)

  datatype MeshGeometry = MeshGeometry(vertices: SourceBuffer, normals: SourceBuffer, faces: FaceBuffer)

  /** An anchor of a frame: a mesh fragment, or any other kind of anchor. */
  datatype Anchor =
    | Mesh(identifier: nat, transform: Transform, geometry: MeshGeometry)
    | Other

  datatype Frame = Frame(anchors: seq<Anchor>)

  // ---------------------------------------------------------------------
  // Scene geometry descriptors
  // ---------------------------------------------------------------------

  datatype VertexFormat = Float3
  datatype Semantic = VertexSemantic | NormalSemantic
  datatype PrimitiveType = Triangles

  /** A geometry source reading `vertexCount` records `dataStride` apart from `dataOffset`. */
  datatype GeometrySource = GeometrySource(
    buffer: BufferHandle, vertexFormat: VertexFormat, semantic: Semantic,
    vertexCount: nat, dataOffset: nat, dataStride: nat)

  /** The first `byteCount` bytes of a buffer, viewed without copying. */
  datatype IndexData = IndexData(buffer: BufferHandle, byteCount: nat)

  datatype GeometryElement = GeometryElement(
    data: IndexData, primitiveType: PrimitiveType, primitiveCount: nat, bytesPerIndex: nat)

  datatype Geometry = Geometry(sources: seq<GeometrySource>, elements: seq<GeometryElement>)

  /** A child node of the scene's root: a geometry placed by a transform. */
  datatype Node = Node(geometry: Geometry, transform: Transform)

  /** A triangle element whose index data holds exactly three indices per primitive. */
  predicate ConsistentTriangles(e: GeometryElement)
  {
    e.primitiveType == Triangles && e.data.byteCount == e.primitiveCount * 3 * e.bytesPerIndex
  }

  /**
    `createGeometry(from:)`: a vertex source and a normal source over the
    anchor's own buffers, and one triangle element over the face buffer. The
    index count is `faces.count * 3` and the primitive count is that divided
    by three again.
   */
  function CreateGeometry(mesh: MeshGeometry): (g: Geometry)
    ensures |g.sources| == 2 && |g.elements| == 1
    ensures g.sources[0] == GeometrySource(mesh.vertices.buffer, Float3, VertexSemantic,
                                           mesh.vertices.count, 0, mesh.vertices.stride)
    ensures g.sources[1] == GeometrySource(mesh.normals.buffer, Float3, NormalSemantic,
                                           mesh.normals.count, 0, mesh.normals.stride)
    ensures g.elements[0].primitiveCount == mesh.faces.count
    ensures g.elements[0].bytesPerIndex == mesh.faces.bytesPerIndex
    ensures g.elements[0].data.buffer == mesh.faces.buffer
    ensures ConsistentTriangles(g.elements[0])
  {
    var vertexSource := GeometrySource(mesh.vertices.buffer, Float3, VertexSemantic,
                                       mesh.vertices.count, 0, mesh.vertices.stride);
    var normalSource := GeometrySource(mesh.normals.buffer, Float3, NormalSemantic,
                                       mesh.normals.count, 0, mesh.normals.stride);
    var indexCount := mesh.faces.count * 3;
    var bytesPerIndex := mesh.faces.bytesPerIndex;
    var indexData := IndexData(mesh.faces.buffer, indexCount * bytesPerIndex);
    var element := GeometryElement(indexData, Triangles, indexCount / 3, bytesPerIndex);
    Geometry([vertexSource, normalSource], [element])
  }

  /** The node `updateScene` adds for a mesh anchor. */
  function NodeFor(anchor: Anchor): (node: Node)
    requires anchor.Mesh?
    ensures node.transform == anchor.transform
    ensures |node.geometry.sources| == 2 && |node.geometry.elements| == 1
    ensures node.geometry.sources[0].buffer == anchor.geometry.vertices.buffer
    ensures node.geometry.sources[1].buffer == anchor.geometry.normals.buffer
    ensures node.geometry.elements[0].data.buffer == anchor.geometry.faces.buffer
    ensures node.geometry.elements[0].primitiveCount == anchor.geometry.faces.count
    ensures ConsistentTriangles(node.geometry.elements[0])
  {
    Node(CreateGeometry(anchor.geometry), anchor.transform)
  }

  // ---------------------------------------------------------------------
  // The scene a frame yields
  // ---------------------------------------------------------------------

  /** The mesh anchors of a list of anchors, in their order; every other anchor is dropped. */
  function MeshAnchors(anchors: seq<Anchor>): (meshes: seq<Anchor>)
    ensures |meshes| <= |anchors|
    ensures forall k :: 0 <= k < |meshes| ==> meshes[k].Mesh?
  {
    if anchors == [] then []
    else
      var last := anchors[|anchors| - 1];
      MeshAnchors(anchors[..|anchors| - 1]) + if last.Mesh? then [last] else []
  }

  /** The children of the root after rebuilding from `anchors`: one node per mesh anchor, in order. */
  function SceneFor(anchors: seq<Anchor>): (nodes: seq<Node>)
    ensures |nodes| == |MeshAnchors(anchors)|
  {
    if anchors == [] then []
    else
      var last := anchors[|anchors| - 1];
      SceneFor(anchors[..|anchors| - 1]) + if last.Mesh? then [NodeFor(last)] else []
  }

  /** Adding one anchor at the end adds it to the mesh anchors exactly when it is a mesh anchor. */
  lemma MeshAnchorsOfAppended(init: seq<Anchor>, last: Anchor)
    ensures MeshAnchors(init + [last]) == MeshAnchors(init) + if last.Mesh? then [last] else []
  {
  }

  /** Filtering the mesh anchors keeps their relative order: it distributes over concatenation. */
  lemma {:induction false} MeshAnchorsOfConcatenation(front: seq<Anchor>, back: seq<Anchor>)
    ensures MeshAnchors(front + back) == MeshAnchors(front) + MeshAnchors(back)
    decreases |back|
  {
    if back == [] {
      assert front + back == front;
    } else {
      var init, last := back[..|back| - 1], back[|back| - 1];
      assert back == init + [last];
      assert front + back == (front + init) + [last];
      MeshAnchorsOfAppended(front + init, last);
      MeshAnchorsOfAppended(init, last);
      MeshAnchorsOfConcatenation(front, init);
    }
  }

  /** Each mesh anchor is kept as often as it occurs; no other anchor is kept. */
  lemma {:induction false} MeshAnchorsCounts(anchors: seq<Anchor>, a: Anchor)
    ensures multiset(MeshAnchors(anchors))[a] == if a.Mesh? then multiset(anchors)[a] else 0
  {
    if anchors != [] {
      var init, last := anchors[..|anchors| - 1], anchors[|anchors| - 1];
      assert anchors == init + [last];
      MeshAnchorsCounts(init, a);
    }
  }

  /**
    The rebuilt scene corresponds one to one, in order, to the frame's mesh
    anchors: node k carries the geometry built from mesh anchor k and that
    anchor's transform.
   */
  lemma {:induction false} SceneMatchesMeshAnchors(anchors: seq<Anchor>)
    ensures |SceneFor(anchors)| == |MeshAnchors(anchors)|
    ensures forall k :: 0 <= k < |SceneFor(anchors)| ==>
              MeshAnchors(anchors)[k].Mesh? &&
              SceneFor(anchors)[k].transform == MeshAnchors(anchors)[k].transform &&
              SceneFor(anchors)[k].geometry == CreateGeometry(MeshAnchors(anchors)[k].geometry)
  {
    if anchors != [] {
      SceneMatchesMeshAnchors(anchors[..|anchors| - 1]);
    }
  }

  /** A frame without mesh anchors empties the scene. */
  lemma {:induction false} NoMeshAnchorsNoNodes(anchors: seq<Anchor>)
    requires forall k :: 0 <= k < |anchors| ==> !anchors[k].Mesh?
    ensures SceneFor(anchors) == []
  {
    if anchors != [] {
      NoMeshAnchorsNoNodes(anchors[..|anchors| - 1]);
    }
  }

  // ---------------------------------------------------------------------
  // The AR session, as the calls made on it
  // ---------------------------------------------------------------------

  datatype PlaneDetection = Horizontal | Vertical
  datatype SceneReconstruction = NoReconstruction | MeshReconstruction
  datatype WorldTrackingConfiguration = WorldTrackingConfiguration(
    planeDetection: seq<PlaneDetection>, sceneReconstruction: SceneReconstruction)
  datatype RunOption = ResetTracking | RemoveExistingAnchors

  /** One call on the session, or one scene write started. */
  datatype SessionAction =
    | Run(configuration: WorldTrackingConfiguration, options: seq<RunOption>)
    | Pause
    | Save(target: string, nodes: seq<Node>)

  /**
    The session run `startRecording` issues: world tracking with plane
    detection in both orientations, mesh reconstruction only when the device
    supports it, tracking reset and existing anchors removed.
   */
  function RecordingRun(supportsMeshReconstruction: bool): SessionAction
  {
    Run(WorldTrackingConfiguration([Horizontal, Vertical],
                                   if supportsMeshReconstruction then MeshReconstruction else NoReconstruction),
        [ResetTracking, RemoveExistingAnchors])
  }

  const RecordingFileName: string := "lidarRecording.scn"

  /** Where `saveSceneToFile` writes: a fixed file name in the documents directory. */
  function SaveTarget(documentsDirectory: string): (path: string)
    ensures LastPathComponent(path) == RecordingFileName
    ensures documentsDirectory <= path
    ensures |path| == |documentsDirectory| + SeparatorLength(documentsDirectory) + |RecordingFileName|
  {
    LastComponentOfAppended(documentsDirectory, RecordingFileName);
    AppendingPathComponent(documentsDirectory, RecordingFileName)
  }

  /**
    The shape of a session log that start and stop produce: complete
    recordings (run, pause, save), followed by one open run exactly when
    recording.
   */
  predicate SessionLog(log: seq<SessionAction>, recording: bool)
    decreases |log|
  {
    if recording then
      |log| >= 1 && log[|log| - 1].Run? && SessionLog(log[..|log| - 1], false)
    else
      log == [] ||
      (|log| >= 3 && log[|log| - 3].Run? && log[|log| - 2].Pause? && log[|log| - 1].Save? &&
       SessionLog(log[..|log| - 3], false))
  }

  function CountRuns(log: seq<SessionAction>): nat
  {
    if log == [] then 0 else CountRuns(log[..|log| - 1]) + if log[|log| - 1].Run? then 1 else 0
  }

  function CountPauses(log: seq<SessionAction>): nat
  {
    if log == [] then 0 else CountPauses(log[..|log| - 1]) + if log[|log| - 1].Pause? then 1 else 0
  }

  /** Every run is matched by a pause, except the open one while recording. */
  lemma {:induction false} RunsMatchPauses(log: seq<SessionAction>, recording: bool)
    requires SessionLog(log, recording)
    ensures CountRuns(log) == CountPauses(log) + if recording then 1 else 0
    decreases |log|
  {
    if recording {
      RunsMatchPauses(log[..|log| - 1], false);
    } else if log != [] {
      var n := |log|;
      RunsMatchPauses(log[..n - 3], false);
      assert log[..n - 1][..n - 2] == log[..n - 2];
      assert log[..n - 2][..n - 3] == log[..n - 3];
      assert CountRuns(log) == CountRuns(log[..n - 1]) == CountRuns(log[..n - 2])
                            == CountRuns(log[..n - 3]) + 1;
      assert CountPauses(log) == CountPauses(log[..n - 1]) == CountPauses(log[..n - 2]) + 1
                              == CountPauses(log[..n - 3]) + 1;
    }
  }

  /** A scene is only ever written right after the session was paused. */
  lemma {:induction false} SaveFollowsPause(log: seq<SessionAction>, recording: bool, i: nat)
    requires SessionLog(log, recording)
    requires i < |log| && log[i].Save?
    ensures i >= 1 && log[i - 1].Pause?
    decreases |log|
  {
    if recording {
      SaveFollowsPause(log[..|log| - 1], false, i);
    } else if i < |log| - 3 {
      SaveFollowsPause(log[..|log| - 3], false, i);
    }
  }

  /** Starting from idle opens a run. */
  lemma OpenRun(log: seq<SessionAction>, run: SessionAction)
    requires SessionLog(log, false) && run.Run?
    ensures SessionLog(log + [run], true)
  {
  }

  /** Stopping a recording closes the open run with a pause and a save. */
  lemma CloseRun(log: seq<SessionAction>, save: SessionAction)
    requires SessionLog(log, true) && save.Save?
    ensures SessionLog(log + [Pause, save], false)
  {
    assert (log + [Pause, save])[..|log| - 1] == log[..|log| - 1];
  }

  /** Every scene write in the log goes to `target`. */
  predicate SavesTo(log: seq<SessionAction>, target: string)
  {
    forall i :: 0 <= i < |log| && log[i].Save? ==> log[i].target == target
  }

  /** Appending actions that write only to `target` keeps every write going to `target`. */
  lemma SavesToAppended(log: seq<SessionAction>, more: seq<SessionAction>, target: string)
    requires SavesTo(log, target) && SavesTo(more, target)
    ensures SavesTo(log + more, target)
  {
  }

  /** The state can be read off the log: recording exactly when the last action is a run. */
  lemma LastActionShowsState(log: seq<SessionAction>, recording: bool)
    requires SessionLog(log, recording)
    ensures recording <==> (log != [] && log[|log| - 1].Run?)
  {
  }

  // ---------------------------------------------------------------------
  // The manager
  // ---------------------------------------------------------------------

  class RecordingManager {
    /** The app's documents directory, looked up once from the file manager. */
    const documentsDirectory: string
    var isRecording: bool
    /** The child nodes of the scene's root node, in order. */
    var nodes: seq<Node>
    /** Every call made on the AR session and every scene write, oldest first. */
    var log: seq<SessionAction>

    ghost predicate Valid()
      reads this
    {
      && SessionLog(log, isRecording)
      && SavesTo(log, SaveTarget(documentsDirectory))
    }

    /** `init()`: an idle manager with an empty scene and a session that was never run. */
    constructor (documentsDirectory: string)
      ensures Valid()
      ensures this.documentsDirectory == documentsDirectory
      ensures !isRecording && nodes == [] && log == []
    {
      this.documentsDirectory := documentsDirectory;
      isRecording := false;
      nodes := [];
      log := [];
    }

    /**
      `startRecording()`: from idle, become recording and run the session with
      world tracking, plane detection in both orientations, mesh reconstruction
      when the device supports it, tracking reset and old anchors removed.
      While recording it does nothing.
     */
    method StartRecording(supportsMeshReconstruction: bool)
      requires Valid()
      modifies this`isRecording, this`log
      ensures Valid()
      ensures isRecording
      ensures old(isRecording) ==> log == old(log)
      ensures !old(isRecording) ==> log == old(log) + [RecordingRun(supportsMeshReconstruction)]
    {
      if isRecording {
        return;
      }
      isRecording := true;
      var reconstruction := NoReconstruction;
      if supportsMeshReconstruction {
        reconstruction := MeshReconstruction;
      }
      var configuration := WorldTrackingConfiguration([Horizontal, Vertical], reconstruction);
      var run := Run(configuration, [ResetTracking, RemoveExistingAnchors]);
      assert run == RecordingRun(supportsMeshReconstruction);
      OpenRun(log, run);
      SavesToAppended(log, [run], SaveTarget(documentsDirectory));
      log := log + [run];
    }

    /**
      `stopAndSaveRecording()`: from recording, become idle, pause the session
      and then write the current scene to the fixed target. While idle it does
      nothing.
     */
    method StopAndSaveRecording()
      requires Valid()
      modifies this`isRecording, this`log
      ensures Valid()
      ensures !isRecording
      ensures old(isRecording) ==> log == old(log) + [Pause, Save(SaveTarget(documentsDirectory), nodes)]
      ensures !old(isRecording) ==> log == old(log)
    {
      if !isRecording {
        return;
      }
      var save := Save(SaveTarget(documentsDirectory), nodes);
      CloseRun(log, save);
      SavesToAppended(log, [Pause, save], SaveTarget(documentsDirectory));
      isRecording := false;
      log := log + [Pause];
      SaveSceneToFile();
      assert log == old(log) + [Pause, Save(SaveTarget(documentsDirectory), nodes)];
    }

    /** `saveSceneToFile()`: start writing the scene to the documents directory's recording file. */
    method SaveSceneToFile()
      modifies this`log
      ensures log == old(log) + [Save(SaveTarget(documentsDirectory), nodes)]
    {
      log := log + [Save(SaveTarget(documentsDirectory), nodes)];
    }

    /** `session(_:didUpdate:)`: every frame rebuilds the scene, recording or not. */
    method SessionDidUpdate(frame: Frame)
      requires Valid()
      modifies this`nodes
      ensures Valid()
      ensures nodes == SceneFor(frame.anchors)
    {
      UpdateScene(frame);
    }

    /**
      `updateScene(with:)`: remove every child of the root, then add one node
      per mesh anchor of the frame, in frame order, skipping other anchors.
     */
    method UpdateScene(frame: Frame)
      modifies this`nodes
      ensures nodes == SceneFor(frame.anchors)
    {
      nodes := [];
      var anchors := frame.anchors;
      var i := 0;
      while i < |anchors|
        invariant 0 <= i <= |anchors|
        invariant nodes == SceneFor(anchors[..i])
      {
        assert anchors[..i + 1][..i] == anchors[..i];
        var anchor := anchors[i];
        if anchor.Mesh? {
          var geometry := CreateGeometry(anchor.geometry);
          nodes := nodes + [Node(geometry, anchor.transform)];
        }
        i := i + 1;
      }
      assert anchors[..i] == anchors;
    }
  }

  /** Rebuilding twice from the same frame leaves the scene that one rebuild leaves. */
  method UpdateSceneIsIdempotent(manager: RecordingManager, frame: Frame)
    modifies manager`nodes
    ensures manager.nodes == SceneFor(frame.anchors)
  {
    manager.UpdateScene(frame);
    ghost var once := manager.nodes;
    manager.UpdateScene(frame);
    assert manager.nodes == once;
  }

  /**
    A second start while recording adds nothing: two starts leave the log that
    one start leaves, the earlier entries kept and at most one run added.
   */
  method StartTwiceRunsOnce(manager: RecordingManager, supportsMeshReconstruction: bool)
    requires manager.Valid()
    modifies manager`isRecording, manager`log
    ensures manager.Valid() && manager.isRecording
    ensures old(manager.isRecording) ==> manager.log == old(manager.log)
    ensures !old(manager.isRecording) ==>
              manager.log == old(manager.log) + [RecordingRun(supportsMeshReconstruction)]
  {
    manager.StartRecording(supportsMeshReconstruction);
    manager.StartRecording(supportsMeshReconstruction);
  }
}
