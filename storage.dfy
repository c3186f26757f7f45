/**
  Where the two halves of the app meet on disk: the recorder writes its scene
  into the documents directory itself, while the catalog lists the
  `recordings` directory inside it.
 */
module Storage {
  import Paths
  import Capture
  import Catalog

  /**
    The file a stop writes is not inside the directory a load lists, for any
    documents directory.
   */
  lemma {:induction false} SavedSceneIsNotListed(documentsDirectory: string)
    ensures !(Catalog.RecordingsDirectory(documentsDirectory) + "/" <= Capture.SaveTarget(documentsDirectory))
  {
    var listed := Catalog.RecordingsDirectory(documentsDirectory);
    var saved := Capture.SaveTarget(documentsDirectory);
    var at := |listed| - |Catalog.RecordingsFolder|;
    assert at == |saved| - |Capture.RecordingFileName|;
    assert listed[at] == Catalog.RecordingsFolder[0] == 'r';
    assert saved[at] == Capture.RecordingFileName[0] == 'l';
    assert (listed + "/")[at] == 'r';
  }
}
