/**
  The recordings catalog: the list of recordings shown to the user, a loading
  flag and an optional error message, rebuilt from a directory listing and
  shortened by deletions.

  The background listing is an input `Result`, each file's fresh identifier
  and timestamp are inputs, and the hops between the main queue and the
  background queue are two calls: `LoadRecordings` runs on the caller's queue,
  `CompleteLoad` is the block the background work sends back.
 */
module Catalog {
  import opened Wrappers
  import opened Paths

  /** A `UUID()` value, drawn by the caller. */
  datatype Uuid = Uuid(value: nat)

  /** A `Date()` value, read by the caller. */
  datatype Date = Date(instant: int)

  datatype Recording = Recording(id: Uuid, name: string, timestamp: Date, previewImagePath: string)

  /** Why `contentsOfDirectory` threw; the catalog does not look at it. */
  datatype ListingError = ListingError

  const LoadFailureMessage: string := "Failed to load recordings"
  const RecordingsFolder: string := "recordings"

  /** The directory `loadRecordings` lists: `recordings` under the documents directory. */
  function RecordingsDirectory(documentsDirectory: string): (path: string)
    ensures documentsDirectory <= path
    ensures LastPathComponent(path) == RecordingsFolder
    ensures |path| == |documentsDirectory| + SeparatorLength(documentsDirectory) + |RecordingsFolder|
  {
    LastComponentOfAppended(documentsDirectory, RecordingsFolder);
    AppendingPathComponent(documentsDirectory, RecordingsFolder)
  }

  // ---------------------------------------------------------------------
  // The background phase: from a listing to recordings
  // ---------------------------------------------------------------------

  /** The recording made for one listed file. */
  function RecordingFor(path: string, id: Uuid, timestamp: Date): (r: Recording)
    ensures r.id == id && r.timestamp == timestamp && r.previewImagePath == path
    ensures r.name == Stem(path) && '/' !in r.name
  {
    Recording(id, Stem(path), timestamp, path)
  }

  /**
    The `map` over the listed files: one recording per file, in listing order,
    each named by the file's stem and pointing at the file's full path.
   */
  function LoadedRecordings(paths: seq<string>, ids: seq<Uuid>, dates: seq<Date>): (rs: seq<Recording>)
    requires |ids| == |paths| && |dates| == |paths|
    ensures |rs| == |paths|
    ensures forall k :: 0 <= k < |rs| ==>
              rs[k].name == Stem(paths[k]) && rs[k].previewImagePath == paths[k] &&
              rs[k].id == ids[k] && rs[k].timestamp == dates[k]
  {
    seq(|paths|, k requires 0 <= k < |paths| => RecordingFor(paths[k], ids[k], dates[k]))
  }

  /** What the background work sends back to the main queue. */
  datatype LoadOutcome = Loaded(recordings: seq<Recording>) | LoadFailed

  /** The body of the background block: list the directory, then map the files. */
  function ScanRecordings(listing: Result<seq<string>, ListingError>, ids: seq<Uuid>, dates: seq<Date>): (outcome: LoadOutcome)
    requires listing.Success? ==> |ids| == |listing.value| && |dates| == |listing.value|
    ensures outcome.Loaded? <==> listing.Success?
    ensures outcome.Loaded? ==> outcome.recordings == LoadedRecordings(listing.value, ids, dates)
  {
    match listing
    case Success(paths) => Loaded(LoadedRecordings(paths, ids, dates))
    case Failure(_) => LoadFailed
  }

  // ---------------------------------------------------------------------
  // Removing entries by position
  // ---------------------------------------------------------------------

  /** `remove(at:)`: the entry at `i` is gone and the others close up in order. */
  function RemoveAt<T>(s: seq<T>, i: nat): (r: seq<T>)
    requires i < |s|
    ensures |r| == |s| - 1
    ensures forall k :: 0 <= k < i ==> r[k] == s[k]
    ensures forall k :: i <= k < |r| ==> r[k] == s[k + 1]
  {
    s[..i] + s[i + 1..]
  }

  /** The entries of `s`, whose first one sits at position `base`, except those at positions in `dropped`. */
  function KeepFrom<T>(s: seq<T>, base: nat, dropped: set<nat>): seq<T>
    decreases |s|
  {
    if s == [] then []
    else (if base in dropped then [] else [s[0]]) + KeepFrom(s[1..], base + 1, dropped)
  }

  /** `s` without the entries at the positions in `dropped`, the rest in their original order. */
  function Without<T>(s: seq<T>, dropped: set<nat>): (r: seq<T>)
    ensures |r| <= |s|
    ensures dropped == {} ==> r == s
  {
    KeepFromShorter(s, 0, dropped);
    KeepFromNothing(s, 0);
    KeepFrom(s, 0, dropped)
  }

  /** Dropping never lengthens the list. */
  lemma {:induction false} KeepFromShorter<T>(s: seq<T>, base: nat, dropped: set<nat>)
    ensures |KeepFrom(s, base, dropped)| <= |s|
    decreases |s|
  {
    if s != [] {
      KeepFromShorter(s[1..], base + 1, dropped);
    }
  }

  /** Positions below the first entry's position have no effect. */
  lemma {:induction false} KeepFromIgnoresBelow<T>(s: seq<T>, base: nat, dropped: set<nat>, j: nat)
    requires j < base
    ensures KeepFrom(s, base, dropped + {j}) == KeepFrom(s, base, dropped)
    decreases |s|
  {
    if s != [] {
      KeepFromIgnoresBelow(s[1..], base + 1, dropped, j);
    }
  }

  /** Dropping nothing keeps everything. */
  lemma {:induction false} KeepFromNothing<T>(s: seq<T>, base: nat)
    ensures KeepFrom(s, base, {}) == s
    decreases |s|
  {
    if s != [] {
      KeepFromNothing(s[1..], base + 1);
    }
  }

  /** When nothing before position `base + j` is dropped, the first `j` entries stay as they are. */
  lemma {:induction false} KeepFromUntouchedPrefix<T>(s: seq<T>, base: nat, dropped: set<nat>, j: nat)
    requires j <= |s|
    requires forall d :: d in dropped ==> d >= base + j
    ensures KeepFrom(s, base, dropped) == s[..j] + KeepFrom(s[j..], base + j, dropped)
    decreases j
  {
    if j > 0 {
      KeepFromUntouchedPrefix(s[1..], base + 1, dropped, j - 1);
      assert s[1..][..j - 1] == s[1..j];
      assert s[1..][j - 1..] == s[j..];
      assert s[..j] == [s[0]] + s[1..j];
    }
  }

  /** At position `j` the entry is kept unless `j` itself is dropped. */
  lemma {:induction false} KeepFromAtPosition<T>(s: seq<T>, dropped: set<nat>, j: nat)
    requires j < |s|
    requires forall d :: d in dropped ==> d > j
    ensures KeepFrom(s[j..], j, dropped) == [s[j]] + KeepFrom(s[j + 1..], j + 1, dropped)
    ensures KeepFrom(s[j..], j, dropped + {j}) == KeepFrom(s[j + 1..], j + 1, dropped)
  {
    assert s[j..][1..] == s[j + 1..];
    KeepFromIgnoresBelow(s[j + 1..], j + 1, dropped, j);
  }

  /** Dropping only positions after `j`, then removing position `j`, is dropping `j` as well. */
  lemma {:induction false} RemoveBeforeDropped<T>(s: seq<T>, dropped: set<nat>, j: nat)
    requires j < |s|
    requires forall d :: d in dropped ==> d > j
    ensures j < |Without(s, dropped)|
    ensures RemoveAt(Without(s, dropped), j) == Without(s, dropped + {j})
  {
    KeepFromAtPosition(s, dropped, j);
    KeepFromUntouchedPrefix(s, 0, dropped, j);
    KeepFromUntouchedPrefix(s, 0, dropped + {j}, j);
    var rest := KeepFrom(s[j + 1..], j + 1, dropped);
    var w := Without(s, dropped);
    assert w == s[..j] + [s[j]] + rest;
    assert w[..j] == s[..j] && w[j + 1..] == rest;
  }

  /** Dropping one in-range position removes exactly that entry and keeps the rest in order. */
  lemma {:induction false} WithoutOne<T>(s: seq<T>, j: nat)
    requires j < |s|
    ensures Without(s, {j}) == s[..j] + s[j + 1..]
    ensures |Without(s, {j})| == |s| - 1
  {
    KeepFromNothing(s, 0);
    RemoveBeforeDropped(s, {}, j);
    assert {} + {j} == {j};
  }

  /** Every entry at a position that is not dropped survives. */
  lemma {:induction false} KeepFromKeeps<T>(s: seq<T>, base: nat, dropped: set<nat>, k: nat)
    requires k < |s| && base + k !in dropped
    ensures s[k] in KeepFrom(s, base, dropped)
    decreases |s|
  {
    if k > 0 {
      KeepFromKeeps(s[1..], base + 1, dropped, k - 1);
    }
  }

  /** Nothing is invented: the survivors are entries of the original list. */
  lemma {:induction false} KeepFromSubMultiset<T>(s: seq<T>, base: nat, dropped: set<nat>)
    ensures multiset(KeepFrom(s, base, dropped)) <= multiset(s)
    decreases |s|
  {
    if s != [] {
      KeepFromSubMultiset(s[1..], base + 1, dropped);
      assert s == [s[0]] + s[1..];
    }
  }

  /** `Without` keeps exactly the undropped entries, taken from the original list. */
  lemma WithoutKeepsTheRest<T>(s: seq<T>, dropped: set<nat>)
    ensures multiset(Without(s, dropped)) <= multiset(s)
    ensures forall k :: 0 <= k < |s| && k !in dropped ==> s[k] in Without(s, dropped)
  {
    KeepFromSubMultiset(s, 0, dropped);
    forall k | 0 <= k < |s| && k !in dropped
      ensures s[k] in Without(s, dropped)
    {
      KeepFromKeeps(s, 0, dropped, k);
    }
  }

  // ---------------------------------------------------------------------
  // Index sets
  // ---------------------------------------------------------------------

  /** An `IndexSet`, enumerated as `forEach` does: strictly ascending. */
  predicate Ascending(indices: seq<nat>)
  {
    forall p, q :: 0 <= p < q < |indices| ==> indices[p] < indices[q]
  }

  function Elements(indices: seq<nat>): set<nat>
  {
    set x | x in indices
  }

  /** Dropping an ascending run of in-range positions shortens the list by the run's length. */
  lemma {:induction false} WithoutAscendingLength<T>(s: seq<T>, indices: seq<nat>)
    requires Ascending(indices)
    requires forall k :: 0 <= k < |indices| ==> indices[k] < |s|
    ensures |Without(s, Elements(indices))| == |s| - |indices|
    decreases |indices|
  {
    if indices == [] {
      KeepFromNothing(s, 0);
      assert Elements(indices) == {};
    } else {
      var rest := indices[1..];
      WithoutAscendingLength(s, rest);
      assert indices == [indices[0]] + rest;
      assert Elements(indices) == Elements(rest) + {indices[0]};
      forall d | d in Elements(rest) ensures d > indices[0] {
        var q :| 0 <= q < |rest| && rest[q] == d;
        assert indices[q + 1] == d;
      }
      RemoveBeforeDropped(s, Elements(rest), indices[0]);
    }
  }

  /**
    The deletion as written: the removals run one after another in ascending
    order on the already-shortened list, and a removal whose index is past the
    end traps, shown as `None`. The source also reads every index from the
    original list first; that read needs no check of its own here, because an
    ascending index past the original end is past the shortened end as well
    and traps at its removal.
   */
  function RemoveInAscendingOrder<T>(s: seq<T>, indices: seq<nat>): (r: Option<seq<T>>)
    ensures r.Some? ==> |r.value| + |indices| == |s|
    decreases |indices|
  {
    if indices == [] then Some(s)
    else if indices[0] < |s| then RemoveInAscendingOrder(RemoveAt(s, indices[0]), indices[1..])
    else None
  }

  /** Every position one higher. */
  function Raised(positions: set<nat>): set<nat>
  {
    set d | d in positions :: d + 1
  }

  /**
    The original positions the ascending removals hit: the k-th removal runs
    on a list that k earlier removals, all below it, have shortened.
   */
  function Shifted(indices: seq<nat>): seq<nat>
  {
    seq(|indices|, k requires 0 <= k < |indices| => indices[k] + k)
  }

  /** Counting positions from one higher and raising every dropped position drops the same entries. */
  lemma {:induction false} KeepFromRaised<T>(s: seq<T>, base: nat, dropped: set<nat>)
    ensures KeepFrom(s, base, dropped) == KeepFrom(s, base + 1, Raised(dropped))
    decreases |s|
  {
    if s != [] {
      KeepFromRaised(s[1..], base + 1, dropped);
      assert base in dropped <==> base + 1 in Raised(dropped);
    }
  }

  /** Removing position `j` and then dropping positions at or after it drops `j` and those positions, one higher. */
  lemma {:induction false} WithoutAfterRemoveAt<T>(s: seq<T>, j: nat, dropped: set<nat>)
    requires j < |s|
    requires forall d :: d in dropped ==> d >= j
    ensures Without(RemoveAt(s, j), dropped) == Without(s, {j} + Raised(dropped))
  {
    var r := RemoveAt(s, j);
    KeepFromUntouchedPrefix(r, 0, dropped, j);
    assert r[..j] == s[..j] && r[j..] == s[j + 1..];
    KeepFromRaised(s[j + 1..], j, dropped);
    KeepFromUntouchedPrefix(s, 0, {j} + Raised(dropped), j);
    KeepFromAtPosition(s, Raised(dropped), j);
    assert {j} + Raised(dropped) == Raised(dropped) + {j};
  }

  /** The first removal hits its own position; each later one hits its position in the shortened list, one higher. */
  lemma {:induction false} ShiftedSplits(indices: seq<nat>)
    requires indices != []
    ensures Elements(Shifted(indices)) == {indices[0]} + Raised(Elements(Shifted(indices[1..])))
  {
    var first, rest := indices[0], indices[1..];
    var later := Elements(Shifted(rest));
    forall x | x in Elements(Shifted(indices)) ensures x in {first} + Raised(later) {
      var k :| 0 <= k < |indices| && Shifted(indices)[k] == x;
      if k > 0 {
        assert Shifted(rest)[k - 1] == x - 1;
        assert x - 1 in later;
        assert x in Raised(later);
      }
    }
    forall x | x in {first} + Raised(later) ensures x in Elements(Shifted(indices)) {
      if x == first {
        assert Shifted(indices)[0] == x;
      } else {
        var k :| 0 <= k < |rest| && Shifted(rest)[k] == x - 1;
        assert Shifted(indices)[k + 1] == x;
      }
    }
  }

  /** The later removals all hit positions at or after the first one. */
  lemma ShiftedAboveFirst(indices: seq<nat>)
    requires Ascending(indices) && indices != []
    ensures forall d :: d in Elements(Shifted(indices[1..])) ==> d >= indices[0]
  {
    var rest := indices[1..];
    forall d | d in Elements(Shifted(rest)) ensures d >= indices[0] {
      var k :| 0 <= k < |rest| && Shifted(rest)[k] == d;
      assert indices[0] < indices[k + 1];
    }
  }

  /**
    The deletion as written, in general: it traps exactly when some k-th
    index reaches past the list once k entries are gone, and otherwise drops
    the entries at the original positions `indices[k] + k`, not `indices[k]`.
   */
  lemma {:induction false} AscendingRemovalHitsShifted<T>(s: seq<T>, indices: seq<nat>)
    requires Ascending(indices)
    ensures RemoveInAscendingOrder(s, indices).None? <==>
              exists k :: 0 <= k < |indices| && indices[k] + k >= |s|
    ensures RemoveInAscendingOrder(s, indices).Some? ==>
              RemoveInAscendingOrder(s, indices).value == Without(s, Elements(Shifted(indices)))
    decreases |indices|
  {
    if indices == [] {
      assert Elements(Shifted(indices)) == {};
    } else {
      var first, rest := indices[0], indices[1..];
      assert Ascending(rest) by {
        forall p, q | 0 <= p < q < |rest| ensures rest[p] < rest[q] {
          assert rest[p] == indices[p + 1] && rest[q] == indices[q + 1];
        }
      }
      if first < |s| {
        var shorter := RemoveAt(s, first);
        AscendingRemovalHitsShifted(shorter, rest);
        assert RemoveInAscendingOrder(s, indices) == RemoveInAscendingOrder(shorter, rest);
        if exists k :: 0 <= k < |rest| && rest[k] + k >= |shorter| {
          var k :| 0 <= k < |rest| && rest[k] + k >= |shorter|;
          assert indices[k + 1] + (k + 1) >= |s|;
        }
        if exists k :: 0 <= k < |indices| && indices[k] + k >= |s| {
          var k :| 0 <= k < |indices| && indices[k] + k >= |s|;
          assert k != 0 && rest[k - 1] + (k - 1) >= |shorter|;
        }
        var later := Elements(Shifted(rest));
        ShiftedSplits(indices);
        ShiftedAboveFirst(indices);
        WithoutAfterRemoveAt(s, first, later);
      } else {
        assert indices[0] + 0 >= |s|;
      }
    }
  }

  /** As written, deleting positions 0 and 1 of three entries keeps the second entry, not the third. */
  lemma AscendingRemovalDropsWrongEntry<T>(a: T, b: T, c: T)
    requires b != c
    ensures Ascending([0, 1]) && RemoveInAscendingOrder([a, b, c], [0, 1]) == Some([b])
    ensures Without([a, b, c], Elements([0, 1])) == [c]
  {
    assert Elements([0, 1]) == {0, 1};
    assert [a, b, c][1..] == [b, c] && [b, c][1..] == [c] && [c][1..] == [];
    assert KeepFrom([c], 2, {0, 1}) == [c];
    assert KeepFrom([b, c], 1, {0, 1}) == [c];
    assert RemoveAt([a, b, c], 0) == [b, c];
    assert RemoveAt([b, c], 1) == [b];
  }

  /** As written, deleting positions 1 and 2 of three entries, both in range when read, traps. */
  lemma AscendingRemovalTraps<T>(a: T, b: T, c: T)
    ensures Ascending([1, 2]) && RemoveInAscendingOrder([a, b, c], [1, 2]) == None
  {
  }

  /** For a single index, the as-written deletion and the intended one agree. */
  lemma {:induction false} SingleRemovalAgrees<T>(s: seq<T>, j: nat)
    requires j < |s|
    ensures RemoveInAscendingOrder(s, [j]) == Some(Without(s, Elements([j])))
  {
    assert Elements([j]) == {j};
    WithoutOne(s, j);
  }

  // ---------------------------------------------------------------------
  // The view model
  // ---------------------------------------------------------------------

  class RecordingsViewModel {
    var recordings: seq<Recording>
    var isLoading: bool
    var errorMessage: Option<string>

    /** `init()`: an empty list, no error, and the first load already begun. */
    constructor ()
      ensures recordings == [] && isLoading && errorMessage == None
    {
      recordings := [];
      isLoading := false;
      errorMessage := None;
      new;
      LoadRecordings();
    }

    /** `loadRecordings()`, on the caller's queue: raise the loading flag and hand off. */
    method LoadRecordings()
      modifies this`isLoading
      ensures isLoading
    {
      isLoading := true;
    }

    /**
      The end of `loadRecordings()`: the background listing and the block it
      sends back to the main queue. A listing replaces the list and lowers the
      flag but leaves any earlier error message in place; a failed listing
      lowers the flag, sets the fixed message and keeps the list.
     */
    method CompleteLoad(listing: Result<seq<string>, ListingError>, ids: seq<Uuid>, dates: seq<Date>)
      requires listing.Success? ==> |ids| == |listing.value| && |dates| == |listing.value|
      modifies this`recordings, this`isLoading, this`errorMessage
      ensures !isLoading
      ensures listing.Success? ==>
                recordings == LoadedRecordings(listing.value, ids, dates) && errorMessage == old(errorMessage)
      ensures listing.Failure? ==>
                recordings == old(recordings) && errorMessage == Some(LoadFailureMessage)
    {
      var outcome := ScanRecordings(listing, ids, dates);
      match outcome
      case Loaded(loaded) =>
        recordings := loaded;
        isLoading := false;
      case LoadFailed =>
        isLoading := false;
        errorMessage := Some(LoadFailureMessage);
    }

    /**
      `deleteRecording(at:)`: every index is read from the list as it stands,
      then the entries at those positions are removed and the others keep
      their order. The removals run from the highest index down, so each one
      still finds its entry where it was read. Backing files are not touched.
     */
    method DeleteRecording(indices: seq<nat>)
      requires Ascending(indices)
      requires forall k :: 0 <= k < |indices| ==> indices[k] < |recordings|
      modifies this`recordings
      ensures recordings == Without(old(recordings), Elements(indices))
      ensures |recordings| == |old(recordings)| - |indices|
    {
      KeepFromNothing(recordings, 0);
      assert Elements(indices[|indices|..]) == {};
      var i := |indices|;
      while i > 0
        invariant 0 <= i <= |indices|
        invariant recordings == Without(old(recordings), Elements(indices[i..]))
      {
        var index := indices[i - 1];
        assert Elements(indices[i - 1..]) == Elements(indices[i..]) + {index} by {
          assert indices[i - 1..] == [index] + indices[i..];
        }
        RemoveBeforeDropped(old(recordings), Elements(indices[i..]), index);
        recordings := RemoveAt(recordings, index);
        i := i - 1;
      }
      assert indices[0..] == indices;
      WithoutAscendingLength(old(recordings), indices);
    }

    /** `exportRecording(_:)`: a placeholder that only logs; the catalog is left as it is. */
    method ExportRecording(recording: Recording)
      ensures unchanged(this)
    {
    }
  }

  /** Deleting one in-range entry shortens the list by one and keeps the others in order. */
  method DeleteOneRecording(model: RecordingsViewModel, index: nat)
    requires index < |model.recordings|
    modifies model`recordings
    ensures model.recordings == old(model.recordings[..index]) + old(model.recordings[index + 1..])
    ensures |model.recordings| == |old(model.recordings)| - 1
  {
    model.DeleteRecording([index]);
    assert Elements([index]) == {index};
    WithoutOne(old(model.recordings), index);
  }
}
