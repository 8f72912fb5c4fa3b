/**
 * FolderMonitor: classifies the folder it watches by the number of regular
 * files in it and emits `stateChanged(state, files)` with the listing.
 * The emitted signals are kept, oldest first, in `emitted`; each method that
 * emits also returns what it emitted, so that a caller can deliver it.
 * The classification looks at the count alone: no earlier state is read.
 */
module Monitor {
  import opened Directory

  /** One `stateChanged(state, files)` emission. */
  datatype Snapshot = Snapshot(state: string, files: seq<string>)

  /** The three-way classification of `updateState`. */
  function Classify(count: nat): (state: string)
    ensures state == "red" <==> count == 0
    ensures state == "orange" <==> 20 < count
    ensures state == "green" <==> 1 <= count <= 20
  {
    if count == 0 then "red"
    else if count > 20 then "orange"
    else "green"
  }

  /** What `updateState` emits for folder p. */
  function Classification(dirs: map<string, Dir>, p: string): (s: Snapshot)
    ensures s.files == Listing(dirs, p)
    ensures s.state == "red" <==> s.files == []
    ensures s.state == "orange" <==> 20 < |s.files|
    ensures s.state == "green" <==> 1 <= |s.files| <= 20
  {
    var files := Listing(dirs, p);
    Snapshot(Classify(|files|), files)
  }

  /** The state emitted for a folder is decided by how many visible regular files it holds. */
  lemma ClassificationMeaning(dirs: map<string, Dir>, p: string)
    ensures Classification(dirs, p).files == Listing(dirs, p)
    ensures Classification(dirs, p).state == "red" <==> p !in dirs || VisibleNames(dirs[p]) == {}
    ensures Classification(dirs, p).state == "orange" <==> p in dirs && 20 < |VisibleNames(dirs[p])|
    ensures Classification(dirs, p).state == "green" <==> p in dirs && 1 <= |VisibleNames(dirs[p])| <= 20
  {
    if p in dirs {
      var v := VisibleNames(dirs[p]);
      assert |v| == 0 <==> v == {};
    }
  }

  /** Two folders with the same number of visible files get the same state. */
  lemma ClassificationByCount(dirs: map<string, Dir>, p: string, dirs': map<string, Dir>, p': string)
    requires |Listing(dirs, p)| == |Listing(dirs', p')|
    ensures Classification(dirs, p).state == Classification(dirs', p').state
  {
  }

  class FolderMonitor {
    var folderPath: string
    var emitted: seq<Snapshot>

    /** The constructor classifies the initial folder once. */
    constructor (folderPath: string, fs: FileSystem)
      ensures this.folderPath == folderPath
      ensures emitted == [Classification(fs.dirs, folderPath)]
    {
      this.folderPath := folderPath;
      emitted := [];
      new;
      var _ := UpdateState(fs);
    }

    /** `getCurrentFiles`: the listing `updateState` would emit for the same folder. */
    method GetCurrentFiles(fs: FileSystem) returns (files: seq<string>)
      ensures files == Classification(fs.dirs, folderPath).files
      ensures forall x :: x in files <==> folderPath in fs.dirs && x in fs.dirs[folderPath] && !Hidden(x)
      ensures StrictlySorted(files)
    {
      files := Listing(fs.dirs, folderPath);
    }

    /** `updateFolderPath`: switch to the new folder, then classify the new folder. */
    method UpdateFolderPath(newPath: string, fs: FileSystem) returns (s: Snapshot)
      modifies this
      ensures folderPath == newPath
      ensures s == Classification(fs.dirs, newPath)
      ensures emitted == old(emitted) + [s]
    {
      folderPath := newPath;
      s := UpdateState(fs);
    }

    /** `updateState`: classify the current folder and emit the result. */
    method UpdateState(fs: FileSystem) returns (s: Snapshot)
      modifies this`emitted
      ensures s.files == Listing(fs.dirs, folderPath)
      ensures s.state == Classify(|s.files|)
      ensures emitted == old(emitted) + [s]
    {
      var files := Listing(fs.dirs, folderPath);
      var fileCount := |files|;
      var newState;
      if fileCount == 0 {
        newState := "red";
      } else if fileCount > 20 {
        newState := "orange";
      } else {
        newState := "green";
      }
      s := Snapshot(newState, files);
      emitted := emitted + [s];
    }
  }
}
