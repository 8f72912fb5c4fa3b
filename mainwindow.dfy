/**
 * The controller part of MainWindow: it owns the chosen folder, whether the
 * workers are running, and the dashboard (status label and file list).
 * Queued invocations and signal deliveries to the workers and the monitor
 * run immediately and in program order here.
 */
module Window {
  import opened FileNames
  import opened Directory
  import opened Creator
  import opened Deleter
  import opened Monitor

  /** The label's background colour for an emitted state: any unknown state shows red. */
  function Colour(state: string): (colour: string)
    ensures colour in {"green", "orange", "red"}
    ensures colour == state <==> state in {"green", "orange", "red"}
    ensures colour != state ==> colour == "red"
  {
    if state == "green" then "green"
    else if state == "orange" then "orange"
    else "red"
  }

  /** Every state the monitor emits is shown in the colour of the same name. */
  lemma ColourOfClassification(count: nat)
    ensures Colour(Classify(count)) == Classify(count)
  {
  }

  /**
   * The status label: `QString("Status: %1 (%2 files)").arg(state).arg(files.count())`.
   * The state is put in verbatim, which is what Qt does for the states the
   * monitor emits (none of them holds a `%` place marker). The count in the
   * text reads back as the length of the list shown beside it.
   */
  function StatusText(state: string, files: seq<string>): (t: string)
    ensures var k := |state| + 10;
            k + 7 <= |t| && t[..k] == "Status: " + state + " (" && t[|t| - 7..] == " files)"
            && AllDigits(t[k..|t| - 7]) && DigitsValue(t[k..|t| - 7]) == |files|
  {
    var t := "Status: " + state + " (" + Decimal(|files|) + " files)";
    assert t[|state| + 10..|t| - 7] == Decimal(|files|);
    DecimalValue(|files|);
    t
  }

  /** After emptyFolder the folder classifies as "red". */
  lemma EmptiedIsRed(dirs: map<string, Dir>, p: string)
    requires p in dirs ==> forall x :: x in dirs[p] ==> Hidden(x)
    ensures Classification(dirs, p).state == "red"
  {
    EmptiedListing(dirs, p);
  }

  /** The files of d that the listing does not show. */
  function HiddenFiles(d: Dir): (h: Dir)
    ensures forall x :: x in h <==> x in d && Hidden(x)
    ensures forall x :: x in h ==> h[x] == d[x]
  {
    map x | x in d && Hidden(x) :: d[x]
  }

  /** The names among the first i of a listing. */
  ghost function Among(names: seq<string>, i: nat): set<string>
    requires i <= |names|
  {
    set x | x in names[..i]
  }

  lemma RemoveStep(dirs: map<string, Dir>, p: string, d0: Dir, names: seq<string>, i: nat)
    requires i < |names| && p in dirs && dirs[p] == d0 - Among(names, i)
    ensures RemoveFile(dirs, p, names[i]) == dirs[p := d0 - Among(names, i + 1)]
  {
    assert names[..i + 1] == names[..i] + [names[i]];
    assert Among(names, i + 1) == Among(names, i) + {names[i]};
    RemoveFromRemainder(dirs, p, d0, Among(names, i), names[i]);
  }

  /** Removing the listed names of d0 leaves exactly its hidden files. */
  lemma OnlyHiddenRemain(d0: Dir, names: seq<string>)
    requires forall x :: x in names <==> x in d0 && !Hidden(x)
    ensures d0 - Among(names, |names|) == HiddenFiles(d0)
  {
    assert names[..|names|] == names;
    assert Among(names, |names|) == VisibleNames(d0);
  }

  /** A folder holding only hidden files, or no folder at all, lists as empty. */
  lemma EmptiedListing(dirs: map<string, Dir>, p: string)
    requires p in dirs ==> forall x :: x in dirs[p] ==> Hidden(x)
    ensures Listing(dirs, p) == []
  {
    if p in dirs {
      assert VisibleNames(dirs[p]) == {};
    }
  }

  class MainWindow {
    var folderPath: string
    var isRunning: bool
    const creator: FileCreator
    const deleter: FileDeleter
    const monitor: FolderMonitor
    // the dashboard
    var shownState: string
    var shownColour: string
    var statusText: string
    var shownFiles: seq<string>

    /** The window, both workers and the monitor all use the window's folder. */
    ghost predicate Valid()
      reads this, creator, deleter, monitor
    {
      creator.folderPath == folderPath && deleter.folderPath == folderPath
      && monitor.folderPath == folderPath
    }

    /** The dashboard displays `state` with `files`. */
    ghost predicate Shows(state: string, files: seq<string>)
      reads this
    {
      shownState == state && shownColour == Colour(state)
      && statusText == StatusText(state, files) && shownFiles == files
    }

    /**
     * The window creates the folder `<currentDir>/monitored_folder`, both
     * workers (stopped, counters at 0) and the monitor on it. The monitor's own
     * first classification is emitted before the window connects to it, so the
     * dashboard starts as "red" with the folder's listing whatever that holds.
     */
    constructor (currentDir: string, fs: FileSystem)
      modifies fs
      ensures Valid()
      ensures folderPath == currentDir + "/monitored_folder" && !isRunning
      ensures fs.dirs == MakePath(old(fs.dirs), folderPath)
      ensures fresh(creator) && fresh(deleter) && fresh(monitor)
      ensures creator.folderPath == folderPath && creator.fileCounter == 0 && !creator.running
      ensures deleter.folderPath == folderPath && deleter.nextToDelete == 0 && !deleter.running
      ensures monitor.folderPath == folderPath && monitor.emitted == [Classification(fs.dirs, folderPath)]
      ensures Shows("red", Listing(fs.dirs, folderPath))
    {
      var path := currentDir + "/monitored_folder";
      isRunning := false;
      folderPath := path;
      fs.dirs := MakePath(fs.dirs, path);
      creator := new FileCreator(path);
      deleter := new FileDeleter(path);
      monitor := new FolderMonitor(path, fs);
      new;
      var files := monitor.GetCurrentFiles(fs);
      UpdateStatusIndicator("red", files);
    }

    /** `emptyFolder`: remove every listed regular file of an existing folder; hidden files stay. */
    method EmptyFolder(fs: FileSystem)
      requires Valid()
      modifies fs
      ensures Valid()
      ensures folderPath !in old(fs.dirs) ==> fs.dirs == old(fs.dirs)
      ensures folderPath in old(fs.dirs) ==>
                fs.dirs == old(fs.dirs)[folderPath := HiddenFiles(old(fs.dirs)[folderPath])]
      ensures Listing(fs.dirs, folderPath) == []
    {
      if folderPath in fs.dirs {
        ghost var d0 := fs.dirs[folderPath];
        var fileList := Listing(fs.dirs, folderPath);
        assert d0 - Among(fileList, 0) == d0;
        for i := 0 to |fileList|
          invariant fs.dirs == old(fs.dirs)[folderPath := d0 - Among(fileList, i)]
        {
          RemoveStep(fs.dirs, folderPath, d0, fileList, i);
          fs.dirs := RemoveFile(fs.dirs, folderPath, fileList[i]);
        }
        OnlyHiddenRemain(d0, fileList);
      }
      EmptiedListing(fs.dirs, folderPath);
    }

    /** `chooseFolder`: an empty selection changes nothing; otherwise the folder is made and broadcast. */
    method ChooseFolder(selection: string, fs: FileSystem)
      requires Valid()
      modifies this, creator`folderPath, deleter`folderPath, monitor, fs
      ensures Valid()
      ensures selection == "" ==> unchanged(this, creator, deleter, monitor, fs)
      ensures selection != "" ==> folderPath == selection && fs.dirs == MakePath(old(fs.dirs), selection)
      ensures selection != "" ==> Broadcasted(selection, fs)
      ensures selection != "" ==> monitor.emitted == old(monitor.emitted) + [Classification(fs.dirs, selection)]
      ensures isRunning == old(isRunning)
    {
      if selection != "" {
        folderPath := selection;
        fs.dirs := MakePath(fs.dirs, folderPath);
        FolderPathChanged(folderPath, fs);
      }
    }

    /** `updateFolderPath`: take the new folder and broadcast it. */
    method UpdateFolderPath(newPath: string, fs: FileSystem)
      requires Valid()
      modifies this, creator`folderPath, deleter`folderPath, monitor
      ensures Valid()
      ensures folderPath == newPath && isRunning == old(isRunning)
      ensures Broadcasted(newPath, fs)
      ensures monitor.emitted == old(monitor.emitted) + [Classification(fs.dirs, newPath)]
    {
      folderPath := newPath;
      FolderPathChanged(newPath, fs);
    }

    /** After a broadcast of p: all three components use p and the dashboard shows p's classification. */
    ghost predicate Broadcasted(p: string, fs: FileSystem)
      reads this, creator, deleter, monitor, fs
    {
      creator.folderPath == p && deleter.folderPath == p && monitor.folderPath == p
      && Shows(Classification(fs.dirs, p).state, Classification(fs.dirs, p).files)
    }

    /** The `folderPathChanged` signal, connected to creator, deleter and monitor. */
    method FolderPathChanged(p: string, fs: FileSystem)
      requires folderPath == p
      modifies this`shownState, this`shownColour, this`statusText, this`shownFiles
      modifies creator`folderPath, deleter`folderPath, monitor
      ensures Valid() && Broadcasted(p, fs)
      ensures monitor.emitted == old(monitor.emitted) + [Classification(fs.dirs, p)]
    {
      creator.UpdateFolderPath(p);
      deleter.UpdateFolderPath(p);
      var s := monitor.UpdateFolderPath(p, fs);
      UpdateStatusIndicator(s.state, s.files);
    }

    /** `toggleOperations`: flip isRunning and start or stop both workers with it. */
    method ToggleOperations()
      requires Valid()
      modifies this`isRunning, creator`running, creator`interval, deleter`running, deleter`interval
      ensures Valid()
      ensures isRunning == !old(isRunning)
      ensures creator.running == isRunning && deleter.running == isRunning
      ensures isRunning ==> creator.interval == CreateIntervalOnStart && deleter.interval == DeleteIntervalOnStart
      ensures !isRunning ==> creator.interval == old(creator.interval) && deleter.interval == old(deleter.interval)
    {
      isRunning := !isRunning;
      if isRunning {
        creator.StartCreating();
        deleter.StartDeleting();
      } else {
        creator.StopCreating();
        deleter.StopDeleting();
      }
    }

    /** `updateStatusIndicator`: the label shows state and count; the list is replaced by files. */
    method UpdateStatusIndicator(state: string, files: seq<string>)
      requires Valid()
      modifies this`shownState, this`shownColour, this`statusText, this`shownFiles
      ensures Valid() && Shows(state, files)
    {
      shownState := state;
      shownColour := Colour(state);
      statusText := StatusText(state, files);
      shownFiles := files;
    }

    /** The monitor's folder changed on disk: it reclassifies and the dashboard follows. */
    method DirectoryChanged(fs: FileSystem)
      requires Valid()
      modifies monitor`emitted, this`shownState, this`shownColour, this`statusText, this`shownFiles
      ensures Valid()
      ensures monitor.emitted == old(monitor.emitted) + [Classification(fs.dirs, folderPath)]
      ensures Shows(Classification(fs.dirs, folderPath).state, Classification(fs.dirs, folderPath).files)
    {
      var s := monitor.UpdateState(fs);
      UpdateStatusIndicator(s.state, s.files);
    }

    /** The creation interval goes to the creator only. */
    method UpdateCreationInterval(ms: int)
      requires Valid()
      modifies creator`interval
      ensures Valid()
      ensures creator.interval == ms
    {
      creator.SetInterval(ms);
    }

    /** The deletion interval goes to the deleter only. */
    method UpdateDeletionInterval(ms: int)
      requires Valid()
      modifies deleter`interval
      ensures Valid()
      ensures deleter.interval == ms
    {
      deleter.SetInterval(ms);
    }
  }

  /**
   * The user empties the folder and the watcher then reports the change:
   * the dashboard shows "red" with an empty list, whatever the window did before.
   */
  method EmptyThenRefresh(w: MainWindow, fs: FileSystem)
    requires w.Valid()
    modifies fs, w.monitor`emitted, w`shownState, w`shownColour, w`statusText, w`shownFiles
    ensures w.Valid()
    ensures w.Shows("red", []) && Listing(fs.dirs, w.folderPath) == []
    ensures w.monitor.emitted == old(w.monitor.emitted) + [Snapshot("red", [])]
  {
    w.EmptyFolder(fs);
    w.DirectoryChanged(fs);
  }
}
