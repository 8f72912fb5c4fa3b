# File Monitor Application: a Dafny model of its file-churn core

The File Monitor Application is a Qt program with three parts:

- a **FileCreator** worker that, on every timer tick, writes `file_NNNN.txt` with the content `Content of file N` into a folder;
- a **FileDeleter** worker that, on every tick, removes the file named by its own counter;
- a **FolderMonitor** that classifies the folder as `red` (no files), `green` (1 to 20) or `orange` (more than 20) and emits that state with the file listing.

The **MainWindow** owns the chosen folder and starts and stops both workers together. It broadcasts a new folder to all three components, empties the folder on request, and shows the monitor's state as a coloured label with a file list.

The model is sequential and works over an abstract filesystem: a map from directory path to a map from file name to content (`Directory.FileSystem`, one shared object). A worker timer becomes a `running` flag and an `interval`, and a tick becomes a call of the tick method. Whether opening a file succeeds is an argument. A signal becomes a method call that runs at once: the monitor returns what it emits and also keeps every emission in `emitted`.

Modules:

- `FileNames` (`names.dfy`): the shared name format `file_%1.txt` with the counter padded to at least four digits, and the content string.
- `Directory` (`directory.dfy`): the filesystem, the sorted listing of the regular, non-hidden files of a folder, writing, removing, making a path.
- `Creator`, `Deleter`, `Monitor` (`creator.dfy`, `deleter.dfy`, `monitor.dfy`): the three components as classes.
- `Window` (`mainwindow.dfy`): the controller part of the main window.
- `Churn` (`churn.dfy`): what the creator and deleter do together on one folder, and how the monitor lists what the creator made.

Three points about the code the model follows:

- The workers do not check for an empty folder path.
- `startCreating` and `startDeleting` always start with 5000 and 6000 ms, whatever interval was set before.
- No lock is ever taken.

## Model

| member | source | states |
|---|---|---|
| FileNames.Padded | FileCreator.cpp:30 | `arg(n, 4, 10, QChar('0'))`: the field is at least four characters and never shorter than the decimal form of n |
| FileNames.PaddedShape | FileDeleter.cpp:30 | the field ends with the full decimal form of n (never truncated), has only '0' before it, and is longer than four only when it is exactly the decimal form |
| FileNames.FileName | FileDeleter.cpp:30 | the name for counter n, `file_` + padded field + `.txt`, is at least 13 characters; both workers use this one definition |
| FileNames.FileContent | FileCreator.cpp:34 | the written content is longer than its fixed prefix; `FileContentRoundTrip` gives the prefix and the digits |
| FileNames.DecimalValue | FileCreator.cpp:34 | the decimal form the text stream writes for a counter reads back as that counter |
| FileNames.PaddedValue | FileCreator.cpp:30 | the zero-padded field is all digits and reads back as the counter; it is 4 characters below 10000 and the full decimal form from 10000 on (never truncated) |
| FileNames.FileNameRoundTrip | FileCreator.cpp:30 | the counter can be parsed back out of every name the format produces |
| FileNames.FileNameInjective | FileCreator.cpp:30-37 | two counters give the same name exactly when they are equal, so successive creates never target the same file |
| FileNames.FileNameLength | FileDeleter.cpp:30 | a name is 13 characters exactly when the counter is below 10000; from 10000 on it is `file_` + the full decimal + `.txt` |
| FileNames.FileContentRoundTrip | FileCreator.cpp:34 | the content is `Content of file ` followed by digits that read back as the counter |
| Directory.SortedNames | FolderMonitor.cpp:46 | the result holds each name of the set exactly once, in strictly ascending name order |
| Directory.SortedUnique | FolderMonitor.cpp:46 | a set of names has exactly one strictly sorted arrangement, so the listing is determined by the folder |
| Directory.Listing | FolderMonitor.cpp:44-47 | a missing folder lists as empty; otherwise the listing holds exactly the non-hidden files, once each, sorted |
| Directory.WriteFile | FileCreator.cpp:31-35 | the named file exists with exactly the new content; every other file and every other folder is unchanged |
| Directory.RemoveFile | FileDeleter.cpp:31-34 | the named file is gone; every other file keeps its content; nothing changes when the file or folder is absent |
| Directory.MakePath | mainwindow.cpp:58 | the path exists afterwards and an existing folder keeps its files |
| Creator.FileCreator.constructor | FileCreator.cpp:7-11 | the counter starts at 0 and the timer starts stopped |
| Creator.FileCreator.StartCreating | FileCreator.cpp:13-15 | the timer runs with period 5000, overriding any earlier interval; nothing else changes |
| Creator.FileCreator.StopCreating | FileCreator.cpp:17-19 | the timer stops; counter, path and interval are unchanged |
| Creator.FileCreator.SetInterval | FileCreator.cpp:21-23 | only the interval changes |
| Creator.FileCreator.UpdateFolderPath | FileCreator.cpp:25-27 | only the folder path changes |
| Creator.FileCreator.CreateFile | FileCreator.cpp:29-38 | the counter goes up by exactly 1 either way; on a successful open the file for the old counter holds exactly its content, replacing any earlier content, and nothing else changes; a failed open changes nothing on disk |
| Deleter.FileDeleter.constructor | FileDeleter.cpp:7-11 | the counter starts at 0 and the timer starts stopped |
| Deleter.FileDeleter.StartDeleting | FileDeleter.cpp:13-15 | the timer runs with period 6000, overriding any earlier interval; nothing else changes |
| Deleter.FileDeleter.StopDeleting | FileDeleter.cpp:17-19 | the timer stops; counter, path and interval are unchanged |
| Deleter.FileDeleter.SetInterval | FileDeleter.cpp:21-23 | only the interval changes |
| Deleter.FileDeleter.UpdateFolderPath | FileDeleter.cpp:25-27 | only the folder path changes |
| Deleter.FileDeleter.DeleteOldestFile | FileDeleter.cpp:29-36 | the counter goes up by exactly 1; the file for the old counter is absent afterwards; no other file is touched; nothing changes when the file is absent |
| Monitor.Classify | FolderMonitor.cpp:60-68 | red exactly for 0 files, orange exactly for more than 20, green exactly for 1 to 20, so every count gets one state |
| Monitor.Classification | FolderMonitor.cpp:57-70 | the emitted snapshot carries the folder's listing; red exactly when it is empty, orange exactly above 20 files, green exactly for 1 to 20 |
| Monitor.ClassificationMeaning | FolderMonitor.cpp:56-70 | the emitted list is the folder's listing and the state is decided by how many visible regular files the folder holds |
| Monitor.ClassificationByCount | FolderMonitor.cpp:56-70 | two folders with listings of the same length get the same state: nothing but the count is read |
| Monitor.FolderMonitor.constructor | FolderMonitor.cpp:8-42 | the monitor watches the given folder and has emitted exactly one classification of it |
| Monitor.FolderMonitor.GetCurrentFiles | FolderMonitor.cpp:44-47 | returns the same listing `updateState` emits for the same folder: its visible files, sorted |
| Monitor.FolderMonitor.UpdateFolderPath | FolderMonitor.cpp:49-54 | the path becomes the new one and the emission appended is the classification of the new folder |
| Monitor.FolderMonitor.UpdateState | FolderMonitor.cpp:56-71 | emits the folder's listing with the state of its length; one emission is appended |
| Window.Colour | mainwindow.cpp:141-144 | the colour is always red, orange or green; it equals the state exactly for those three names; any other state is red |
| Window.ColourOfClassification | mainwindow.cpp:141-144 | every state the monitor emits is shown in the colour of the same name |
| Window.StatusText | mainwindow.cpp:145 | the label reads `Status: <state> (<n> files)`, and the number n in it reads back as the length of the shown list |
| Window.OnlyHiddenRemain | mainwindow.cpp:103-107 | removing every listed file of a folder leaves exactly its hidden files |
| Window.EmptiedListing | mainwindow.cpp:100-108 | a folder with only hidden files, or no folder, lists as empty |
| Window.EmptiedIsRed | mainwindow.cpp:100-108 | after emptying, the folder classifies as red |
| Window.MainWindow.constructor | mainwindow.cpp:12-98 | the window, both workers and the monitor use one folder (`Valid`, kept by every method); the folder `<current dir>/monitored_folder` exists; both workers are stopped with counters at 0 on it; the monitor has classified it once; `isRunning` is false; the dashboard shows "red" with the folder's listing whatever it holds |
| Window.MainWindow.EmptyFolder | mainwindow.cpp:100-109 | an existing folder keeps only its hidden files and lists as empty; a missing folder is left alone |
| Window.MainWindow.ChooseFolder | mainwindow.cpp:111-118 | an empty selection changes nothing; otherwise the folder exists, becomes the window's folder and is broadcast |
| Window.MainWindow.UpdateFolderPath | mainwindow.cpp:159-162 | the window takes the new folder and broadcasts it |
| Window.MainWindow.FolderPathChanged | mainwindow.cpp:87-89 | creator, deleter and monitor all use the broadcast path; the monitor emits the new folder's classification and the dashboard shows it |
| Window.MainWindow.ToggleOperations | mainwindow.cpp:120-131 | `isRunning` is negated (two toggles restore it); both workers run exactly when it is set; turning on starts them with 5000 and 6000 ms |
| Window.MainWindow.UpdateStatusIndicator | mainwindow.cpp:140-149 | the label shows the state, its colour and the list's length, and the list is replaced by the given files |
| Window.MainWindow.DirectoryChanged | mainwindow.cpp:82 | a change in the window's folder makes the monitor emit that folder's new classification and the dashboard shows that one |
| Window.EmptyThenRefresh | mainwindow.cpp:100-108 | for a window after any history, emptying the folder and then the watcher's change report leave the dashboard showing "red" with an empty list, and that is what the monitor emitted |
| Window.MainWindow.UpdateCreationInterval | mainwindow.cpp:151-153 | only the creator's interval changes |
| Window.MainWindow.UpdateDeletionInterval | mainwindow.cpp:155-157 | only the deleter's interval changes |
| Churn.CreatedKeys | FileCreator.cpp:29-38 | k creates on an empty folder leave exactly the files 0 to k - 1 |
| Churn.CreatedContent | FileCreator.cpp:30-37 | after k creates, file i (i < k) still holds the content written for i: no create clobbers another |
| Churn.ChurnContents | FileDeleter.cpp:29-36 | after k creates and j deletes the folder holds exactly the files j to k - 1, each with its original content |
| Churn.ExtraDeletesAreNoOps | FileDeleter.cpp:32-35 | deletes past the last create remove nothing |
| Churn.CreateThenDelete | FileDeleter.cpp:29-36 | running a fresh creator k ticks and then a fresh deleter j ticks on an empty folder leaves exactly the survivors above; the deleter's n-th tick targets the creator's n-th file |
| Churn.RetargetThenCreate | FileCreator.cpp:25-31 | for any creator and filesystem, after `updateFolderPath(q)` the next successful create writes the file for the current counter under q, and the old folder p keeps its files |
| Churn.FileNameOrder | FileCreator.cpp:30 | below 10000, names sort in counter order |
| Churn.FileNameOrderBreaksAt10000 | FileCreator.cpp:30 | from 10000 on they do not: `file_10000.txt` sorts before `file_1001.txt` |
| Churn.CreatedListing | FolderMonitor.cpp:57-58 | with at most 10000 creates, the monitor lists the created files in creation order |

## Left out

- Widgets, layout, `QFileDialog`, `openFile`, `QDesktopServices` and `main.cpp` are not part of this model. They are user interface and start-up. A folder choice arrives as a string argument, and the empty string means the dialog was cancelled.
- The `QStateMachine` in FolderMonitor.cpp:15-38: its state is never read, and the emitted state comes only from `updateState`.
- `QFileSystemWatcher` registration and change delivery: a change is an explicit call of `DirectoryChanged`.
- Threads, `moveToThread` and queued-connection ordering: queued calls and signal deliveries run at once, in program order. Interleavings of the two workers are not modelled.
- Real timers: a timer is a `running` flag and an interval, and a tick is an explicit call.
- The mutex declared in FileCreator.h is never locked and is not modelled.
- Causes of I/O failure: an open succeeds or fails by argument. An open in a missing folder always fails.
- `QFile::remove` is modelled as always succeeding; its result is ignored in the code.
- Creator.FileCreator.CreateFile: the counter is a `nat`, so 32-bit `int` overflow is not modelled. The same holds for `Deleter.FileDeleter.DeleteOldestFile`.
- Directory.Listing: names are ordered by character code. The case-insensitive collation of `QDir::Name | QDir::IgnoreCase` and locale rules are not modelled, and neither are subdirectories, symbolic links or `.`/`..`.
- Paths are opaque strings. `folderPath + "/" + name` is the pair (folder, name), and path normalisation is not modelled.
- Directory.MakePath: creates only the path itself, not its missing parents.
- Spin-box ranges and default values (mainwindow.cpp:24-31) are not modelled: only the forwarding of a changed value is.
- Window.MainWindow.constructor: the monitor's own first emission happens before the window connects to it, so it is not delivered to the dashboard. This matches mainwindow.cpp:73-97.
- Window.StatusText: the state is substituted verbatim. Qt's second `arg()` would also rewrite a `%` place marker inside the state text. The monitor only emits "red", "green" and "orange", so this never happens.
- Window.MainWindow.EmptyFolder: its contract gives the listing as empty. That the classification is then red is stated separately by `Window.EmptiedIsRed`.
