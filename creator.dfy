/**
 * FileCreator: a worker that, on every tick of its timer, writes the next
 * numbered file into its folder. The Qt timer is abstracted to whether it is
 * running and its interval in milliseconds; a tick is a call of CreateFile.
 * Whether opening the file succeeds is decided by the environment and comes
 * in as the `openSucceeds` argument.
 */
module Creator {
  import opened FileNames
  import opened Directory

  /** The period `startCreating` always starts the timer with. */
  const CreateIntervalOnStart := 5000

  class FileCreator {
    var folderPath: string
    var fileCounter: nat
    var running: bool
    var interval: int

    /** A fresh QTimer is stopped and has interval 0. */
    constructor (folderPath: string)
      ensures this.folderPath == folderPath && fileCounter == 0
      ensures !running && interval == 0
    {
      this.folderPath := folderPath;
      fileCounter := 0;
      running := false;
      interval := 0;
    }

    /** `timer->start(5000)`: (re)starts the timer with the fixed period, whatever was set before. */
    method StartCreating()
      modifies this`running, this`interval
      ensures running && interval == CreateIntervalOnStart
    {
      running := true;
      interval := CreateIntervalOnStart;
    }

    method StopCreating()
      modifies this`running
      ensures !running
    {
      running := false;
    }

    method SetInterval(ms: int)
      modifies this`interval
      ensures interval == ms
    {
      interval := ms;
    }

    method UpdateFolderPath(newPath: string)
      modifies this`folderPath
      ensures folderPath == newPath
    {
      folderPath := newPath;
    }

    /**
     * One tick: write "Content of file N" to folderPath/FileName(N), replacing
     * any earlier content, when the file opens; the counter advances either way.
     * Opening for writing cannot succeed in a directory that does not exist.
     */
    method CreateFile(fs: FileSystem, openSucceeds: bool)
      modifies this`fileCounter, fs
      ensures fileCounter == old(fileCounter) + 1
      ensures openSucceeds && folderPath in old(fs.dirs) ==>
                fs.dirs == WriteFile(old(fs.dirs), folderPath, FileName(old(fileCounter)), FileContent(old(fileCounter)))
      ensures !(openSucceeds && folderPath in old(fs.dirs)) ==> fs.dirs == old(fs.dirs)
    {
      var fileName := FileName(fileCounter);
      if openSucceeds && folderPath in fs.dirs {
        fs.dirs := WriteFile(fs.dirs, folderPath, fileName, FileContent(fileCounter));
      }
      fileCounter := fileCounter + 1;
    }
  }
}
