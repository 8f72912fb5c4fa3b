/**
 * FileDeleter: a worker that, on every tick of its timer, removes the file
 * named by its own counter if it exists. Its counter is independent of the
 * creator's; the two agree only because both start at 0 and use FileName.
 */
module Deleter {
  import opened FileNames
  import opened Directory

  /** The period `startDeleting` always starts the timer with. */
  const DeleteIntervalOnStart := 6000

  class FileDeleter {
    var folderPath: string
    var nextToDelete: nat
    var running: bool
    var interval: int

    /** A fresh QTimer is stopped and has interval 0. */
    constructor (folderPath: string)
      ensures this.folderPath == folderPath && nextToDelete == 0
      ensures !running && interval == 0
    {
      this.folderPath := folderPath;
      nextToDelete := 0;
      running := false;
      interval := 0;
    }

    /** `timer->start(6000)`: (re)starts the timer with the fixed period, whatever was set before. */
    method StartDeleting()
      modifies this`running, this`interval
      ensures running && interval == DeleteIntervalOnStart
    {
      running := true;
      interval := DeleteIntervalOnStart;
    }

    method StopDeleting()
      modifies this`running
      ensures !running
    {
      running := false;
    }

    method SetInterval(ms: int)
      modifies this`interval
      ensures interval == ms
    {
      interval := ms;
    }

    method UpdateFolderPath(newPath: string)
      modifies this`folderPath
      ensures folderPath == newPath
    {
      folderPath := newPath;
    }

    /**
     * One tick: remove folderPath/FileName(N) if it exists, leave every other
     * file alone, and advance the counter whether or not anything was removed.
     */
    method DeleteOldestFile(fs: FileSystem)
      modifies this`nextToDelete, fs
      ensures nextToDelete == old(nextToDelete) + 1
      ensures fs.dirs == RemoveFile(old(fs.dirs), folderPath, FileName(old(nextToDelete)))
      ensures folderPath in fs.dirs ==> FileName(old(nextToDelete)) !in fs.dirs[folderPath]
    {
      var fileName := FileName(nextToDelete);
      if folderPath in fs.dirs && fileName in fs.dirs[folderPath] {
        fs.dirs := RemoveFile(fs.dirs, folderPath, fileName);
      }
      nextToDelete := nextToDelete + 1;
    }
  }
}
