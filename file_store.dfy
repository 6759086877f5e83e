/** The file store as the source has it: an object whose methods change its
    handle, its size counter and the files on disk step by step, each proved to
    take the step its specification function in file_spec.dfy describes. */
module FileStoreImpl {
  import opened Common
  import opened Paths
  import opened FileNaming
  import opened FileSpec

  /** The part of the file system the store touches, as a map from path to file. */
  class Disk {
    var files: map<string, FileEntry>

    constructor (initial: map<string, FileEntry>)
      ensures files == initial
    {
      files := initial;
    }

    /** os.Lstat succeeds. */
    method Exists(path: string) returns (b: bool)
      ensures b <==> path in files
    {
      b := path in files;
    }

    /** os.OpenFile(path, O_WRONLY|O_APPEND|O_CREATE, mode), then os.Chmod(path, mode). */
    method OpenAppend(path: string, mode: uint32, now: int)
      modifies this
      ensures files == Opened(old(files), path, mode, now)
    {
      if path in files {
        files := files[path := files[path].(perm := mode)];
      } else {
        files := files[path := FileEntry("", mode, now)];
      }
    }

    /** os.Rename(from, to); `fails` stands for an error the operating system returns. */
    method Rename(from: string, to: string, fails: bool) returns (ok: bool)
      modifies this
      ensures ok <==> !fails && from in old(files)
      ensures files == if ok then Moved(old(files), from, to) else old(files)
    {
      ok := !fails && from in files;
      if ok {
        files := (files - {from})[to := files[from]];
      }
    }

    /** os.Chmod(path, mode); `fails` stands for an error the operating system returns. */
    method Chmod(path: string, mode: uint32, fails: bool) returns (ok: bool)
      modifies this
      ensures ok <==> !fails && path in old(files)
      ensures files == if ok then old(files)[path := old(files)[path].(perm := mode)] else old(files)
    {
      ok := !fails && path in files;
      if ok {
        files := files[path := files[path].(perm := mode)];
      }
    }

    /** A write of `data` through a handle opened on `path`. */
    method Append(path: string, data: string, now: int)
      modifies this
      ensures files == Appended(old(files), path, data, now)
    {
      if path in files && data != "" {
        files := files[path := FileEntry(files[path].data + data, files[path].perm, now)];
      }
    }
  }

  class FileStore {
    var filename: string
    var fileNamePrefix: string
    var fp: Handle
    var dailyRotate: bool
    var maxDays: uint16
    var maxSize: uint32
    var nowSize: uint32
    var perm: string
    const disk: Disk
    /** The handles this store opened and has not closed. */
    ghost var openHandles: nat
    /** The timer tasks and cleanup tasks launched so far. */
    ghost var timers: nat
    ghost var sweeps: nat

    function Config(): Settings
      reads this
    {
      Settings(filename, fileNamePrefix, dailyRotate, maxDays, maxSize, perm)
    }

    ghost function State(): FileState
      reads this, disk
    {
      FileState(disk.files, fp, nowSize, timers, sweeps)
    }

    /** The settings are those NewFileStore builds, and at most one handle is open:
        the one in `fp`. */
    ghost predicate Valid()
      reads this
    {
      WellFormed(Config()) && openHandles == (if fp.Open? then 1 else 0)
    }

    constructor (s: Settings, d: Disk)
      requires WellFormed(s)
      ensures Valid() && Config() == s && disk == d
      ensures fp == Nil && nowSize == 0 && timers == 0 && sweeps == 0
    {
      filename := s.filename;
      fileNamePrefix := s.prefix;
      dailyRotate := s.dailyRotate;
      maxDays := s.maxDays;
      maxSize := s.maxSize;
      perm := s.perm;
      disk := d;
      fp := Nil;
      nowSize := 0;
      openHandles, timers, sweeps := 0, 0, 0;
    }

    /** Init: startLogger. */
    method Init(now: int) returns (err: Option<FileError>)
      requires Valid()
      modifies this, disk
      ensures Valid() && Config() == old(Config())
      ensures Outcome(State(), err) == FileSpec.StartLogger(old(Config()), old(State()), now)
    {
      err := StartLogger(now);
    }

    /** startLogger: parses Perm, reopens the active file, and launches the timer task
        of initLogFile for daily rotation. */
    method StartLogger(now: int) returns (err: Option<FileError>)
      requires Valid()
      modifies this, disk
      ensures Valid() && Config() == old(Config())
      ensures Outcome(State(), err) == FileSpec.StartLogger(old(Config()), old(State()), now)
    {
      var parsed := ParseOctal(perm);
      if parsed.None? {
        return Some(PermSyntax);
      }
      ghost var before := State();
      Reopen(ToUint32(parsed.value), now);
      // initLogFile
      if dailyRotate {
        timers := timers + 1;
      }
      err := None;
      assert State() == FileSpec.StartLogger(Config(), before, now).st;
    }

    /** The middle of startLogger: opens the active file with `mode` (creating it if
        needed), records its size, and puts the new handle in place of the old one. */
    method Reopen(mode: uint32, now: int)
      requires Valid()
      modifies this, disk
      ensures Valid() && Config() == old(Config())
      ensures disk.files == Opened(old(disk.files), filename, mode, now)
      ensures fp == Open && nowSize == ToUint32(|disk.files[filename].data|)
      ensures timers == old(timers) && sweeps == old(sweeps)
    {
      disk.OpenAppend(filename, mode, now);
      openHandles := openHandles + 1;
      var size := ToUint32(|disk.files[filename].data|);
      if fp != Nil {
        CloseFile();
      }
      fp := Open;
      nowSize := size;
    }

    /** w.fp.Close(). */
    method CloseFile()
      requires fp.Open? ==> openHandles >= 1
      modifies this
      ensures fp == CloseHandle(old(fp))
      ensures openHandles == if old(fp).Open? then old(openHandles) - 1 else old(openHandles)
      ensures filename == old(filename) && fileNamePrefix == old(fileNamePrefix) && perm == old(perm)
      ensures dailyRotate == old(dailyRotate) && maxDays == old(maxDays) && maxSize == old(maxSize)
      ensures nowSize == old(nowSize) && timers == old(timers) && sweeps == old(sweeps)
    {
      if fp == Open {
        fp := Closed;
        openHandles := openHandles - 1;
      }
    }

    /** WriteMsg. */
    method WriteMsg(s: string, env: Env) returns (err: Option<FileError>)
      requires Valid()
      modifies this, disk
      ensures Valid() && Config() == old(Config())
      ensures Outcome(State(), err) == Write(old(Config()), old(State()), s, env)
    {
      nowSize := ToUint32(nowSize + |s|);
      CheckFileSizeRotate(env);
      match fp
      case Nil =>
        err := Some(InvalidHandle);
      case Closed =>
        err := Some(FileClosed);
      case Open =>
        if env.writeFails {
          err := Some(WriteFailed);
        } else {
          disk.Append(filename, s, env.now);
          err := None;
        }
    }

    /** checkFileSizeRotate: rotates when the size count exceeds the maximum; the error
        of rename is reported, not returned. */
    method CheckFileSizeRotate(env: Env)
      requires Valid()
      modifies this, disk
      ensures Valid() && Config() == old(Config())
      ensures State() == CheckSize(old(Config()), old(State()), env)
    {
      if nowSize > maxSize {
        var _ := Rename(env);
      }
    }

    /** One tick of the timer task of `run`, given the hour of the current time. */
    method Tick(hour: int, env: Env) returns (reported: Option<FileError>)
      requires Valid()
      modifies this, disk
      ensures Valid() && Config() == old(Config())
      ensures Outcome(State(), reported) == FileSpec.Tick(old(Config()), old(State()), hour, env)
    {
      reported := None;
      if hour == 0 {
        if dailyRotate {
          reported := Rename(env);
        }
      }
    }

    /** rename. */
    method Rename(env: Env) returns (err: Option<FileError>)
      requires Valid()
      modifies this, disk
      ensures Valid() && Config() == old(Config())
      ensures Outcome(State(), err) == FileSpec.Rename(old(Config()), old(State()), env)
    {
      var present := disk.Exists(filename);
      if !present {
        err := Restart(env.now);
        return;
      }
      var found, num := FindFreeNumber(disk.files.Keys, fileNamePrefix, env.date);
      if !found {
        return Some(NoFreeNumber);
      }
      var newFileName := RotatedName(fileNamePrefix, env.date, num);
      err := RotateTo(newFileName, env);
    }

    /** The rest of rename once the new name is known. */
    method RotateTo(newFileName: string, env: Env) returns (err: Option<FileError>)
      requires Valid()
      requires filename in disk.files
      modifies this, disk
      ensures Valid() && Config() == old(Config())
      ensures Outcome(State(), err) == FileSpec.RotateTo(old(Config()), old(State()), newFileName, env)
    {
      CloseFile();
      var renamed := disk.Rename(filename, newFileName, env.renameFails);
      if !renamed {
        err := Restart(env.now);
        return;
      }
      var chmodded := disk.Chmod(newFileName, RotatedMode, env.chmodFails);
      if !chmodded {
        return Some(ChmodFailed);
      }
      err := Restart(env.now);
    }

    /** The RESTART_LOGGER exit of rename. */
    method Restart(now: int) returns (err: Option<FileError>)
      requires Valid()
      modifies this, disk
      ensures Valid() && Config() == old(Config())
      ensures Outcome(State(), err) == FileSpec.Restart(old(Config()), old(State()), now)
    {
      var startErr := StartLogger(now);
      // go w.deleteExpiredFile()
      sweeps := sweeps + 1;
      err := if startErr.Some? then Some(StartFailed) else None;
    }

    /** Destroy closes the handle. */
    method Destroy()
      requires Valid()
      modifies this
      ensures Valid() && Config() == old(Config())
      ensures State() == old(State()).(fp := CloseHandle(old(fp)))
    {
      CloseFile();
    }

    /** Flush syncs the file to disk, which the model does not distinguish. */
    method Flush()
      ensures State() == old(State())
    {
    }
  }

  /** NewFileStore: a store over `disk` with the validated settings and no handle yet,
      or the configuration error. */
  method NewFileStore(cfg: FileConfig, disk: Disk) returns (r: Result<FileStore, FileError>)
    ensures NewSettings(cfg).Err? ==> r == Err(NewSettings(cfg).error)
    ensures NewSettings(cfg).Ok? ==>
      r.Ok? && fresh(r.value) && r.value.Valid() && r.value.disk == disk &&
      r.value.Config() == NewSettings(cfg).value &&
      r.value.State() == FileState(disk.files, Nil, 0, 0, 0)
  {
    if |cfg.fileName| == 0 {
      return Err(FilenameEmpty);
    }
    if Ext(cfg.fileName) == "" {
      return Err(FilenameNoExt);
    }
    var s := Settings(cfg.fileName, StripExt(cfg.fileName), cfg.dailyRotate, cfg.maxDays, cfg.maxSize, DefaultPerm);
    var store := new FileStore(s, disk);
    r := Ok(store);
  }
}
