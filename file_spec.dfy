/** The file store as a state machine over an abstract file system: its
    construction, (re)opening of the active file, size accounting on writes,
    size and daily rotation, and the failure exits of a rotation. Each step is a
    function from the store's settings and state (plus the date, the clock and
    the failures the operating system may report) to the next state and the
    error, if any. The class in file_store.dfy is proved to follow them. */
module FileSpec {
  import opened Common
  import opened Paths
  import opened FileNaming

  /** FileConfig. */
  datatype FileConfig = FileConfig(fileName: string, dailyRotate: bool, maxDays: uint16, maxSize: uint32, perm: string)

  /** The errors the file store returns or reports. */
  datatype FileError =
    | FilenameEmpty   // "filename empty"
    | FilenameNoExt   // "filename must in *.* format"
    | PermSyntax      // strconv.ParseInt rejected Perm
    | NoFreeNumber    // "cannot find free log number to rename ..."
    | ChmodFailed     // "Chmod err: ..."
    | StartFailed     // "startLogger err: ..."
    | WriteFailed     // an error os.File.Write returned (disk full, I/O error)
    | InvalidHandle   // os.ErrInvalid: a write on a nil file
    | FileClosed      // os.ErrClosed: a write on a closed file

  /** The permission string every store is created with. */
  const DefaultPerm: string := "0660"

  /** The mode of a rotated file, 0440. */
  const RotatedMode: uint32 := 0x120

  /** The configuration part of a FileStore, which no operation changes. */
  datatype Settings = Settings(
    filename: string,
    prefix: string,
    dailyRotate: bool,
    maxDays: uint16,
    maxSize: uint32,
    perm: string)

  /** What NewFileStore guarantees of the settings it builds. */
  predicate WellFormed(s: Settings) {
    s.filename != "" && Ext(s.filename) != "" && s.prefix == StripExt(s.filename)
  }

  /** NewFileStore: rejects an empty name and a name without extension; otherwise the
      prefix is the name without its extension and Perm is always "0660" (the
      configured Perm is not used). */
  function NewSettings(cfg: FileConfig): (r: Result<Settings, FileError>)
    ensures r == Err(FilenameEmpty) <==> cfg.fileName == ""
    ensures r == Err(FilenameNoExt) <==> cfg.fileName != "" && Ext(cfg.fileName) == ""
    ensures r.Ok? ==> WellFormed(r.value) && r.value.filename == cfg.fileName
    ensures r.Ok? ==> r.value.prefix + Ext(cfg.fileName) == cfg.fileName && |r.value.prefix| < |cfg.fileName|
    ensures r.Ok? ==> r.value.perm == DefaultPerm
    ensures r.Ok? ==> r.value.dailyRotate == cfg.dailyRotate && r.value.maxDays == cfg.maxDays && r.value.maxSize == cfg.maxSize
  {
    if |cfg.fileName| == 0 then Err(FilenameEmpty)
    else if Ext(cfg.fileName) == "" then Err(FilenameNoExt)
    else Ok(Settings(cfg.fileName, StripExt(cfg.fileName), cfg.dailyRotate, cfg.maxDays, cfg.maxSize, DefaultPerm))
  }

  /** The configuration of the test of the file store is accepted, with prefix "test". */
  lemma TestConfigAccepted()
    ensures NewSettings(FileConfig("test.log", true, 3, 100, "")).Ok?
    ensures NewSettings(FileConfig("test.log", true, 3, 100, "")).value.prefix == "test"
  {
    var name := "test.log";
    assert name[7] == 'g' && name[6] == 'o' && name[5] == 'l' && name[4] == '.';
    assert ExtBefore(name, 8) == ExtBefore(name, 7) == ExtBefore(name, 6) == ExtBefore(name, 5) == name[4..];
    assert name[4..] == ".log";
    assert name[..4] == "test";
  }

  /** The name ".log" is accepted, and its prefix is empty (see
      FileNaming.EmptyPrefixMissesRotatedFiles for what the cleanup then does). */
  lemma DotLogNameAccepted(cfg: FileConfig)
    requires cfg.fileName == ".log"
    ensures NewSettings(cfg).Ok? && NewSettings(cfg).value.prefix == ""
  {
    DotLogExt("");
    assert "" + ".log" == cfg.fileName;
  }

  // ---------------------------------------------------------------------------
  // The file system and the store's state
  // ---------------------------------------------------------------------------

  /** A regular file: its contents, its mode and its modification time (nanoseconds). */
  datatype FileEntry = FileEntry(data: string, perm: uint32, modTime: int)

  /** The store's file handle: none yet (nil), open on the active path, or closed. */
  datatype Handle = Nil | Open | Closed

  /** The state a store operation changes: the files, the handle, the size counter, and
      how many timer tasks (`run`) and cleanup tasks (`deleteExpiredFile`) were launched. */
  datatype FileState = FileState(
    files: map<string, FileEntry>,
    fp: Handle,
    nowSize: uint32,
    timers: nat,
    sweeps: nat)

  /** What a step takes from outside: the date rotated files are named after
      ("2006-01-02" layout), the current time, and whether os.Rename and os.Chmod fail. */
  datatype Env = Env(date: string, now: int, renameFails: bool, chmodFails: bool, writeFails: bool)

  /** The state after a step and the error the step returned or reported. */
  datatype Outcome = Outcome(st: FileState, err: Option<FileError>)

  /** os.OpenFile(path, O_WRONLY|O_APPEND|O_CREATE, mode) followed by os.Chmod(path, mode):
      an existing file keeps its contents and gets the mode, a missing one is created empty. */
  function Opened(files: map<string, FileEntry>, path: string, mode: uint32, now: int): map<string, FileEntry> {
    if path in files then files[path := files[path].(perm := mode)]
    else files[path := FileEntry("", mode, now)]
  }

  /** os.Rename(from, to): the entry moves to the new name. */
  function Moved(files: map<string, FileEntry>, from: string, to: string): map<string, FileEntry>
    requires from in files
  {
    (files - {from})[to := files[from]]
  }

  /** A write of `data` through a handle on `path`; if the path was removed the bytes
      go to the unlinked file and no entry changes. */
  function Appended(files: map<string, FileEntry>, path: string, data: string, now: int): map<string, FileEntry> {
    if path !in files then files
    else if data == "" then files
    else files[path := FileEntry(files[path].data + data, files[path].perm, now)]
  }

  /** os.Remove of each of `paths`. */
  function RemoveAll(files: map<string, FileEntry>, paths: seq<string>): (r: map<string, FileEntry>)
    ensures forall p :: p in r <==> p in files && p !in paths
    ensures forall p :: p in r ==> r[p] == files[p]
  {
    map p | p in files && p !in paths :: files[p]
  }

  /** os.File.Close: an open handle becomes closed; closing a closed or nil handle
      only returns an error, which the store ignores. */
  function CloseHandle(h: Handle): Handle {
    if h.Open? then Closed else h
  }

  /** startLogger: parses Perm as an octal number, opens (or creates) the active file
      with that mode, records its size (truncated to 32 bits) as the current size,
      installs the new handle in place of the old one and, for daily rotation,
      launches a timer task. */
  function StartLogger(s: Settings, st: FileState, now: int): (r: Outcome)
    ensures r.err.Some? <==> ParseOctal(s.perm).None?
    ensures r.err.Some? ==> r.st == st
    ensures r.err.None? ==> r.st.fp == Open && s.filename in r.st.files && r.st.sweeps == st.sweeps
  {
    match ParseOctal(s.perm)
    case None => Outcome(st, Some(PermSyntax))
    case Some(p) =>
      var files := Opened(st.files, s.filename, ToUint32(p), now);
      Outcome(FileState(files, Open, ToUint32(|files[s.filename].data|),
                        st.timers + (if s.dailyRotate then 1 else 0), st.sweeps),
              None)
  }

  /** The RESTART_LOGGER exit of rename: startLogger, launch of the cleanup task, and
      startLogger's error wrapped. */
  function Restart(s: Settings, st: FileState, now: int): (r: Outcome)
    ensures r.st.sweeps == st.sweeps + 1
    ensures r.err == None || r.err == Some(StartFailed)
    ensures r.err == None <==> ParseOctal(s.perm).Some?
  {
    var o := StartLogger(s, st, now);
    Outcome(o.st.(sweeps := o.st.sweeps + 1), if o.err.Some? then Some(StartFailed) else None)
  }

  /** rename: when the active file is missing, straight to the restart; otherwise the
      lowest free sequence number (an error, with nothing changed, when all are taken),
      the handle closed, the active file moved to the rotated name (a failed move goes
      to the restart), the rotated file made read-only (a failed chmod returns without
      reopening), and the restart. */
  function Rename(s: Settings, st: FileState, env: Env): (r: Outcome)
    ensures r.err == None || r.err == Some(NoFreeNumber) || r.err == Some(ChmodFailed) || r.err == Some(StartFailed)
    ensures r.err == Some(NoFreeNumber) ==> r.st == st
    ensures r.err == None ==> r.st.fp == Open && s.filename in r.st.files && r.st.sweeps == st.sweeps + 1
  {
    if s.filename !in st.files then Restart(s, st, env.now)
    else
      match FirstFree(st.files.Keys, s.prefix, env.date, 1)
      case None => Outcome(st, Some(NoFreeNumber))
      case Some(num) => RotateTo(s, st, RotatedName(s.prefix, env.date, num), env)
  }

  /** The part of rename after a free number is found: close the handle, move the active
      file to `name`, make it read-only, restart. A failed move still restarts; a failed
      chmod returns at once. */
  function RotateTo(s: Settings, st: FileState, name: string, env: Env): (r: Outcome)
    requires s.filename in st.files
    ensures r.err == None || r.err == Some(ChmodFailed) || r.err == Some(StartFailed)
    ensures r.err == Some(ChmodFailed) <==> !env.renameFails && env.chmodFails
  {
    var closed := st.(fp := CloseHandle(st.fp));
    if env.renameFails then Restart(s, closed, env.now)
    else
      var moved := closed.(files := Moved(st.files, s.filename, name));
      if env.chmodFails then Outcome(moved, Some(ChmodFailed))
      else Restart(s, moved.(files := moved.files[name := moved.files[name].(perm := RotatedMode)]), env.now)
  }

  /** os.File.Write through the store's handle. */
  function WriteHandle(s: Settings, st: FileState, msg: string, now: int, fails: bool): (r: Outcome)
    ensures r.err.None? <==> st.fp.Open? && !fails
    ensures r.err == Some(WriteFailed) <==> st.fp.Open? && fails
    ensures r.err.Some? ==> r.st == st
    ensures r.st.fp == st.fp && r.st.nowSize == st.nowSize && r.st.files.Keys == st.files.Keys
  {
    match st.fp
    case Nil => Outcome(st, Some(InvalidHandle))
    case Closed => Outcome(st, Some(FileClosed))
    case Open =>
      if fails then Outcome(st, Some(WriteFailed))
      else Outcome(st.(files := Appended(st.files, s.filename, msg, now)), None)
  }

  /** The size check of checkFileSizeRotate; rename's error is reported, not returned. */
  function CheckSize(s: Settings, st: FileState, env: Env): (r: FileState)
    ensures st.nowSize <= s.maxSize ==> r == st
    ensures st.nowSize > s.maxSize ==> r.sweeps <= st.sweeps + 1
  {
    if st.nowSize > s.maxSize then Rename(s, st, env).st else st
  }

  /** WriteMsg: adds the message length to the current size (32-bit wrap-around),
      rotates when the new size exceeds the maximum, then writes. */
  function Write(s: Settings, st: FileState, msg: string, env: Env): (r: Outcome)
    ensures r.err == None || r.err == Some(InvalidHandle) || r.err == Some(FileClosed) || r.err == Some(WriteFailed)
    ensures ToUint32(st.nowSize + |msg|) <= s.maxSize ==> r.st.nowSize == ToUint32(st.nowSize + |msg|) && r.st.fp == st.fp
  {
    var grown := st.(nowSize := ToUint32(st.nowSize + |msg|));
    WriteHandle(s, CheckSize(s, grown, env), msg, env.now, env.writeFails)
  }

  /** One tick of the timer task of `run`: in hour 0 a store with daily rotation
      rotates, whatever its size; the error is reported. */
  function Tick(s: Settings, st: FileState, hour: int, env: Env): (r: Outcome)
    ensures r.st != st || r.err.Some? ==> hour == 0 && s.dailyRotate
  {
    if hour == 0 && s.dailyRotate then Rename(s, st, env) else Outcome(st, None)
  }

  /** One cleanup task (deleteExpiredFile) over what the walk of the active file's
      directory visited: every expired path is removed. */
  function Sweep(s: Settings, st: FileState, entries: seq<WalkEntry>, now: int): (r: FileState)
    ensures r.files.Keys <= st.files.Keys
    ensures r.fp == st.fp && r.nowSize == st.nowSize && r.timers == st.timers && r.sweeps == st.sweeps
  {
    st.(files := RemoveAll(st.files, ExpiredPaths(entries, s.prefix, s.maxDays, now)))
  }

  /** The store call of a logger whose store is a file store: Init, that is startLogger,
      with its error ignored, then WriteMsg. */
  function StoreLine(s: Settings, st: FileState, line: string, env: Env): (r: Outcome)
    ensures r.err == None || r.err == Some(InvalidHandle) || r.err == Some(FileClosed) || r.err == Some(WriteFailed)
    ensures line == "" ==> r == Outcome(st, None)
    ensures line != "" && ParseOctal(s.perm).None? ==> r == Write(s, st, line, env)
  {
    if line == "" then Outcome(st, None)
    else Write(s, StartLogger(s, st, env.now).st, line, env)
  }

  // ---------------------------------------------------------------------------
  // Properties of the steps
  // ---------------------------------------------------------------------------

  /** Entries other than `a` and `b` are the same in both maps. */
  ghost predicate SameExcept(m: map<string, FileEntry>, m': map<string, FileEntry>, a: string, b: string) {
    forall p :: p != a && p != b ==> (p in m <==> p in m') && (p in m ==> m[p] == m'[p])
  }

  /** startLogger fails on a Perm that is not an octal number and then changes nothing. */
  lemma StartLoggerRejectsBadPerm(s: Settings, st: FileState, now: int)
    requires ParseOctal(s.perm).None?
    ensures StartLogger(s, st, now) == Outcome(st, Some(PermSyntax))
  {
  }

  /** Otherwise the active file exists with the parsed mode and its old contents (none
      if it was new), the handle is open, the current size is the file's size, and a
      timer task is launched on every call when daily rotation is on. */
  lemma StartLoggerOpens(s: Settings, st: FileState, now: int, p: int)
    requires ParseOctal(s.perm) == Some(p)
    ensures var o := StartLogger(s, st, now);
      o.err == None && o.st.fp == Open &&
      s.filename in o.st.files && o.st.files[s.filename].perm == ToUint32(p) &&
      o.st.files[s.filename].data == (if s.filename in st.files then st.files[s.filename].data else "") &&
      o.st.nowSize == ToUint32(|o.st.files[s.filename].data|) &&
      SameExcept(st.files, o.st.files, s.filename, s.filename) &&
      o.st.timers == st.timers + (if s.dailyRotate then 1 else 0)
  {
  }

  /** With every sequence number of the date taken, rename reports it and changes nothing:
      the handle stays as it was and the active file is not reopened. */
  lemma RenameAllTaken(s: Settings, st: FileState, env: Env)
    requires s.filename in st.files
    requires forall k :: 1 <= k <= MaxSeq ==> RotatedName(s.prefix, env.date, k) in st.files
    ensures Rename(s, st, env) == Outcome(st, Some(NoFreeNumber))
  {
  }

  /** A rotation that succeeds: the previous contents of the active file live under the
      rotated name with mode 0440, the rotated name is the lowest free one, the active
      path is a fresh empty file, the size count restarts at 0 and the handle is open;
      no other file changes. */
  lemma RenameRotates(s: Settings, st: FileState, env: Env, num: nat, p: int)
    requires WellFormed(s) && s.filename in st.files
    requires !env.renameFails && !env.chmodFails && ParseOctal(s.perm) == Some(p)
    requires FirstFree(st.files.Keys, s.prefix, env.date, 1) == Some(num)
    ensures var o := Rename(s, st, env);
      var name := RotatedName(s.prefix, env.date, num);
      o.err == None && o.st.fp == Open && o.st.nowSize == 0 &&
      name !in st.files && (forall k :: 1 <= k < num ==> RotatedName(s.prefix, env.date, k) in st.files) &&
      name in o.st.files && o.st.files[name] == st.files[s.filename].(perm := RotatedMode) &&
      s.filename in o.st.files && o.st.files[s.filename] == FileEntry("", ToUint32(p), env.now) &&
      SameExcept(st.files, o.st.files, s.filename, name)
  {
    RotatedNameIsNotActive(s.filename, env.date, num);
  }

  /** A failed chmod of the rotated file: the error is returned, the old contents sit
      under the rotated name with their old mode, the active path is left missing and
      the handle closed, and no restart happens. */
  lemma RenameChmodFails(s: Settings, st: FileState, env: Env, num: nat)
    requires WellFormed(s) && s.filename in st.files && st.fp == Open
    requires !env.renameFails && env.chmodFails
    requires FirstFree(st.files.Keys, s.prefix, env.date, 1) == Some(num)
    ensures var o := Rename(s, st, env);
      var name := RotatedName(s.prefix, env.date, num);
      o.err == Some(ChmodFailed) && o.st.fp == Closed && o.st.nowSize == st.nowSize &&
      s.filename !in o.st.files && name in o.st.files && o.st.files[name] == st.files[s.filename] &&
      o.st.sweeps == st.sweeps && o.st.timers == st.timers
  {
    RotatedNameIsNotActive(s.filename, env.date, num);
  }

  /** A failed os.Rename goes straight to the restart: the active file is reopened with
      its contents, and the size count is its size again. */
  lemma RenameMoveFails(s: Settings, st: FileState, env: Env, num: nat, p: int)
    requires s.filename in st.files && env.renameFails && ParseOctal(s.perm) == Some(p)
    requires FirstFree(st.files.Keys, s.prefix, env.date, 1) == Some(num)
    ensures var o := Rename(s, st, env);
      o.err == None && o.st.fp == Open &&
      s.filename in o.st.files && o.st.files[s.filename].data == st.files[s.filename].data &&
      o.st.nowSize == ToUint32(|st.files[s.filename].data|) &&
      SameExcept(st.files, o.st.files, s.filename, s.filename)
  {
  }

  /** With the active file missing, rename only reopens: a new empty active file and a
      size count of 0. */
  lemma RenameMissingActive(s: Settings, st: FileState, env: Env, p: int)
    requires s.filename !in st.files && ParseOctal(s.perm) == Some(p)
    ensures var o := Rename(s, st, env);
      o.err == None && o.st.fp == Open && o.st.nowSize == 0 &&
      s.filename in o.st.files && o.st.files[s.filename] == FileEntry("", ToUint32(p), env.now) &&
      SameExcept(st.files, o.st.files, s.filename, s.filename)
  {
  }

  /** Rotation never reuses a name on the same date: after a successful rotation with
      number `num`, the next rotation picks a larger number or none at all. */
  lemma NextRotationHigher(s: Settings, st: FileState, env: Env, num: nat, p: int)
    requires WellFormed(s) && s.filename in st.files
    requires !env.renameFails && !env.chmodFails && ParseOctal(s.perm) == Some(p)
    requires FirstFree(st.files.Keys, s.prefix, env.date, 1) == Some(num)
    ensures var next := FirstFree(Rename(s, st, env).st.files.Keys, s.prefix, env.date, 1);
      next.None? || next.value > num
  {
    RenameRotates(s, st, env, num, p);
    var o := Rename(s, st, env);
    forall k | 1 <= k <= num
      ensures RotatedName(s.prefix, env.date, k) in o.st.files
    {
      RotatedNameIsNotActive(s.filename, env.date, k);
      if k < num {
        RotatedNameInjective(s.prefix, env.date, k, num);
      }
    }
  }

  /** The size count is 32 bits wide: an active file of 2^32 + k bytes is recorded by
      startLogger as k bytes, so a following write within k + its length <= MaxSize is
      appended without a rotation. */
  lemma LargeFileSizeWraps(s: Settings, st: FileState, now: int, p: int, k: nat, msg: string, env: Env)
    requires !env.writeFails
    requires ParseOctal(s.perm) == Some(p) && s.filename in st.files
    requires |st.files[s.filename].data| == 0x1_0000_0000 + k && k + |msg| <= s.maxSize
    ensures StartLogger(s, st, now).st.nowSize == k
    ensures var o := Write(s, StartLogger(s, st, now).st, msg, env);
      o.err == None && o.st.nowSize == k + |msg| &&
      o.st.files[s.filename].data == st.files[s.filename].data + msg
  {
    assert (0x1_0000_0000 + k) % 0x1_0000_0000 == k;
  }

  /** Behind a logger, a file store is started again for every line: the size count
      forgets what it was and becomes the size on disk plus the line, and with daily
      rotation every line launches one more timer task. */
  lemma EveryLineRestartsStore(s: Settings, st: FileState, line: string, env: Env, p: int)
    requires line != ""
    requires !env.writeFails
    requires ParseOctal(s.perm) == Some(p) && s.dailyRotate && s.filename in st.files
    requires |st.files[s.filename].data| + |line| <= s.maxSize
    ensures var o := StoreLine(s, st, line, env);
      o.err == None && o.st.timers == st.timers + 1 && o.st.sweeps == st.sweeps &&
      o.st.nowSize == |st.files[s.filename].data| + |line| &&
      o.st.files[s.filename].data == st.files[s.filename].data + line
  {
  }

  /** A write the operating system rejects returns its error and leaves the file as it
      was, yet the size count has already grown by the message. */
  lemma WriteFailureStillCounts(s: Settings, st: FileState, msg: string, env: Env)
    requires st.fp == Open && env.writeFails
    requires ToUint32(st.nowSize + |msg|) <= s.maxSize
    ensures var o := Write(s, st, msg, env);
      o.err == Some(WriteFailed) && o.st.files == st.files && o.st.fp == Open &&
      o.st.nowSize == ToUint32(st.nowSize + |msg|)
  {
  }

  /** A write that keeps the size within the maximum appends the message to the active
      file and adds its length to the size count. */
  lemma WriteWithinLimit(s: Settings, st: FileState, msg: string, env: Env)
    requires !env.writeFails
    requires st.fp == Open && s.filename in st.files && msg != ""
    requires ToUint32(st.nowSize + |msg|) <= s.maxSize
    ensures var o := Write(s, st, msg, env);
      o.err == None && o.st.fp == Open && o.st.nowSize == ToUint32(st.nowSize + |msg|) &&
      o.st.files[s.filename].data == st.files[s.filename].data + msg &&
      SameExcept(st.files, o.st.files, s.filename, s.filename)
  {
  }

  /** A write that pushes the size past the maximum rotates first: the rotated file holds
      the contents from before the message, the fresh active file holds the message, and
      the size count is 0, so the message's own bytes are not counted. */
  lemma WriteRotates(s: Settings, st: FileState, msg: string, env: Env, num: nat, p: int)
    requires !env.writeFails
    requires WellFormed(s) && s.filename in st.files && msg != ""
    requires ToUint32(st.nowSize + |msg|) > s.maxSize
    requires !env.renameFails && !env.chmodFails && ParseOctal(s.perm) == Some(p)
    requires FirstFree(st.files.Keys, s.prefix, env.date, 1) == Some(num)
    ensures var o := Write(s, st, msg, env);
      var name := RotatedName(s.prefix, env.date, num);
      o.err == None && o.st.nowSize == 0 &&
      name in o.st.files && o.st.files[name].data == st.files[s.filename].data &&
      s.filename in o.st.files && o.st.files[s.filename].data == msg
  {
    var grown := st.(nowSize := ToUint32(st.nowSize + |msg|));
    RenameRotates(s, grown, env, num, p);
    RotatedNameIsNotActive(s.filename, env.date, num);
  }

  /** After a failed chmod the handle is closed: a write within the limit is lost with
      an error, yet the size count still grows. */
  lemma WriteOnClosedHandle(s: Settings, st: FileState, msg: string, env: Env)
    requires st.fp == Closed && ToUint32(st.nowSize + |msg|) <= s.maxSize
    ensures Write(s, st, msg, env) == Outcome(st.(nowSize := ToUint32(st.nowSize + |msg|)), Some(FileClosed))
  {
  }

  /** The store recovers from a failed chmod at the next write that exceeds the maximum:
      the active path is missing, so rename reopens it and the message is written. */
  lemma WriteRecoversAfterChmodFailure(s: Settings, st: FileState, msg: string, env: Env, p: int)
    requires !env.writeFails
    requires st.fp == Closed && s.filename !in st.files && msg != ""
    requires ToUint32(st.nowSize + |msg|) > s.maxSize && ParseOctal(s.perm) == Some(p)
    ensures var o := Write(s, st, msg, env);
      o.err == None && o.st.fp == Open && s.filename in o.st.files && o.st.files[s.filename].data == msg
  {
  }

  /** In hour 0 a tick rotates a store with daily rotation even when its size is within
      the maximum, where the size check of a write would leave it alone: the contents
      move to the lowest free rotated name and the active file starts again empty. */
  lemma TickRotatesWithinLimit(s: Settings, st: FileState, env: Env, num: nat, p: int)
    requires WellFormed(s) && s.dailyRotate && s.filename in st.files && st.nowSize <= s.maxSize
    requires !env.renameFails && !env.chmodFails && ParseOctal(s.perm) == Some(p)
    requires FirstFree(st.files.Keys, s.prefix, env.date, 1) == Some(num)
    ensures CheckSize(s, st, env) == st
    ensures var o := Tick(s, st, 0, env);
      var name := RotatedName(s.prefix, env.date, num);
      o.err == None && o.st.nowSize == 0 && o.st.fp == Open &&
      name in o.st.files && o.st.files[name].data == st.files[s.filename].data &&
      s.filename in o.st.files && o.st.files[s.filename].data == "" &&
      SameExcept(st.files, o.st.files, s.filename, name)
  {
    RenameRotates(s, st, env, num, p);
  }

  /** The timer ticks every minute, so a second tick in the same hour 0 rotates again: the
      active file, emptied by the first tick, goes to a higher number, and the file of the
      first tick keeps the old contents. */
  lemma TickRotatesAgain(s: Settings, st: FileState, env: Env, num: nat, num2: nat, p: int)
    requires WellFormed(s) && s.dailyRotate && s.filename in st.files && st.nowSize <= s.maxSize
    requires !env.renameFails && !env.chmodFails && ParseOctal(s.perm) == Some(p)
    requires FirstFree(st.files.Keys, s.prefix, env.date, 1) == Some(num)
    requires FirstFree(Tick(s, st, 0, env).st.files.Keys, s.prefix, env.date, 1) == Some(num2)
    ensures num2 > num
    ensures var o := Tick(s, Tick(s, st, 0, env).st, 0, env);
      var first, second := RotatedName(s.prefix, env.date, num), RotatedName(s.prefix, env.date, num2);
      first in o.st.files && o.st.files[first].data == st.files[s.filename].data &&
      second in o.st.files && o.st.files[second].data == ""
  {
    TickRotatesWithinLimit(s, st, env, num, p);
    NextRotationHigher(s, st, env, num, p);
    var st1 := Tick(s, st, 0, env).st;
    TickRotatesWithinLimit(s, st1, env, num2, p);
    RotatedNameIsNotActive(s.filename, env.date, num);
    RotatedNameInjective(s.prefix, env.date, num, num2);
  }

  /** The worked example: rotating app.log on 2024-01-02 with numbers 001 to 005 taken
      picks app_2024-01-02_006.log, and app.log is recreated empty. */
  lemma RotationExample(st: FileState, env: Env)
    requires env.date == "2024-01-02" && !env.renameFails && !env.chmodFails
    requires "app.log" in st.files && "app_2024-01-02_006.log" !in st.files
    requires forall k :: 1 <= k <= 5 ==> RotatedName("app", "2024-01-02", k) in st.files
    ensures var o := Rename(Settings("app.log", "app", false, 3, 100, DefaultPerm), st, env);
      o.err == None && o.st.nowSize == 0 &&
      "app_2024-01-02_006.log" in o.st.files &&
      o.st.files["app_2024-01-02_006.log"].data == st.files["app.log"].data &&
      "app.log" in o.st.files && o.st.files["app.log"].data == ""
  {
    var s := Settings("app.log", "app", false, 3, 100, DefaultPerm);
    var name := RotatedName("app", env.date, 6);
    ExampleSixthName("app", env.date, name);
    ExampleFirstFree(st.files.Keys, "app", env.date, name);
    DefaultPermParses();
    assert s.filename != name;
  }

  /** The sixth rotated name of app.log on 2024-01-02. */
  lemma ExampleSixthName(prefix: string, date: string, name: string)
    requires prefix == "app" && date == "2024-01-02" && name == RotatedName(prefix, date, 6)
    ensures name == "app_2024-01-02_006.log"
  {
    assert Pad3(6) == "006";
  }

  /** With 1 to 5 taken and 6 free, the search stops at 6. */
  lemma ExampleFirstFree(taken: set<string>, prefix: string, date: string, name: string)
    requires name == RotatedName(prefix, date, 6) && name !in taken
    requires forall k :: 1 <= k <= 5 ==> RotatedName(prefix, date, k) in taken
    ensures FirstFree(taken, prefix, date, 1) == Some(6)
  {
    assert FirstFree(taken, prefix, date, 6) == Some(6);
    assert FirstFree(taken, prefix, date, 5) == Some(6);
    assert FirstFree(taken, prefix, date, 4) == Some(6);
    assert FirstFree(taken, prefix, date, 3) == Some(6);
    assert FirstFree(taken, prefix, date, 2) == Some(6);
  }

  /** A sweep removes exactly the visited files that are older than MaxDays and carry
      the store's name; the active file is one of them once it is old enough. */
  lemma SweepRemovesExpired(s: Settings, st: FileState, entries: seq<WalkEntry>, now: int)
    ensures forall p :: p in Sweep(s, st, entries, now).files <==>
      p in st.files && !(exists e :: e in entries && Expired(e, s.prefix, s.maxDays, now) && e.path == p)
    ensures forall p :: p in Sweep(s, st, entries, now).files ==> Sweep(s, st, entries, now).files[p] == st.files[p]
    ensures Sweep(s, st, entries, now).fp == st.fp && Sweep(s, st, entries, now).nowSize == st.nowSize
  {
    ExpiredPathsMembers(entries, s.prefix, s.maxDays, now);
  }
}
