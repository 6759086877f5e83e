# A verified model of the miaomiao3/log logging core

This project models the core of a small Go logging library in Dafny and proves
properties of it. The library has four parts:

- **Logger** (`log.go`). It filters messages by the eight RFC 5424 severity levels.
  It builds the format handed to `fmt`, assembles the log line, and then either hands
  the line to its store or queues it for a background worker (asynchronous mode).
- **Store** (`store.go`). This is the interface of log sinks: `Init`, `WriteMsg`,
  `Flush` and `Destroy`.
- **ConsoleStore** (`console.go`). It copies every line verbatim to standard output.
- **FileStore** (`file.go`). It appends lines to one active file and rotates that file.
  Rotation happens by size on the write path and daily from a timer task. A rotated
  file is named `<prefix>_<YYYY-MM-DD>_<NNN>.log`, using the lowest free number up to
  9999, and is made read-only (0440). After every rotation a cleanup task walks the
  directory of the active file, recursively, and deletes every entry that is not a
  directory, is older than `MaxDays`, and whose base name starts with the base name of
  the prefix. The active file itself is among them once it is old enough.
- **BaseLayout** (`layout.go`). It renders a record as timestamp, optional
  `[file:line] ` tag, severity tag, message and newline.

Modules and files:

- `common.dfy` (`Common`): Go's fixed-width integers and the few `strings` and
  `strconv` operations the core uses: `HasPrefix`, `Contains`, `Repeat`, `Itoa`, `%03d`,
  and `ParseInt` in base 8.
- `paths.dfy` (`Paths`): `filepath.Ext`, `filepath.Base` and `strings.TrimSuffix`.
- `console.dfy` (`Console`): the Store interface as a trace of calls, and the
  `ConsoleStore` class.
- `layout.dfy` (`Layout`): `BaseLayout.Layout`.
- `log.dfy` (`Log`): the levels, `formatLog`, the line assembly of `writeMsg`, the
  `Logger` class and the package-level setters.
- `file_naming.dfy` (`FileNaming`): rotated names, the search for a free number, and
  the expiry test of the cleanup task.
- `file_spec.dfy` (`FileSpec`): the file store as pure step functions over an abstract
  file system, with the properties of each step.
- `file_store.dfy` (`FileStoreImpl`): the `FileStore` object and a `Disk` object, whose
  methods update their fields in place. Each method is proved to take the step its
  `FileSpec` function describes.

Text is Go's byte string. A Dafny `string` here stands for a sequence of bytes, one
`char` per byte (each below 256), so `|s|` is Go's `len(s)` and the size counts of the
file store are byte counts. A message written as Unicode characters must be given as
its UTF-8 bytes.

Things the model takes as parameters instead of computing:

- the rendered timestamp;
- the date used in rotated names;
- the current time;
- `runtime.Caller` (a function from call depth to call site);
- `fmt.Sprintf` and `fmt.Sprint` (function values);
- whether `os.Rename`, `os.Chmod` and `os.File.Write` fail (booleans).

Three behaviours of the code that the model keeps:

- The configured `Perm` is never used: `NewFileStore` always sets `"0660"` (file.go:46).
- `initLogFile` starts one more timer task on every `startLogger` with daily rotation
  on (file.go:97-98), so every rotation, and every line a logger writes through the
  store, adds one. The ghost counter `timers` records this
  (`FileSpec.EveryLineRestartsStore`).
- The timer task rotates on every one-minute tick whose hour is 0 (file.go:125-131),
  not once at midnight. Every running timer task rotates once per minute of hour 0,
  and each rotation starts one more task through `startLogger`. The number of
  rotations in that hour is bounded only by the 9999 free numbers of a day
  (`FileSpec.TickRotatesWithinLimit`, `FileSpec.TickRotatesAgain`).

One consequence of the name test of the cleanup: a file named `.log` is accepted with
an empty prefix, whose base name is `.`. The cleanup then never deletes a rotated file
(`_<date>_NNN.log`), yet deletes old hidden files such as `.env`
(`FileSpec.DotLogNameAccepted`, `FileNaming.EmptyPrefixMissesRotatedFiles`). A name
such as `logs/.log`, whose prefix ends in '/', has a similar problem: the prefix's base
name is then `logs`.

## Model

| member | source | states |
|---|---|---|
| Common.ToUint32 | file.go:74 | Go's `uint32(x)` is the identity on values that fit in 32 bits |
| Common.Repeat | log.go:149 | `strings.Repeat(s, n)` is n copies of s (length n·\|s\|) |
| Common.RepeatSnoc | log.go:149 | one more repetition appends one more copy at the end |
| Common.DoublePercentContainsPercent | log.go:144 | a format that contains "%%" also contains "%" |
| Common.Contains | log.go:144 | `strings.Contains(s, t)` holds exactly when t occurs in s at some position |
| Common.NatToString | layout.go:34 | `strconv.Itoa` of a natural number is a nonempty string of decimal digits with no leading zero |
| Common.NatToStringValue | layout.go:34 | the decimal numeral of n reads back as n |
| Common.Itoa | layout.go:34 | `strconv.Itoa` of a non-negative number is at least one digit, without a leading zero, reading back as the number; of a negative one, '-' followed by such digits for its magnitude |
| Common.LeadingZeroValue | file.go:166 | prefixing a '0' keeps a numeral's value |
| Common.Pad3 | file.go:166 | `%03d` is the numeral, preceded by '0' characters up to exactly three characters, and no padding for a longer numeral |
| Common.Pad3Digits | file.go:166 | `%03d` gives at least three digits that read back as the number, so different numbers give different strings |
| Common.DigitChar | layout.go:34 | a digit below 10 maps to the digit character with that value |
| Common.ParseOctal | file.go:60-63 | `strconv.ParseInt(s, 8, 64)`: octal digits, optionally after '+' or '-', give their value (negated after '-') when it fits in int64, and an error otherwise; the empty string, a lone sign and any other character are errors |
| Common.DefaultPermParses | file.go:46 | the default permission "0660" parses to 0o660 |
| Paths.Ext | file.go:38 | `filepath.Ext` is a suffix of the path that starts with '.' and holds no other '.' and no '/'; it is empty exactly when every '.' of the path has a '/' after it |
| Paths.ExtBefore | file.go:38 | the backward scan of `filepath.Ext` up to a position: the same shape, and empty exactly when every '.' before that position has a '/' after it (still before the position) |
| Paths.DotLogExt | file.go:166 | every name ending in ".log" has extension ".log" |
| Paths.StripExt | file.go:47 | the prefix followed by the extension is the file name again |
| Paths.TrimSuffix | file.go:47 | `strings.TrimSuffix(s, suffix)`: with the suffix present, the result followed by the suffix is s; otherwise s unchanged |
| Paths.TrimTrailingSlashes | file.go:225 | `filepath.Base` drops trailing slashes: the result is a prefix of the path that does not end in '/', and only '/' characters were removed |
| Paths.AfterLastSlash | file.go:225 | the last path element is a slash-free suffix of the path, preceded by a '/' unless it is the whole path |
| Paths.Base | file.go:225 | `filepath.Base` is never empty, and is "." for the empty path |
| Paths.BaseIsLastElement | file.go:225 | `filepath.Base` of a non-empty path is "/" exactly for a path of slashes only; otherwise it is the slash-free element that starts the path or follows a '/', with only '/' after it |
| Paths.BaseOfSlashFree | file.go:225 | a non-empty path without '/' is its own base name |
| Paths.AfterLastSlashSnoc | file.go:225 | a further character other than '/' extends the last element |
| Paths.AfterLastSlashAppend | file.go:225 | appending slash-free text to a path appends it to the last element |
| Paths.BaseAppend | file.go:225 | for a path not ending in '/', appending slash-free text extends `filepath.Base`, so the old base is a prefix of the new one |
| Paths.BaseInDir | file.go:210-225 | the base of dir/name is name for a slash-free name |
| Console.WrittenAppend | store.go:10-15 | the text written by two traces of Store calls run in sequence is the concatenation of their texts |
| Console.WrittenSnoc | console.go:26-31 | one more call adds its own text (the message of a WriteMsg, nothing otherwise) at the end |
| Console.ConsoleStore.constructor | console.go:15-20 | a fresh console store has written nothing |
| Console.ConsoleStore.Init | console.go:22-24 | Init never fails and writes nothing |
| Console.ConsoleStore.WriteMsg | console.go:26-31 | the message is appended verbatim to the output and no error is reported; the output remains the text of all WriteMsg calls |
| Console.ConsoleStore.Flush | console.go:39-41 | Flush changes no output |
| Console.ConsoleStore.Destroy | console.go:34-36 | Destroy changes no output |
| Layout.CallTag | layout.go:33-35 | the call-site tag is "[" file ":", then exactly `strconv.Itoa` of the line number, then "] " |
| Layout.Layout | layout.go:27-39 | a rendered line starts with the timestamp, is longer than it, and ends with '\n' |
| Layout.LayoutFrame | layout.go:27-39 | a rendered line starts with the timestamp, ends with '\n', and its length is the sum of the timestamp, the optional tag, the 4-character severity tag with the message for a known level, and the newline |
| Layout.LayoutCallTag | layout.go:33-35 | with call capture on, the call-site tag directly follows the timestamp |
| Layout.LayoutMessage | layout.go:29-31 | for a level below 8, the line ends with that level's tag, the unaltered message and the newline |
| Layout.UnknownLevelDropsMessage | layout.go:29-37 | a level of 8 or more without call capture renders as the bare timestamp line |
| Log.LevelPrefixTable | log.go:13-27 | eight levels, each with its own 4-character tag "[X] ", and the logger's tag table equals the layout's table |
| Log.Template | log.go:136-157 | the template starts with the format (Sprint of it when it is not a string), adds 3 characters per argument when it appends verbs, and is the format unchanged otherwise |
| Log.FormatLog | log.go:136-160 | without arguments a string format is the message and any other value goes through Sprint; with arguments, a string with a "%" and no "%%" goes to Sprintf unchanged, and any other format goes to Sprintf with one " %v" appended per argument |
| Log.NoArgsVerbatim | log.go:139-143 | a string format without arguments is logged as is, whatever fmt does |
| Log.DirectiveFormatUnchanged | log.go:144-145 | a string with a "%" directive and no "%%" reaches Sprintf unchanged |
| Log.EscapedPercentGetsVerbs | log.go:144-150 | a string with "%%" gets one " %v" per argument appended |
| Log.TemplateGrows | log.go:149-156 | each further argument adds exactly one " %v" to an appending template |
| Log.AssembleMsg | log.go:108-123 | the line writeMsg assembles is exactly the line `BaseLayout.Layout` renders for the same record |
| Log.Logger.constructor | log.go:37-45 | NewLogger takes Level, CallDepth and MsgChanLen from the configuration, starts synchronous with call capture off, and ignores EnableDepth and IsAsync |
| Log.Logger.AsDefault | log.go:48-56 | SetDefaultLogger is like NewLogger, except that the queue capacity is always 1024 |
| Log.Logger.Store | log.go:87-102 | an empty line is skipped; a missing store gives "Store empty"; otherwise the store is initialised, the line is written, and the store's error is returned |
| Log.Logger.WriteMsg | log.go:104-134 | the rendered line of the record is queued in asynchronous mode, or else handed to the store; the logger's settings do not change |
| Log.Logger.Emergency | log.go:202-207 | nothing happens unless Emergency is at or below the threshold; otherwise the line is delivered |
| Log.Logger.Alert | log.go:210-215 | as Emergency, for level Alert |
| Log.Logger.Critical | log.go:217-222 | as Emergency, for level Critical |
| Log.Logger.Error | log.go:224-229 | as Emergency, for level Error |
| Log.Logger.Notice | log.go:231-236 | as Emergency, for level Notice |
| Log.Logger.Debug | log.go:238-243 | as Emergency, for level Debug |
| Log.Logger.Warn | log.go:245-250 | as Emergency, for level Warning |
| Log.Logger.Info | log.go:252-257 | as Emergency, for level Informational |
| Log.Logger.Async | log.go:73-85 | switches to asynchronous mode with an empty queue of the given capacity; a second call changes nothing |
| Log.Logger.SetLevel | log.go:162-164 | sets the threshold and nothing else |
| Log.Logger.SetCallDepth | log.go:166-168 | sets the call depth and nothing else |
| Log.Logger.GetCallDepth | log.go:170-172 | returns the call depth |
| Log.Logger.EnableCall | log.go:174-176 | turns call-site capture on or off and changes nothing else |
| Log.NewDefaultLogger | log.go:277-279 | the package logger has level Debug, call depth 0, no queue, and a console store that has written nothing |
| Log.SetLogFuncCall | log.go:293-296 | turns call capture on or off and fixes the call depth at 4 |
| Log.EnableAsync | log.go:289-291 | asynchronous mode with the default capacity of 1024 |
| FileNaming.RotatedNameShape | file.go:166 | a rotated name starts with prefix_date_ and has extension ".log" |
| FileNaming.RotatedName | file.go:166 | a rotated name starts with prefix_date_ and ends in ".log", with at least three characters between them |
| FileNaming.RotatedNameDigits | file.go:166 | between prefix_date_ and ".log" a rotated name holds exactly `%03d` of its number: at least three decimal digits that read back as the number |
| FileNaming.RotatedNameInjective | file.go:164-175 | different sequence numbers give different rotated names |
| FileNaming.RotatedNameIsNotActive | file.go:186 | no rotated name is the active file's own name |
| FileNaming.FirstFree | file.go:164-179 | the lowest number from 1 to 9999 whose name is not taken, or none exactly when all 9999 are taken |
| FileNaming.FindFreeNumber | file.go:164-179 | the loop of rename finds the number FirstFree describes, and reports failure exactly when there is none |
| FileNaming.ExpiredPaths | file.go:209-231 | the walk removes at most one path per visited entry |
| FileNaming.Expired | file.go:218-225 | only a visited entry with information, modified before now, can be expired |
| FileNaming.ExpiredPathsMembers | file.go:218-227 | a path is removed exactly when the walk visited it as a file older than MaxDays whose base starts with the prefix's base |
| FileNaming.RotatedTailSlashFree | file.go:166 | the text a rotated name adds after the prefix contains no '/' |
| FileNaming.StoreFilesMatchPrefix | file.go:225 | for a file name whose prefix is non-empty and does not end in '/', the active file and every rotated file pass the cleanup's name test |
| FileNaming.EmptyPrefixMissesRotatedFiles | file.go:225 | with the empty prefix of the name ".log", whose base is ".", no rotated file passes the name test, while every hidden file does |
| FileNaming.RotatedBaseWithEmptyPrefix | file.go:166 | with an empty prefix, the base name of a rotated file starts with '_' |
| FileNaming.ExampleNames | file.go:225 | base names in a log/ directory: "app", "app_001.log", "old.log" |
| FileNaming.ExpiryExample | file.go:218-227 | with MaxDays 3 at day 20, only the ten-day-old rotated file is removed; a recent file, a file with another name, a directory and a failed entry stay |
| FileSpec.NewSettings | file.go:34-49 | an empty name and a name without extension are rejected; otherwise the prefix is the name without its extension, and Perm is "0660" whatever was configured |
| FileSpec.TestConfigAccepted | file.go:34-49 | "test.log" is accepted, with prefix "test" |
| FileSpec.DotLogNameAccepted | file.go:34-49 | the name ".log" is accepted, with an empty prefix |
| FileSpec.StartLogger | file.go:57-99 | startLogger fails exactly when Perm is not octal, and then changes nothing; otherwise the active file exists and the handle is open |
| FileSpec.Restart | file.go:196-205 | the restart launches one cleanup task, and fails (with "startLogger err") exactly when Perm is not octal |
| FileSpec.Rename | file.go:150-206 | rename fails only with no free number (and then changes nothing), a failed chmod, or a failed restart; on success the active file exists, the handle is open and one cleanup was launched |
| FileSpec.RotateTo | file.go:181-205 | once a free name is found: the only errors are a failed chmod, exactly when the move succeeded and the chmod failed, and a failed restart |
| FileSpec.WriteHandle | file.go:113 | a write through the handle succeeds exactly when the handle is open and the operating system accepts the write; it fails with the operating system's error exactly when the handle is open and the write is rejected; a failed write changes nothing, and no write changes the handle, the size count or which files exist |
| FileSpec.CheckSize | file.go:140-147 | within the maximum the size check changes nothing; past it, at most one cleanup task is launched |
| FileSpec.Write | file.go:108-116 | WriteMsg returns a handle error or the write's own error, never rename's (those are reported, not returned); within the maximum the size count grows by the message length, wrapped to 32 bits, and the handle stays |
| FileSpec.Tick | file.go:118-138 | a tick changes something or reports an error only in hour 0 with daily rotation on |
| FileSpec.Sweep | file.go:209-231 | a cleanup only removes files, and changes neither the handle, the size count nor the task counters |
| FileSpec.LargeFileSizeWraps | file.go:74 | the size count is 32 bits: an active file of 2^32 + k bytes is recorded as k, so a following write within the maximum is appended without rotation |
| FileSpec.StoreLine | log.go:86-101 | a logger's store call on a file store: an empty line returns nil and changes nothing; otherwise Init (`startLogger`) runs with its error ignored, a failed Init leaves the store to WriteMsg unchanged, and only WriteMsg's handle or write error is returned |
| FileSpec.EveryLineRestartsStore | log.go:96-100 | a non-empty line a logger writes through a file store first runs startLogger: the size count becomes the size on disk plus the line, and with daily rotation one more timer task is launched per line |
| FileSpec.StartLoggerRejectsBadPerm | file.go:60-63 | a Perm that is not octal fails startLogger with nothing changed |
| FileSpec.StartLoggerOpens | file.go:57-99 | startLogger opens or creates the active file with the parsed mode and its old contents, records its size, opens the handle, leaves the other files alone, and starts a timer task when daily rotation is on |
| FileSpec.RenameAllTaken | file.go:164-179 | with all 9999 names taken, rename fails and changes nothing |
| FileSpec.RenameRotates | file.go:150-206 | a rotation moves the old contents to the lowest free rotated name with mode 0440, recreates the active file empty, resets the size to 0, opens the handle, and touches no other file |
| FileSpec.RenameChmodFails | file.go:190-193 | a failed chmod returns the error after the move, with the handle closed, no active file and no restart |
| FileSpec.RenameMoveFails | file.go:186-189 | a failed move goes straight to the restart, which reopens the active file with its contents |
| FileSpec.RenameMissingActive | file.go:156-160 | a missing active file leads straight to the restart, which creates it empty |
| FileSpec.NextRotationHigher | file.go:164-179 | after a rotation, the next rotation on the same date picks a higher number or none |
| FileSpec.WriteWithinLimit | file.go:108-116 | a write within the limit that the operating system accepts appends the message and adds its length to the size |
| FileSpec.WriteFailureStillCounts | file.go:108-116 | a write the operating system rejects returns its error and leaves the files as they were, while the size count has already grown by the message |
| FileSpec.WriteRotates | file.go:108-147 | a write past the limit rotates first, so the fresh file holds the message and the size is 0 |
| FileSpec.WriteOnClosedHandle | file.go:113 | a write on the handle closed by a failed chmod is lost with an error, yet the size still grows |
| FileSpec.WriteRecoversAfterChmodFailure | file.go:140-160 | the next write past the limit after a failed chmod reopens the active file and writes |
| FileSpec.TickRotatesWithinLimit | file.go:123-131 | in hour 0 a tick rotates a store with daily rotation even within the maximum, where the size check changes nothing: the contents move to the lowest free name, the active file starts empty, nothing else changes |
| FileSpec.TickRotatesAgain | file.go:118-131 | a second tick in the same hour rotates again: the emptied active file goes to a higher number, and the first rotated file keeps the old contents |
| FileSpec.RotationExample | file.go:150-206 | rotating app.log on 2024-01-02 with 001 to 005 taken gives app_2024-01-02_006.log and an empty app.log |
| FileSpec.SweepRemovesExpired | file.go:209-231 | a cleanup removes exactly the expired visited files and changes neither the handle nor the size |
| FileStoreImpl.Disk.Exists | file.go:156 | `os.Lstat` succeeds exactly for an existing path |
| FileStoreImpl.Disk.OpenAppend | file.go:65-69 | open-or-create in append mode, then chmod to the requested mode; the source ignores the chmod's error, and the model takes that chmod as succeeding |
| FileStoreImpl.Disk.Rename | file.go:186 | `os.Rename` moves the entry unless it fails or the source is missing |
| FileStoreImpl.Disk.Chmod | file.go:190 | `os.Chmod` sets the mode unless it fails or the path is missing |
| FileStoreImpl.Disk.Append | file.go:113 | a write appends the data to the file |
| FileStoreImpl.NewFileStore | file.go:34-49 | returns the configuration error or a fresh store with the NewSettings settings and no handle |
| FileStoreImpl.FileStore.constructor | file.go:41-47 | a store with the given settings, no handle and a zero size |
| FileStoreImpl.FileStore.Init | file.go:51-54 | Init is startLogger |
| FileStoreImpl.FileStore.StartLogger | file.go:57-86 | follows FileSpec.StartLogger and keeps at most one open handle |
| FileStoreImpl.FileStore.Reopen | file.go:65-83 | opens the active file, records its size, and replaces the old handle, which it closes |
| FileStoreImpl.FileStore.CloseFile | file.go:80-82 | closing an open handle closes it; closing another handle changes nothing |
| FileStoreImpl.FileStore.WriteMsg | file.go:108-116 | follows FileSpec.Write |
| FileStoreImpl.FileStore.CheckFileSizeRotate | file.go:140-147 | follows FileSpec.CheckSize; rename's error is only reported |
| FileStoreImpl.FileStore.Tick | file.go:123-133 | follows FileSpec.Tick |
| FileStoreImpl.FileStore.Rename | file.go:150-206 | follows FileSpec.Rename, with the loop's search proved against FirstFree |
| FileStoreImpl.FileStore.RotateTo | file.go:181-205 | follows FileSpec.RotateTo: close, move, chmod to 0440, restart |
| FileStoreImpl.FileStore.Restart | file.go:196-205 | follows FileSpec.Restart: startLogger, one more cleanup task, and startLogger's error wrapped |
| FileStoreImpl.FileStore.Destroy | file.go:234-236 | closes the handle and changes nothing else |
| FileStoreImpl.FileStore.Flush | file.go:239-241 | changes no modelled state |

## Left out

- The asynchronous worker `Logger.run`, and `Logger.Flush` and `Logger.Close` (log.go:179-199, 260-275). These are goroutine and channel signalling. The model keeps the queue (`msgChan`) but not its consumer, its capacity bound or blocking senders.
- The timer loop of `FileStore.run` and the goroutines started by `initLogFile` and `rename`. One tick is modelled (`FileSpec.Tick`), and each launch is counted in a ghost counter. The walk's traversal of the directory is an input sequence (`WalkEntry`).
- Mutexes (`sync.Mutex`, `sync.RWMutex`, `sync.WaitGroup`): the model is sequential.
- Time, dates and `runtime.Caller`: parameters. `time.Format` layouts are not modelled.
- `fmt.Sprintf`, `fmt.Sprint` and the diagnostics printed to standard error or output: parameters, or left out.
- Failure of `os.OpenFile` in `startLogger`. The source then dereferences the result of a failed `Stat`. The model assumes the open succeeds.
- Errors of `os.Lstat` other than "does not exist": they are treated like a missing file.
- Failure of `Stat` on the opened file: at file.go:71 its result is then dereferenced, and at file.go:91 `initLogFile` returns "get stat err". The model takes both calls as succeeding.
- Failure of `os.Remove` in the cleanup (file.go:226): the source ignores it and the walk goes on. The model takes every removal as succeeding, so `FileSpec.SweepRemovesExpired` removes every expired path.
- Partial writes: `os.File.Write` may write some bytes before it fails. A failed write (`Env.writeFails`) leaves the file unchanged in the model.
- `FileStoreImpl.FileStore.Flush`: `Sync` is not modelled, because the model does not distinguish buffered from durable data.
- Log.Logger: its store is a console store or none (nil); a file store behind the logger object is not modelled. The file store is proved on its own, and the effect of putting it behind a logger is stated on the step functions instead (`FileSpec.StoreLine`, `FileSpec.EveryLineRestartsStore`). `store` calls `Store.Init()` before every write (log.go:96-98), and for a file store that is `startLogger` (file.go:51-99). So each line reopens the active file, resets the size count to the file's size on disk, and, with daily rotation, starts one more timer task. The class composition (one logger object holding a file store object with its disk) is left out to keep the frames of the logger's methods small.
- The package-level forwarders (log.go:281-336). `SetLevel`, `Emergency`…`Debug` and `Flush` call the Logger method of the same name on the default logger. `SetFuncCall` calls `EnableCall` (log.go:285-287), and `SetCallDepth` assigns the default logger's `callDepth` field directly (log.go:298-300); both have the effect of the modelled `Logger.EnableCall` and `Logger.SetCallDepth`. `SetLogFuncCall` and `EnableAsync` are modelled.
- kafka.go: the Kafka store is not part of this model.
- UTF-8 encoding: the model does not encode text. A `string` stands for Go's bytes, one `char` per byte; a message given as Unicode characters above 255 would have its size undercounted by `FileSpec.Write`, which Go counts in bytes (file.go:110 and file.go:74).
- FileStoreImpl.Disk: file modes are kept as the numeric `os.FileMode` value; only the permission bits matter.
- FileStoreImpl.Disk.OpenAppend: the `os.Chmod` after opening the active file (file.go:68) is taken to succeed. The source ignores its error, so the file can keep the mode the umask left; the model always records the requested mode. Only the `os.Chmod` of a rotated file (file.go:190) can fail in the model (`Env.chmodFails`).
- Path cleaning: files are keys of a map of path strings, compared as strings. Two spellings of one file (`./app.log` and `app.log`, or a path with a doubled '/') are different keys, whereas the operating system and `filepath.Walk` would see one file. The model is exact only when the configured file name is spelled as the walk spells it.
