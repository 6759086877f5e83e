/** The naming rules of the file store: the name a rotated log file gets, the
    search for the lowest free sequence number, and the test that selects old
    log files for deletion. */
module FileNaming {
  import opened Common
  import opened Paths

  /** The largest sequence number a rotated file may carry. */
  const MaxSeq: nat := 9999

  /** No '/' occurs in `s`. */
  predicate SlashFree(s: string) {
    forall j :: 0 <= j < |s| ==> s[j] != '/'
  }

  /** The name of the `num`-th file rotated on `date`: prefix_date_NNN.log. */
  function RotatedName(prefix: string, date: string, num: nat): (r: string)
    ensures HasPrefix(r, prefix + "_" + date + "_") && HasSuffix(r, ".log") && |r| >= |prefix| + |date| + 9
  {
    prefix + "_" + date + "_" + Pad3(num) + ".log"
  }

  /** Between prefix_date_ and ".log" a rotated name holds the sequence number as Go's
      "%03d" writes it: at least three decimal digits that read back as the number. */
  lemma RotatedNameDigits(prefix: string, date: string, num: nat)
    ensures var r := RotatedName(prefix, date, num);
            var mid := r[|prefix| + |date| + 2..|r| - 4];
            mid == Pad3(num) && AllDigits(mid) && |mid| >= 3 && DigitsValue(mid) == num
  {
    var head := prefix + "_" + date + "_";
    var r := RotatedName(prefix, date, num);
    assert r == head + Pad3(num) + ".log";
    assert r[|head|..|r| - 4] == Pad3(num);
    Pad3Digits(num);
  }

  /** A rotated name starts with prefix_date_ and its extension is ".log", whatever the
      extension of the active file was. */
  lemma RotatedNameShape(prefix: string, date: string, num: nat)
    ensures HasPrefix(RotatedName(prefix, date, num), prefix + "_" + date + "_")
    ensures Ext(RotatedName(prefix, date, num)) == ".log"
  {
    var head := prefix + "_" + date + "_";
    DotLogExt(head + Pad3(num));
    assert (head + Pad3(num) + ".log")[..|head|] == head;
  }

  /** Different sequence numbers give different names: the digits between prefix_date_
      and ".log" read back as the sequence number. */
  lemma RotatedNameInjective(prefix: string, date: string, a: nat, b: nat)
    requires a != b
    ensures RotatedName(prefix, date, a) != RotatedName(prefix, date, b)
  {
    RotatedNameDigits(prefix, date, a);
    RotatedNameDigits(prefix, date, b);
  }

  /** No rotated name is the active file's own name: the character after the prefix is
      '_' in the one and the '.' of the extension in the other. */
  lemma RotatedNameIsNotActive(filename: string, date: string, num: nat)
    requires Ext(filename) != ""
    ensures RotatedName(StripExt(filename), date, num) != filename
  {
    var prefix := StripExt(filename);
    var r := RotatedName(prefix, date, num);
    assert filename[|prefix|] == Ext(filename)[0] == '.';
    assert r == prefix + "_" + date + "_" + Pad3(num) + ".log";
    assert r[|prefix|] == '_';
  }

  /** The lowest sequence number from `from` to MaxSeq whose name is not taken. */
  function FirstFree(taken: set<string>, prefix: string, date: string, from: nat): (r: Option<nat>)
    requires from >= 1
    ensures r.Some? ==> from <= r.value <= MaxSeq && RotatedName(prefix, date, r.value) !in taken
    ensures r.Some? ==> forall k :: from <= k < r.value ==> RotatedName(prefix, date, k) in taken
    ensures r.None? <==> forall k :: from <= k <= MaxSeq ==> RotatedName(prefix, date, k) in taken
    decreases MaxSeq + 1 - from
  {
    if from > MaxSeq then None
    else if RotatedName(prefix, date, from) !in taken then Some(from)
    else FirstFree(taken, prefix, date, from + 1)
  }

  /** The search loop of rename: tries 1, 2, ... up to MaxSeq and stops at the first
      name that is not taken. */
  method FindFreeNumber(taken: set<string>, prefix: string, date: string) returns (found: bool, num: nat)
    ensures found <==> FirstFree(taken, prefix, date, 1).Some?
    ensures found ==> num == FirstFree(taken, prefix, date, 1).value
  {
    num := 1;
    found := false;
    while num <= MaxSeq
      invariant 1 <= num <= MaxSeq + 1
      invariant FirstFree(taken, prefix, date, num) == FirstFree(taken, prefix, date, 1)
    {
      if RotatedName(prefix, date, num) !in taken {
        found := true;
        return;
      }
      num := num + 1;
    }
  }

  // ---------------------------------------------------------------------------
  // Expiry of old log files
  // ---------------------------------------------------------------------------

  /** One day in nanoseconds, the unit of Go's time.Duration. */
  const Day: int := 24 * 60 * 60 * 1_000_000_000

  /** What the directory walk reports for a path; modification times are in nanoseconds. */
  datatype FileInfo = FileInfo(isDir: bool, modTime: int)

  /** A path visited by the walk, with no information when the walk failed on it. */
  datatype WalkEntry = WalkEntry(path: string, info: Option<FileInfo>)

  /** The test of deleteExpiredFile: a file (not a directory) whose age limit lies
      strictly before `now` and whose base name starts with the base of the prefix. */
  predicate Expired(e: WalkEntry, prefix: string, maxDays: uint16, now: int)
    ensures Expired(e, prefix, maxDays, now) ==> e.info.Some? && e.info.value.modTime < now
  {
    e.info.Some? && !e.info.value.isDir &&
    e.info.value.modTime + Day * maxDays < now &&
    HasPrefix(Base(e.path), Base(prefix))
  }

  /** The paths deleteExpiredFile removes from what the walk visited, in visiting order. */
  function ExpiredPaths(entries: seq<WalkEntry>, prefix: string, maxDays: uint16, now: int): (r: seq<string>)
    ensures |r| <= |entries|
    decreases |entries|
  {
    if entries == [] then []
    else
      var rest := ExpiredPaths(entries[1..], prefix, maxDays, now);
      if Expired(entries[0], prefix, maxDays, now) then [entries[0].path] + rest else rest
  }

  /** A path is removed exactly when the walk visited it and found it expired. */
  lemma {:induction false} ExpiredPathsMembers(entries: seq<WalkEntry>, prefix: string, maxDays: uint16, now: int)
    ensures forall p :: p in ExpiredPaths(entries, prefix, maxDays, now) <==>
      exists e :: e in entries && Expired(e, prefix, maxDays, now) && e.path == p
    decreases |entries|
  {
    if entries != [] {
      ExpiredPathsMembers(entries[1..], prefix, maxDays, now);
      assert forall e :: e in entries <==> e == entries[0] || e in entries[1..];
    }
  }

  /** What a rotated name adds after the prefix contains no '/', as long as the date does not. */
  lemma RotatedTailSlashFree(prefix: string, date: string, num: nat)
    requires SlashFree(date)
    ensures RotatedName(prefix, date, num) == prefix + ("_" + date + "_" + Pad3(num) + ".log")
    ensures SlashFree("_" + date + "_" + Pad3(num) + ".log")
  {
    var digits := Pad3(num);
    Pad3Digits(num);
    assert forall j :: 0 <= j < |digits| ==> IsDigit(digits[j]);
    var tail := "_" + date + "_" + digits + ".log";
    forall j | 0 <= j < |tail|
      ensures tail[j] != '/'
    {
      if j == 0 || j == |date| + 1 {
      } else if j <= |date| {
        assert tail[j] == date[j - 1];
      } else if j < |date| + 2 + |digits| {
        assert tail[j] == digits[j - |date| - 2];
      } else {
        assert tail[j] == ".log"[j - |date| - 2 - |digits|];
      }
    }
  }

  /** The active file and every file it is rotated to pass the name test, as long as the
      prefix is not empty and does not end in '/'. */
  lemma StoreFilesMatchPrefix(filename: string, date: string, num: nat)
    requires Ext(filename) != ""
    requires StripExt(filename) != [] && StripExt(filename)[|StripExt(filename)| - 1] != '/'
    requires SlashFree(date)
    ensures HasPrefix(Base(filename), Base(StripExt(filename)))
    ensures HasPrefix(Base(RotatedName(StripExt(filename), date, num)), Base(StripExt(filename)))
  {
    var prefix := StripExt(filename);
    BaseAppend(prefix, Ext(filename));
    RotatedTailSlashFree(prefix, date, num);
    BaseAppend(prefix, "_" + date + "_" + Pad3(num) + ".log");
  }

  /** With an empty prefix, as the name ".log" gives, the prefix's base name is ".": the
      cleanup's name test then never selects a rotated file ("_<date>_NNN.log"), yet
      selects any hidden file, such as ".env", once it is old enough. */
  lemma EmptyPrefixMissesRotatedFiles(date: string, num: nat, hidden: string)
    requires SlashFree(date)
    requires |hidden| > 1 && hidden[0] == '.' && SlashFree(hidden)
    ensures Base("") == "."
    ensures !HasPrefix(Base(RotatedName("", date, num)), Base(""))
    ensures HasPrefix(Base(hidden), Base(""))
  {
    var b := Base(RotatedName("", date, num));
    RotatedBaseWithEmptyPrefix(date, num);
    assert Base("") == ".";
    assert b[..1] != "." by {
      assert b[..1][0] == '_';
    }
    BaseOfSlashFree(hidden);
    assert hidden[..1] == ".";
  }

  /** With an empty prefix a rotated name is its own base name, which starts with '_'. */
  lemma RotatedBaseWithEmptyPrefix(date: string, num: nat)
    requires SlashFree(date)
    ensures Base(RotatedName("", date, num))[0] == '_'
  {
    var tail := "_" + date + "_" + Pad3(num) + ".log";
    RotatedTailSlashFree("", date, num);
    assert "" + tail == tail;
    BaseOfSlashFree(tail);
  }

  /** The base names the expiry example compares with the prefix's base name "app". */
  lemma ExampleNames(prefix: string, rotated: string, other: string)
    requires prefix == "log/app" && rotated == "log/app_001.log" && other == "log/old.log"
    ensures Base(prefix) == "app"
    ensures HasPrefix(Base(rotated), "app") && !HasPrefix(Base(other), "app")
  {
    ExamplePrefixBase(prefix);
    ExampleRotatedBase(rotated);
    ExampleOtherBase(other);
  }

  /** The base name of the prefix "log/app" is "app". */
  lemma ExamplePrefixBase(prefix: string)
    requires prefix == "log/app"
    ensures Base(prefix) == "app"
  {
    BaseInDir(prefix, "log", "app");
  }

  /** The base name of a rotated file of "log/app" starts with "app". */
  lemma ExampleRotatedBase(rotated: string)
    requires rotated == "log/app_001.log"
    ensures HasPrefix(Base(rotated), "app")
  {
    BaseInDir(rotated, "log", "app_001.log");
    assert "app_001.log"[..3] == "app";
  }

  /** The base name of "log/old.log" does not start with "app". */
  lemma ExampleOtherBase(other: string)
    requires other == "log/old.log"
    ensures !HasPrefix(Base(other), "app")
  {
    BaseInDir(other, "log", "old.log");
    assert "old.log"[..3][0] != "app"[0];
  }

  /** A sweep over log/ with MaxDays 3 at day 20: of a rotated file ten days old, the
      active file one day old, an unrelated old file, a directory and an entry the walk
      failed on, only the rotated file is deleted. */
  lemma ExpiryExample(entries: seq<WalkEntry>, prefix: string)
    requires entries == [WalkEntry("log", Some(FileInfo(true, 0))),
                         WalkEntry("log/app_001.log", Some(FileInfo(false, 10 * Day))),
                         WalkEntry("log/app.log", Some(FileInfo(false, 19 * Day))),
                         WalkEntry("log/old.log", Some(FileInfo(false, 0))),
                         WalkEntry("log/gone.log", None)]
    requires prefix == "log/app"
    ensures ExpiredPaths(entries, prefix, 3, 20 * Day) == ["log/app_001.log"]
  {
    var e0, e1, e2, e3, e4 := entries[0], entries[1], entries[2], entries[3], entries[4];
    var now := 20 * Day;
    ExampleNames(prefix, e1.path, e3.path);
    assert Expired(e1, prefix, 3, now) && !Expired(e0, prefix, 3, now) && !Expired(e2, prefix, 3, now);
    assert !Expired(e3, prefix, 3, now) && !Expired(e4, prefix, 3, now);
    assert entries[4..][1..] == [];
    assert ExpiredPaths(entries[4..], prefix, 3, now) == [];
    assert entries[3..][1..] == entries[4..];
    assert ExpiredPaths(entries[3..], prefix, 3, now) == [];
    assert entries[2..][1..] == entries[3..];
    assert ExpiredPaths(entries[2..], prefix, 3, now) == [];
    assert entries[1..][1..] == entries[2..];
    assert ExpiredPaths(entries[1..], prefix, 3, now) == [e1.path];
  }
}
