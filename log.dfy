/** The logger front end: RFC 5424 severity levels, the choice of the format
    string handed to fmt, the assembly of a log line, and the Logger object
    that gates messages by level and hands them to its store (or, in
    asynchronous mode, to the queue of its background worker). */
module Log {
  import opened Common
  import opened Console
  import Layout

  // ---------------------------------------------------------------------------
  // Levels (severities of section 6.2.1 of RFC 5424)
  // ---------------------------------------------------------------------------

  const LevelEmergency: uint8 := 0
  const LevelAlert: uint8 := 1
  const LevelCritical: uint8 := 2
  const LevelError: uint8 := 3
  const LevelWarning: uint8 := 4
  const LevelNotice: uint8 := 5
  const LevelInformational: uint8 := 6
  const LevelDebug: uint8 := 7

  /** The capacity of the asynchronous queue of the default logger. */
  const DefaultAsyncMsgLen: uint32 := 1024

  /** The severity tags the logger writes, indexed by level. */
  const LevelPrefix: seq<string> := ["[M] ", "[A] ", "[C] ", "[E] ", "[W] ", "[N] ", "[I] ", "[D] "]

  /** One tag per level, each "[X] " with a letter X of its own; the layout uses the same table. */
  lemma LevelPrefixTable()
    ensures |LevelPrefix| == LevelDebug as int + 1
    ensures forall i :: 0 <= i < |LevelPrefix| ==>
      |LevelPrefix[i]| == 4 && LevelPrefix[i][0] == '[' && LevelPrefix[i][2] == ']' && LevelPrefix[i][3] == ' '
    ensures forall i, j :: 0 <= i < j < |LevelPrefix| ==> LevelPrefix[i][1] != LevelPrefix[j][1]
    ensures LevelPrefix == Layout.DefaultLevelPrefix
  {
  }

  // ---------------------------------------------------------------------------
  // formatLog
  // ---------------------------------------------------------------------------

  /** A Go `interface{}` argument: a string, or any other value (known by an identity). */
  datatype Value = Str(s: string) | Other(id: int)

  /** fmt.Sprintf and fmt.Sprint, which are outside the model. */
  datatype Formatter = Formatter(sprintf: (string, seq<Value>) -> string, sprint: Value -> string)

  /** The format before any verb is appended: a string as it is, anything else through Sprint. */
  function FormatBase(f: Value, sprint: Value -> string): string {
    match f
    case Str(s) => s
    case Other(_) => sprint(f)
  }

  /** formatLog appends one " %v" per argument to every non-string format, and to a
      string format unless it contains a "%" and no "%%". */
  predicate AppendsVerbs(f: Value) {
    f.Other? || !(Contains(f.s, "%") && !Contains(f.s, "%%"))
  }

  /** The format string formatLog hands to Sprintf for `n` arguments. */
  function Template(f: Value, n: nat, sprint: Value -> string): (r: string)
    ensures HasPrefix(r, FormatBase(f, sprint))
    ensures |r| == |FormatBase(f, sprint)| + (if AppendsVerbs(f) then 3 * n else 0)
    ensures !AppendsVerbs(f) ==> r == FormatBase(f, sprint)
  {
    FormatBase(f, sprint) + (if AppendsVerbs(f) then Repeat(" %v", n) else "")
  }

  /** formatLog: without arguments the format itself (Sprint of it when it is not a
      string); with arguments, Sprintf of the template over them. */
  function FormatLog(f: Value, v: seq<Value>, fm: Formatter): (r: string)
    ensures |v| == 0 && f.Str? ==> r == f.s
    ensures |v| > 0 && f.Str? && Contains(f.s, "%") && !Contains(f.s, "%%") ==> r == fm.sprintf(f.s, v)
    ensures |v| == 0 && f.Other? ==> r == fm.sprint(f)
    ensures |v| > 0 && AppendsVerbs(f) ==> r == fm.sprintf(FormatBase(f, fm.sprint) + Repeat(" %v", |v|), v)
  {
    if |v| == 0 then FormatBase(f, fm.sprint) else fm.sprintf(Template(f, |v|, fm.sprint), v)
  }

  /** Without arguments a string format is the message, whatever fmt does. */
  lemma NoArgsVerbatim(s: string, fm: Formatter)
    ensures FormatLog(Str(s), [], fm) == s
  {
  }

  /** A string with a "%" directive and no "%%" reaches Sprintf unchanged, whatever the
      number of arguments. */
  lemma DirectiveFormatUnchanged(s: string, n: nat, sprint: Value -> string)
    requires Contains(s, "%") && !Contains(s, "%%")
    ensures Template(Str(s), n, sprint) == s
  {
  }

  /** A string with "%%" gets the verbs appended: it contains a "%" too, yet is not
      taken as a directive format. */
  lemma EscapedPercentGetsVerbs(s: string, n: nat, sprint: Value -> string)
    requires Contains(s, "%%")
    ensures Contains(s, "%")
    ensures Template(Str(s), n, sprint) == s + Repeat(" %v", n)
  {
    DoublePercentContainsPercent(s);
  }

  /** Each further argument adds exactly one " %v" at the end of an appending template. */
  lemma {:induction false} TemplateGrows(f: Value, n: nat, sprint: Value -> string)
    requires AppendsVerbs(f)
    ensures Template(f, n + 1, sprint) == Template(f, n, sprint) + " %v"
    ensures |Template(f, n, sprint)| == |FormatBase(f, sprint)| + 3 * n
  {
    RepeatSnoc(" %v", n);
  }

  // ---------------------------------------------------------------------------
  // Line assembly (writeMsg)
  // ---------------------------------------------------------------------------

  /** A call site as runtime.Caller reports it. */
  datatype CallSite = CallSite(file: string, line: int)

  /** What the logger takes from its surroundings for one message: the rendered
      timestamp, runtime.Caller as a function of the call depth, and fmt. */
  datatype Env = Env(stamp: string, caller: uint8 -> Option<CallSite>, fmt: Formatter)

  /** The call site reported for a depth, "???" and line 0 when runtime.Caller fails. */
  function CallSiteAt(env: Env, depth: uint8): CallSite {
    match env.caller(depth)
    case Some(site) => site
    case None => CallSite("???", 0)
  }

  /** The inline assembly of writeMsg. It builds exactly the line BaseLayout.Layout
      renders for the same record. */
  method AssembleMsg(level: uint8, encoded: string, stamp: string, enableCall: bool, file: string, line: int)
    returns (msg: string)
    ensures msg == Layout.Layout(Layout.LayoutInfo(level, encoded, stamp, enableCall, file, line))
  {
    msg := "";
    if level < 8 {
      msg := LevelPrefix[level] + encoded;
    }
    if enableCall {
      msg := "[" + file + ":" + Itoa(line) + "] " + msg;
    }
    msg := stamp + msg + "\n";
  }

  /** The configuration NewLogger and SetDefaultLogger read. */
  datatype LoggerConfig = LoggerConfig(
    level: uint8,
    callDepth: uint8,
    enableDepth: bool,
    isAsync: bool,
    msgChanLen: uint32)

  class Logger {
    var level: uint8
    var init: bool
    var enableCall: bool
    var callDepth: uint8
    var isAsync: bool
    var msgChanLen: uint32
    /** The lines handed to the background worker and not yet taken, oldest first. */
    var msgChan: seq<string>
    /** The store; null stands for a nil Store. */
    var store: ConsoleStore?

    /** `init` is never set, and the store keeps its own invariant. */
    ghost predicate Valid()
      reads this, store
    {
      !init && (store != null ==> store.Valid())
    }

    /** NewLogger: takes Level, CallDepth and MsgChanLen from the configuration and
        ignores EnableDepth and IsAsync. */
    constructor (cfg: LoggerConfig, s: ConsoleStore?)
      requires s != null ==> s.Valid()
      ensures Valid() && store == s
      ensures level == cfg.level && callDepth == cfg.callDepth && msgChanLen == cfg.msgChanLen
      ensures !isAsync && !enableCall && msgChan == []
    {
      level := cfg.level;
      callDepth := cfg.callDepth;
      msgChanLen := cfg.msgChanLen;
      store := s;
      init, enableCall, isAsync := false, false, false;
      msgChan := [];
    }

    /** SetDefaultLogger: like NewLogger, but the queue capacity is always the default. */
    constructor AsDefault(cfg: LoggerConfig, s: ConsoleStore?)
      requires s != null ==> s.Valid()
      ensures Valid() && store == s
      ensures level == cfg.level && callDepth == cfg.callDepth && msgChanLen == DefaultAsyncMsgLen
      ensures !isAsync && !enableCall && msgChan == []
    {
      level := cfg.level;
      callDepth := cfg.callDepth;
      msgChanLen := DefaultAsyncMsgLen;
      store := s;
      init, enableCall, isAsync := false, false, false;
      msgChan := [];
    }

    /** The record this logger renders for a message at `lvl`. */
    function Record(lvl: uint8, f: Value, v: seq<Value>, env: Env): Layout.LayoutInfo
      reads this
    {
      var site := CallSiteAt(env, callDepth);
      Layout.LayoutInfo(lvl, FormatLog(f, v, env.fmt), env.stamp, enableCall, site.file, site.line)
    }

    /** Nothing reached the store or the queue. */
    twostate predicate Silent()
      reads this, store
    {
      msgChan == old(msgChan) && store == old(store) &&
      (store != null ==> store.out == old(store.out) && store.calls == old(store.calls))
    }

    /** `line` was queued (asynchronous mode) or handed to the store, which was
        initialised before the write (synchronous mode). */
    twostate predicate Delivered(line: string)
      reads this, store
    {
      store == old(store) &&
      if old(isAsync) then
        msgChan == old(msgChan) + [line] &&
        (store != null ==> store.out == old(store.out) && store.calls == old(store.calls))
      else
        msgChan == old(msgChan) &&
        (store != null ==> store.out == old(store.out) + line &&
                           store.calls == old(store.calls) + [InitCall, WriteCall(line)])
    }

    /** The settings of the logger are what they were. */
    twostate predicate SameSettings()
      reads this
    {
      level == old(level) && enableCall == old(enableCall) && callDepth == old(callDepth) &&
      isAsync == old(isAsync) && msgChanLen == old(msgChanLen) && store == old(store)
    }

    /** store: skips an empty message, fails without a store, and otherwise
        initialises the store (the logger never records that it did) and writes. */
    method Store(s: string) returns (err: Option<string>)
      requires Valid()
      modifies store
      ensures Valid()
      ensures s == "" ==> err == None && (store != null ==> store.out == old(store.out) && store.calls == old(store.calls))
      ensures s != "" && store == null ==> err == Some("Store empty")
      ensures s != "" && store != null ==>
        err == None && store.out == old(store.out) + s && store.calls == old(store.calls) + [InitCall, WriteCall(s)]
    {
      if |s| == 0 {
        return None;
      }
      if store == null {
        return Some("Store empty");
      }
      if !init {
        var _ := store.Init();
      }
      err := store.WriteMsg(s);
    }

    /** writeMsg: renders the line and queues it (asynchronous mode) or stores it. */
    method WriteMsg(lvl: uint8, f: Value, v: seq<Value>, env: Env) returns (err: Option<string>)
      requires Valid()
      modifies this, store
      ensures Valid() && SameSettings()
      ensures Delivered(Layout.Layout(old(Record(lvl, f, v, env))))
      ensures err == (if old(isAsync) || store != null then None else Some("Store empty"))
    {
      var encoded := FormatLog(f, v, env.fmt);
      var site := CallSiteAt(env, callDepth);
      var msg := AssembleMsg(lvl, encoded, env.stamp, enableCall, site.file, site.line);
      if isAsync {
        msgChan := msgChan + [msg];
        err := None;
      } else {
        err := Store(msg);
      }
    }

    /** The contract shared by the leveled methods: nothing happens above the threshold. */
    twostate predicate LoggedAt(lvl: uint8, f: Value, v: seq<Value>, env: Env)
      reads this, store
    {
      Valid() && SameSettings() &&
      (lvl > old(level) ==> Silent()) &&
      (lvl <= old(level) ==> Delivered(Layout.Layout(old(Record(lvl, f, v, env)))))
    }

    method Emergency(f: Value, v: seq<Value>, env: Env)
      requires Valid()
      modifies this, store
      ensures LoggedAt(LevelEmergency, f, v, env)
    {
      if LevelEmergency > level {
        return;
      }
      var _ := WriteMsg(LevelEmergency, f, v, env);
    }

    method Alert(f: Value, v: seq<Value>, env: Env)
      requires Valid()
      modifies this, store
      ensures LoggedAt(LevelAlert, f, v, env)
    {
      if LevelAlert > level {
        return;
      }
      var _ := WriteMsg(LevelAlert, f, v, env);
    }

    method Critical(f: Value, v: seq<Value>, env: Env)
      requires Valid()
      modifies this, store
      ensures LoggedAt(LevelCritical, f, v, env)
    {
      if LevelCritical > level {
        return;
      }
      var _ := WriteMsg(LevelCritical, f, v, env);
    }

    method Error(f: Value, v: seq<Value>, env: Env)
      requires Valid()
      modifies this, store
      ensures LoggedAt(LevelError, f, v, env)
    {
      if LevelError > level {
        return;
      }
      var _ := WriteMsg(LevelError, f, v, env);
    }

    method Notice(f: Value, v: seq<Value>, env: Env)
      requires Valid()
      modifies this, store
      ensures LoggedAt(LevelNotice, f, v, env)
    {
      if LevelNotice > level {
        return;
      }
      var _ := WriteMsg(LevelNotice, f, v, env);
    }

    method Debug(f: Value, v: seq<Value>, env: Env)
      requires Valid()
      modifies this, store
      ensures LoggedAt(LevelDebug, f, v, env)
    {
      if LevelDebug > level {
        return;
      }
      var _ := WriteMsg(LevelDebug, f, v, env);
    }

    method Warn(f: Value, v: seq<Value>, env: Env)
      requires Valid()
      modifies this, store
      ensures LoggedAt(LevelWarning, f, v, env)
    {
      if LevelWarning > level {
        return;
      }
      var _ := WriteMsg(LevelWarning, f, v, env);
    }

    method Info(f: Value, v: seq<Value>, env: Env)
      requires Valid()
      modifies this, store
      ensures LoggedAt(LevelInformational, f, v, env)
    {
      if LevelInformational > level {
        return;
      }
      var _ := WriteMsg(LevelInformational, f, v, env);
    }

    /** Async: switches to asynchronous mode with a queue of `msgLen` slots; a second
        call changes nothing. */
    method Async(msgLen: uint32) returns (r: Logger)
      requires Valid()
      modifies this
      ensures Valid() && r == this && isAsync
      ensures old(isAsync) ==> msgChanLen == old(msgChanLen) && msgChan == old(msgChan)
      ensures !old(isAsync) ==> msgChanLen == msgLen && msgChan == []
      ensures level == old(level) && enableCall == old(enableCall) && callDepth == old(callDepth)
      ensures store == old(store)
    {
      r := this;
      if isAsync {
        return;
      }
      isAsync := true;
      msgChanLen := msgLen;
      msgChan := [];
    }

    method SetLevel(lvl: uint8)
      requires Valid()
      modifies this
      ensures Valid() && level == lvl
      ensures enableCall == old(enableCall) && callDepth == old(callDepth) && isAsync == old(isAsync)
      ensures msgChanLen == old(msgChanLen) && msgChan == old(msgChan) && store == old(store)
    {
      level := lvl;
    }

    method SetCallDepth(d: uint8)
      requires Valid()
      modifies this
      ensures Valid() && callDepth == d
      ensures level == old(level) && enableCall == old(enableCall) && isAsync == old(isAsync)
      ensures msgChanLen == old(msgChanLen) && msgChan == old(msgChan) && store == old(store)
    {
      callDepth := d;
    }

    method GetCallDepth() returns (d: uint8)
      ensures d == callDepth
    {
      d := callDepth;
    }

    method EnableCall(b: bool)
      requires Valid()
      modifies this
      ensures Valid() && enableCall == b
      ensures level == old(level) && callDepth == old(callDepth) && isAsync == old(isAsync)
      ensures msgChanLen == old(msgChanLen) && msgChan == old(msgChan) && store == old(store)
    {
      enableCall := b;
    }
  }

  /** The logger the package starts with: level Debug, over a console store. */
  method NewDefaultLogger() returns (l: Logger)
    ensures fresh(l) && fresh(l.store) && l.Valid()
    ensures l.level == LevelDebug && l.callDepth == 0 && l.msgChanLen == 0
    ensures !l.isAsync && !l.enableCall && l.msgChan == []
    ensures l.store != null && l.store.out == ""
  {
    var console := new ConsoleStore();
    l := new Logger(LoggerConfig(LevelDebug, 0, false, false, 0), console);
  }

  /** SetLogFuncCall: turns call-site capture on or off and fixes the depth at 4. */
  method SetLogFuncCall(l: Logger, b: bool)
    requires l.Valid()
    modifies l
    ensures l.Valid() && l.enableCall == b && l.callDepth == 4
    ensures l.level == old(l.level) && l.isAsync == old(l.isAsync)
    ensures l.msgChanLen == old(l.msgChanLen) && l.msgChan == old(l.msgChan) && l.store == old(l.store)
  {
    l.EnableCall(b);
    l.SetCallDepth(4);
  }

  /** EnableAsync: asynchronous mode with the default queue capacity. */
  method EnableAsync(l: Logger)
    requires l.Valid()
    modifies l
    ensures l.Valid() && l.isAsync
    ensures !old(l.isAsync) ==> l.msgChanLen == DefaultAsyncMsgLen && l.msgChan == []
    ensures old(l.isAsync) ==> l.msgChanLen == old(l.msgChanLen) && l.msgChan == old(l.msgChan)
    ensures l.level == old(l.level) && l.enableCall == old(l.enableCall) && l.callDepth == old(l.callDepth)
    ensures l.store == old(l.store)
  {
    var _ := l.Async(DefaultAsyncMsgLen);
  }
}
