/** The Store interface (Init, WriteMsg, Flush, Destroy) as a trace of calls, and
    its simplest implementation: the console store, which copies every message
    verbatim to its writer. */
module Console {
  import opened Common

  /** One call on a Store, as the logger makes them. */
  datatype StoreCall = InitCall | WriteCall(msg: string) | FlushCall | DestroyCall

  /** The text one call carries: the payload of a WriteMsg, nothing for the others. */
  function CallText(c: StoreCall): string {
    if c.WriteCall? then c.msg else ""
  }

  /** The text carried by a trace of Store calls: the WriteMsg payloads in call order. */
  function Written(calls: seq<StoreCall>): string
    decreases |calls|
  {
    if calls == [] then "" else CallText(calls[0]) + Written(calls[1..])
  }

  /** The text of two traces run one after the other is the text of the first, then the second. */
  lemma {:induction false} WrittenAppend(a: seq<StoreCall>, b: seq<StoreCall>)
    ensures Written(a + b) == Written(a) + Written(b)
    decreases |a|
  {
    if a == [] {
      assert a + b == b;
    } else {
      WrittenAppend(a[1..], b);
      assert (a + b)[1..] == a[1..] + b;
      assert (a + b)[0] == a[0];
      var t, wa, wb := CallText(a[0]), Written(a[1..]), Written(b);
      assert t + wa + wb == t + (wa + wb);
    }
  }

  /** A further call adds its own text at the end of the trace's text. */
  lemma WrittenSnoc(calls: seq<StoreCall>, c: StoreCall)
    ensures Written(calls + [c]) == Written(calls) + CallText(c)
  {
    WrittenAppend(calls, [c]);
    assert [c][1..] == [];
  }

  /** The console store. `out` is what reached the writer (standard output);
      `calls` is the trace of Store calls received, kept for the proof only. */
  class ConsoleStore {
    var out: string
    ghost var calls: seq<StoreCall>

    /** The writer holds exactly the text of the WriteMsg calls received. */
    ghost predicate Valid()
      reads this
    {
      out == Written(calls)
    }

    /** DefaultConsoleStore: a console store over a fresh writer. */
    constructor ()
      ensures Valid() && out == "" && calls == []
    {
      out := "";
      calls := [];
    }

    /** Init does nothing and never fails. */
    method Init() returns (err: Option<string>)
      requires Valid()
      modifies this
      ensures Valid() && err == None
      ensures out == old(out) && calls == old(calls) + [InitCall]
    {
      WrittenSnoc(calls, InitCall);
      calls := calls + [InitCall];
      err := None;
    }

    /** WriteMsg appends the message verbatim and reports no error, whatever the writer did. */
    method WriteMsg(s: string) returns (err: Option<string>)
      requires Valid()
      modifies this
      ensures Valid() && err == None
      ensures out == old(out) + s && calls == old(calls) + [WriteCall(s)]
    {
      out := out + s;
      WrittenSnoc(calls, WriteCall(s));
      calls := calls + [WriteCall(s)];
      err := None;
    }

    /** Flush does nothing: the operating system owns the buffering of standard output. */
    method Flush()
      requires Valid()
      modifies this
      ensures Valid() && out == old(out) && calls == old(calls) + [FlushCall]
    {
      WrittenSnoc(calls, FlushCall);
      calls := calls + [FlushCall];
    }

    /** Destroy does nothing. */
    method Destroy()
      requires Valid()
      modifies this
      ensures Valid() && out == old(out) && calls == old(calls) + [DestroyCall]
    {
      WrittenSnoc(calls, DestroyCall);
      calls := calls + [DestroyCall];
    }
  }
}
