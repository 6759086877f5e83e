/** The parts of Go's `path/filepath` and `strings` packages that the file sink
    uses to derive its file-name prefix and to match old log files, for
    slash-separated paths. */
module Paths {
  import opened Common

  /** filepath.Ext: the suffix from the final '.' of the last path element on,
      or "" when that element has no '.'. */
  function Ext(path: string): (r: string)
    ensures r == "" || (r[0] == '.' && HasSuffix(path, r))
    ensures forall j :: 0 <= j < |r| ==> r[j] != '/'
    ensures forall j :: 1 <= j < |r| ==> r[j] != '.'
    ensures r == "" <==> forall j :: 0 <= j < |path| && path[j] == '.' ==> exists k :: j < k < |path| && path[k] == '/'
  {
    ExtBefore(path, |path|)
  }

  /** The scan of filepath.Ext from position `i` down to the last separator. */
  function ExtBefore(path: string, i: nat): (r: string)
    requires i <= |path|
    requires forall j :: i <= j < |path| ==> path[j] != '/' && path[j] != '.'
    ensures r == "" || (r[0] == '.' && HasSuffix(path, r))
    ensures forall j :: 0 <= j < |r| ==> r[j] != '/'
    ensures forall j :: 1 <= j < |r| ==> r[j] != '.'
    ensures r == "" <==> forall j :: 0 <= j < i && path[j] == '.' ==> exists k :: j < k < i && path[k] == '/'
    decreases i
  {
    if i == 0 then ""
    else if path[i - 1] == '/' then
      assert forall j :: 0 <= j < i && path[j] == '.' ==> j < i - 1 && path[i - 1] == '/';
      ""
    else if path[i - 1] == '.' then path[i - 1..]
    else ExtBefore(path, i - 1)
  }

  /** Whatever precedes it, a name ending in ".log" has the extension ".log". */
  lemma DotLogExt(stem: string)
    ensures Ext(stem + ".log") == ".log"
  {
    var p := stem + ".log";
    var n := |p|;
    assert p[n - 1] == 'g' && p[n - 2] == 'o' && p[n - 3] == 'l' && p[n - 4] == '.';
    assert ExtBefore(p, n) == ExtBefore(p, n - 1) == ExtBefore(p, n - 2) == ExtBefore(p, n - 3);
    assert p[n - 4..] == ".log";
  }

  /** strings.TrimSuffix. */
  function TrimSuffix(s: string, suffix: string): (r: string)
    ensures HasSuffix(s, suffix) ==> r + suffix == s
    ensures !HasSuffix(s, suffix) ==> r == s
  {
    if HasSuffix(s, suffix) then s[..|s| - |suffix|] else s
  }

  /** The file sink's name prefix: the file name without its extension. */
  function StripExt(name: string): (r: string)
    ensures r + Ext(name) == name
  {
    TrimSuffix(name, Ext(name))
  }

  /** `path` with every trailing '/' removed. */
  function TrimTrailingSlashes(path: string): (r: string)
    ensures HasPrefix(path, r)
    ensures r == [] || r[|r| - 1] != '/'
    ensures forall j :: |r| <= j < |path| ==> path[j] == '/'
    decreases |path|
  {
    if |path| > 0 && path[|path| - 1] == '/' then TrimTrailingSlashes(path[..|path| - 1]) else path
  }

  /** The characters after the last '/' of `path` (all of it when there is none). */
  function AfterLastSlash(path: string): (r: string)
    ensures |r| <= |path|
    ensures forall j :: 0 <= j < |r| ==> r[j] != '/'
    ensures HasSuffix(path, r) && (|r| < |path| ==> path[|path| - |r| - 1] == '/')
    decreases |path|
  {
    if path == [] || path[|path| - 1] == '/' then []
    else AfterLastSlash(path[..|path| - 1]) + [path[|path| - 1]]
  }

  /** filepath.Base: the last element of the path, "." for the empty path and
      "/" for a path of slashes only. */
  function Base(path: string): (r: string)
    ensures r != []
    ensures path == "" ==> r == "."
  {
    if path == "" then "."
    else
      var trimmed := TrimTrailingSlashes(path);
      if trimmed == "" then "/" else AfterLastSlash(trimmed)
  }

  /** Base is "/" exactly for a non-empty path of slashes only; otherwise it is the last
      element: a slash-free piece of the path that starts the path or follows a '/', and
      after which only '/' characters come. */
  lemma BaseIsLastElement(path: string)
    requires path != ""
    ensures Base(path) == "/" <==> forall j :: 0 <= j < |path| ==> path[j] == '/'
    ensures Base(path) != "/" ==> forall j :: 0 <= j < |Base(path)| ==> Base(path)[j] != '/'
    ensures Base(path) != "/" ==>
      exists k :: 0 <= k <= |path| - |Base(path)| && HasPrefix(path[k..], Base(path)) && (k == 0 || path[k - 1] == '/') &&
        forall j :: k + |Base(path)| <= j < |path| ==> path[j] == '/'
  {
    var trimmed := TrimTrailingSlashes(path);
    if trimmed != "" {
      var last := AfterLastSlash(trimmed);
      var k := |trimmed| - |last|;
      assert path[k..][..|last|] == trimmed[k..] == last;
      assert trimmed[|trimmed| - 1] != '/';
      assert last != [];
      assert path[|trimmed| - 1] != '/';
    }
  }

  /** A non-empty path without '/' is its own base name. */
  lemma BaseOfSlashFree(path: string)
    requires path != [] && forall j :: 0 <= j < |path| ==> path[j] != '/'
    ensures Base(path) == path
  {
    AfterLastSlashAppend([], path);
    assert [] + path == path;
  }

  /** One more character that is not '/' extends the last element by that character. */
  lemma AfterLastSlashSnoc(path: string, c: char)
    requires c != '/'
    ensures AfterLastSlash(path + [c]) == AfterLastSlash(path) + [c]
  {
    assert (path + [c])[..|path|] == path;
  }

  /** A path has only one slash-free suffix that is either the whole path or preceded by '/'. */
  lemma SlashFreeTailUnique(p: string, x: string, y: string)
    requires HasSuffix(p, x) && (forall j :: 0 <= j < |x| ==> x[j] != '/') && (|x| < |p| ==> p[|p| - |x| - 1] == '/')
    requires HasSuffix(p, y) && (forall j :: 0 <= j < |y| ==> y[j] != '/') && (|y| < |p| ==> p[|p| - |y| - 1] == '/')
    ensures x == y
  {
  }

  /** Slash-free text appended to a path extends a last element of the path to a last
      element of the longer path. */
  lemma LastElementAppend(path: string, a: string, rest: string)
    requires HasSuffix(path, a) && (forall j :: 0 <= j < |a| ==> a[j] != '/')
    requires |a| < |path| ==> path[|path| - |a| - 1] == '/'
    requires forall j :: 0 <= j < |rest| ==> rest[j] != '/'
    ensures HasSuffix(path + rest, a + rest) && (forall j :: 0 <= j < |a + rest| ==> (a + rest)[j] != '/')
    ensures |a| < |path| ==> (path + rest)[|path + rest| - |a + rest| - 1] == '/'
  {
    var p, x := path + rest, a + rest;
    assert p[|p| - |x|..] == path[|path| - |a|..] + rest;
    if |a| < |path| {
      assert p[|p| - |x| - 1] == path[|path| - |a| - 1];
    }
  }

  /** Appending slash-free text to a path extends its last element. */
  lemma {:induction false} AfterLastSlashAppend(path: string, rest: string)
    requires forall j :: 0 <= j < |rest| ==> rest[j] != '/'
    ensures AfterLastSlash(path + rest) == AfterLastSlash(path) + rest
  {
    LastElementAppend(path, AfterLastSlash(path), rest);
    SlashFreeTailUnique(path + rest, AfterLastSlash(path + rest), AfterLastSlash(path) + rest);
  }

  /** For a path that does not end in '/', appending slash-free text appends to its base name. */
  lemma BaseAppend(path: string, rest: string)
    requires path != [] && path[|path| - 1] != '/'
    requires forall j :: 0 <= j < |rest| ==> rest[j] != '/'
    ensures Base(path + rest) == Base(path) + rest
    ensures HasPrefix(Base(path + rest), Base(path))
  {
    var whole := path + rest;
    assert whole[|whole| - 1] != '/' by {
      if rest != [] {
        assert whole[|whole| - 1] == rest[|rest| - 1];
      } else {
        assert whole[|whole| - 1] == path[|path| - 1];
      }
    }
    AfterLastSlashAppend(path, rest);
    assert AfterLastSlash(path) != [];
    assert (Base(path) + rest)[..|Base(path)|] == Base(path);
  }

  /** The base name of a slash-free name inside a directory is the name itself. */
  lemma BaseInDir(path: string, dir: string, name: string)
    requires path == dir + "/" + name
    requires name != [] && forall j :: 0 <= j < |name| ==> name[j] != '/'
    ensures Base(path) == name
  {
    assert path[|path| - 1] == name[|name| - 1] != '/';
    AfterLastSlashAppend(dir + "/", name);
    assert AfterLastSlash(dir + "/") == [];
  }
}
