/** BaseLayout: renders one message record into a line of text. */
module Layout {
  import opened Common

  /** The severity tags, indexed by level (Emergency = 0 ... Debug = 7). */
  const DefaultLevelPrefix: seq<string> := ["[M] ", "[A] ", "[C] ", "[E] ", "[W] ", "[N] ", "[I] ", "[D] "]

  /** The record a layout renders. `stamp` is the message time already rendered
      with Go's layout "2006/01/02 15:04:05.00 " (time formatting is outside the model). */
  datatype LayoutInfo = LayoutInfo(
    level: uint8,
    msg: string,
    stamp: string,
    enableCall: bool,
    fileName: string,
    lineNumber: int)

  /** The call-site tag "[file:line] ". */
  function CallTag(fileName: string, lineNumber: int): (r: string)
    ensures |r| == |fileName| + |Itoa(lineNumber)| + 4
    ensures HasPrefix(r, "[" + fileName + ":") && r[|r| - 2..] == "] "
    ensures r[|fileName| + 2..|r| - 2] == Itoa(lineNumber)
  {
    "[" + fileName + ":" + Itoa(lineNumber) + "] "
  }

  /** The severity tag and the message, present only for a known level (below 8). */
  function Body(info: LayoutInfo): string {
    if info.level < 8 then DefaultLevelPrefix[info.level] + info.msg else ""
  }

  /** The body behind the call-site tag when call capture is on. */
  function Tagged(info: LayoutInfo): string {
    if info.enableCall then CallTag(info.fileName, info.lineNumber) + Body(info) else Body(info)
  }

  /** BaseLayout.Layout: timestamp, optional call-site tag, severity tag and message, newline. */
  function Layout(info: LayoutInfo): (r: string)
    ensures HasPrefix(r, info.stamp) && |r| > |info.stamp| && r[|r| - 1] == '\n'
  {
    info.stamp + Tagged(info) + "\n"
  }

  /** A line starts with the timestamp, ends with a newline, and is exactly as long as its
      parts: the call-site tag when capture is on, and the 4-character severity tag and the
      message when the level is known. */
  lemma LayoutFrame(info: LayoutInfo)
    ensures HasPrefix(Layout(info), info.stamp) && Layout(info)[|Layout(info)| - 1] == '\n'
    ensures |Layout(info)| == |info.stamp|
                   + (if info.enableCall then |CallTag(info.fileName, info.lineNumber)| else 0)
                   + (if info.level < 8 then 4 + |info.msg| else 0)
                   + 1
  {
    var r := Layout(info);
    assert r[..|info.stamp|] == info.stamp;
    if info.level < 8 {
      assert |DefaultLevelPrefix[info.level]| == 4;
    }
  }

  /** With call capture on, the call-site tag follows the timestamp directly. */
  lemma LayoutCallTag(info: LayoutInfo)
    requires info.enableCall
    ensures HasPrefix(Layout(info)[|info.stamp|..], CallTag(info.fileName, info.lineNumber))
  {
    var tag := CallTag(info.fileName, info.lineNumber);
    var rest := Body(info) + "\n";
    assert Layout(info) == info.stamp + (tag + rest);
    assert Layout(info)[|info.stamp|..] == tag + rest;
    assert (tag + rest)[..|tag|] == tag;
  }

  /** For a known level, the line ends with the level's severity tag, the message and the
      newline; the message is not altered. */
  lemma LayoutMessage(info: LayoutInfo)
    requires info.level < 8
    ensures HasSuffix(Layout(info)[..|Layout(info)| - 1], DefaultLevelPrefix[info.level] + info.msg)
  {
    var r := Layout(info);
    var line := info.stamp + Tagged(info);
    var body := Body(info);
    assert r[..|r| - 1] == line;
    if info.enableCall {
      assert line == (info.stamp + CallTag(info.fileName, info.lineNumber)) + body;
    }
    assert line[|line| - |body|..] == body;
  }

  /** A record of an unknown level (8 or more) without call capture renders as the bare timestamp line. */
  lemma UnknownLevelDropsMessage(info: LayoutInfo)
    requires info.level >= 8 && !info.enableCall
    ensures Layout(info) == info.stamp + "\n"
  {
  }
}
