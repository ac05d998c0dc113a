/** scripts/extract_commit_msg.py: the commit message and its first line,
    handed to the workflow through its multiline output syntax. */
module CommitTitle {
  import opened Wrappers
  import opened Text
  import opened Briefing

  const DefaultMessage := "chore: refresh cybersecurity brief"

  lemma DefaultMessageShape()
    ensures DefaultMessage != [] && IsStripped(DefaultMessage) && '\n' !in DefaultMessage
  {
  }

  /** The commit message: the text of the message file, stripped, or the
      default when the file is absent. */
  function CommitMsg(file: Option<string>): (msg: string)
    ensures IsStripped(msg)
    ensures file.None? ==> msg == DefaultMessage
    ensures file.Some? ==> msg == Strip(file.value)
  {
    DefaultMessageShape();
    if file.Some? then Strip(file.value) else DefaultMessage
  }

  /** The title: the first line of the message. */
  function Title(msg: string): (t: string)
    ensures '\n' !in t
  {
    SplitNoSep(msg, '\n');
    Split(msg, '\n')[0]
  }

  /** The title is the message up to its first newline: it holds no newline,
      it starts the message, and it is all of a message without one. */
  lemma TitleIsFirstLine(msg: string)
    ensures Title(msg) == msg[..FirstIndex(msg, '\n')]
    ensures '\n' !in Title(msg) && Title(msg) <= msg
    ensures '\n' !in msg ==> Title(msg) == msg
  {
    SplitFirst(msg, '\n');
    if '\n' !in msg {
      assert msg[..|msg|] == msg;
    }
  }

  /** The message `update_news.py` writes reads back unchanged, and its
      title starts with the same prefix. */
  lemma WrittenMessageReadBack(brief: DailyBrief)
    ensures CommitMsg(Some(CommitMessage(brief))) == CommitMessage(brief)
    ensures CommitPrefix <= Title(CommitMessage(brief))
  {
    var msg := CommitMessage(brief);
    CommitMessageStripped(brief);
    StripOfStripped(msg);
    TitleIsFirstLine(msg);
    PrefixHasNoNewline();
    PrefixBeforeFirst(CommitPrefix, msg, '\n');
  }

  /** A prefix without `c` lies before the first `c`. */
  lemma PrefixBeforeFirst(p: string, s: string, c: char)
    requires p <= s && c !in p
    ensures p <= s[..FirstIndex(s, c)]
  {
    var i := FirstIndex(s, c);
    assert s[..|p|] == p;
    assert s[..i][..|p|] == p;
  }

  lemma PrefixHasNoNewline()
    ensures '\n' !in CommitPrefix
  {
  }

  const Eof := "EOF"
  const QuotedEof := "'EOF'"

  /** One write of a line and its newline, ahead of what is written after it. */
  function Line(line: string, rest: string): string {
    line + "\n" + rest
  }

  /** One block of the multiline output syntax, ahead of what follows it: a
      header line naming the output and its delimiter, the value, and a
      closing line. */
  function Block(name: string, open: string, value: string, close: string, rest: string): string {
    Line(name + "<<" + open, Line(value, Line(close, rest)))
  }

  /** The text appended to the output file, as written: the header lines
      declare the delimiter `'EOF'`, quotes included, but the closing lines
      are `EOF`. */
  function OutputBlocks(msg: string, title: string): string {
    Block("message", QuotedEof, msg, Eof, Block("title", QuotedEof, title, Eof, ""))
  }

  /** The appended text, written out: each block is a header line, the
      value and a closing line, each ended by a newline. */
  lemma OutputText(msg: string, title: string)
    ensures OutputBlocks(msg, title) ==
      "message<<'EOF'\n" + msg + "\nEOF\n" + "title<<'EOF'\n" + title + "\nEOF\n"
  {
    var h1, h2, c := "message<<'EOF'", "title<<'EOF'", "EOF";
    assert "message" + "<<" + QuotedEof == h1 && "title" + "<<" + QuotedEof == h2;
    assert h1 + "\n" == "message<<'EOF'\n" && h2 + "\n" == "title<<'EOF'\n";
    assert "\n" + c + "\n" == "\nEOF\n";
    var second := Line(h2, Line(title, Line(c, "")));
    assert second == h2 + "\n" + title + "\n" + c + "\n";
    assert OutputBlocks(msg, title) == h1 + "\n" + msg + "\n" + c + "\n" + second;
  }

  /** The same blocks with the delimiter the closing lines use. */
  function IntendedOutputBlocks(msg: string, title: string): string {
    Block("message", Eof, msg, Eof, Block("title", Eof, title, Eof, ""))
  }

  /** No line of `s` is exactly `d`. */
  predicate NoLine(s: string, d: string) {
    d !in Split(s, '\n')
  }

  /** The position of the first line equal to `d`, or the number of lines. */
  function FirstLine(lines: seq<string>, d: string): (j: nat)
    ensures j <= |lines| && d !in lines[..j]
    ensures j < |lines| ==> lines[j] == d
  {
    if lines == [] then 0
    else if lines[0] == d then 0
    else
      var j := 1 + FirstLine(lines[1..], d);
      assert lines[..j] == [lines[0]] + lines[1..][..j - 1];
      j
  }

  /** A line equal to `d` with none before it is the first. */
  lemma {:induction false} FirstLineAt(lines: seq<string>, d: string, n: nat)
    requires n < |lines| && lines[n] == d && d !in lines[..n]
    ensures FirstLine(lines, d) == n
  {
    if n > 0 {
      assert lines[0] in lines[..n];
      assert lines[1..][..n - 1] == lines[1..n];
      assert lines[1..n] <= lines[..n][1..];
      FirstLineAt(lines[1..], d, n - 1);
    }
  }

  /** How the runner reads a value: the lines up to the first line equal to
      the delimiter, joined by newlines, and the lines after it; nothing when
      no line closes the value (the runner then fails the step). */
  function ReadValue(lines: seq<string>, d: string): Option<(string, seq<string>)> {
    var j := FirstLine(lines, d);
    if j == |lines| then None
    else Some((if j == 0 then "" else Join(lines[..j], '\n'), lines[j + 1..]))
  }

  /** A block: a header `name<<d`, then a value closed by `d`. */
  function ReadBlock(lines: seq<string>, name: string, d: string): Option<(string, seq<string>)> {
    if lines != [] && lines[0] == name + "<<" + d then ReadValue(lines[1..], d) else None
  }

  /** A written line without a newline in it is one line of the file. */
  lemma SplitLine(line: string, rest: string)
    requires '\n' !in line
    ensures Split(Line(line, rest), '\n') == [line] + Split(rest, '\n')
  {
    SplitConcat(line, rest, '\n');
    SplitWhole(line, '\n');
  }

  /** The lines of a block followed by more text. */
  lemma BlockLines(name: string, open: string, value: string, close: string, rest: string)
    requires '\n' !in name + "<<" + open && '\n' !in close
    ensures Split(Block(name, open, value, close, rest), '\n') ==
            [name + "<<" + open] + (Split(value, '\n') + ([close] + Split(rest, '\n')))
  {
    SplitLine(name + "<<" + open, Line(value, Line(close, rest)));
    SplitConcat(value, Line(close, rest), '\n');
    SplitLine(close, rest);
  }

  /** A value with no line equal to the delimiter is never closed. */
  lemma NeverClosed(lines: seq<string>, d: string)
    requires d !in lines
    ensures ReadValue(lines, d) == None
  {
  }

  /** A value whose lines are not the delimiter reads back up to the
      delimiter's line. */
  lemma ReadValueOf(parts: seq<string>, d: string, rest: seq<string>)
    requires parts != [] && d !in parts
    ensures ReadValue(parts + ([d] + rest), d) == Some((Join(parts, '\n'), rest))
  {
    var body := parts + ([d] + rest);
    var n := |parts|;
    assert body[..n] == parts && body[n] == d;
    FirstLineAt(body, d, n);
    assert ReadValue(body, d) == Some((Join(body[..n], '\n'), body[n + 1..]));
    assert body[n + 1..] == rest;
  }

  /** Reading a block whose value has no line equal to the delimiter gives
      back the value and what follows. */
  lemma ReadBlockOf(name: string, d: string, value: string, rest: seq<string>)
    requires NoLine(value, d)
    ensures ReadBlock([name + "<<" + d] + (Split(value, '\n') + ([d] + rest)), name, d) == Some((value, rest))
  {
    var body := Split(value, '\n') + ([d] + rest);
    ReadValueOf(Split(value, '\n'), d, rest);
    SplitJoin(value, '\n');
    assert ([name + "<<" + d] + body)[1..] == body;
  }

  /** Two blocks whose header lines declare `d` but whose closing lines are
      `close`: when no line of either value is `d`, the first value is never
      closed. */
  lemma UnclosedBlocks(name1: string, name2: string, d: string, close: string, msg: string, title: string)
    requires '\n' !in name1 + "<<" + d && '\n' !in name2 + "<<" + d && '\n' !in close
    requires close != d && d != "" && NoLine(msg, d) && NoLine(title, d)
    ensures ReadBlock(Split(Block(name1, d, msg, close, Block(name2, d, title, close, "")), '\n'), name1, d) == None
  {
    BlockLines(name1, d, msg, close, Block(name2, d, title, close, ""));
    BlockLines(name2, d, title, close, "");
    SplitWhole("", '\n');
    var header := name2 + "<<" + d;
    assert |header| > |d|;
    var second := [header] + (Split(title, '\n') + ([close] + [""]));
    assert d !in [close] + [""];
    assert d !in Split(title, '\n') + ([close] + [""]);
    assert d !in second;
    NeverClosed(Split(msg, '\n') + ([close] + second), d);
  }

  /** Two blocks whose header and closing lines agree on `d` read back both
      values. */
  lemma ClosedBlocks(name1: string, name2: string, d: string, msg: string, title: string)
    requires '\n' !in name1 + "<<" + d && '\n' !in name2 + "<<" + d && '\n' !in d
    requires NoLine(msg, d) && NoLine(title, d)
    ensures var lines := Split(Block(name1, d, msg, d, Block(name2, d, title, d, "")), '\n');
      && ReadBlock(lines, name1, d).Some?
      && ReadBlock(lines, name1, d).value.0 == msg
      && ReadBlock(ReadBlock(lines, name1, d).value.1, name2, d) == Some((title, [""]))
  {
    BlockLines(name1, d, msg, d, Block(name2, d, title, d, ""));
    BlockLines(name2, d, title, d, "");
    SplitWhole("", '\n');
    var rest := [name2 + "<<" + d] + (Split(title, '\n') + ([d] + [""]));
    ReadBlockOf(name1, d, msg, rest);
    ReadBlockOf(name2, d, title, [""]);
  }

  /** The header lines and delimiters hold no newline, and the two spellings
      of the delimiter differ. */
  lemma DelimiterFacts()
    ensures '\n' !in "message" + "<<" + QuotedEof && '\n' !in "title" + "<<" + QuotedEof
    ensures '\n' !in "message" + "<<" + Eof && '\n' !in "title" + "<<" + Eof
    ensures '\n' !in Eof && Eof != QuotedEof && QuotedEof != ""
  {
  }

  /** As written, the runner looks for a line `'EOF'` and finds none in the
      appended text, whatever the message (unless the message itself holds
      such a line): the message output is never closed. */
  lemma AsWrittenNeverCloses(msg: string, title: string)
    requires NoLine(msg, QuotedEof) && NoLine(title, QuotedEof)
    ensures ReadBlock(Split(OutputBlocks(msg, title), '\n'), "message", QuotedEof) == None
  {
    DelimiterFacts();
    UnclosedBlocks("message", "title", QuotedEof, Eof, msg, title);
  }

  /** The default message shows it: its output block is never closed. */
  lemma DefaultMessageNeverCloses()
    ensures ReadBlock(Split(OutputBlocks(DefaultMessage, Title(DefaultMessage)), '\n'), "message", QuotedEof) == None
  {
    DefaultMessageShape();
    assert |DefaultMessage| != |QuotedEof|;
    OneLineNeverCloses(DefaultMessage);
  }

  /** So does every message of one line other than `'EOF'`. */
  lemma OneLineNeverCloses(msg: string)
    requires '\n' !in msg && msg != QuotedEof
    ensures ReadBlock(Split(OutputBlocks(msg, Title(msg)), '\n'), "message", QuotedEof) == None
  {
    SplitWhole(msg, '\n');
    TitleIsFirstLine(msg);
    AsWrittenNeverCloses(msg, msg);
  }

  /** With the delimiter the closing lines use, the runner reads back the
      message and then the title, for every message with no line `EOF`. */
  lemma IntendedRoundTrip(msg: string, title: string)
    requires NoLine(msg, Eof) && NoLine(title, Eof)
    ensures var lines := Split(IntendedOutputBlocks(msg, title), '\n');
      && ReadBlock(lines, "message", Eof).Some?
      && ReadBlock(lines, "message", Eof).value.0 == msg
      && ReadBlock(ReadBlock(lines, "message", Eof).value.1, "title", Eof) == Some((title, [""]))
  {
    DelimiterFacts();
    ClosedBlocks("message", "title", Eof, msg, title);
  }

  /** What the script appends to the output file, with the delimiter fixed. */
  function ExtractOutput(file: Option<string>): string {
    var msg := CommitMsg(file);
    IntendedOutputBlocks(msg, Title(msg))
  }

  /** The title of a message with no line `d` is not `d` either. */
  lemma TitleNoLine(msg: string, d: string)
    requires NoLine(msg, d)
    ensures NoLine(Title(msg), d)
  {
    TitleIsFirstLine(msg);
    SplitWhole(Title(msg), '\n');
    assert Split(msg, '\n')[0] in Split(msg, '\n');
  }

  /** The workflow reads back the message and its title. */
  lemma ExtractOutputRoundTrip(file: Option<string>)
    requires NoLine(CommitMsg(file), Eof)
    ensures var msg := CommitMsg(file);
      var lines := Split(ExtractOutput(file), '\n');
      && ReadBlock(lines, "message", Eof).Some?
      && ReadBlock(lines, "message", Eof).value.0 == msg
      && ReadBlock(ReadBlock(lines, "message", Eof).value.1, "title", Eof) == Some((Title(msg), [""]))
  {
    var msg := CommitMsg(file);
    TitleNoLine(msg, Eof);
    IntendedRoundTrip(msg, Title(msg));
  }
}
