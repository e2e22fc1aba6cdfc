/** The OpenGL information text initDemoScene reports: one line
    "  key: value" per entry of the view's diagnostic map, in the map's
    order, separated by single newlines. */
module Diagnostics {

  /** One diagnostic entry as a line of the text. */
  function EntryLine(key: string, value: string): (line: string)
    ensures |line| == |key| + |value| + 4
    ensures line[..2] == "  " && line[2..2 + |key|] == key
    ensures line[2 + |key|..4 + |key|] == ": " && line[4 + |key|..] == value
  {
    "  " + key + ": " + value
  }

  /** The lines of all entries, in order. */
  function EntryLines(entries: seq<(string, string)>): (lines: seq<string>)
    ensures |lines| == |entries|
    ensures forall i :: 0 <= i < |entries| ==> lines[i] == EntryLine(entries[i].0, entries[i].1)
  {
    seq(|entries|, i requires 0 <= i < |entries| => EntryLine(entries[i].0, entries[i].1))
  }

  /** Lines joined by "\n", with no separator before the first line or
      after the last. */
  function JoinLines(lines: seq<string>): string
    decreases |lines|
  {
    if lines == [] then ""
    else if |lines| == 1 then lines[0]
    else lines[0] + "\n" + JoinLines(lines[1..])
  }

  /** A string cut at every "\n" (the pieces between newlines, so a string
      with k newlines has k + 1 pieces). */
  function Split(s: string): (pieces: seq<string>)
    ensures |pieces| >= 1
    decreases |s|
  {
    if s == [] then [""]
    else
      var rest := Split(s[1..]);
      if s[0] == '\n' then [""] + rest
      else [[s[0]] + rest[0]] + rest[1..]
  }

  /** Appending one line to a non-empty join adds one separator. */
  lemma {:induction false} JoinLinesSnoc(lines: seq<string>, line: string)
    requires lines != []
    ensures JoinLines(lines + [line]) == JoinLines(lines) + "\n" + line
    decreases |lines|
  {
    if |lines| == 1 {
      assert lines + [line] == [lines[0], line];
      assert [lines[0], line][1..] == [line];
    } else {
      assert (lines + [line])[1..] == lines[1..] + [line];
      JoinLinesSnoc(lines[1..], line);
    }
  }

  lemma {:induction false} SplitNoNewline(s: string)
    requires '\n' !in s
    ensures Split(s) == [s]
    decreases |s|
  {
    if s != [] {
      SplitNoNewline(s[1..]);
      assert [s[0]] + s[1..] == s;
    }
  }

  lemma {:induction false} SplitAtFirstNewline(a: string, b: string)
    requires '\n' !in a
    ensures Split(a + "\n" + b) == [a] + Split(b)
    decreases |a|
  {
    var s := a + "\n" + b;
    if a == [] {
      assert s[1..] == b;
    } else {
      assert s[1..] == a[1..] + "\n" + b;
      SplitAtFirstNewline(a[1..], b);
      assert [a[0]] + a[1..] == a;
    }
  }

  /** Splitting the join gives back the lines, as long as no line holds a
      newline of its own. */
  lemma {:induction false} SplitJoinLines(lines: seq<string>)
    requires lines != []
    requires forall i :: 0 <= i < |lines| ==> '\n' !in lines[i]
    ensures Split(JoinLines(lines)) == lines
    decreases |lines|
  {
    if |lines| == 1 {
      SplitNoNewline(lines[0]);
    } else {
      SplitJoinLines(lines[1..]);
      SplitAtFirstNewline(lines[0], JoinLines(lines[1..]));
      assert [lines[0]] + lines[1..] == lines;
    }
  }

  /** For non-empty lines, the first character of a join is that of its
      first line, and the last character that of its last line. */
  lemma {:induction false} JoinLinesEnds(lines: seq<string>)
    requires lines != [] && forall i :: 0 <= i < |lines| ==> lines[i] != []
    ensures var j := JoinLines(lines);
      |j| > 0 && j[0] == lines[0][0] && j[|j| - 1] == lines[|lines| - 1][|lines[|lines| - 1]| - 1]
    decreases |lines|
  {
    if |lines| > 1 {
      JoinLinesEnds(lines[1..]);
    }
  }

  /** The loop of initDemoScene: append "\n" when the text is not empty
      yet, then the entry's line. */
  method FormatDiagnostics(entries: seq<(string, string)>) returns (info: string)
    ensures info == JoinLines(EntryLines(entries))
  {
    info := "";
    var i := 0;
    while i < |entries|
      invariant 0 <= i <= |entries|
      invariant info == JoinLines(EntryLines(entries[..i]))
      invariant i > 0 <==> info != ""
    {
      var key, value := entries[i].0, entries[i].1;
      ghost var lines := EntryLines(entries[..i]);
      if info != "" {
        info := info + "\n";
      }
      info := info + EntryLine(key, value);
      assert EntryLines(entries[..i + 1]) == lines + [EntryLine(key, value)];
      if i > 0 {
        JoinLinesSnoc(lines, EntryLine(key, value));
      }
      i := i + 1;
    }
    assert entries[..|entries|] == entries;
  }

  /** The text splits back into exactly one line per entry when neither
      keys nor values hold newlines; so it has no leading or trailing
      newline. */
  lemma DiagnosticsRoundTrip(entries: seq<(string, string)>)
    requires entries != []
    requires forall i :: 0 <= i < |entries| ==> '\n' !in entries[i].0 && '\n' !in entries[i].1
    ensures Split(JoinLines(EntryLines(entries))) == EntryLines(entries)
    ensures var text := JoinLines(EntryLines(entries));
      |text| > 0 && text[0] == ' ' && text[|text| - 1] != '\n'
  {
    var lines := EntryLines(entries);
    forall i | 0 <= i < |lines|
      ensures '\n' !in lines[i]
    {
      var e := entries[i];
      assert lines[i] == "  " + e.0 + ": " + e.1;
    }
    SplitJoinLines(lines);
    JoinLinesEnds(lines);
    var last := lines[|lines| - 1];
    assert last[|last| - 1] in last;
  }
}
