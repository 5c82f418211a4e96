/**
 * The labels file: one class name per line, each read with Python's
 * `[line.rstrip() for line in f]` over a TensorFlow `GFile`. Iterating it
 * calls TensorFlow's buffered `readline`, which skips every '\r' wherever it
 * stands and yields the lines including their terminating newline (the last
 * line may lack one). `str.rstrip()` with no argument then removes every
 * trailing character for which `str.isspace()` holds.
 */
module Labels {

  /** The characters Python's `str.isspace()` accepts, i.e. those `rstrip()` removes. */
  predicate IsWhitespace(c: char) {
    || c == ' '
    || ('\t' <= c <= '\r')
    || ('\U{1c}' <= c <= '\U{1f}')
    || c == '\U{85}' || c == '\U{a0}' || c == '\U{1680}'
    || ('\U{2000}' <= c <= '\U{200a}')
    || c == '\U{2028}' || c == '\U{2029}' || c == '\U{202f}' || c == '\U{205f}' || c == '\U{3000}'
  }

  /** `s.rstrip()`: the longest prefix of `s` that does not end in whitespace. */
  function RStrip(s: string): (r: string)
    ensures r <= s
    ensures forall i :: |r| <= i < |s| ==> IsWhitespace(s[i])
    ensures r == [] || !IsWhitespace(r[|r| - 1])
  {
    if |s| > 0 && IsWhitespace(s[|s| - 1]) then RStrip(s[..|s| - 1]) else s
  }

  /** The three clauses of RStrip's contract determine its result. */
  lemma {:induction false} RStripUnique(s: string, r: string)
    requires r <= s
    requires forall i :: |r| <= i < |s| ==> IsWhitespace(s[i])
    requires r == [] || !IsWhitespace(r[|r| - 1])
    ensures RStrip(s) == r
  {
  }

  /** Length of the first line of `text`, counting its newline if it has one. */
  function FirstLineLength(text: string): (n: nat)
    requires text != []
    ensures 0 < n <= |text|
    ensures forall i :: 0 <= i < n - 1 ==> text[i] != '\n'
    ensures n < |text| ==> text[n - 1] == '\n'
  {
    if text[0] == '\n' || |text| == 1 then 1 else 1 + FirstLineLength(text[1..])
  }

  /** The characters TensorFlow's `readline` keeps: all but '\r'. */
  function DropCR(text: string): (r: string)
    ensures '\r' !in r && |r| <= |text|
    ensures forall c :: c != '\r' ==> multiset(r)[c] == multiset(text)[c]
  {
    if text == [] then []
    else
      assert text == [text[0]] + text[1..];
      (if text[0] == '\r' then [] else [text[0]]) + DropCR(text[1..])
  }

  /**
   * Dropping the '\r's of two pieces one after the other is dropping them
   * from the whole: with the one-character case of DropCR's definition, the
   * kept characters stay in file order.
   */
  lemma {:induction false} DropCRAppend(a: string, b: string)
    ensures DropCR(a + b) == DropCR(a) + DropCR(b)
  {
    if a != [] {
      assert (a + b)[0] == a[0] && (a + b)[1..] == a[1..] + b;
      DropCRAppend(a[1..], b);
    } else {
      assert a + b == b;
    }
  }

  /** Text without a '\r' reaches the line splitter unchanged. */
  lemma {:induction false} DropCRKeepsPlainText(text: string)
    requires '\r' !in text
    ensures DropCR(text) == text
  {
    if text != [] {
      DropCRKeepsPlainText(text[1..]);
      assert text == [text[0]] + text[1..];
    }
  }

  /** The lines a text, already free of '\r', splits into, newlines kept. */
  function Lines(text: string): (lines: seq<string>)
    ensures forall k :: 0 <= k < |lines| ==> lines[k] != []
    ensures forall k, i :: 0 <= k < |lines| && 0 <= i < |lines[k]| - 1 ==> lines[k][i] != '\n'
    ensures forall k :: 0 <= k < |lines| - 1 ==> lines[k][|lines[k]| - 1] == '\n'
    decreases |text|
  {
    if text == [] then []
    else
      var n := FirstLineLength(text);
      [text[..n]] + Lines(text[n..])
  }

  /** The lines joined back together. */
  function Concat(lines: seq<string>): string {
    if lines == [] then [] else lines[0] + Concat(lines[1..])
  }

  /** Splitting a text free of '\r' gives lines free of '\r'. */
  lemma {:induction false} LinesHaveNoCR(text: string)
    requires '\r' !in text
    ensures forall k :: 0 <= k < |Lines(text)| ==> '\r' !in Lines(text)[k]
    decreases |text|
  {
    if text != [] {
      var n := FirstLineLength(text);
      assert text == text[..n] + text[n..];
      LinesHaveNoCR(text[n..]);
      assert Lines(text)[1..] == Lines(text[n..]);
    }
  }

  /** Splitting into lines loses nothing: the lines join back to the file's text. */
  lemma {:induction false} LinesJoinBack(text: string)
    ensures Concat(Lines(text)) == text
    decreases |text|
  {
    if text != [] {
      var n := FirstLineLength(text);
      LinesJoinBack(text[n..]);
      assert Lines(text)[1..] == Lines(text[n..]);
      assert text == text[..n] + text[n..];
    }
  }

  /** Stripping a line that is free of '\r' leaves neither a newline nor a '\r'. */
  lemma StrippedLineIsBare(line: string)
    requires forall i :: 0 <= i < |line| - 1 ==> line[i] != '\n'
    requires '\r' !in line
    ensures '\n' !in RStrip(line) && '\r' !in RStrip(line)
  {
    var r := RStrip(line);
    forall i | 0 <= i < |r|
      ensures r[i] != '\n' && r[i] != '\r'
    {
      assert r[i] == line[i];
      assert line[i] != '\r';
      if i < |line| - 1 {
        assert line[i] != '\n';
      } else {
        assert i == |r| - 1 && !IsWhitespace(r[i]);
      }
    }
  }

  /** The same for every line of a split text free of '\r'. */
  lemma StrippedLinesAreBare(lines: seq<string>)
    requires forall k, i :: 0 <= k < |lines| && 0 <= i < |lines[k]| - 1 ==> lines[k][i] != '\n'
    requires forall k :: 0 <= k < |lines| ==> '\r' !in lines[k]
    ensures forall k :: 0 <= k < |lines| ==> '\n' !in RStrip(lines[k]) && '\r' !in RStrip(lines[k])
  {
    forall k | 0 <= k < |lines|
      ensures '\n' !in RStrip(lines[k]) && '\r' !in RStrip(lines[k])
    {
      StrippedLineIsBare(lines[k]);
    }
  }

  /**
   * The label list: one label per line of the file once its '\r's are gone,
   * in file order; each label is its line with trailing whitespace removed,
   * so it is a prefix of the line, does not end in whitespace and holds no
   * newline and no '\r'.
   */
  function ParseLabels(text: string): (labels: seq<string>)
    ensures |labels| == |Lines(DropCR(text))|
    ensures forall k :: 0 <= k < |labels| ==> labels[k] == RStrip(Lines(DropCR(text))[k])
    ensures forall k :: 0 <= k < |labels| ==> labels[k] <= Lines(DropCR(text))[k]
    ensures forall k :: 0 <= k < |labels| ==> labels[k] == [] || !IsWhitespace(labels[k][|labels[k]| - 1])
    ensures forall k :: 0 <= k < |labels| ==> '\n' !in labels[k] && '\r' !in labels[k]
  {
    var lines := Lines(DropCR(text));
    LinesHaveNoCR(DropCR(text));
    StrippedLinesAreBare(lines);
    seq(|lines|, k requires 0 <= k < |lines| => RStrip(lines[k]))
  }

  /** A labels file written one name per line, each followed by a newline. */
  function JoinLines(names: seq<string>): string {
    if names == [] then [] else names[0] + "\n" + JoinLines(names[1..])
  }

  /** A name that survives being written as a line and read back. */
  predicate IsCleanName(name: string) {
    '\n' !in name && '\r' !in name && (name == [] || !IsWhitespace(name[|name| - 1]))
  }

  lemma {:induction false} JoinLinesHasNoCR(names: seq<string>)
    requires forall k :: 0 <= k < |names| ==> '\r' !in names[k]
    ensures '\r' !in JoinLines(names)
  {
    if names != [] {
      JoinLinesHasNoCR(names[1..]);
    }
  }

  lemma {:induction false} FirstLineOfJoin(name: string, rest: string)
    requires '\n' !in name
    ensures FirstLineLength(name + "\n" + rest) == |name| + 1
    decreases |name|
  {
    var text := name + "\n" + rest;
    if name != [] {
      assert text[1..] == name[1..] + "\n" + rest;
      FirstLineOfJoin(name[1..], rest);
    }
  }

  lemma {:induction false} LinesOfJoin(names: seq<string>)
    requires forall k :: 0 <= k < |names| ==> '\n' !in names[k]
    ensures |Lines(JoinLines(names))| == |names|
    ensures forall k :: 0 <= k < |names| ==> Lines(JoinLines(names))[k] == names[k] + "\n"
  {
    if names != [] {
      var rest := JoinLines(names[1..]);
      var text := JoinLines(names);
      assert text == names[0] + "\n" + rest;
      FirstLineOfJoin(names[0], rest);
      var n := |names[0]| + 1;
      assert text[..n] == names[0] + "\n";
      assert text[n..] == rest;
      LinesOfJoin(names[1..]);
    }
  }

  /** A file without '\r' is parsed line by line as it stands. */
  lemma ParseLabelsOfPlainText(text: string)
    requires '\r' !in text
    ensures |ParseLabels(text)| == |Lines(text)|
    ensures forall k :: 0 <= k < |Lines(text)| ==> ParseLabels(text)[k] == RStrip(Lines(text)[k])
  {
    DropCRKeepsPlainText(text);
  }

  /** A clean name written as a line strips back to itself. */
  lemma StripCleanLine(name: string)
    requires IsCleanName(name)
    ensures RStrip(name + "\n") == name
  {
    RStripUnique(name + "\n", name);
  }

  /** Writing clean names one per line and parsing the file gives the names back. */
  lemma ParseLabelsRoundTrip(names: seq<string>)
    requires forall k :: 0 <= k < |names| ==> IsCleanName(names[k])
    ensures ParseLabels(JoinLines(names)) == names
  {
    var text := JoinLines(names);
    JoinLinesHasNoCR(names);
    ParseLabelsOfPlainText(text);
    LinesOfJoin(names);
    forall k | 0 <= k < |names|
      ensures ParseLabels(text)[k] == names[k]
    {
      StripCleanLine(names[k]);
    }
  }
}
