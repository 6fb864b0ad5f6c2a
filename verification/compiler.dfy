/** The pure part of `Compiler.Test`: a test file states its expected output
    in `//` comment lines, and the test passes when the text gathered from
    those lines equals the file. The file's text is a parameter: the value
    `Test` returns depends on that text alone. Reading the file and compiling
    it (`Run`) are not modelled, nor are the paths on which either throws and
    `Test` returns nothing. */
module Compiler {

  /** Lines joined back with a `\n` between neighbours (no trailing one). */
  function JoinLines(lines: seq<string>): string
    requires |lines| >= 1
  {
    if |lines| == 1 then lines[0] else lines[0] + "\n" + JoinLines(lines[1..])
  }

  /** Extending the first line extends the joined text at its front. */
  lemma {:induction false} JoinExtendsFirst(c: string, lines: seq<string>)
    requires |lines| >= 1
    ensures JoinLines([c + lines[0]] + lines[1..]) == c + JoinLines(lines)
  {
    var ext := [c + lines[0]] + lines[1..];
    assert ext[0] == c + lines[0] && ext[1..] == lines[1..];
    if |lines| > 1 {
      assert c + lines[0] + "\n" + JoinLines(lines[1..]) == c + (lines[0] + "\n" + JoinLines(lines[1..]));
    }
  }

  /** `string.Split("\n")`: the pieces between successive `\n`s, one more
      piece than there are `\n`s, empty pieces kept. */
  function SplitLines(s: string): (r: seq<string>)
    ensures |r| >= 1
    ensures forall k | 0 <= k < |r| :: '\n' !in r[k]
    ensures JoinLines(r) == s
  {
    if |s| == 0 then [""]
    else
      var rest := SplitLines(s[1..]);
      if s[0] == '\n' then
        assert ([""] + rest)[1..] == rest;
        [""] + rest
      else
        JoinExtendsFirst([s[0]], rest);
        assert [s[0]] + s[1..] == s;
        [[s[0]] + rest[0]] + rest[1..]
  }

  /** Splitting is the inverse of joining lines that hold no `\n`. */
  lemma {:induction false} SplitJoin(lines: seq<string>)
    requires |lines| >= 1
    requires forall k | 0 <= k < |lines| :: '\n' !in lines[k]
    ensures SplitLines(JoinLines(lines)) == lines
  {
    if |lines| == 1 {
      SplitSingle(lines[0]);
    } else {
      SplitJoin(lines[1..]);
      SplitAfter(lines[0], JoinLines(lines[1..]));
    }
  }

  /** A text with no `\n` is a single line. */
  lemma {:induction false} SplitSingle(line: string)
    requires '\n' !in line
    ensures SplitLines(line) == [line]
  {
    if |line| > 0 {
      SplitSingle(line[1..]);
      assert [line[0]] + line[1..] == line;
    }
  }

  /** The text before the first `\n` is the first line; the rest splits on. */
  lemma {:induction false} SplitAfter(line: string, tail: string)
    requires '\n' !in line
    ensures SplitLines(line + "\n" + tail) == [line] + SplitLines(tail)
  {
    if |line| == 0 {
      assert line + "\n" + tail == "\n" + tail;
      assert ("\n" + tail)[1..] == tail;
    } else {
      var s := line + "\n" + tail;
      assert s[0] == line[0];
      assert s[1..] == line[1..] + "\n" + tail;
      SplitAfter(line[1..], tail);
      assert [line[0]] + line[1..] == line;
    }
  }

  /** `line.StartsWith("//")`, compared character by character. */
  predicate IsComment(line: string) {
    |line| >= 2 && line[..2] == "//"
  }

  /** What one line adds to the expected output: the text after `//` and a
      `\n` for a comment line, nothing for any other line. */
  function Contribution(line: string): (c: string)
    ensures IsComment(line) ==> |c| + 1 == |line|
    ensures !IsComment(line) ==> c == ""
    ensures IsComment(line) ==> c[..|c| - 1] == line[2..] && c[|c| - 1] == '\n'
  {
    if IsComment(line) then line[2..] + "\n" else ""
  }

  /** The expected output a sequence of lines states, in line order. */
  function Expectation(lines: seq<string>): string {
    if |lines| == 0 then "" else Contribution(lines[0]) + Expectation(lines[1..])
  }

  /** The expectation of consecutive runs of lines is the concatenation of
      their expectations, so it can be gathered one line at a time. */
  lemma {:induction false} ExpectationConcat(a: seq<string>, b: seq<string>)
    ensures Expectation(a + b) == Expectation(a) + Expectation(b)
  {
    if |a| == 0 {
      assert a + b == b;
    } else {
      assert (a + b)[0] == a[0] && (a + b)[1..] == a[1..] + b;
      ExpectationConcat(a[1..], b);
    }
  }

  /** The expectation never outgrows the text its lines join to: a comment
      line loses its `//`, and every line but the last loses its `\n`. */
  lemma {:induction false} ExpectationShorter(lines: seq<string>)
    requires |lines| >= 1
    ensures |Expectation(lines)| + |lines| - 1 <= |JoinLines(lines)|
    ensures Expectation(lines) != "" ==> |Expectation(lines)| + |lines| <= |JoinLines(lines)|
  {
    if |lines| > 1 {
      ExpectationShorter(lines[1..]);
    }
  }

  /** One more line adds its contribution at the end. */
  lemma ExpectationStep(lines: seq<string>, i: nat)
    requires i < |lines|
    ensures Expectation(lines[..i + 1]) == Expectation(lines[..i]) + Contribution(lines[i])
  {
    ExpectationConcat(lines[..i], [lines[i]]);
    assert lines[..i + 1] == lines[..i] + [lines[i]];
    assert Expectation([lines[i]]) == Contribution(lines[i]) + Expectation([]);
  }

  /** `Test` with the file's text given: the result is true exactly when the
      gathered expectation equals the text. */
  method Test(source: string) returns (passed: bool)
    ensures passed <==> Expectation(SplitLines(source)) == source
    ensures passed <==> source == ""
  {
    var lines := SplitLines(source);
    var expected := "";
    var i := 0;
    while i < |lines|
      invariant 0 <= i <= |lines|
      invariant expected == Expectation(lines[..i])
    {
      var line := lines[i];
      if IsComment(line) {
        expected := expected + line[2..] + "\n";
      }
      ExpectationStep(lines, i);
      i := i + 1;
    }
    assert lines[..|lines|] == lines;
    passed := expected == source;
    assert passed <==> source == "" by {
      TestOnlyEmpty(source);
    }
  }

  /** The comparison is with the source itself, so only an empty file passes:
      any other text is longer than what its comments state. */
  lemma TestOnlyEmpty(source: string)
    ensures Expectation(SplitLines(source)) == source <==> source == ""
  {
    var lines := SplitLines(source);
    ExpectationShorter(lines);
    if source == "" {
      assert Expectation(lines) == Contribution("") + Expectation([]);
    }
  }

  /** A line `//` + `text` contributes `text` and a `\n`. */
  lemma CommentContribution(text: string)
    ensures Contribution("//" + text) == text + "\n"
  {
    var line := "//" + text;
    assert line[..2] == "//";
    assert line[2..] == text;
  }

  /** A line followed by `\n` and nothing else states what that line states. */
  lemma LastLineEmpty(line: string)
    ensures Expectation([line] + SplitLines("")) == Contribution(line)
  {
    assert [line] + SplitLines("") == [line, ""];
    assert [line, ""][1..] == [""];
    assert Expectation([""]) == Contribution("") + Expectation([]);
  }

  /** Lines are split on `\n` alone, so the `\r` of a CRLF line ending stays
      in a comment's contribution. */
  lemma CarriageReturnKept(text: string)
    requires '\n' !in text
    ensures Expectation(SplitLines("//" + text + "\r\n")) == text + "\r\n"
  {
    var line := "//" + (text + "\r");
    CrlfCommentLine(text);
    SplitAfter(line, "");
    CommentContribution(text + "\r");
    LastLineEmpty(line);
  }

  /** A comment line ended by CRLF is the line up to and including `\r`,
      which holds no `\n`, then a `\n` and nothing more. */
  lemma CrlfCommentLine(text: string)
    requires '\n' !in text
    ensures "//" + text + "\r\n" == ("//" + (text + "\r")) + "\n" + ""
    ensures '\n' !in "//" + (text + "\r")
  {
    var line := "//" + (text + "\r");
    assert forall k | 0 <= k < |line| :: line[k] == '/' || line[k] == '\r' || line[k] in text;
  }
}
