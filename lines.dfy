/**
 * Newline-joined text.  `Join` is JavaScript's `lines.join("\n")`
 * (index.js:121); `Split` cuts a text at every newline and is the
 * reference by which the rendered reply is read back line by line.
 */
module Lines {

  const Newline: char := '\n'

  predicate SingleLine(s: string) {
    Newline !in s
  }

  /** `line`, a line break, then `rest`. */
  function Above(line: string, rest: string): string {
    line + [Newline] + rest
  }

  /** Each of `lines` followed by a line break, then `rest`. */
  function Stack(lines: seq<string>, rest: string): string {
    if lines == [] then rest else Above(lines[0], Stack(lines[1..], rest))
  }

  /** `lines.join("\n")`. */
  function Join(lines: seq<string>): string {
    if |lines| == 0 then ""
    else if |lines| == 1 then lines[0]
    else Above(lines[0], Join(lines[1..]))
  }

  /** The lines of `s`: the pieces between newlines.  There is always at
      least one, and none of them contains a newline. */
  function Split(s: string): (r: seq<string>)
    ensures |r| >= 1
    ensures forall k :: 0 <= k < |r| ==> SingleLine(r[k])
  {
    if s == [] then [""]
    else
      var rest := Split(s[1..]);
      if s[0] == Newline then [""] + rest
      else [[s[0]] + rest[0]] + rest[1..]
  }

  /** A text without newlines is one line. */
  lemma {:induction false} SplitSingleLine(s: string)
    requires SingleLine(s)
    ensures Split(s) == [s]
  {
    if s != [] {
      SplitSingleLine(s[1..]);
      assert [s[0]] + s[1..] == s;
    }
  }

  /** Cutting at a newline between two texts splits each side on its own. */
  lemma {:induction false} SplitAround(a: string, b: string)
    ensures Split(Above(a, b)) == Split(a) + Split(b)
  {
    if a == [] {
      assert Above(a, b) == [Newline] + b;
      assert ([Newline] + b)[1..] == b;
    } else {
      var t := Above(a, b);
      assert t[0] == a[0];
      assert t[1..] == a[1..] + [Newline] + b;
      SplitAround(a[1..], b);
      assert Above(a[1..], b) == t[1..];
      if a[0] == Newline {
        assert Split(a) == [""] + Split(a[1..]);
      } else {
        var rest := Split(a[1..]);
        assert Split(t[1..]) == rest + Split(b);
        assert Split(a) == [[a[0]] + rest[0]] + rest[1..];
        assert Split(t) == [[a[0]] + rest[0]] + (rest + Split(b))[1..];
        assert (rest + Split(b))[1..] == rest[1..] + Split(b);
      }
    }
  }

  /** A single line above a text adds exactly that line. */
  lemma LineAbove(line: string, rest: string)
    requires SingleLine(line)
    ensures Split(Above(line, rest)) == [line] + Split(rest)
  {
    SplitAround(line, rest);
    SplitSingleLine(line);
  }

  /** Splitting undoes joining when no line holds a newline of its own. */
  lemma {:induction false} SplitJoin(lines: seq<string>)
    requires |lines| >= 1
    requires forall k :: 0 <= k < |lines| ==> SingleLine(lines[k])
    ensures Split(Join(lines)) == lines
  {
    if |lines| == 1 {
      SplitSingleLine(lines[0]);
    } else {
      SplitJoin(lines[1..]);
      LineAbove(lines[0], Join(lines[1..]));
      assert [lines[0]] + lines[1..] == lines;
    }
  }

  /** Single lines stacked above a text are read back as themselves. */
  lemma {:induction false} StackLines(lines: seq<string>, rest: string)
    requires forall k :: 0 <= k < |lines| ==> SingleLine(lines[k])
    ensures Split(Stack(lines, rest)) == lines + Split(rest)
  {
    if lines != [] {
      StackLines(lines[1..], rest);
      LineAbove(lines[0], Stack(lines[1..], rest));
      assert [lines[0]] + lines[1..] == lines;
    }
  }
}
