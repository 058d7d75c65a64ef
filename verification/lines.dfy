/** Multi-line text: a list of lines joined with single "\n" separators, and
    the inverse split at every "\n". */
module Lines {

  predicate NoNewline(s: string) {
    forall i :: 0 <= i < |s| ==> s[i] != '\n'
  }

  /** The lines joined with one "\n" between neighbours (none at the end). */
  function JoinLines(parts: seq<string>): string
    decreases |parts|
  {
    if |parts| == 0 then ""
    else if |parts| == 1 then parts[0]
    else parts[0] + "\n" + JoinLines(parts[1..])
  }

  /** The text cut at every "\n"; a text with k newlines has k + 1 lines. */
  function SplitLines(s: string): (r: seq<string>)
    ensures |r| >= 1
    ensures forall i :: 0 <= i < |r| ==> NoNewline(r[i])
    ensures NoNewline(s) ==> r == [s]
    decreases |s|
  {
    if |s| == 0 then [""]
    else
      var rest := SplitLines(s[1..]);
      if s[0] == '\n' then [""] + rest
      else
        assert NoNewline(s) ==> NoNewline(s[1..]);
        assert s == [s[0]] + s[1..];
        [[s[0]] + rest[0]] + rest[1..]
  }

  /** A line without newlines followed by "\n" splits off as one line. */
  lemma {:induction false} SplitAfterLine(p: string, t: string)
    requires NoNewline(p)
    ensures SplitLines(p + "\n" + t) == [p] + SplitLines(t)
    decreases |p|
  {
    var s := p + "\n" + t;
    if |p| == 0 {
      assert s[1..] == t;
    } else {
      assert s[0] == p[0];
      assert s[1..] == p[1..] + "\n" + t;
      SplitAfterLine(p[1..], t);
      assert [p[0]] + p[1..] == p;
    }
  }

  /** Splitting joined lines gives the lines back, provided no line itself
      holds a newline. */
  lemma {:induction false} SplitJoin(parts: seq<string>)
    requires |parts| >= 1
    requires forall i :: 0 <= i < |parts| ==> NoNewline(parts[i])
    ensures SplitLines(JoinLines(parts)) == parts
    decreases |parts|
  {
    if |parts| > 1 {
      SplitAfterLine(parts[0], JoinLines(parts[1..]));
      SplitJoin(parts[1..]);
      assert [parts[0]] + parts[1..] == parts;
    }
  }

  lemma JoinConsChar(c: char, x: string, xs: seq<string>)
    ensures JoinLines([[c] + x] + xs) == [c] + JoinLines([x] + xs)
  {
  }

  /** Joining the lines of a text gives the text back. */
  lemma {:induction false} JoinSplit(s: string)
    ensures JoinLines(SplitLines(s)) == s
    decreases |s|
  {
    if |s| > 0 {
      var rest := SplitLines(s[1..]);
      JoinSplit(s[1..]);
      if s[0] == '\n' {
        assert ([""] + rest)[1..] == rest;
      } else {
        JoinConsChar(s[0], rest[0], rest[1..]);
        assert [rest[0]] + rest[1..] == rest;
      }
      assert s == [s[0]] + s[1..];
    }
  }

  /** Six lines joined, spelled out. */
  lemma JoinSix(a: string, b: string, c: string, d: string, e: string, f: string)
    ensures JoinLines([a, b, c, d, e, f]) == a + "\n" + b + "\n" + c + "\n" + d + "\n" + e + "\n" + f
  {
    var ls := [a, b, c, d, e, f];
    assert ls[1..][1..][1..][1..] == [e, f];
    assert JoinLines([e, f]) == e + "\n" + f;
    assert ls[1..][1..][1..] == [d, e, f];
    assert JoinLines([d, e, f]) == d + "\n" + (e + "\n" + f);
    assert ls[1..][1..] == [c, d, e, f];
    assert JoinLines([c, d, e, f]) == c + "\n" + (d + "\n" + (e + "\n" + f));
    assert ls[1..] == [b, c, d, e, f];
    assert JoinLines([b, c, d, e, f]) == b + "\n" + (c + "\n" + (d + "\n" + (e + "\n" + f)));
  }
}
