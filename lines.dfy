/**
 * `text.split('\n').map(l => l.trim()).filter(Boolean)`: turning a pasted or
 * uploaded block of text into the list of links it holds.
 */
module Lines {

  /** ECMAScript WhiteSpace and LineTerminator code points: what `trim` removes. */
  predicate IsSpace(ch: char) {
    ch == '\t' || ch == '\n' || ch == '\U{B}' || ch == '\U{C}' || ch == '\r' || ch == ' '
    || ch == '\U{A0}' || ch == '\U{1680}' || ('\U{2000}' <= ch <= '\U{200A}')
    || ch == '\U{2028}' || ch == '\U{2029}' || ch == '\U{202F}' || ch == '\U{205F}'
    || ch == '\U{3000}' || ch == '\U{FEFF}'
  }

  predicate AllSpace(s: string) {
    forall i | 0 <= i < |s| :: IsSpace(s[i])
  }

  /** A non-empty string with no whitespace at either end: what a parsed link looks like. */
  predicate IsCleanLine(s: string) {
    s != "" && !IsSpace(s[0]) && !IsSpace(s[|s| - 1])
  }

  /** `s.split('\n')`: the pieces between newlines, in order; never an empty list. */
  function Split(s: string): (r: seq<string>)
    ensures |r| >= 1
    ensures forall i | 0 <= i < |r| :: '\n' !in r[i]
  {
    if s == "" then [""]
    else if s[0] == '\n' then [""] + Split(s[1..])
    else
      var rest := Split(s[1..]);
      [[s[0]] + rest[0]] + rest[1..]
  }

  /** `lines.join('\n')`. */
  function Join(lines: seq<string>): string
    requires |lines| >= 1
  {
    if |lines| == 1 then lines[0] else lines[0] + "\n" + Join(lines[1..])
  }

  function TrimStart(s: string): (r: string)
    ensures |r| <= |s| && r == s[|s| - |r|..]
    ensures r == "" || !IsSpace(r[0])
  {
    if s != "" && IsSpace(s[0]) then TrimStart(s[1..]) else s
  }

  function TrimEnd(s: string): (r: string)
    ensures |r| <= |s| && r == s[..|r|]
    ensures r == "" || !IsSpace(r[|r| - 1])
  {
    if s != "" && IsSpace(s[|s| - 1]) then TrimEnd(s[..|s| - 1]) else s
  }

  /** What `TrimStart` drops is whitespace. */
  lemma {:induction false} TrimStartDropsSpace(s: string)
    ensures AllSpace(s[..|s| - |TrimStart(s)|])
  {
    if s != "" && IsSpace(s[0]) {
      var r := TrimStart(s[1..]);
      TrimStartDropsSpace(s[1..]);
      assert s[..|s| - |r|] == [s[0]] + s[1..][..|s| - 1 - |r|];
    }
  }

  /** What `TrimEnd` drops is whitespace. */
  lemma {:induction false} TrimEndDropsSpace(s: string)
    ensures AllSpace(s[|TrimEnd(s)|..])
  {
    if s != "" && IsSpace(s[|s| - 1]) {
      var r := TrimEnd(s[..|s| - 1]);
      TrimEndDropsSpace(s[..|s| - 1]);
      assert s[|r|..] == s[..|s| - 1][|r|..] + [s[|s| - 1]];
    }
  }

  /**
   * `s.trim()`: empty, or a line with no whitespace at either end; a line
   * already clean is left as it is and an all-blank one becomes empty.
   */
  function Trim(s: string): (r: string)
    ensures r == "" || IsCleanLine(r)
    ensures IsCleanLine(s) ==> r == s
    ensures AllSpace(s) ==> r == ""
  {
    var a := TrimStart(s);
    assert a != "" ==> a[0] == s[|s| - |a|];
    TrimEnd(a)
  }

  /** What `trim` removes is whitespace, and only at the two ends. */
  lemma TrimIsSlice(s: string)
    ensures exists i, j | 0 <= i <= j <= |s| :: Trim(s) == s[i..j] && AllSpace(s[..i]) && AllSpace(s[j..])
  {
    var a := TrimStart(s);
    var r := TrimEnd(a);
    var i := |s| - |a|;
    var j := i + |r|;
    TrimStartDropsSpace(s);
    TrimEndDropsSpace(a);
    assert r == s[i..j];
    assert s[j..] == a[|r|..];
  }

  lemma SliceOmits<T>(s: seq<T>, i: nat, j: nat, x: T)
    requires i <= j <= |s| && x !in s
    ensures x !in s[i..j]
  {
    forall k | 0 <= k < j - i
      ensures s[i..j][k] != x
    {
      assert s[i + k] in s;
    }
  }

  lemma TrimKeepsNoNewline(s: string)
    requires '\n' !in s
    ensures '\n' !in Trim(s)
  {
    var a := TrimStart(s);
    SliceOmits(s, |s| - |a|, |s|, '\n');
    SliceOmits(a, 0, |TrimEnd(a)|, '\n');
  }

  /** `xs.map(f)`. */
  function Map<T, U>(xs: seq<T>, f: T -> U): (r: seq<U>)
    ensures |r| == |xs|
    ensures forall i | 0 <= i < |xs| :: r[i] == f(xs[i])
  {
    seq(|xs|, i requires 0 <= i < |xs| => f(xs[i]))
  }

  /** `xs.filter(keep)`: the elements that pass, in their original order. */
  function Filter<T>(xs: seq<T>, keep: T -> bool): (r: seq<T>)
    ensures |r| <= |xs|
  {
    if xs == [] then [] else (if keep(xs[0]) then [xs[0]] else []) + Filter(xs[1..], keep)
  }

  /** `Boolean` as a filter on strings: only the empty string is falsy. */
  predicate Truthy(s: string) {
    s != ""
  }

  /** The links held by a text (coupons/import.ts line 38). */
  function ParseLinks(text: string): (links: seq<string>)
    ensures forall i | 0 <= i < |links| :: IsCleanLine(links[i]) && '\n' !in links[i]
    ensures |links| <= |Split(text)|
  {
    var lines := Split(text);
    var trimmed := Map(lines, Trim);
    forall i | 0 <= i < |trimmed| ensures TrimmedLine(trimmed[i]) {
      TrimKeepsNoNewline(lines[i]);
    }
    FilterPreserves(trimmed, Truthy, TrimmedLine);
    Filter(trimmed, Truthy)
  }

  /** A line after `trim`: empty or clean, and still without a newline. */
  predicate TrimmedLine(s: string) {
    (s == "" || IsCleanLine(s)) && '\n' !in s
  }

  /**
   * What a filter keeps passes the filter, and keeps every property that
   * all of its input had.
   */
  lemma {:induction false} FilterPreserves<T>(xs: seq<T>, keep: T -> bool, prop: T -> bool)
    requires forall i | 0 <= i < |xs| :: prop(xs[i])
    ensures forall i | 0 <= i < |Filter(xs, keep)| :: keep(Filter(xs, keep)[i]) && prop(Filter(xs, keep)[i])
  {
    if xs != [] {
      FilterPreserves(xs[1..], keep, prop);
    }
  }

  lemma {:induction false} FilterConcat<T>(x: seq<T>, y: seq<T>, keep: T -> bool)
    ensures Filter(x + y, keep) == Filter(x, keep) + Filter(y, keep)
  {
    if x == [] {
      assert x + y == y;
    } else {
      var head := if keep(x[0]) then [x[0]] else [];
      var xy := x + y;
      assert xy[0] == x[0];
      assert xy[1..] == x[1..] + y;
      FilterConcat(x[1..], y, keep);
      calc {
        Filter(xy, keep);
        head + Filter(x[1..] + y, keep);
        head + (Filter(x[1..], keep) + Filter(y, keep));
        (head + Filter(x[1..], keep)) + Filter(y, keep);
      }
    }
  }

  lemma {:induction false} FilterAll<T>(xs: seq<T>, keep: T -> bool)
    requires forall i | 0 <= i < |xs| :: keep(xs[i])
    ensures Filter(xs, keep) == xs
  {
    if xs != [] {
      FilterAll(xs[1..], keep);
    }
  }

  lemma {:induction false} FilterNone<T>(xs: seq<T>, keep: T -> bool)
    requires forall i | 0 <= i < |xs| :: !keep(xs[i])
    ensures Filter(xs, keep) == []
  {
    if xs != [] {
      FilterNone(xs[1..], keep);
    }
  }

  lemma SplitCons(c: char, t: string)
    ensures c == '\n' ==> Split([c] + t) == [""] + Split(t)
    ensures c != '\n' ==> Split([c] + t) == [[c] + Split(t)[0]] + Split(t)[1..]
  {
    assert ([c] + t)[0] == c && ([c] + t)[1..] == t;
  }

  /** Splitting undoes joining, for lines that hold no newline. */
  lemma {:induction false} SplitJoin(lines: seq<string>)
    requires |lines| >= 1
    requires forall i | 0 <= i < |lines| :: '\n' !in lines[i]
    ensures Split(Join(lines)) == lines
  {
    if |lines| == 1 {
      NoNewlineSplit(lines[0]);
    } else {
      SplitJoin(lines[1..]);
      SplitConcat(lines[0], Join(lines[1..]));
      NoNewlineSplit(lines[0]);
      assert lines == [lines[0]] + lines[1..];
    }
  }

  /** Joining undoes splitting: no character of the text is lost. */
  lemma {:induction false} JoinSplit(s: string)
    ensures Join(Split(s)) == s
  {
    if s == "" {
    } else if s[0] == '\n' {
      JoinSplit(s[1..]);
      assert Split(s)[1..] == Split(s[1..]);
    } else {
      JoinSplit(s[1..]);
      var rest := Split(s[1..]);
      var r := Split(s);
      assert r[0] == [s[0]] + rest[0] && r[1..] == rest[1..];
      if |rest| == 1 {
        assert Join(r) == [s[0]] + rest[0];
      } else {
        assert Join(rest) == rest[0] + "\n" + Join(rest[1..]);
        assert Join(r) == ([s[0]] + rest[0]) + "\n" + Join(rest[1..]);
      }
      assert s == [s[0]] + s[1..];
    }
  }

  lemma {:induction false} NoNewlineSplit(s: string)
    requires '\n' !in s
    ensures Split(s) == [s]
  {
    if s != "" {
      NoNewlineSplit(s[1..]);
      assert [s[0]] + s[1..] == s;
    }
  }

  /** A newline separates: the lines of `a + "\n" + b` are the lines of `a`, then those of `b`. */
  lemma {:induction false} SplitConcat(a: string, b: string)
    ensures Split(a + "\n" + b) == Split(a) + Split(b)
  {
    if a == "" {
      assert a + "\n" + b == ['\n'] + b;
      SplitCons('\n', b);
    } else {
      var t := a[1..] + "\n" + b;
      assert a + "\n" + b == [a[0]] + t;
      assert a == [a[0]] + a[1..];
      SplitConcat(a[1..], b);
      SplitCons(a[0], t);
      SplitCons(a[0], a[1..]);
    }
  }

  /** Lines are parsed independently and in order. */
  lemma ParseLinksConcat(a: string, b: string)
    ensures ParseLinks(a + "\n" + b) == ParseLinks(a) + ParseLinks(b)
  {
    var x, y := Split(a), Split(b);
    SplitConcat(a, b);
    assert Map(x + y, Trim) == Map(x, Trim) + Map(y, Trim);
    FilterConcat(Map(x, Trim), Map(y, Trim), Truthy);
  }

  /** Round trip: writing clean links one per line and parsing the text gives them back. */
  lemma ParseJoin(links: seq<string>)
    requires |links| >= 1
    requires forall i | 0 <= i < |links| :: IsCleanLine(links[i]) && '\n' !in links[i]
    ensures ParseLinks(Join(links)) == links
  {
    SplitJoin(links);
    var trimmed := Map(links, Trim);
    forall i | 0 <= i < |links| ensures trimmed[i] == links[i] {
      assert Trim(links[i]) == links[i];
    }
    assert trimmed == links;
    FilterAll(links, Truthy);
  }

  /** A text with no non-blank character yields no link. */
  lemma BlankTextHasNoLinks(text: string)
    requires AllSpace(text)
    ensures ParseLinks(text) == []
  {
    AllSpaceLines(text);
    FilterNone(Map(Split(text), Trim), Truthy);
  }

  lemma {:induction false} AllSpaceLines(s: string)
    requires AllSpace(s)
    ensures forall i | 0 <= i < |Split(s)| :: AllSpace(Split(s)[i])
  {
    if s != "" {
      AllSpaceLines(s[1..]);
    }
  }
}
