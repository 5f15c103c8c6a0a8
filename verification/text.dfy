/** Strings as character sequences: occurrence, splicing, joining and splitting. */
module Text {

  /** `t` occurs in `s` as a contiguous run of characters (Rust's `str::contains`). */
  ghost predicate Contains(s: string, t: string) {
    exists i, j :: 0 <= i <= j <= |s| && s[i..j] == t
  }

  lemma ContainsMiddle(a: string, t: string, b: string)
    ensures Contains(a + t + b, t)
  {
    var s := a + t + b;
    assert s[|a|..|a| + |t|] == t;
  }

  lemma ContainsTrans(s: string, t: string, u: string)
    requires Contains(s, t) && Contains(t, u)
    ensures Contains(s, u)
  {
    var i, j :| 0 <= i <= j <= |s| && s[i..j] == t;
    var k, l :| 0 <= k <= l <= |t| && t[k..l] == u;
    forall x | 0 <= x < l - k
      ensures s[i + k..i + l][x] == u[x]
    {
      assert u[x] == t[k + x] == s[i + k + x];
    }
    assert s[i + k..i + l] == u;
  }

  /** `s` begins with `p`. */
  predicate StartsWith(s: string, p: string) {
    |p| <= |s| && s[..|p|] == p
  }

  /** `s` ends with `p`. */
  predicate EndsWith(s: string, p: string) {
    |p| <= |s| && s[|s| - |p|..] == p
  }

  /** A concatenation starts with its left part and ends with its right part. */
  lemma Affixes(a: string, b: string)
    ensures StartsWith(a + b, a) && EndsWith(a + b, b)
  {
    assert (a + b)[..|a|] == a;
    assert (a + b)[|a + b| - |b|..] == b;
  }

  /** `whole` is `base` with `piece` spliced in at one position and nothing else changed:
      the shape of "this section is printed only when ...". */
  ghost predicate Inserts(base: string, piece: string, whole: string) {
    exists k :: 0 <= k <= |base| && whole == base[..k] + piece + base[k..]
  }

  lemma InsertsBetween(a: string, piece: string, b: string)
    ensures Inserts(a + b, piece, a + piece + b)
  {
    var base := a + b;
    assert base[..|a|] == a && base[|a|..] == b;
  }

  /** Rust's `slice.join(sep)`. */
  function Join(parts: seq<string>, sep: string): string
  {
    if |parts| == 0 then ""
    else if |parts| == 1 then parts[0]
    else parts[0] + sep + Join(parts[1..], sep)
  }

  /** Every joined part occurs in the joined string. */
  lemma {:induction false} JoinContains(parts: seq<string>, sep: string, i: nat)
    requires i < |parts|
    ensures Contains(Join(parts, sep), parts[i])
  {
    if |parts| == 1 {
      ContainsMiddle("", parts[0], "");
      assert "" + parts[0] + "" == parts[0];
    } else if i == 0 {
      ContainsMiddle("", parts[0], sep + Join(parts[1..], sep));
      assert "" + parts[0] + (sep + Join(parts[1..], sep)) == Join(parts, sep);
    } else {
      JoinContains(parts[1..], sep, i - 1);
      var rest := Join(parts[1..], sep);
      ContainsMiddle(parts[0] + sep, rest, "");
      assert parts[0] + sep + rest + "" == Join(parts, sep);
      ContainsTrans(Join(parts, sep), rest, parts[i]);
    }
  }

  lemma JoinStartsWith(parts: seq<string>, sep: string)
    requires |parts| >= 1
    ensures StartsWith(Join(parts, sep), parts[0])
  {
    if |parts| > 1 {
      assert Join(parts, sep) == parts[0] + (sep + Join(parts[1..], sep));
    }
  }

  /** Neighbouring parts appear in the joined string with exactly the separator between
      them. */
  lemma {:induction false} JoinAdjacent(parts: seq<string>, sep: string, i: nat)
    requires i + 1 < |parts|
    ensures Contains(Join(parts, sep), parts[i] + sep + parts[i + 1])
  {
    var rest := Join(parts[1..], sep);
    assert Join(parts, sep) == parts[0] + sep + rest;
    if i == 0 {
      JoinStartsWith(parts[1..], sep);
      var tail := rest[|parts[1]|..];
      assert rest == parts[1] + tail;
      ContainsMiddle("", parts[0] + sep + parts[1], tail);
      assert "" + (parts[0] + sep + parts[1]) + tail == parts[0] + sep + rest;
    } else {
      JoinAdjacent(parts[1..], sep, i - 1);
      ContainsWithin(parts[0] + sep, rest, "", parts[i] + sep + parts[i + 1]);
      assert parts[0] + sep + rest + "" == parts[0] + sep + rest;
    }
  }

  /** A joined list framed by fixed text contains every part, and every two neighbouring
      parts with the separator between them. */
  lemma FramedJoinContains(pre: string, parts: seq<string>, sep: string, post: string)
    ensures forall i :: 0 <= i < |parts| ==> Contains(pre + Join(parts, sep) + post, parts[i])
    ensures forall i :: 0 <= i < |parts| - 1 ==>
      Contains(pre + Join(parts, sep) + post, parts[i] + sep + parts[i + 1])
  {
    var list := Join(parts, sep);
    forall i | 0 <= i < |parts| ensures Contains(pre + list + post, parts[i]) {
      JoinContains(parts, sep, i);
      ContainsWithin(pre, list, post, parts[i]);
    }
    forall i | 0 <= i < |parts| - 1 ensures Contains(pre + list + post, parts[i] + sep + parts[i + 1]) {
      JoinAdjacent(parts, sep, i);
      ContainsWithin(pre, list, post, parts[i] + sep + parts[i + 1]);
    }
  }

  /** Texts that share a prefix but differ in the character right after it differ. */
  lemma DifferAfter(pre: string, a: string, x: string, b: string, y: string)
    requires |a| > 0 && |b| > 0 && a[0] != b[0]
    ensures pre + a + x != pre + b + y
  {
    assert (pre + a + x)[|pre|] == a[0];
    assert (pre + b + y)[|pre|] == b[0];
  }

  /** The concatenation of `parts`: successive `push_str` calls onto one buffer. */
  function Concat(parts: seq<string>): string
  {
    Join(parts, "")
  }

  lemma ConcatContains(parts: seq<string>, i: nat)
    requires i < |parts|
    ensures Contains(Concat(parts), parts[i])
  {
    JoinContains(parts, "", i);
  }

  lemma ConcatCons(x: string, rest: seq<string>)
    ensures Concat([x] + rest) == x + Concat(rest)
  {
    if rest != [] {
      assert ([x] + rest)[1..] == rest;
    }
  }

  lemma {:induction false} ConcatAppend(a: seq<string>, b: seq<string>)
    ensures Concat(a + b) == Concat(a) + Concat(b)
  {
    if a == [] {
      assert a + b == b;
    } else {
      ConcatAppend(a[1..], b);
      assert a + b == [a[0]] + (a[1..] + b);
      ConcatCons(a[0], a[1..] + b);
      ConcatCons(a[0], a[1..]);
      assert [a[0]] + a[1..] == a;
    }
  }

  /** Appending one part appends its text. */
  lemma ConcatSnoc(parts: seq<string>, x: string)
    ensures Concat(parts + [x]) == Concat(parts) + x
  {
    ConcatAppend(parts, [x]);
    ConcatCons(x, []);
    assert [x] + [] == [x];
    assert x + Concat([]) == x;
  }

  lemma ConcatBoundaries(parts: seq<string>)
    requires |parts| >= 1
    ensures StartsWith(Concat(parts), parts[0])
    ensures EndsWith(Concat(parts), parts[|parts| - 1])
  {
    ConcatCons(parts[0], parts[1..]);
    assert [parts[0]] + parts[1..] == parts;
    var n := |parts| - 1;
    ConcatAppend(parts[..n], [parts[n]]);
    assert parts[..n] + [parts[n]] == parts;
  }

  /** Every part of a concatenation is found after a header in front of it. */
  lemma HeadedConcatContains(header: string, parts: seq<string>)
    ensures forall i :: 0 <= i < |parts| ==> Contains(header + Concat(parts), parts[i])
  {
    forall i | 0 <= i < |parts|
      ensures Contains(header + Concat(parts), parts[i])
    {
      ConcatContains(parts, i);
      ContainsWithin(header, Concat(parts), "", parts[i]);
      assert header + Concat(parts) + "" == header + Concat(parts);
    }
  }

  /** Filling an empty part with `piece` splices `piece` into the concatenation at that
      point and changes nothing else. */
  lemma ConcatFillPart(parts: seq<string>, k: nat, piece: string)
    requires k < |parts| && parts[k] == ""
    ensures Inserts(Concat(parts), piece, Concat(parts[k := piece]))
    ensures |Concat(parts[k := piece])| == |Concat(parts)| + |piece|
  {
    var pre, post := parts[..k], parts[k + 1..];
    assert parts == pre + [""] + post;
    assert parts[k := piece] == pre + [piece] + post;
    ConcatAppend(pre + [""], post);
    ConcatAppend(pre, [""]);
    ConcatAppend(pre + [piece], post);
    ConcatAppend(pre, [piece]);
    assert Concat(pre) + "" == Concat(pre);
    InsertsBetween(Concat(pre), piece, Concat(post));
  }

  /** Text around an occurrence does not remove it. */
  lemma ContainsWithin(a: string, s: string, b: string, t: string)
    requires Contains(s, t)
    ensures Contains(a + s + b, t)
  {
    var i, j :| 0 <= i <= j <= |s| && s[i..j] == t;
    assert (a + s + b)[|a| + i..|a| + j] == s[i..j];
  }

  /** Rust's `str::split(d)` for a one-character delimiter: always at least one piece. */
  function Split(s: string, d: char): (r: seq<string>)
    ensures |r| >= 1
  {
    if |s| == 0 then [""]
    else if s[0] == d then [""] + Split(s[1..], d)
    else
      var rest := Split(s[1..], d);
      [[s[0]] + rest[0]] + rest[1..]
  }

  lemma {:induction false} SplitNoDelimiter(a: string, d: char)
    requires d !in a
    ensures Split(a, d) == [a]
  {
    if |a| > 0 {
      SplitNoDelimiter(a[1..], d);
      assert [a[0]] + a[1..] == a;
    }
  }

  lemma {:induction false} SplitAfterPiece(a: string, d: char, b: string)
    requires d !in a
    ensures Split(a + [d] + b, d) == [a] + Split(b, d)
  {
    if |a| == 0 {
      assert a + [d] + b == [d] + b;
      assert ([d] + b)[1..] == b;
    } else {
      SplitAfterPiece(a[1..], d, b);
      assert (a + [d] + b)[1..] == a[1..] + [d] + b;
      assert [a[0]] + a[1..] == a;
    }
  }

  /** Splitting on a delimiter undoes joining with it, provided no part contains the delimiter:
      `Join` is injective on delimiter-free lists. */
  lemma {:induction false} SplitJoin(parts: seq<string>, d: char)
    requires |parts| >= 1
    requires forall i :: 0 <= i < |parts| ==> d !in parts[i]
    ensures Split(Join(parts, [d]), d) == parts
  {
    if |parts| == 1 {
      SplitNoDelimiter(parts[0], d);
    } else {
      SplitJoin(parts[1..], d);
      SplitAfterPiece(parts[0], d, Join(parts[1..], [d]));
      assert [parts[0]] + parts[1..] == parts;
    }
  }

  /** The lines of a text, splitting at every newline. */
  function Lines(s: string): (r: seq<string>)
    ensures |r| >= 1
  {
    Split(s, '\n')
  }

  /** A text that is one line: it holds no newline. */
  predicate OneLine(s: string) {
    '\n' !in s
  }
}
