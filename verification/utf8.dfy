/** Rust strings are UTF-8 byte buffers: `len()` counts bytes and `&s[..n]` slices at a byte
    offset, panicking unless that offset is a character boundary. This module gives a
    character-sequence string its byte view. */
module Utf8 {
  import opened Wrappers

  /** Bytes in the UTF-8 encoding of one Unicode scalar value. */
  function Width(c: char): (w: nat)
    ensures 1 <= w <= 4
  {
    var n := c as int;
    if n < 0x80 then 1 else if n < 0x800 then 2 else if n < 0x10000 then 3 else 4
  }

  /** Rust's `str::len()`: the length in bytes. */
  function ByteLen(s: string): nat
  {
    if |s| == 0 then 0 else Width(s[0]) + ByteLen(s[1..])
  }

  lemma ByteLenPrefix(s: string, k: nat)
    requires 1 <= k <= |s|
    ensures ByteLen(s[..k]) == Width(s[0]) + ByteLen(s[1..][..k - 1])
  {
    assert s[..k][1..] == s[1..][..k - 1];
  }

  lemma {:induction false} ByteLenAtLeastChars(s: string)
    ensures ByteLen(s) >= |s|
  {
    if |s| > 0 {
      ByteLenAtLeastChars(s[1..]);
    }
  }

  /** How many leading characters occupy exactly the first `n` bytes, or None when byte `n`
      falls inside a character or beyond the end: the cases where `&s[..n]` panics. */
  function CharsInBytes(s: string, n: nat): (r: Option<nat>)
    ensures r.Some? ==> r.value <= |s| && ByteLen(s[..r.value]) == n
    ensures r.None? ==> forall k :: 0 <= k <= |s| ==> ByteLen(s[..k]) != n
  {
    if n == 0 then Some(0)
    else if |s| == 0 then None
    else if Width(s[0]) > n then
      assert forall k :: 1 <= k <= |s| ==> ByteLen(s[..k]) != n by {
        forall k | 1 <= k <= |s| ensures ByteLen(s[..k]) != n {
          ByteLenPrefix(s, k);
        }
      }
      None
    else
      match CharsInBytes(s[1..], n - Width(s[0]))
      case None =>
        assert forall k :: 1 <= k <= |s| ==> ByteLen(s[..k]) != n by {
          forall k | 1 <= k <= |s| ensures ByteLen(s[..k]) != n {
            ByteLenPrefix(s, k);
          }
        }
        None
      case Some(k) =>
        ByteLenPrefix(s, k + 1);
        Some(k + 1)
  }

  /** Byte `n` of `s` is a character boundary, so `&s[..n]` does not panic. */
  predicate IsBoundary(s: string, n: nat) {
    CharsInBytes(s, n).Some?
  }

  /** Rust's `&s[..n]`, defined where it does not panic: the prefix whose encoding is the
      first `n` bytes of `s`. */
  function BytePrefix(s: string, n: nat): (r: string)
    requires IsBoundary(s, n)
    ensures ByteLen(r) == n
    ensures |r| <= |s| && r == s[..|r|]
  {
    s[..CharsInBytes(s, n).value]
  }

  /** The longest prefix of `s` whose encoding fits in `n` bytes, in characters. */
  function FitChars(s: string, n: nat): (k: nat)
    ensures k <= |s| && ByteLen(s[..k]) <= n
    ensures k < |s| ==> ByteLen(s[..k + 1]) > n
  {
    if |s| == 0 then 0
    else if Width(s[0]) > n then
      ByteLenPrefix(s, 1);
      0
    else
      var k := FitChars(s[1..], n - Width(s[0]));
      ByteLenPrefix(s, k + 1);
      assert k + 1 < |s| ==> ByteLen(s[..k + 2]) > n by {
        if k + 1 < |s| { ByteLenPrefix(s, k + 2); }
      }
      k + 1
  }

  /** At a boundary, the longest fitting prefix is exactly the prefix up to that boundary. */
  lemma {:induction false} FitCharsAtBoundary(s: string, n: nat)
    requires IsBoundary(s, n)
    ensures FitChars(s, n) == CharsInBytes(s, n).value
  {
    if n > 0 {
      FitCharsAtBoundary(s[1..], n - Width(s[0]));
    }
  }

  /** The preview of the comment and suggestion listings as the Rust code writes it: the text
      itself when it is at most `limit` bytes long, otherwise `&text[..limit]` followed by
      "...". None stands for the panic of slicing inside a character. The listings in this
      model print the corrected `Preview` below instead. */
  function PreviewAsWritten(text: string, limit: nat): (r: Option<string>)
    ensures ByteLen(text) <= limit ==> r == Some(text)
    ensures r.None? <==> ByteLen(text) > limit && !IsBoundary(text, limit)
    ensures r.Some? && ByteLen(text) > limit ==>
      r.value == BytePrefix(text, limit) + "..." && ByteLen(BytePrefix(text, limit)) == limit
  {
    if ByteLen(text) <= limit then Some(text)
    else
      match CharsInBytes(text, limit)
      case Some(k) => Some(text[..k] + "...")
      case None => None
  }

  /** A 51-character, 52-byte text whose 50th and 51st bytes are one two-byte character: the
      50-byte preview slices inside it and the Rust code panics. */
  lemma PreviewAsWrittenPanics()
    ensures PreviewAsWritten(seq(49, _ => 'a') + "é" + "b", 50).None?
  {
    var t := seq(49, _ => 'a') + "é" + "b";
    assert forall k :: 0 <= k <= |t| ==> ByteLen(t[..k]) != 50 by {
      forall k | 0 <= k <= |t| ensures ByteLen(t[..k]) != 50 {
        PrefixOfAs(t, k);
      }
    }
    PrefixOfAs(t, |t|);
    assert t[..|t|] == t;
  }

  lemma {:induction false} ByteLenAppend(a: string, b: string)
    ensures ByteLen(a + b) == ByteLen(a) + ByteLen(b)
  {
    if |a| > 0 {
      ByteLenAppend(a[1..], b);
      assert (a + b)[0] == a[0];
      assert (a + b)[1..] == a[1..] + b;
    } else {
      assert a + b == b;
    }
  }

  /** A prefix never encodes to more bytes than the whole. */
  lemma ByteLenPrefixAtMost(s: string, k: nat)
    requires k <= |s|
    ensures ByteLen(s[..k]) <= ByteLen(s)
  {
    ByteLenAppend(s[..k], s[k..]);
    assert s[..k] + s[k..] == s;
  }

  lemma {:induction false} ByteLenAscii(s: string)
    requires forall i :: 0 <= i < |s| ==> s[i] as int < 0x80
    ensures ByteLen(s) == |s|
  {
    if |s| > 0 {
      ByteLenAscii(s[1..]);
    }
  }

  /** Byte length of a prefix of 49 ASCII letters followed by a two-byte character. */
  lemma PrefixOfAs(t: string, k: nat)
    requires t == seq(49, _ => 'a') + "é" + "b" && k <= |t|
    ensures ByteLen(t[..k]) == (if k <= 49 then k else if k == 50 then 51 else 52)
  {
    var letters := seq(49, _ => 'a');
    ByteLenAscii(letters);
    if k <= 49 {
      ByteLenAscii(t[..k]);
    } else if k == 50 {
      assert t[..k] == letters + "é";
      ByteLenAppend(letters, "é");
    } else {
      assert t[..k] == letters + "é" + "b";
      ByteLenAppend(letters, "é");
      ByteLenAppend(letters + "é", "b");
    }
  }

  /** The preview with the slice moved back to the nearest character boundary, which never
      panics: the text itself when it fits in `limit` bytes, otherwise the longest prefix that
      fits, followed by "...". */
  function Preview(text: string, limit: nat): (r: string)
    ensures ByteLen(text) <= limit ==> r == text
    ensures ByteLen(text) > limit ==>
      var k := FitChars(text, limit);
      k < |text| && r == text[..k] + "..." && ByteLen(text[..k]) <= limit && ByteLen(text[..k + 1]) > limit
  {
    if ByteLen(text) <= limit then text
    else
      var k := FitChars(text, limit);
      assert text[..|text|] == text;
      text[..k] + "..."
  }

  /** Wherever the Rust code's preview does not panic, the corrected one prints the same text. */
  lemma PreviewAgrees(text: string, limit: nat)
    requires PreviewAsWritten(text, limit).Some?
    ensures Preview(text, limit) == PreviewAsWritten(text, limit).value
  {
    if ByteLen(text) > limit {
      FitCharsAtBoundary(text, limit);
    }
  }
}
