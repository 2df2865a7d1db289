/**
 * The handful of Python `str` operations the controller and its helpers rely on:
 * `find`, `in`, `split(sep)`, `sep.join`, `replace`, `strip` and `lower`.
 * Strings are sequences of characters; Python 2 byte strings are taken as such sequences.
 */
module Text {
  import opened Common

  /** Does `w` occur in `s` at index `j`? */
  ghost predicate OccursAt(s: string, w: string, j: int) {
    0 <= j && j + |w| <= |s| && s[j..j + |w|] == w
  }

  /** Index of the first occurrence of `w` in `s` (Python's `s.find(w)`), None for -1. */
  function Find(s: string, w: string): (r: Option<nat>)
    ensures r.Some? ==> OccursAt(s, w, r.value)
    ensures r.Some? ==> forall j :: 0 <= j < r.value ==> !OccursAt(s, w, j)
    ensures r.None? ==> forall j :: !OccursAt(s, w, j)
    decreases |s|
  {
    if |w| > |s| then None
    else if s[..|w|] == w then Some(0)
    else
      match Find(s[1..], w)
      case None =>
        assert forall j :: OccursAt(s, w, j) ==> j == 0 || OccursAt(s[1..], w, j - 1);
        None
      case Some(i) =>
        assert forall j :: 0 < j <= i ==> (OccursAt(s, w, j) <==> OccursAt(s[1..], w, j - 1));
        Some(i + 1)
  }

  /** Python's `w in s` for strings: `w` is a substring of `s` (the empty string always is). */
  predicate Contains(s: string, w: string)
    ensures Contains(s, w) <==> exists j :: OccursAt(s, w, j)
  {
    Find(s, w).Some?
  }

  /** Python's `s.split(sep)` for a non-empty separator: every occurrence, scanned left to right, splits. */
  function SplitStr(s: string, sep: string): (parts: seq<string>)
    requires |sep| > 0
    ensures |parts| >= 1
    ensures forall i :: 0 <= i < |parts| ==> !Contains(parts[i], sep)
    decreases |s|
  {
    match Find(s, sep)
    case None => [s]
    case Some(i) =>
      PrefixBeforeFirst(s, sep, i);
      [s[..i]] + SplitStr(s[i + |sep|..], sep)
  }

  /** The text before the first occurrence of `sep` does not contain `sep`. */
  lemma PrefixBeforeFirst(s: string, sep: string, i: nat)
    requires |sep| > 0 && i <= |s|
    requires forall j :: 0 <= j < i ==> !OccursAt(s, sep, j)
    ensures !Contains(s[..i], sep)
  {
    forall j | OccursAt(s[..i], sep, j)
      ensures false
    {
      assert s[..i][j..j + |sep|] == s[j..j + |sep|];
      assert OccursAt(s, sep, j);
    }
  }

  /** Python's `sep.join(parts)`. */
  function JoinStr(parts: seq<string>, sep: string): string
    decreases |parts|
  {
    if |parts| == 0 then ""
    else if |parts| == 1 then parts[0]
    else parts[0] + sep + JoinStr(parts[1..], sep)
  }

  /** Python's `s.replace(pat, rep)` for a non-empty `pat`: `rep.join(s.split(pat))`. */
  function ReplaceAll(s: string, pat: string, rep: string): string
    requires |pat| > 0
  {
    JoinStr(SplitStr(s, pat), rep)
  }

  /** Splitting and joining again with the same separator gives back the string. */
  lemma {:induction false} SplitJoin(s: string, sep: string)
    requires |sep| > 0
    ensures JoinStr(SplitStr(s, sep), sep) == s
    decreases |s|
  {
    match Find(s, sep)
    case None =>
    case Some(i) =>
      var rest := s[i + |sep|..];
      var tail := SplitStr(rest, sep);
      assert SplitStr(s, sep) == [s[..i]] + tail;
      SplitJoin(rest, sep);
      JoinCons(s[..i], tail, sep);
      assert s == s[..i] + sep + rest;
  }

  /** A character absent from `s` is absent from every piece `split` cuts `s` into. */
  lemma {:induction false} SplitKeepsAbsent(s: string, sep: string, c: char)
    requires |sep| > 0 && c !in s
    ensures forall i :: 0 <= i < |SplitStr(s, sep)| ==> c !in SplitStr(s, sep)[i]
    decreases |s|
  {
    match Find(s, sep)
    case None =>
    case Some(i) =>
      var rest := s[i + |sep|..];
      assert SplitStr(s, sep) == [s[..i]] + SplitStr(rest, sep);
      assert forall k :: 0 <= k < |rest| ==> rest[k] == s[i + |sep| + k];
      SplitKeepsAbsent(rest, sep, c);
  }

  /** Joining a list that has a head and a non-empty tail. */
  lemma JoinCons(a: string, rest: seq<string>, sep: string)
    requires |rest| >= 1
    ensures JoinStr([a] + rest, sep) == a + sep + JoinStr(rest, sep)
  {
    var p := [a] + rest;
    assert |p| >= 2 && p[0] == a && p[1..] == rest;
  }

  /** Replacing a pattern by itself changes nothing. */
  lemma ReplaceBySelf(s: string, pat: string)
    requires |pat| > 0
    ensures ReplaceAll(s, pat, pat) == s
  {
    SplitJoin(s, pat);
  }

  /** A string that does not contain the pattern is left as it is by `replace`. */
  lemma ReplaceAbsent(s: string, pat: string, rep: string)
    requires |pat| > 0 && !Contains(s, pat)
    ensures ReplaceAll(s, pat, rep) == s
  {
  }

  /** `c` removed from `s`, character by character: the reference for deleting one character. */
  function Without(s: string, c: char): (r: string)
    ensures c !in r
    ensures |r| <= |s|
  {
    if s == [] then []
    else (if s[0] == c then [] else [s[0]]) + Without(s[1..], c)
  }

  /** `s.replace(c, "")` deletes every `c` and keeps the other characters in order. */
  lemma {:induction false} DeleteCharIsWithout(s: string, c: char)
    ensures ReplaceAll(s, [c], "") == Without(s, c)
    decreases |s|
  {
    match Find(s, [c])
    case None =>
      NoOccurrenceIsWithout(s, c);
    case Some(i) =>
      var rest := s[i + 1..];
      DeleteCharIsWithout(rest, c);
      JoinCons(s[..i], SplitStr(rest, [c]), "");
      WithoutAtFirst(s, c, i);
  }

  /** Deleting `c` from `s` whose first `c` is at index `i`. */
  lemma WithoutAtFirst(s: string, c: char, i: nat)
    requires OccursAt(s, [c], i)
    requires forall j :: 0 <= j < i ==> !OccursAt(s, [c], j)
    ensures Without(s, c) == s[..i] + Without(s[i + 1..], c)
  {
    PrefixLacks(s, c, i);
    NoCharIsWithout(s[..i], c);
    assert s == s[..i] + ([c] + s[i + 1..]) by {
      assert s[i..i + 1] == [c];
    }
    WithoutAppend(s[..i], [c] + s[i + 1..], c);
    WithoutHead(c, s[i + 1..]);
  }

  /** Before the first one-character occurrence of `c`, no character is `c`. */
  lemma PrefixLacks(s: string, c: char, i: nat)
    requires i <= |s|
    requires forall j :: 0 <= j < i ==> !OccursAt(s, [c], j)
    ensures forall j :: 0 <= j < i ==> s[..i][j] != c
  {
    forall j | 0 <= j < i ensures s[..i][j] != c {
      assert !OccursAt(s, [c], j);
      assert s[j..j + 1] == [s[j]];
    }
  }

  /** A leading `c` is deleted. */
  lemma WithoutHead(c: char, t: string)
    ensures Without([c] + t, c) == Without(t, c)
  {
    assert ([c] + t)[1..] == t;
  }

  lemma NoOccurrenceIsWithout(s: string, c: char)
    requires forall j :: !OccursAt(s, [c], j)
    ensures Without(s, c) == s
  {
    forall j | 0 <= j < |s| ensures s[j] != c {
      assert !OccursAt(s, [c], j);
      assert s[j..j + 1] == [s[j]];
    }
    NoCharIsWithout(s, c);
  }

  lemma {:induction false} NoCharIsWithout(s: string, c: char)
    requires forall j :: 0 <= j < |s| ==> s[j] != c
    ensures Without(s, c) == s
    decreases |s|
  {
    if s != [] {
      NoCharIsWithout(s[1..], c);
    }
  }

  lemma {:induction false} WithoutAppend(a: string, b: string, c: char)
    ensures Without(a + b, c) == Without(a, c) + Without(b, c)
    decreases |a|
  {
    if a == [] {
      assert a + b == b;
    } else {
      var ab := a + b;
      assert ab[0] == a[0] && ab[1..] == a[1..] + b;
      WithoutAppend(a[1..], b, c);
      var h := if a[0] == c then [] else [a[0]];
      assert Without(ab, c) == h + Without(ab[1..], c);
      assert Without(a, c) == h + Without(a[1..], c);
    }
  }

  /**
   * A unicode text that Python 2's `str()` can turn into a byte string: with the default ASCII
   * codec, any code point from 128 up raises UnicodeEncodeError.
   */
  predicate IsAscii(s: string) {
    forall i :: 0 <= i < |s| ==> s[i] < 128 as char
  }

  /** Python's `str.isspace` for one character of a byte string. */
  predicate IsSpace(c: char) {
    c == ' ' || c == '\t' || c == '\n' || c == '\r' || c == 11 as char || c == 12 as char
  }

  /** Python's `s.lstrip()`. */
  function TrimLeft(s: string): (r: string)
    ensures |r| <= |s| && r == s[|s| - |r|..]
    ensures |r| > 0 ==> !IsSpace(r[0])
    ensures forall i :: 0 <= i < |s| - |r| ==> IsSpace(s[i])
    decreases |s|
  {
    if |s| > 0 && IsSpace(s[0]) then TrimLeft(s[1..]) else s
  }

  /** Python's `s.rstrip()`. */
  function TrimRight(s: string): (r: string)
    ensures |r| <= |s| && r == s[..|r|]
    ensures |r| > 0 ==> !IsSpace(r[|r| - 1])
    ensures forall i :: |r| <= i < |s| ==> IsSpace(s[i])
    decreases |s|
  {
    if |s| > 0 && IsSpace(s[|s| - 1]) then TrimRight(s[..|s| - 1]) else s
  }

  /** Python's `s.strip()`: a slice of `s` with no white space at either end, only white space cut away. */
  function Strip(s: string): (r: string)
    ensures exists i :: StrippedAt(s, r, i)
    ensures |r| > 0 ==> !IsSpace(r[0]) && !IsSpace(r[|r| - 1])
  {
    var l := TrimLeft(s);
    var r := TrimRight(l);
    var i := |s| - |l|;
    assert r == s[i..i + |r|];
    assert StrippedAt(s, r, i);
    r
  }

  /** `r` is the slice of `s` at `i` and only white space lies around it. */
  ghost predicate StrippedAt(s: string, r: string, i: int) {
    && 0 <= i && i + |r| <= |s| && r == s[i..i + |r|]
    && (forall k :: 0 <= k < i ==> IsSpace(s[k]))
    && (forall k :: i + |r| <= k < |s| ==> IsSpace(s[k]))
  }

  /** Python 2's `str.lower` on one byte: only ASCII capitals change. */
  function LowerChar(c: char): char {
    if 'A' <= c <= 'Z' then (c as int - 'A' as int + 'a' as int) as char else c
  }

  /** Python 2's `s.lower()`. */
  function Lower(s: string): (r: string)
    ensures |r| == |s|
    ensures forall i :: 0 <= i < |s| ==> r[i] == LowerChar(s[i])
    decreases |s|
  {
    if s == [] then [] else [LowerChar(s[0])] + Lower(s[1..])
  }

  /** Lower-casing twice is lower-casing once. */
  lemma LowerIdempotent(s: string)
    ensures Lower(Lower(s)) == Lower(s)
  {
    assert forall i :: 0 <= i < |s| ==> LowerChar(LowerChar(s[i])) == LowerChar(s[i]);
  }
}
