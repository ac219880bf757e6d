/**
 * The parts of Go's `strings` and `unicode` packages that the providers
 * package relies on, on Dafny strings (sequences of Unicode scalar values).
 * Case mapping is ASCII only.
 */
module GoStrings {
  import opened Wrappers

  /** unicode.IsSpace: the Latin-1 and Unicode white space set Go uses. */
  predicate IsSpace(c: char) {
    || ('\t' <= c <= '\r') || c == ' '
    || c == '\U{85}' || c == '\U{A0}' || c == '\U{1680}'
    || ('\U{2000}' <= c <= '\U{200A}')
    || c == '\U{2028}' || c == '\U{2029}' || c == '\U{202F}' || c == '\U{205F}' || c == '\U{3000}'
  }

  predicate IsUpper(c: char) { 'A' <= c <= 'Z' }

  function LowerChar(c: char): (r: char)
    ensures !IsUpper(r)
    ensures IsUpper(c) || r == c
  {
    if IsUpper(c) then (c as int + 32) as char else c
  }

  function UpperChar(c: char): (r: char)
    ensures !('a' <= r <= 'z')
    ensures ('a' <= c <= 'z') || r == c
  {
    if 'a' <= c <= 'z' then (c as int - 32) as char else c
  }

  /** strings.ToLower, restricted to ASCII letters. */
  function ToLower(s: string): (r: string)
    ensures |r| == |s|
    ensures forall i :: 0 <= i < |s| ==> r[i] == LowerChar(s[i])
  {
    seq(|s|, i requires 0 <= i < |s| => LowerChar(s[i]))
  }

  /** strings.ToUpper, restricted to ASCII letters. */
  function ToUpper(s: string): (r: string)
    ensures |r| == |s|
    ensures forall i :: 0 <= i < |s| ==> r[i] == UpperChar(s[i])
  {
    seq(|s|, i requires 0 <= i < |s| => UpperChar(s[i]))
  }

  /** strings.EqualFold for ASCII text: equal after case folding. */
  predicate EqualFold(a: string, b: string) {
    ToLower(a) == ToLower(b)
  }

  predicate HasPrefix(s: string, prefix: string) {
    |prefix| <= |s| && s[..|prefix|] == prefix
  }

  /** `sub` occurs in `s` starting at position `i`. */
  predicate OccursAt(s: string, sub: string, i: nat) {
    i + |sub| <= |s| && s[i..i + |sub|] == sub
  }

  /** strings.Contains: `sub` occurs at some position of `s`. */
  predicate Contains(s: string, sub: string) {
    exists i: nat :: i <= |s| && OccursAt(s, sub, i)
  }

  /** Occurrences in `s[1..]` are the occurrences in `s` shifted by one. */
  lemma OccursAtTail(s: string, sub: string, i: nat)
    requires |s| > 0
    ensures OccursAt(s[1..], sub, i) <==> OccursAt(s, sub, i + 1)
  {
    if i + 1 + |sub| <= |s| {
      assert s[1..][i..i + |sub|] == s[i + 1..i + 1 + |sub|];
    }
  }

  /** strings.Index: the first position where `sub` occurs, or None for Go's -1. */
  function Index(s: string, sub: string): (r: Option<nat>)
    ensures r.Some? ==> OccursAt(s, sub, r.value)
    ensures r.Some? ==> forall i: nat :: i < r.value ==> !OccursAt(s, sub, i)
    ensures r.None? <==> !Contains(s, sub)
  {
    if HasPrefix(s, sub) then
      assert OccursAt(s, sub, 0);
      Some(0)
    else if |s| <= |sub| then
      assert forall i: nat :: i <= |s| && OccursAt(s, sub, i) ==> i == 0;
      None
    else
      match Index(s[1..], sub)
      case None =>
        forall i: nat | 0 < i <= |s| ensures !OccursAt(s, sub, i) {
          OccursAtTail(s, sub, i - 1);
        }
        None
      case Some(j) =>
        OccursAtTail(s, sub, j);
        assert forall i: nat :: i < j + 1 ==> !OccursAt(s, sub, i) by {
          forall i: nat | i < j + 1 ensures !OccursAt(s, sub, i) {
            if i > 0 { OccursAtTail(s, sub, i - 1); }
          }
        }
        Some(j + 1)
  }

  /** strings.Replace(s, old, new, 1): only the first occurrence is replaced. */
  function ReplaceFirst(s: string, pattern: string, replacement: string): string {
    match Index(s, pattern)
    case None => s
    case Some(j) => s[..j] + replacement + s[j + |pattern|..]
  }

  /** strings.ReplaceAll with a one-character pattern and a one-character replacement. */
  function ReplaceChar(s: string, from: char, to: char): (r: string)
    ensures |r| == |s|
    ensures forall i :: 0 <= i < |s| ==> r[i] == if s[i] == from then to else s[i]
  {
    seq(|s|, i requires 0 <= i < |s| => if s[i] == from then to else s[i])
  }

  /** Deleting every character of a set, as regexp.ReplaceAllString(s, "") does for a character class. */
  function RemoveChars(s: string, drop: set<char>): (r: string)
    ensures forall c :: c in r <==> c in s && c !in drop
    ensures |r| <= |s|
  {
    if s == [] then []
    else (if s[0] in drop then [] else [s[0]]) + RemoveChars(s[1..], drop)
  }

  /** strings.TrimLeftFunc: drops the longest prefix whose characters satisfy `f`. */
  function TrimLeftFunc(s: string, f: char -> bool): (r: string)
    ensures |r| <= |s| && r == s[|s| - |r|..]
    ensures forall i :: 0 <= i < |s| - |r| ==> f(s[i])
    ensures r == [] || !f(r[0])
  {
    if |s| > 0 && f(s[0]) then TrimLeftFunc(s[1..], f) else s
  }

  /** strings.TrimRightFunc: drops the longest suffix whose characters satisfy `f`. */
  function TrimRightFunc(s: string, f: char -> bool): (r: string)
    ensures |r| <= |s| && r == s[..|r|]
    ensures forall i :: |r| <= i < |s| ==> f(s[i])
    ensures r == [] || !f(r[|r| - 1])
  {
    if |s| > 0 && f(s[|s| - 1]) then TrimRightFunc(s[..|s| - 1], f) else s
  }

  function TrimFunc(s: string, f: char -> bool): string {
    TrimRightFunc(TrimLeftFunc(s, f), f)
  }

  /** strings.TrimSpace */
  function TrimSpace(s: string): string {
    TrimFunc(s, IsSpace)
  }

  /** strings.Trim(s, cutset) */
  function Trim(s: string, cutset: set<char>): string {
    TrimFunc(s, c => c in cutset)
  }

  /** strings.Join */
  function Join(xs: seq<string>, sep: string): string {
    if |xs| == 0 then ""
    else if |xs| == 1 then xs[0]
    else xs[0] + sep + Join(xs[1..], sep)
  }

  // ----- properties -----

  /** Trimming removes exactly the characters `f` accepts at both ends, and keeps the middle. */
  lemma TrimFuncBounds(s: string, f: char -> bool)
    ensures var r := TrimFunc(s, f);
      (r == [] || (!f(r[0]) && !f(r[|r| - 1]))) && (forall c :: c in r ==> c in s)
  {
    var l := TrimLeftFunc(s, f);
    var r := TrimRightFunc(l, f);
    assert r == l[..|r|] && l == s[|s| - |l|..];
    if r != [] {
      assert r[0] == l[0];
    }
    forall c | c in r
      ensures c in s
    {
      var i :| 0 <= i < |r| && r[i] == c;
      assert s[|s| - |l| + i] == c;
    }
  }

  /** A string that already starts and ends outside `f` is left unchanged. */
  lemma TrimFuncIdentity(s: string, f: char -> bool)
    requires s == [] || (!f(s[0]) && !f(s[|s| - 1]))
    ensures TrimFunc(s, f) == s
  {
  }

  /** strings.Trim leaves a string alone when neither end is in the cut set. */
  lemma TrimIdentity(s: string, cutset: set<char>)
    requires s == [] || (s[0] !in cutset && s[|s| - 1] !in cutset)
    ensures Trim(s, cutset) == s
  {
    TrimFuncIdentity(s, c => c in cutset);
  }

  /** strings.Trim keeps only characters of its input. */
  lemma TrimKeeps(s: string, cutset: set<char>)
    ensures forall c :: c in Trim(s, cutset) ==> c in s
  {
    TrimFuncBounds(s, c => c in cutset);
  }

  /** After replacing every `from`, none is left. */
  lemma ReplaceCharRemoves(s: string, from: char, to: char)
    requires from != to
    ensures from !in ReplaceChar(s, from, to)
  {
  }

  /** Replacing a character that does not occur changes nothing. */
  lemma ReplaceCharAbsent(s: string, from: char, to: char)
    requires from !in s
    ensures ReplaceChar(s, from, to) == s
  {
  }

  /** Removing characters none of which occur changes nothing. */
  lemma {:induction false} RemoveCharsAbsent(s: string, drop: set<char>)
    requires forall c :: c in s ==> c !in drop
    ensures RemoveChars(s, drop) == s
  {
    if s != [] {
      assert s[0] in s;
      assert forall c :: c in s[1..] ==> c in s;
      RemoveCharsAbsent(s[1..], drop);
      assert s == [s[0]] + s[1..];
    }
  }

  /** Without the pattern, strings.Replace returns its input. */
  lemma ReplaceFirstAbsent(s: string, pattern: string, replacement: string)
    requires !Contains(s, pattern)
    ensures ReplaceFirst(s, pattern, replacement) == s
  {
  }

  /** With the pattern, only its first occurrence is replaced. */
  lemma ReplaceFirstPresent(s: string, pattern: string, replacement: string, j: nat)
    requires OccursAt(s, pattern, j)
    requires forall i: nat :: i < j ==> !OccursAt(s, pattern, i)
    ensures ReplaceFirst(s, pattern, replacement) == s[..j] + replacement + s[j + |pattern|..]
  {
    assert Contains(s, pattern);
  }
}
