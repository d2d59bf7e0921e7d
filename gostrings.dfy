/** The functions of Go's `strings` package that the package uses,
    written out on `seq<char>` with the properties it needs. */
module GoStrings {

  import opened Errors

  /** `unicode.IsSpace`: the Latin-1 spaces and the other characters
      with Unicode's White_Space property. */
  predicate IsSpace(c: char) {
    || c == '\t' || c == '\n' || c == '\U{0B}' || c == '\U{0C}' || c == '\r' || c == ' '
    || c == '\U{85}' || c == '\U{A0}' || c == '\U{1680}'
    || ('\U{2000}' <= c <= '\U{200A}')
    || c == '\U{2028}' || c == '\U{2029}' || c == '\U{202F}' || c == '\U{205F}' || c == '\U{3000}'
  }

  /** The string has no white space at either end. */
  predicate Trimmed(s: string) {
    s == [] || (!IsSpace(s[0]) && !IsSpace(s[|s| - 1]))
  }

  /** Drops the leading white space of `s`: what is left is a suffix of `s`
      that starts with a non-space, and everything dropped is space. */
  function TrimLeftSpace(s: string): (r: string)
    ensures |r| <= |s| && r == s[|s| - |r|..]
    ensures forall k :: 0 <= k < |s| - |r| ==> IsSpace(s[k])
    ensures r == [] || !IsSpace(r[0])
  {
    if s != [] && IsSpace(s[0]) then TrimLeftSpace(s[1..]) else s
  }

  /** Drops the trailing white space of `s`: what is left is a prefix of `s`
      that ends with a non-space, and everything dropped is space. */
  function TrimRightSpace(s: string): (r: string)
    ensures |r| <= |s| && r == s[..|r|]
    ensures forall k :: |r| <= k < |s| ==> IsSpace(s[k])
    ensures r == [] || !IsSpace(r[|r| - 1])
  {
    if s != [] && IsSpace(s[|s| - 1]) then TrimRightSpace(s[..|s| - 1]) else s
  }

  /** `r` is the slice of `s` that starts at `i`, and everything of `s`
      before and after that slice is white space. */
  predicate SpaceAround(s: string, i: int, r: string) {
    && 0 <= i && i + |r| <= |s| && r == s[i..i + |r|]
    && (forall k :: 0 <= k < i ==> IsSpace(s[k]))
    && (forall k :: i + |r| <= k < |s| ==> IsSpace(s[k]))
  }

  /** `strings.TrimSpace`: `s` with all of its leading and trailing white
      space removed, and nothing else; the slice kept starts at the first
      non-space character. */
  function TrimSpace(s: string): (r: string)
    ensures Trimmed(r)
    ensures SpaceAround(s, |s| - |TrimLeftSpace(s)|, r)
    ensures (forall k :: 0 <= k < |s| ==> IsSpace(s[k])) ==> r == []
  {
    var left := TrimLeftSpace(s);
    var r := TrimRightSpace(left);
    assert r != [] ==> !IsSpace(r[0]) by {
      if r != [] { assert r[0] == left[0]; }
    }
    TrimBothAround(s, left, r);
    r
  }

  /** Trimming the right end of the left-trimmed string leaves a slice of
      `s` with only white space around it. */
  lemma TrimBothAround(s: string, left: string, r: string)
    requires |left| <= |s| && left == s[|s| - |left|..]
    requires forall k :: 0 <= k < |s| - |left| ==> IsSpace(s[k])
    requires |r| <= |left| && r == left[..|r|]
    requires forall k :: |r| <= k < |left| ==> IsSpace(left[k])
    ensures SpaceAround(s, |s| - |left|, r)
  {
    var i := |s| - |left|;
    forall k | i + |r| <= k < |s| ensures IsSpace(s[k]) {
      assert s[k] == left[k - i];
    }
  }

  predicate HasPrefix(s: string, prefix: string) {
    |prefix| <= |s| && s[..|prefix|] == prefix
  }

  predicate HasSuffix(s: string, suffix: string) {
    |suffix| <= |s| && s[|s| - |suffix|..] == suffix
  }

  /** `strings.TrimSuffix`. */
  function TrimSuffix(s: string, suffix: string): (r: string)
    ensures HasSuffix(s, suffix) ==> r + suffix == s
    ensures !HasSuffix(s, suffix) ==> r == s
  {
    if HasSuffix(s, suffix) then s[..|s| - |suffix|] else s
  }

  /** `strings.Split(s, sep)` for a one-character separator: the pieces
      between the separators, so `Split("", sep) == [""]`. */
  function Split(s: string, sep: char): (parts: seq<string>)
    ensures |parts| >= 1
    ensures forall i :: 0 <= i < |parts| ==> sep !in parts[i]
  {
    if s == [] then [""]
    else
      var rest := Split(s[1..], sep);
      if s[0] == sep then [""] + rest
      else [[s[0]] + rest[0]] + rest[1..]
  }

  /** `strings.Join`. */
  function Join(parts: seq<string>, sep: string): string {
    if parts == [] then ""
    else if |parts| == 1 then parts[0]
    else parts[0] + sep + Join(parts[1..], sep)
  }

  /** Joining the pieces of `Split` with the separator gives back the string. */
  lemma {:induction false} JoinSplit(s: string, sep: char)
    ensures Join(Split(s, sep), [sep]) == s
  {
    if s != [] {
      var rest := Split(s[1..], sep);
      JoinSplit(s[1..], sep);
      if s[0] == sep {
        assert Split(s, sep) == [""] + rest;
      } else if |rest| == 1 {
        assert Split(s, sep) == [[s[0]] + rest[0]];
      } else {
        var parts := Split(s, sep);
        assert parts[1..] == rest[1..];
        calc {
          Join(parts, [sep]);
          ([s[0]] + rest[0]) + [sep] + Join(rest[1..], [sep]);
          [s[0]] + (rest[0] + [sep] + Join(rest[1..], [sep]));
          [s[0]] + Join(rest, [sep]);
        }
      }
    }
  }

  /** Splitting a join of separator-free pieces gives back the pieces. */
  lemma {:induction false} SplitJoin(parts: seq<string>, sep: char)
    requires |parts| >= 1
    requires forall i :: 0 <= i < |parts| ==> sep !in parts[i]
    ensures Split(Join(parts, [sep]), sep) == parts
  {
    if |parts| == 1 {
      SplitNoSep(parts[0], sep);
    } else {
      SplitJoin(parts[1..], sep);
      SplitPieceSep(parts[0], Join(parts[1..], [sep]), sep);
      assert [parts[0]] + parts[1..] == parts;
    }
  }

  /** A string without the separator is a single piece. */
  lemma {:induction false} SplitNoSep(s: string, sep: char)
    requires sep !in s
    ensures Split(s, sep) == [s]
  {
    if s != [] {
      SplitNoSep(s[1..], sep);
      assert [s[0]] + s[1..] == s;
    }
  }

  /** A separator-free piece followed by a separator contributes one piece. */
  lemma {:induction false} SplitPieceSep(p: string, t: string, sep: char)
    requires sep !in p
    ensures Split(p + [sep] + t, sep) == [p] + Split(t, sep)
  {
    if p == [] {
      assert p + [sep] + t == [sep] + t;
      assert ([sep] + t)[1..] == t;
    } else {
      assert (p + [sep] + t)[1..] == p[1..] + [sep] + t;
      SplitPieceSep(p[1..], t, sep);
      assert [p[0]] + p[1..] == p;
    }
  }

  /** The number of `c`s that `s` starts with. */
  function LeadCount(s: string, c: char): (n: nat)
    ensures n <= |s|
    ensures forall k :: 0 <= k < n ==> s[k] == c
    ensures n < |s| ==> s[n] != c
  {
    if s != [] && s[0] == c then 1 + LeadCount(s[1..], c) else 0
  }

  /** `r` is the slice of `s` that starts at `i`, and every character of
      `s` outside that slice is `c`. */
  predicate CharAround(s: string, i: int, r: string, c: char) {
    && 0 <= i && i + |r| <= |s| && r == s[i..i + |r|]
    && (forall k :: 0 <= k < i ==> s[k] == c)
    && (forall k :: i + |r| <= k < |s| ==> s[k] == c)
  }

  /** `strings.Trim(s, [c])`: drops every leading and trailing `c` and
      nothing else. The slice kept starts after the leading run of `c`s,
      and neither of its ends is `c`. */
  function TrimChar(s: string, c: char): (r: string)
    ensures r == [] || (r[0] != c && r[|r| - 1] != c)
    ensures CharAround(s, LeadCount(s, c), r, c)
    ensures (forall k :: 0 <= k < |s| ==> s[k] == c) ==> r == []
  {
    if s == [] then s
    else if s[0] == c then
      var r := TrimChar(s[1..], c);
      AroundAfterLead(s, c, LeadCount(s[1..], c), r);
      r
    else if s[|s| - 1] == c then
      var r := TrimChar(s[..|s| - 1], c);
      assert s[..|s| - 1][0] == s[0];
      AroundBeforeTail(s, c, r);
      r
    else
      assert s[0..|s|] == s;
      s
  }

  /** A leading `c` moves the kept slice one place to the right. */
  lemma AroundAfterLead(s: string, c: char, i: int, r: string)
    requires s != [] && s[0] == c && CharAround(s[1..], i, r, c)
    ensures CharAround(s, i + 1, r, c)
  {
    assert s[i + 1..i + 1 + |r|] == s[1..][i..i + |r|];
    forall k | 0 <= k < i + 1 ensures s[k] == c {
      if k > 0 { assert s[k] == s[1..][k - 1]; }
    }
    forall k | i + 1 + |r| <= k < |s| ensures s[k] == c {
      assert s[k] == s[1..][k - 1];
    }
  }

  /** A trailing `c` leaves the kept slice where it was. */
  lemma AroundBeforeTail(s: string, c: char, r: string)
    requires s != [] && s[|s| - 1] == c && CharAround(s[..|s| - 1], 0, r, c)
    ensures CharAround(s, 0, r, c)
  {
    assert s[0..|r|] == s[..|s| - 1][0..|r|];
  }

  /** The first index at which `sub` occurs in `s`. */
  function IndexOf(s: string, sub: string): (r: Option<nat>)
    ensures r.Some? ==> r.value <= |s| && HasPrefix(s[r.value..], sub)
    ensures r.Some? ==> forall k :: 0 <= k < r.value ==> !HasPrefix(s[k..], sub)
    ensures r.None? ==> forall k :: 0 <= k <= |s| ==> !HasPrefix(s[k..], sub)
  {
    if HasPrefix(s, sub) then Some(0)
    else if s == [] then None
    else
      var r := IndexOf(s[1..], sub);
      assert forall k :: 1 <= k <= |s| ==> s[k..] == s[1..][k - 1..];
      match r
      case None => None
      case Some(i) => Some(i + 1)
  }

  /** `strings.Replace(s, target, with, 1)`: replaces the first occurrence of `target`. */
  function ReplaceFirst(s: string, target: string, with: string): (r: string)
    ensures HasPrefix(s, target) ==> r == with + s[|target|..]
    ensures (forall k :: 0 <= k <= |s| ==> !HasPrefix(s[k..], target)) ==> r == s
  {
    match IndexOf(s, target)
    case None => s
    case Some(i) => s[..i] + with + s[i + |target|..]
  }
}
