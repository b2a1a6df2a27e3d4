/**
 Text helpers of the Go standard library that several components rely on: trimming space, and
 splitting, joining and stripping on one separator character.
 */
module Texts {

  // ---------------------------------------------------------------- trimming

  /** unicode.IsSpace. */
  predicate IsSpace(c: char) {
    var n := c as int;
    9 <= n <= 13 || n == 32 || n == 0x85 || n == 0xA0 || n == 0x1680 || 0x2000 <= n <= 0x200A
    || n == 0x2028 || n == 0x2029 || n == 0x202F || n == 0x205F || n == 0x3000
  }

  function TrimLeft(s: string): string {
    if |s| > 0 && IsSpace(s[0]) then TrimLeft(s[1..]) else s
  }

  function TrimRight(s: string): string {
    if |s| > 0 && IsSpace(s[|s| - 1]) then TrimRight(s[..|s| - 1]) else s
  }

  /** strings.TrimSpace. */
  function Trim(s: string): string {
    TrimRight(TrimLeft(s))
  }

  predicate Trimmed(s: string) {
    |s| > 0 ==> !IsSpace(s[0]) && !IsSpace(s[|s| - 1])
  }

  lemma {:induction false} TrimRightKeepsStart(s: string)
    requires |s| > 0 ==> !IsSpace(s[0])
    ensures Trimmed(TrimRight(s))
  {
    if |s| > 0 && IsSpace(s[|s| - 1]) {
      TrimRightKeepsStart(s[..|s| - 1]);
    }
  }

  lemma {:induction false} TrimLeftStops(s: string)
    ensures |TrimLeft(s)| > 0 ==> !IsSpace(TrimLeft(s)[0])
  {
    if |s| > 0 && IsSpace(s[0]) {
      TrimLeftStops(s[1..]);
    }
  }

  lemma {:induction false} TrimLeftIsSuffix(s: string)
    ensures |TrimLeft(s)| <= |s| && TrimLeft(s) == s[|s| - |TrimLeft(s)|..]
    ensures forall i :: 0 <= i < |s| - |TrimLeft(s)| ==> IsSpace(s[i])
  {
    if |s| > 0 && IsSpace(s[0]) {
      TrimLeftIsSuffix(s[1..]);
    }
  }

  lemma {:induction false} TrimRightIsPrefix(s: string)
    ensures TrimRight(s) <= s && forall i :: |TrimRight(s)| <= i < |s| ==> IsSpace(s[i])
  {
    if |s| > 0 && IsSpace(s[|s| - 1]) {
      TrimRightIsPrefix(s[..|s| - 1]);
    }
  }

  predicate AllSpace(s: string) {
    forall c :: c in s ==> IsSpace(c)
  }

  predicate Surrounded(s: string, left: string, t: string, right: string) {
    AllSpace(left) && AllSpace(right) && s == left + t + right
  }

  lemma TrimCuts(s: string) returns (left: string, right: string)
    ensures Surrounded(s, left, Trim(s), right)
  {
    TrimLeftIsSuffix(s);
    TrimRightIsPrefix(TrimLeft(s));
    var t := TrimLeft(s);
    left, right := s[..|s| - |t|], t[|Trim(s)|..];
    assert t == Trim(s) + right;
    assert s == left + t;
    assert left + (Trim(s) + right) == left + Trim(s) + right;
  }

  /** Trimming removes all outer space and nothing else, and exactly the trimmed strings are left
      alone. */
  lemma TrimIsExact(s: string)
    ensures Trimmed(Trim(s)) && (Trim(s) == s <==> Trimmed(s))
    ensures exists left, right :: Surrounded(s, left, Trim(s), right)
  {
    TrimLeftStops(s);
    TrimRightKeepsStart(TrimLeft(s));
    var left, right := TrimCuts(s);
  }

  // ---------------------------------------------------------------- separated text

  predicate Free(s: string, sep: char) {
    sep !in s
  }

  /** strings.Join. */
  function Join(xs: seq<string>, sep: char): string {
    if |xs| == 0 then "" else if |xs| == 1 then xs[0] else xs[0] + [sep] + Join(xs[1..], sep)
  }

  /** strings.Split. */
  function Split(s: string, sep: char): (parts: seq<string>)
    ensures |parts| >= 1
  {
    if |s| == 0 then [""]
    else
      var rest := Split(s[1..], sep);
      if s[0] == sep then [""] + rest else [[s[0]] + rest[0]] + rest[1..]
  }

  function StripLeft(s: string, sep: char): string {
    if |s| > 0 && s[0] == sep then StripLeft(s[1..], sep) else s
  }

  function StripRight(s: string, sep: char): string {
    if |s| > 0 && s[|s| - 1] == sep then StripRight(s[..|s| - 1], sep) else s
  }

  /** strings.Trim with a one-character cutset. */
  function Strip(s: string, sep: char): string {
    StripRight(StripLeft(s, sep), sep)
  }

  lemma {:induction false} StripLeftStops(s: string, sep: char)
    ensures |StripLeft(s, sep)| > 0 ==> StripLeft(s, sep)[0] != sep
  {
    if |s| > 0 && s[0] == sep {
      StripLeftStops(s[1..], sep);
    }
  }

  lemma {:induction false} StripRightStops(s: string, sep: char)
    requires |s| > 0 ==> s[0] != sep
    ensures var t := StripRight(s, sep); |t| > 0 ==> t[0] != sep && t[|t| - 1] != sep
  {
    if |s| > 0 && s[|s| - 1] == sep {
      StripRightStops(s[..|s| - 1], sep);
    }
  }

  lemma StripMeaning(s: string, sep: char)
    ensures var t := Strip(s, sep); |t| > 0 ==> t[0] != sep && t[|t| - 1] != sep
  {
    StripLeftStops(s, sep);
    StripRightStops(StripLeft(s, sep), sep);
  }

  lemma {:induction false} SplitIsFree(s: string, sep: char)
    ensures forall x :: x in Split(s, sep) ==> Free(x, sep)
  {
    if |s| > 0 {
      SplitIsFree(s[1..], sep);
      assert Free(Split(s[1..], sep)[0], sep);
    }
  }

  /** The outer parts are empty exactly where the text begins or ends with the separator. */
  lemma {:induction false} SplitEnds(s: string, sep: char)
    requires |s| > 0
    ensures var parts := Split(s, sep);
      (parts[0] == "" <==> s[0] == sep) && (parts[|parts| - 1] == "" <==> s[|s| - 1] == sep)
  {
    if |s| > 1 {
      SplitEnds(s[1..], sep);
    } else {
      assert s[1..] == "";
    }
  }

  lemma {:induction false} SplitOfOne(x: string, sep: char)
    requires Free(x, sep)
    ensures Split(x, sep) == [x]
  {
    if |x| > 0 {
      assert forall c :: c in x[1..] ==> c in x;
      SplitOfOne(x[1..], sep);
      assert x == [x[0]] + x[1..];
    }
  }

  lemma {:induction false} SplitOfPrefix(x: string, sep: char, rest: string)
    requires Free(x, sep)
    ensures Split(x + [sep] + rest, sep) == [x] + Split(rest, sep)
  {
    if |x| == 0 {
      assert (x + [sep] + rest)[1..] == rest;
    } else {
      assert forall c :: c in x[1..] ==> c in x;
      SplitOfPrefix(x[1..], sep, rest);
      assert (x + [sep] + rest)[1..] == x[1..] + [sep] + rest;
      assert x == [x[0]] + x[1..];
    }
  }

  lemma {:induction false} SplitOfJoin(xs: seq<string>, sep: char)
    requires |xs| > 0 && forall x :: x in xs ==> Free(x, sep)
    ensures Split(Join(xs, sep), sep) == xs
  {
    if |xs| == 1 {
      SplitOfOne(xs[0], sep);
    } else {
      assert forall x :: x in xs[1..] ==> x in xs;
      SplitOfJoin(xs[1..], sep);
      SplitOfPrefix(xs[0], sep, Join(xs[1..], sep));
      assert xs == [xs[0]] + xs[1..];
    }
  }

  lemma {:induction false} JoinEnds(xs: seq<string>, sep: char)
    requires |xs| > 0 && xs[0] != "" && xs[|xs| - 1] != ""
    ensures var s := Join(xs, sep);
      |s| > 0 && s[0] == xs[0][0] && s[|s| - 1] == xs[|xs| - 1][|xs[|xs| - 1]| - 1]
  {
    if |xs| == 2 {
      assert xs[1..] == [xs[1]];
      assert Join(xs, sep) == xs[0] + [sep] + xs[1];
    } else if |xs| > 2 {
      JoinEndsLast(xs[1..], sep);
    }
  }

  lemma {:induction false} JoinEndsLast(xs: seq<string>, sep: char)
    requires |xs| > 0 && xs[|xs| - 1] != ""
    ensures var s := Join(xs, sep); |s| > 0 && s[|s| - 1] == xs[|xs| - 1][|xs[|xs| - 1]| - 1]
  {
    if |xs| > 1 {
      JoinEndsLast(xs[1..], sep);
    }
  }

  /** Lists of parts that survive being joined, stripped and split again. */
  predicate Storable(xs: seq<string>, sep: char) {
    |xs| > 0 && (forall x :: x in xs ==> Free(x, sep))
    && (xs == [""] || (xs[0] != "" && xs[|xs| - 1] != ""))
  }

  /** Joining, stripping and splitting gives back exactly the storable lists. */
  lemma JoinComesBack(xs: seq<string>, sep: char)
    requires |xs| > 0
    ensures Split(Strip(Join(xs, sep), sep), sep) == xs <==> Storable(xs, sep)
  {
    var s := Join(xs, sep);
    var t := Strip(s, sep);
    SplitIsFree(t, sep);
    StripMeaning(s, sep);
    if |t| > 0 {
      SplitEnds(t, sep);
    }
    if Storable(xs, sep) {
      SplitOfJoin(xs, sep);
      if xs != [""] {
        JoinEnds(xs, sep);
        assert s[0] in xs[0] && s[|s| - 1] in xs[|xs| - 1];
        assert xs[0] in xs && xs[|xs| - 1] in xs;
        assert t == s;
      }
    }
  }
}
