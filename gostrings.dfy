/**
 * The few functions of Go's `strings` package the core relies on, over
 * strings as character sequences.
 */
module GoStrings {

  predicate HasPrefix(s: string, prefix: string)
  {
    |prefix| <= |s| && s[..|prefix|] == prefix
  }

  predicate HasSuffix(s: string, suffix: string)
  {
    |suffix| <= |s| && s[|s| - |suffix|..] == suffix
  }

  /** strings.TrimPrefix: drops `prefix` when `s` starts with it. */
  function TrimPrefix(s: string, prefix: string): (r: string)
    ensures HasPrefix(s, prefix) ==> prefix + r == s
    ensures !HasPrefix(s, prefix) ==> r == s
  {
    if HasPrefix(s, prefix) then s[|prefix|..] else s
  }

  /** strings.Contains: `sub` occurs somewhere in `s`. */
  predicate Contains(s: string, sub: string)
  {
    exists i | 0 <= i <= |s| :: HasPrefix(s[i..], sub)
  }

  /** Position of the first `c` in `s`, or -1. */
  function IndexOf(s: string, c: char): (r: int)
    ensures -1 <= r < |s|
    ensures r == -1 ==> forall k :: 0 <= k < |s| ==> s[k] != c
    ensures 0 <= r ==> s[r] == c && forall k :: 0 <= k < r ==> s[k] != c
  {
    if |s| == 0 then -1
    else if s[0] == c then 0
    else
      var k := IndexOf(s[1..], c);
      if k < 0 then -1 else k + 1
  }

  /** strings.Split with a one-character separator: every piece, in order. */
  function Split(s: string, sep: char): (r: seq<string>)
    ensures |r| >= 1
    decreases |s|
  {
    var i := IndexOf(s, sep);
    if i < 0 then [s] else [s[..i]] + Split(s[i + 1..], sep)
  }

  /** strings.SplitN(s, sep, 2) with a one-character separator. */
  function SplitTwo(s: string, sep: char): (r: seq<string>)
    ensures 1 <= |r| <= 2
    ensures |r| == 2 <==> sep in s
  {
    var i := IndexOf(s, sep);
    if i < 0 then [s] else [s[..i], s[i + 1..]]
  }

  /** strings.Join with a one-character separator, the inverse of Split. */
  function Join(parts: seq<string>, sep: char): string
  {
    if |parts| == 0 then ""
    else if |parts| == 1 then parts[0]
    else parts[0] + [sep] + Join(parts[1..], sep)
  }

  /** Split at a found separator: the piece before it, then the pieces after it. */
  lemma SplitFound(s: string, sep: char, i: int)
    requires i == IndexOf(s, sep) && i >= 0
    ensures Split(s, sep) == [s[..i]] + Split(s[i + 1..], sep)
  {
    assert !(IndexOf(s, sep) < 0);
  }

  lemma {:induction false} SplitPiecesFree(s: string, sep: char)
    ensures forall k :: 0 <= k < |Split(s, sep)| ==> sep !in Split(s, sep)[k]
    decreases |s|
  {
    var i := IndexOf(s, sep);
    if i >= 0 {
      SplitPiecesFree(s[i + 1..], sep);
      SplitFound(s, sep, i);
      assert sep !in s[..i];
    }
  }

  lemma JoinCons(a: string, rest: seq<string>, sep: char)
    requires |rest| >= 1
    ensures Join([a] + rest, sep) == a + [sep] + Join(rest, sep)
  {
    assert ([a] + rest)[1..] == rest;
  }

  lemma {:induction false} JoinSplit(s: string, sep: char)
    ensures Join(Split(s, sep), sep) == s
    decreases |s|
  {
    var i := IndexOf(s, sep);
    if i >= 0 {
      var a := s[..i];
      var b := s[i + 1..];
      assert s == a + [sep] + b;
      calc {
        Join(Split(s, sep), sep);
        == { SplitFound(s, sep, i); }
        Join([a] + Split(b, sep), sep);
        == { JoinCons(a, Split(b, sep), sep); }
        a + [sep] + Join(Split(b, sep), sep);
        == { JoinSplit(b, sep); }
        a + [sep] + b;
      }
    } else {
      SplitNoSep(s, sep);
    }
  }

  /** Split and SplitN(…, 2) agree on the first piece. */
  lemma SplitFirstPiece(s: string, sep: char)
    ensures Split(s, sep)[0] == SplitTwo(s, sep)[0]
    ensures sep !in Split(s, sep)[0]
  {
  }

  /** Splitting `a + sep + b` where `a` has no separator gives `a` first and then the pieces of `b`. */
  lemma SplitAround(a: string, sep: char, b: string)
    requires sep !in a
    ensures Split(a + [sep] + b, sep) == [a] + Split(b, sep)
    ensures SplitTwo(a + [sep] + b, sep) == [a, b]
  {
    var s := a + [sep] + b;
    IndexOfAfterFree(a, sep, b);
    assert s[..|a|] == a;
    assert s[|a| + 1..] == b;
  }

  lemma IndexOfAfterFree(a: string, sep: char, b: string)
    requires sep !in a
    ensures IndexOf(a + [sep] + b, sep) == |a|
  {
    var s := a + [sep] + b;
    assert s[|a|] == sep;
    assert forall k :: 0 <= k < |a| ==> s[k] == a[k];
  }

  /** A string without the separator is its own single piece. */
  lemma SplitNoSep(s: string, sep: char)
    requires forall k :: 0 <= k < |s| ==> s[k] != sep
    ensures Split(s, sep) == [s]
  {
    assert sep !in s;
  }
}
