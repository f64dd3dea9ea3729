/**
 The handful of JavaScript string operations the server and the version
 check rely on: `indexOf`, `lastIndexOf`, `includes`, `substring` and
 `split` with a one-character separator. Strings are `seq<char>`; the
 index functions keep JavaScript's convention of answering -1 for "absent".
 */
module StringOps {

  /** JavaScript's `indexOf` for one character: the position of the first `c`, or -1. */
  function FirstIndex(s: string, c: char): (r: int)
    ensures -1 <= r < |s|
    ensures r == -1 <==> c !in s
    ensures r >= 0 ==> s[r] == c && forall j :: 0 <= j < r ==> s[j] != c
  {
    if |s| == 0 then -1
    else if s[0] == c then 0
    else
      var k := FirstIndex(s[1..], c);
      if k < 0 then -1 else k + 1
  }

  /** JavaScript's `lastIndexOf` for one character: the position of the last `c`, or -1. */
  function LastIndex(s: string, c: char): (r: int)
    ensures -1 <= r < |s|
    ensures r == -1 <==> c !in s
    ensures r >= 0 ==> s[r] == c && forall j :: r < j < |s| ==> s[j] != c
  {
    if |s| == 0 then -1
    else if s[|s| - 1] == c then |s| - 1
    else
      var k := LastIndex(s[..|s| - 1], c);
      if k < 0 then -1 else k
  }

  /** The last occurrence is pinned down by its two defining facts. */
  lemma LastIndexAt(s: string, c: char, i: nat)
    requires i < |s| && s[i] == c
    requires forall j :: i < j < |s| ==> s[j] != c
    ensures LastIndex(s, c) == i
  {
  }

  /** JavaScript's one-argument `substring`: the suffix from `start`, after clamping `start` into `[0, |s|]`. */
  function SubstringFrom(s: string, start: int): (r: string)
    ensures start <= 0 ==> r == s
    ensures start >= |s| ==> r == []
    ensures 0 <= start <= |s| ==> s == s[..start] + r
  {
    if start <= 0 then s
    else if start >= |s| then []
    else s[start..]
  }

  /** Glues `parts` back together with `c` between neighbours: the inverse of `Split`. */
  function Join(parts: seq<string>, c: char): string
    requires |parts| >= 1
  {
    if |parts| == 1 then parts[0]
    else parts[0] + [c] + Join(parts[1..], c)
  }

  /**
   `s.split(c)`: the maximal runs of characters other than `c`, in order.
   Like JavaScript it always yields at least one piece (`"".split(".")` is `[""]`),
   and two adjacent separators yield an empty piece between them.
   */
  function Split(s: string, c: char): (parts: seq<string>)
    ensures |parts| >= 1
    ensures forall k :: 0 <= k < |parts| ==> c !in parts[k]
    ensures Join(parts, c) == s
    decreases |s|
  {
    var i := FirstIndex(s, c);
    if i < 0 then [s]
    else
      var rest := Split(s[i + 1..], c);
      var parts := [s[..i]] + rest;
      assert parts[1..] == rest;
      assert s == s[..i] + [c] + s[i + 1..];
      parts
  }

  /** The first piece of a split is the prefix before the first separator. */
  lemma SplitHead(s: string, c: char)
    ensures c !in s ==> Split(s, c) == [s]
    ensures c in s ==> Split(s, c)[0] == s[..FirstIndex(s, c)]
  {
  }

  /** Splitting a joined list of separator-free pieces gives back the pieces. */
  lemma {:induction false} SplitJoin(parts: seq<string>, c: char)
    requires |parts| >= 1
    requires forall k :: 0 <= k < |parts| ==> c !in parts[k]
    ensures Split(Join(parts, c), c) == parts
    decreases |parts|
  {
    if |parts| == 1 {
      SplitHead(parts[0], c);
    } else {
      var s := Join(parts, c);
      var tail := Join(parts[1..], c);
      assert s == parts[0] + [c] + tail;
      assert s[|parts[0]|] == c;
      assert s[..|parts[0]|] == parts[0];
      var i := FirstIndex(s, c);
      assert i == |parts[0]|;
      assert s[i + 1..] == tail;
      SplitJoin(parts[1..], c);
      assert Split(s, c) == [parts[0]] + Split(tail, c);
    }
  }
}
