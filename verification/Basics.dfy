/** Small values and helpers shared by the modules. */
module Basics {

  datatype Option<+T> = None | Some(value: T)

  function Min(a: int, b: int): int {
    if a < b then a else b
  }

  function Max(a: int, b: int): int {
    if a < b then b else a
  }

  /** Which characters count as white space. */
  type Space = char -> bool

  function TrimStart(s: string, space: Space): string {
    if |s| > 0 && space(s[0]) then TrimStart(s[1..], space) else s
  }

  function TrimEnd(s: string, space: Space): string {
    if |s| > 0 && space(s[|s| - 1]) then TrimEnd(s[..|s| - 1], space) else s
  }

  function Trim(s: string, space: Space): string {
    TrimEnd(TrimStart(s, space), space)
  }

  lemma {:induction false} TrimStartDrops(s: string, space: Space) returns (i: nat)
    ensures i <= |s| && TrimStart(s, space) == s[i..]
    ensures forall k :: 0 <= k < i ==> space(s[k])
    ensures i < |s| ==> !space(s[i])
  {
    if |s| > 0 && space(s[0]) {
      var k := TrimStartDrops(s[1..], space);
      i := 1 + k;
      assert forall j :: 0 < j < i ==> s[j] == s[1..][j - 1];
      assert s[1..][k..] == s[i..];
    } else {
      i := 0;
    }
  }

  lemma {:induction false} TrimEndDrops(s: string, space: Space) returns (j: nat)
    ensures j <= |s| && TrimEnd(s, space) == s[..j]
    ensures forall k :: j <= k < |s| ==> space(s[k])
    ensures 0 < j ==> !space(s[j - 1])
  {
    if |s| > 0 && space(s[|s| - 1]) {
      j := TrimEndDrops(s[..|s| - 1], space);
      assert s[..|s| - 1][..j] == s[..j];
      assert forall k :: j <= k < |s| - 1 ==> s[k] == s[..|s| - 1][k];
    } else {
      j := |s|;
    }
  }

  /** What stands between white space: nothing but white space is cut away, and none is left at the ends. */
  ghost predicate IsTrimmed(s: string, space: Space, i: nat, j: nat) {
    && i <= j <= |s|
    && (forall k :: 0 <= k < i || j <= k < |s| ==> space(s[k]))
    && (i < j ==> !space(s[i]) && !space(s[j - 1]))
  }

  /** The trimmed text is the slice between the white space at both ends. */
  lemma TrimIsSlice(s: string, space: Space) returns (i: nat, j: nat)
    ensures IsTrimmed(s, space, i, j) && Trim(s, space) == s[i..j]
  {
    i := TrimStartDrops(s, space);
    var t := s[i..];
    var k := TrimEndDrops(t, space);
    j := i + k;
    assert forall m :: i <= m < |s| ==> s[m] == t[m - i];
    assert t[..k] == s[i..j];
  }

  /** There is only one such slice. */
  lemma OnlyTrimmedSlice(s: string, space: Space, i: nat, j: nat)
    requires IsTrimmed(s, space, i, j)
    ensures Trim(s, space) == s[i..j]
  {
    var i', j' := TrimIsSlice(s, space);
  }

  lemma TrimClean(s: string, space: Space)
    requires |s| > 0 ==> !space(s[0]) && !space(s[|s| - 1])
    ensures Trim(s, space) == s
  {
    OnlyTrimmedSlice(s, space, 0, |s|);
    assert s[0..|s|] == s;
  }

  /** The pieces joined, in order. */
  function Concat<T>(parts: seq<seq<T>>): seq<T> {
    if |parts| == 0 then [] else Concat(parts[..|parts| - 1]) + parts[|parts| - 1]
  }
}
