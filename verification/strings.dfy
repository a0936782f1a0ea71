/**
 * The pieces of std::string behaviour the configuration parsers rely on:
 * `find(c, pos)`, and the left-to-right comma splitting they perform with
 * it, specified against joining the parts back together.
 */
module Strings {
  import opened Optional

  /** Position of the first `c` in `s` at or after `from`, or None (std::string::npos). */
  function Find(s: string, c: char, from: nat): (r: Option<nat>)
    ensures r.Some? ==> from <= r.value < |s| && s[r.value] == c
    ensures r.Some? ==> forall i :: from <= i < r.value ==> s[i] != c
    ensures r.None? ==> forall i :: from <= i < |s| ==> s[i] != c
    decreases |s| - from
  {
    if from >= |s| then None
    else if s[from] == c then Some(from)
    else Find(s, c, from + 1)
  }

  /**
   * The pieces of `s[pos..]` between occurrences of `sep`, left to right,
   * found the way the parsers find them: the piece up to the next `sep`, then
   * the pieces after it.
   */
  function SplitFrom(s: string, sep: char, pos: nat): (parts: seq<string>)
    requires pos <= |s|
    ensures |parts| >= 1
    decreases |s| - pos
  {
    match Find(s, sep, pos)
    case None => [s[pos..]]
    case Some(k) => [s[pos..k]] + SplitFrom(s, sep, k + 1)
  }

  /**
   * A scan that has produced parts[..i] and stands at `pos`, where the next
   * separator is at k: the next part is s[pos..k] and the scan goes on after k.
   */
  lemma SplitFromAdvance(s: string, sep: char, pos: nat, k: nat, parts: seq<string>, i: nat)
    requires pos <= |s| && Find(s, sep, pos) == Some(k)
    requires i <= |parts| && SplitFrom(s, sep, pos) == parts[i..]
    ensures i + 1 < |parts| && parts[i] == s[pos..k] && SplitFrom(s, sep, k + 1) == parts[i + 1..]
  {
    var rest := SplitFrom(s, sep, k + 1);
    assert parts[i..] == [s[pos..k]] + rest;
    assert parts[i..][0] == parts[i] && parts[i..][1..] == parts[i + 1..];
  }

  /** The scan's last part: with no separator after `pos`, what is left is the last part. */
  lemma SplitFromEnd(s: string, sep: char, pos: nat, parts: seq<string>, i: nat)
    requires pos <= |s| && Find(s, sep, pos).None?
    requires i <= |parts| && SplitFrom(s, sep, pos) == parts[i..]
    ensures i == |parts| - 1 && parts[i] == s[pos..]
  {
    assert parts[i..] == [s[pos..]];
    assert parts[i..][0] == parts[i];
  }

  /** The pieces of the whole of `s`. */
  function Split(s: string, sep: char): seq<string>
  {
    SplitFrom(s, sep, 0)
  }

  /** The parts glued back together with one `sep` between neighbours. */
  function Join(parts: seq<string>, sep: char): string
  {
    if |parts| == 0 then ""
    else if |parts| == 1 then parts[0]
    else parts[0] + [sep] + Join(parts[1..], sep)
  }

  /** Joining the pieces of `s[pos..]` reproduces it exactly. */
  lemma {:induction false} JoinSplitFrom(s: string, sep: char, pos: nat)
    requires pos <= |s|
    ensures Join(SplitFrom(s, sep, pos), sep) == s[pos..]
    decreases |s| - pos
  {
    match Find(s, sep, pos)
    case None =>
    case Some(k) =>
      var rest := SplitFrom(s, sep, k + 1);
      JoinSplitFrom(s, sep, k + 1);
      assert SplitFrom(s, sep, pos) == [s[pos..k]] + rest;
      assert Join([s[pos..k]] + rest, sep) == s[pos..k] + [sep] + Join(rest, sep);
      assert s[pos..] == s[pos..k] + [sep] + s[k + 1..];
  }

  /** Joining the parts of a split with the separator gives the input back. */
  lemma JoinSplit(s: string, sep: char)
    ensures Join(Split(s, sep), sep) == s
  {
    JoinSplitFrom(s, sep, 0);
  }

  /** A scan from `pos` yields one more piece than there are separators after `pos`. */
  lemma {:induction false} SplitFromCount(s: string, sep: char, pos: nat)
    requires pos <= |s|
    ensures |SplitFrom(s, sep, pos)| == multiset(s[pos..])[sep] + 1
    decreases |s| - pos
  {
    match Find(s, sep, pos)
    case None =>
      FindNone(s, sep, pos);
    case Some(k) =>
      SplitFromCount(s, sep, k + 1);
      SeparatorStep(s, sep, pos, k);
  }

  /** Past the separator found at k, the scan has one piece and one separator fewer. */
  lemma SeparatorStep(s: string, sep: char, pos: nat, k: nat)
    requires pos <= |s| && Find(s, sep, pos) == Some(k)
    ensures |SplitFrom(s, sep, pos)| == 1 + |SplitFrom(s, sep, k + 1)|
    ensures multiset(s[pos..])[sep] == multiset(s[k + 1..])[sep] + 1
  {
    FindSome(s, sep, pos, k);
    SeparatorCount(s[pos..k], s[k + 1..], sep);
  }

  /** With no separator found from `pos`, none occurs in s[pos..]. */
  lemma FindNone(s: string, sep: char, pos: nat)
    requires pos <= |s| && Find(s, sep, pos).None?
    ensures sep !in s[pos..] && multiset(s[pos..])[sep] == 0
  {
    assert forall i :: 0 <= i < |s[pos..]| ==> s[pos..][i] == s[pos + i];
  }

  /** The separator found from `pos` at k cuts s[pos..] into a separator-free piece, itself and the rest. */
  lemma FindSome(s: string, sep: char, pos: nat, k: nat)
    requires pos <= |s| && Find(s, sep, pos) == Some(k)
    ensures s[pos..] == s[pos..k] + [sep] + s[k + 1..] && sep !in s[pos..k]
  {
    assert forall i :: 0 <= i < |s[pos..k]| ==> s[pos..k][i] == s[pos + i];
  }

  /** A separator after a separator-free piece adds one to the separators of what follows. */
  lemma SeparatorCount(before: string, after: string, sep: char)
    requires sep !in before
    ensures multiset(before + [sep] + after)[sep] == multiset(after)[sep] + 1
  {
    assert multiset(before)[sep] == 0;
    assert multiset(before + [sep] + after) == multiset(before) + multiset([sep]) + multiset(after);
  }

  /** No piece of a scan from `pos` contains the separator. */
  lemma {:induction false} SplitFromNoSeparator(s: string, sep: char, pos: nat)
    requires pos <= |s|
    ensures forall i :: 0 <= i < |SplitFrom(s, sep, pos)| ==> sep !in SplitFrom(s, sep, pos)[i]
    decreases |s| - pos
  {
    match Find(s, sep, pos)
    case None =>
      FindNone(s, sep, pos);
    case Some(k) =>
      FindSome(s, sep, pos, k);
      SplitFromNoSeparator(s, sep, k + 1);
      var rest := SplitFrom(s, sep, k + 1);
      assert SplitFrom(s, sep, pos) == [s[pos..k]] + rest;
      forall i | 1 <= i < |SplitFrom(s, sep, pos)|
        ensures sep !in SplitFrom(s, sep, pos)[i]
      {
        assert SplitFrom(s, sep, pos)[i] == rest[i - 1];
      }
  }

  /** No piece of a split contains the separator. */
  lemma SplitNoSeparator(s: string, sep: char)
    ensures forall i :: 0 <= i < |Split(s, sep)| ==> sep !in Split(s, sep)[i]
  {
    SplitFromNoSeparator(s, sep, 0);
  }

  /** A split yields exactly one more part than there are separators in the input. */
  lemma SplitCount(s: string, sep: char)
    ensures |Split(s, sep)| == multiset(s)[sep] + 1
  {
    SplitFromCount(s, sep, 0);
    assert s[0..] == s;
  }

  /** Scanning from `pos` a tail that is a join of separator-free parts gives the parts back. */
  lemma {:induction false} SplitFromJoin(s: string, pos: nat, parts: seq<string>, sep: char)
    requires pos <= |s| && |parts| >= 1
    requires forall i :: 0 <= i < |parts| ==> sep !in parts[i]
    requires s[pos..] == Join(parts, sep)
    ensures SplitFrom(s, sep, pos) == parts
    decreases |parts|
  {
    var p := parts[0];
    if |parts| == 1 {
      SplitFromLast(s, pos, p, sep);
    } else {
      var rest := Join(parts[1..], sep);
      SplitFromStep(s, pos, p, rest, sep);
      SplitFromJoin(s, pos + |p| + 1, parts[1..], sep);
      assert SplitFrom(s, sep, pos) == [p] + parts[1..];
      assert parts == [p] + parts[1..];
    }
  }

  /** A tail from `pos` without a separator is the scan's only part. */
  lemma SplitFromLast(s: string, pos: nat, p: string, sep: char)
    requires pos <= |s| && sep !in p && s[pos..] == p
    ensures SplitFrom(s, sep, pos) == [p]
  {
    forall i | pos <= i < |s|
      ensures s[i] != sep
    {
      assert s[i] == s[pos..][i - pos];
    }
    assert Find(s, sep, pos).None?;
  }

  /** A tail `p + [sep] + rest` from `pos`, `p` without a separator: the scan cuts off `p`. */
  lemma SplitFromStep(s: string, pos: nat, p: string, rest: string, sep: char)
    requires pos <= |s| && sep !in p && s[pos..] == p + [sep] + rest
    ensures pos + |p| + 1 <= |s| && s[pos + |p| + 1..] == rest
    ensures SplitFrom(s, sep, pos) == [p] + SplitFrom(s, sep, pos + |p| + 1)
  {
    var k := pos + |p|;
    var t := s[pos..];
    assert t[|p|] == sep;
    forall i | pos <= i < k
      ensures s[i] != sep
    {
      assert s[i] == t[i - pos] == p[i - pos];
    }
    assert Find(s, sep, pos) == Some(k);
    forall i | 0 <= i < |p|
      ensures s[pos..k][i] == p[i]
    {
      assert s[pos..k][i] == t[i];
    }
    assert s[pos..k] == p;
    forall i | 0 <= i < |rest|
      ensures s[k + 1..][i] == rest[i]
    {
      assert s[k + 1..][i] == t[|p| + 1 + i];
    }
    assert s[k + 1..] == rest;
  }

  /** Splitting a join of separator-free parts gives the parts back. */
  lemma SplitJoin(parts: seq<string>, sep: char)
    requires |parts| >= 1
    requires forall i :: 0 <= i < |parts| ==> sep !in parts[i]
    ensures Split(Join(parts, sep), sep) == parts
  {
    var s := Join(parts, sep);
    assert s[0..] == s;
    SplitFromJoin(s, 0, parts, sep);
  }
}
