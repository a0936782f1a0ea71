/**
 * The driver's parsers for the traffic configuration strings
 * (examples/rtt-variations/large-scale.cc): ParseAppBw splits a
 * comma-separated list of data rates, ParseAppSecondsChange splits a list of
 * rate-change instants and rebases all but the first on the first. Both
 * push onto a vector owned by the caller; the second also records the first
 * instant in the process-wide `app_seconds_start0`.
 */
module AppConfig {
  import opened Optional
  import opened Strings

  /** A std::vector the caller owns and the parsers append to. */
  class Vector<T> {
    var items: seq<T>

    constructor ()
      ensures items == []
    {
      items := [];
    }

    method PushBack(x: T)
      modifies this`items
      ensures items == old(items) + [x]
    {
      items := items + [x];
    }
  }

  /** The driver's mutable globals that this part of the program touches. */
  class Globals {
    /** `app_seconds_start0`: the baseline of the last parsed change-time list. */
    var appSecondsStart0: real
    /** `result_dir`: where the send and receive logs are written. */
    var resultDir: string

    constructor ()
      ensures appSecondsStart0 == 0.1 && resultDir == "tmp_index"
    {
      appSecondsStart0 := 0.1;
      resultDir := "tmp_index";
    }
  }

  /**
   * std::stod, given as the table of the strings it converts and their
   * values: a string outside the table makes it throw (None).
   */
  function Stod(stod: imap<string, real>, s: string): (r: Option<real>)
    ensures r.Some? <==> s in stod
  {
    if s in stod then Some(stod[s]) else None
  }

  /** Every item converts to a number (std::stod would throw otherwise). */
  predicate AllNumbers(items: seq<string>, stod: imap<string, real>)
  {
    forall i :: 0 <= i < |items| ==> Stod(stod, items[i]).Some?
  }

  /** The numbers the items convert to, in order. */
  function Numbers(items: seq<string>, stod: imap<string, real>): (nums: seq<real>)
    requires AllNumbers(items, stod)
    ensures |nums| == |items|
  {
    seq(|items|, i requires 0 <= i < |items| => Stod(stod, items[i]).value)
  }

  predicate StrictlyIncreasing(xs: seq<real>)
  {
    forall i, j :: 0 <= i < j < |xs| ==> xs[i] < xs[j]
  }

  /**
   * What ParseAppSecondsChange appends for the numbers of one list: with a
   * single number, that number; otherwise every number after the first,
   * taken relative to the first.
   */
  function Offsets(nums: seq<real>): (r: seq<real>)
    requires |nums| >= 1
    ensures |r| == if |nums| == 1 then 1 else |nums| - 1
  {
    if |nums| == 1 then nums
    else seq(|nums| - 1, k requires 0 <= k < |nums| - 1 => nums[k + 1] - nums[0])
  }

  /**
   * Offsets keeps a lone number as it is; otherwise number 0 plus offset k
   * is number k + 1, so strictly increasing numbers give strictly
   * increasing, positive offsets.
   */
  lemma OffsetsRelative(nums: seq<real>)
    requires |nums| >= 1
    ensures |nums| == 1 ==> Offsets(nums) == nums
    ensures |nums| >= 2 ==> forall k :: 0 <= k < |nums| - 1 ==> nums[0] + Offsets(nums)[k] == nums[k + 1]
    ensures |nums| >= 2 && StrictlyIncreasing(nums) ==>
      StrictlyIncreasing(Offsets(nums)) && forall k :: 0 <= k < |nums| - 1 ==> Offsets(nums)[k] > 0.0
  {
  }

  /** The comma splitter: pushes every comma-separated piece of `input`, in order. */
  method ParseAppBw(input: string, values: Vector<string>)
    modifies values`items
    ensures values.items == old(values.items) + Split(input, ',')
  {
    ghost var parts := Split(input, ',');
    var startPos: nat := 0;
    ghost var i := 0;
    var commaPos := Find(input, ',', startPos);
    while commaPos.Some?
      invariant startPos <= |input|
      invariant commaPos == Find(input, ',', startPos)
      invariant i <= |parts| && SplitFrom(input, ',', startPos) == parts[i..]
      invariant values.items == old(values.items) + parts[..i]
      decreases |input| - startPos
    {
      var item := input[startPos..commaPos.value];
      SplitFromAdvance(input, ',', startPos, commaPos.value, parts, i);
      assert parts[..i + 1] == parts[..i] + [item];
      values.PushBack(item);
      startPos := commaPos.value + 1;
      i := i + 1;
      commaPos := Find(input, ',', startPos);
    }
    var lastItem := input[startPos..];
    SplitFromEnd(input, ',', startPos, parts, i);
    assert parts == parts[..i] + [lastItem];
    values.PushBack(lastItem);
  }

  /**
   * Splits `input` at commas and converts every piece with `stod`. With no
   * comma, the single number is pushed as it is; otherwise the first number
   * becomes the baseline (also stored in `app_seconds_start0`) and every
   * later number is pushed minus the baseline. Returns false where std::stod
   * would throw and end the program; the state is then of no further
   * interest. What it pushes is ChangeTimes(input, stod), which
   * ChangeTimesMeaning relates to the comma split.
   */
  method ParseAppSecondsChange(input: string, values: Vector<real>, globals: Globals,
                               stod: imap<string, real>) returns (ok: bool)
    modifies values`items, globals`appSecondsStart0
    ensures ok <==> ChangeTimes(input, stod).Some?
    ensures ok ==> values.items == old(values.items) + ChangeTimes(input, stod).value.1
    ensures ok && Find(input, ',', 0).Some? ==> globals.appSecondsStart0 == ChangeTimes(input, stod).value.0
    ensures ok && Find(input, ',', 0).None? ==> globals.appSecondsStart0 == old(globals.appSecondsStart0)
    ensures globals.resultDir == old(globals.resultDir)
  {
    ghost var pushed: seq<real> := [];
    var startPos: nat := 0;
    var i: nat := 0;
    var firstTime: real := 0.0;
    var commaPos := Find(input, ',', startPos);
    while commaPos.Some?
      invariant startPos <= |input|
      invariant commaPos == Find(input, ',', startPos)
      invariant i == 0 ==> startPos == 0 && firstTime == 0.0 && pushed == [] &&
                           globals.appSecondsStart0 == old(globals.appSecondsStart0)
      invariant i > 0 ==> Find(input, ',', 0).Some? && globals.appSecondsStart0 == firstTime
      invariant i > 0 ==>
        ChangeTimes(input, stod) == Based(firstTime, Prefixed(pushed, Pushes(input, stod, startPos, firstTime)))
      invariant values.items == old(values.items) + pushed
      decreases |input| - startPos
    {
      var item := input[startPos..commaPos.value];
      var value := Stod(stod, item);
      if value.None? {
        return false;
      }
      if i != 0 {
        PushesAdvance(input, stod, startPos, commaPos.value, firstTime, value.value, pushed);
        values.PushBack(value.value - firstTime);
        pushed := pushed + [value.value - firstTime];
      } else {
        ChangeTimesFirst(input, stod, commaPos.value, value.value);
        firstTime := value.value;
        globals.appSecondsStart0 := value.value;
      }
      startPos := commaPos.value + 1;
      i := i + 1;
      commaPos := Find(input, ',', startPos);
    }
    var lastItem := input[startPos..];
    var lastValue := Stod(stod, lastItem);
    if lastValue.None? {
      return false;
    }
    values.PushBack(lastValue.value - firstTime);
    ok := true;
  }

  /** A scan result: the baseline, and the values pushed. */
  type Scan = (real, seq<real>)

  /**
   * What the loop of ParseAppSecondsChange pushes from position `pos` on,
   * once the baseline `first` is known: every piece minus `first`, or None
   * when a piece is not a number.
   */
  ghost function Pushes(input: string, stod: imap<string, real>, pos: nat, first: real): Option<seq<real>>
    requires pos <= |input|
    decreases |input| - pos
  {
    match Find(input, ',', pos)
    case None =>
      (match Stod(stod, input[pos..])
       case None => None
       case Some(v) => Some([v - first]))
    case Some(k) =>
      match Stod(stod, input[pos..k])
      case None => None
      case Some(v) => Prefixed([v - first], Pushes(input, stod, k + 1, first))
  }

  /** The pushes past a comma: the rebased number before it, then the rest. */
  lemma PushesStep(input: string, stod: imap<string, real>, pos: nat, k: nat, first: real, v: real)
    requires pos <= |input| && Find(input, ',', pos) == Some(k) && Stod(stod, input[pos..k]) == Some(v)
    ensures Pushes(input, stod, pos, first) == Prefixed([v - first], Pushes(input, stod, k + 1, first))
  {
  }

  /** One loop round past the baseline, on the whole scan. */
  lemma PushesAdvance(input: string, stod: imap<string, real>, pos: nat, k: nat, first: real, v: real,
                      pushed: seq<real>)
    requires pos <= |input| && Find(input, ',', pos) == Some(k) && Stod(stod, input[pos..k]) == Some(v)
    ensures Based(first, Prefixed(pushed, Pushes(input, stod, pos, first))) ==
            Based(first, Prefixed(pushed + [v - first], Pushes(input, stod, k + 1, first)))
  {
    PushesStep(input, stod, pos, k, first, v);
    PrefixedAfter(pushed, v - first, Pushes(input, stod, k + 1, first));
  }

  /** The first loop round: the number before the first comma is the baseline. */
  lemma ChangeTimesFirst(input: string, stod: imap<string, real>, k: nat, v: real)
    requires Find(input, ',', 0) == Some(k) && Stod(stod, input[0..k]) == Some(v)
    ensures ChangeTimes(input, stod) == Based(v, Prefixed([], Pushes(input, stod, k + 1, v)))
  {
    PrefixedNothing(Pushes(input, stod, k + 1, v));
  }

  /** `p` pushed before what the rest of a scan pushes. */
  function Prefixed(p: seq<real>, r: Option<seq<real>>): (q: Option<seq<real>>)
    ensures q.None? <==> r.None?
    ensures q.Some? ==> q.value == p + r.value
  {
    if r.None? then None else Some(p + r.value)
  }

  /** A scan with baseline `first`, or None. */
  function Based(first: real, r: Option<seq<real>>): (q: Option<Scan>)
    ensures q.None? <==> r.None?
    ensures q.Some? ==> q.value == (first, r.value)
  {
    if r.None? then None else Some((first, r.value))
  }

  lemma PrefixedAfter(p: seq<real>, x: real, r: Option<seq<real>>)
    ensures Prefixed(p, Prefixed([x], r)) == Prefixed(p + [x], r)
  {
    if r.Some? {
      assert p + ([x] + r.value) == p + [x] + r.value;
    }
  }

  lemma PrefixedNothing(r: Option<seq<real>>)
    ensures Prefixed([], r) == r
  {
    if r.Some? {
      assert [] + r.value == r.value;
    }
  }

  /** Every number minus a baseline. */
  function Rebase(nums: seq<real>, base: real): (r: seq<real>)
    ensures |r| == |nums|
  {
    seq(|nums|, k requires 0 <= k < |nums| => nums[k] - base)
  }

  /**
   * The pushes from `pos` against the pieces from `pos`: None exactly when
   * one of them is not a number, otherwise every number minus `first`.
   */
  lemma {:induction false} PushesPieces(input: string, stod: imap<string, real>, pos: nat, first: real)
    requires pos <= |input|
    ensures var ps := SplitFrom(input, ',', pos);
      Pushes(input, stod, pos, first) ==
        if AllNumbers(ps, stod) then Some(Rebase(Numbers(ps, stod), first)) else None
    decreases |input| - pos
  {
    var ps := SplitFrom(input, ',', pos);
    match Find(input, ',', pos)
    case None =>
      assert ps == [input[pos..]];
      match Stod(stod, input[pos..]) {
        case None =>
          assert Stod(stod, ps[0]).None?;
        case Some(v) =>
          assert Numbers(ps, stod)[0] == v;
          assert Rebase(Numbers(ps, stod), first) == [v - first];
      }
    case Some(k) =>
      var p := input[pos..k];
      var qs := SplitFrom(input, ',', k + 1);
      assert ps == [p] + qs;
      AllNumbersCons(p, qs, stod);
      match Stod(stod, p)
      case None =>
      case Some(v) =>
        PushesPieces(input, stod, k + 1, first);
        if AllNumbers(qs, stod) {
          NumbersCons(p, qs, stod);
          RebaseCons(v, Numbers(qs, stod), first);
        }
  }

  /** A list is all numbers when its head and its tail are. */
  lemma AllNumbersCons(p: string, qs: seq<string>, stod: imap<string, real>)
    ensures AllNumbers([p] + qs, stod) <==> Stod(stod, p).Some? && AllNumbers(qs, stod)
  {
    if Stod(stod, p).Some? && AllNumbers(qs, stod) {
      forall j | 0 <= j < |[p] + qs|
        ensures Stod(stod, ([p] + qs)[j]).Some?
      {
        if j > 0 {
          assert ([p] + qs)[j] == qs[j - 1];
        }
      }
    }
    if AllNumbers([p] + qs, stod) {
      assert ([p] + qs)[0] == p;
      forall j | 0 <= j < |qs|
        ensures Stod(stod, qs[j]).Some?
      {
        assert ([p] + qs)[j + 1] == qs[j];
      }
    }
  }

  /** The numbers of a list are its head's number followed by its tail's. */
  lemma NumbersCons(p: string, qs: seq<string>, stod: imap<string, real>)
    requires Stod(stod, p).Some? && AllNumbers(qs, stod) && AllNumbers([p] + qs, stod)
    ensures Numbers([p] + qs, stod) == [Stod(stod, p).value] + Numbers(qs, stod)
  {
    var l, r := Numbers([p] + qs, stod), [Stod(stod, p).value] + Numbers(qs, stod);
    forall j | 0 <= j < |l|
      ensures l[j] == r[j]
    {
      if j > 0 {
        assert ([p] + qs)[j] == qs[j - 1];
      }
    }
  }

  lemma RebaseCons(v: real, ns: seq<real>, base: real)
    ensures Rebase([v] + ns, base) == [v - base] + Rebase(ns, base)
  {
    var l, r := Rebase([v] + ns, base), [v - base] + Rebase(ns, base);
    forall j | 0 <= j < |l|
      ensures l[j] == r[j]
    {
      if j > 0 {
        assert ([v] + ns)[j] == ns[j - 1];
      }
    }
  }

  /** Past a first number, the offsets are the rest rebased on it. */
  lemma OffsetsCons(v: real, ns: seq<real>)
    requires |ns| >= 1
    ensures Offsets([v] + ns) == Rebase(ns, v)
  {
    var l, r := Offsets([v] + ns), Rebase(ns, v);
    forall j | 0 <= j < |l|
      ensures l[j] == r[j]
    {
      assert ([v] + ns)[j + 1] == ns[j];
    }
  }

  /**
   * What ParseAppSecondsChange makes of `input`: the baseline it records and
   * the values it pushes, or None when some piece is not a number. Without
   * a comma the baseline stays 0.
   */
  ghost function ChangeTimes(input: string, stod: imap<string, real>): Option<Scan>
  {
    match Find(input, ',', 0)
    case None => Based(0.0, Pushes(input, stod, 0, 0.0))
    case Some(k) =>
      match Stod(stod, input[0..k])
      case None => None
      case Some(v) => Based(v, Pushes(input, stod, k + 1, v))
  }

  /**
   * ChangeTimes against the comma split: None exactly when some piece is not
   * a number; otherwise the values are Offsets of the numbers and, with two
   * pieces or more (a comma in the input), the baseline is the first number.
   */
  lemma ChangeTimesMeaning(input: string, stod: imap<string, real>)
    ensures ChangeTimes(input, stod).None? <==> !AllNumbers(Split(input, ','), stod)
    ensures ChangeTimes(input, stod).Some? ==>
      ChangeTimes(input, stod).value.1 == Offsets(Numbers(Split(input, ','), stod))
    ensures ChangeTimes(input, stod).Some? && |Split(input, ',')| >= 2 ==>
      ChangeTimes(input, stod).value.0 == Numbers(Split(input, ','), stod)[0]
    ensures |Split(input, ',')| >= 2 <==> Find(input, ',', 0).Some?
  {
    var ps := Split(input, ',');
    match Find(input, ',', 0)
    case None =>
      PushesPieces(input, stod, 0, 0.0);
      assert ps == [input[0..]];
      if AllNumbers(ps, stod) {
        assert Rebase(Numbers(ps, stod), 0.0) == Numbers(ps, stod);
      }
    case Some(k) =>
      var p := input[0..k];
      var qs := SplitFrom(input, ',', k + 1);
      assert ps == [p] + qs;
      AllNumbersCons(p, qs, stod);
      match Stod(stod, p)
      case None =>
      case Some(v) =>
        PushesPieces(input, stod, k + 1, v);
        if AllNumbers(qs, stod) {
          NumbersCons(p, qs, stod);
          OffsetsCons(v, Numbers(qs, stod));
        }
  }
}
