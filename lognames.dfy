/**
 * Rotated log names and their sort keys. A rotated file is named `Y-MM-DD-n`; the
 * directory sorts the files by the tuple of its dash-separated integers (static methods
 * `split_for_compare` and `join_from_compare` of `LogDirectory` in mcserverstats/logalyzer.py,
 * and the same list form in `AllLogs` of the root logalyzer.py). Tuples and lists compare the
 * Python way: element by element, a proper prefix first.
 */
module LogNames {
  import opened Wrappers
  import opened TimeUtils

  const DASH: char := '-'

  /** `ValueError` from `int()`, `TypeError` from `%` formatting with the wrong number of values. */
  datatype LogNameError = NotAnInt(part: string) | WrongArity(size: nat)

  // ---------------------------------------------------------------------------------------
  // Splitting and parsing

  /** `s.split(c)`: the pieces between the occurrences of `c`, empty pieces included. */
  function Split(s: string, c: char): (r: seq<string>)
    ensures |r| >= 1
    decreases |s|
  {
    if c !in s then [s]
    else
      var head := PrefixBefore(s, c);
      [head] + Split(s[|head| + 1..], c)
  }

  predicate IsDigit(ch: char)
  {
    '0' <= ch <= '9'
  }

  /** The value of a string of decimal digits, most significant first. */
  function DigitsValue(s: string): (n: nat)
    requires forall i | 0 <= i < |s| :: IsDigit(s[i])
    decreases |s|
  {
    if s == [] then 0
    else
      assert IsDigit(s[|s| - 1]);
      10 * DigitsValue(s[..|s| - 1]) + (s[|s| - 1] as int - '0' as int)
  }

  /** `int(part)` for a part of a log name: a non-empty run of decimal digits. */
  function ParseInt(part: string): Result<int, LogNameError>
  {
    if part != [] && forall i | 0 <= i < |part| :: IsDigit(part[i]) then Ok(DigitsValue(part))
    else Err(NotAnInt(part))
  }

  function ParseAll(parts: seq<string>): (r: Result<seq<int>, LogNameError>)
    ensures r.Ok? ==> |r.value| == |parts|
    decreases |parts|
  {
    if parts == [] then Ok([])
    else
      match ParseInt(parts[0])
      case Err(e) => Err(e)
      case Ok(n) =>
        match ParseAll(parts[1..])
        case Err(e) => Err(e)
        case Ok(ns) => Ok([n] + ns)
  }

  /** `split_for_compare`: `tuple(int(i) for i in log_name.split('-'))`. */
  function SplitForCompare(name: string): Result<seq<int>, LogNameError>
  {
    ParseAll(Split(name, DASH))
  }

  // ---------------------------------------------------------------------------------------
  // Formatting

  function DigitChar(d: nat): char
    requires d < 10
  {
    ('0' as int + d) as char
  }

  /** The decimal digits of `n`, without leading zeros. */
  function FormatNat(n: nat): (s: string)
    ensures |s| >= 1
    ensures forall i | 0 <= i < |s| :: IsDigit(s[i])
    decreases n
  {
    if n < 10 then [DigitChar(n)] else FormatNat(n / 10) + [DigitChar(n % 10)]
  }

  /** `'%i' % n` */
  function FormatInt(n: int): string
  {
    if n >= 0 then FormatNat(n) else [DASH] + FormatNat(-n)
  }

  /** `'%02i' % n`: padded with a zero to two characters; a sign counts as a character. */
  function Format02(n: int): string
  {
    if 0 <= n < 10 then "0" + FormatNat(n) else FormatInt(n)
  }

  /** The fields with a dash between each two. */
  function JoinDash(fields: seq<string>): string
    requires |fields| >= 1
    decreases |fields|
  {
    if |fields| == 1 then fields[0] else fields[0] + [DASH] + JoinDash(fields[1..])
  }

  /** `join_from_compare`: `'%i-%02i-%02i-%i' % log_name_tuple`. */
  function JoinFromCompare(t: seq<int>): Result<string, LogNameError>
  {
    if |t| != 4 then Err(WrongArity(|t|))
    else Ok(JoinDash(Fields(t)))
  }

  // ---------------------------------------------------------------------------------------
  // The round trip

  lemma {:induction false} DigitsValueOfFormat(n: nat)
    ensures DigitsValue(FormatNat(n)) == n
    decreases n
  {
    if n >= 10 {
      DigitsValueOfFormat(n / 10);
      var s := FormatNat(n);
      assert s[..|s| - 1] == FormatNat(n / 10);
    }
  }

  lemma {:induction false} DigitsValueLeadingZero(s: string)
    requires forall i | 0 <= i < |s| :: IsDigit(s[i])
    ensures DigitsValue("0" + s) == DigitsValue(s)
    decreases |s|
  {
    if s != [] {
      var z := "0" + s;
      assert z[..|z| - 1] == "0" + s[..|s| - 1];
      DigitsValueLeadingZero(s[..|s| - 1]);
    }
  }

  /** A non-negative number reads back from its `%i` and its `%02i` form. */
  lemma ParseFormatted(n: nat)
    ensures ParseInt(FormatInt(n)) == Ok(n)
    ensures ParseInt(Format02(n)) == Ok(n)
  {
    DigitsValueOfFormat(n);
    if n < 10 {
      var z := "0" + FormatNat(n);
      assert forall i | 0 <= i < |z| :: IsDigit(z[i]);
      DigitsValueLeadingZero(FormatNat(n));
    }
  }

  lemma DigitsHaveNoDash(s: string)
    requires forall i | 0 <= i < |s| :: IsDigit(s[i])
    ensures DASH !in s
  {
  }

  /** Splitting `a-b` at the first dash, when `a` has none. */
  lemma SplitFirst(a: string, b: string)
    requires DASH !in a
    ensures Split(a + [DASH] + b, DASH) == [a] + Split(b, DASH)
  {
    var s := a + [DASH] + b;
    assert s[|a|] == DASH;
    PrefixBeforeSeparator(a, DASH, b);
    assert s[|a| + 1..] == b;
  }

  /** A `%02i` field of a non-negative number is all digits. */
  lemma Format02Digits(n: nat)
    ensures forall i | 0 <= i < |Format02(n)| :: IsDigit(Format02(n)[i])
  {
    if n < 10 {
      var z := "0" + FormatNat(n);
      assert forall i | 0 < i < |z| :: z[i] == FormatNat(n)[i - 1];
    }
  }

  /** Dash-free fields joined by dashes split back into the fields. */
  lemma {:induction false} SplitJoinDash(fields: seq<string>)
    requires |fields| >= 1 && forall i | 0 <= i < |fields| :: DASH !in fields[i]
    ensures Split(JoinDash(fields), DASH) == fields
    decreases |fields|
  {
    if |fields| > 1 {
      SplitJoinDash(fields[1..]);
      SplitFirst(fields[0], JoinDash(fields[1..]));
      assert fields == [fields[0]] + fields[1..];
    }
  }

  lemma ParseAllCons(p: string, rest: seq<string>)
    requires ParseInt(p).Ok? && ParseAll(rest).Ok?
    ensures ParseAll([p] + rest) == Ok([ParseInt(p).value] + ParseAll(rest).value)
  {
    assert ([p] + rest)[0] == p && ([p] + rest)[1..] == rest;
  }

  lemma ParseFour(a: string, b: string, c: string, d: string)
    requires ParseInt(a).Ok? && ParseInt(b).Ok? && ParseInt(c).Ok? && ParseInt(d).Ok?
    ensures ParseAll([a, b, c, d]) == Ok([ParseInt(a).value, ParseInt(b).value, ParseInt(c).value, ParseInt(d).value])
  {
    var va, vb, vc, vd := ParseInt(a).value, ParseInt(b).value, ParseInt(c).value, ParseInt(d).value;
    ParseAllCons(d, []);
    assert [d] == [d] + [] && [vd] == [vd] + [];
    ParseAllCons(c, [d]);
    assert [c, d] == [c] + [d] && [vc, vd] == [vc] + [vd];
    ParseAllCons(b, [c, d]);
    assert [b, c, d] == [b] + [c, d] && [vb, vc, vd] == [vb] + [vc, vd];
    ParseAllCons(a, [b, c, d]);
    assert [a, b, c, d] == [a] + [b, c, d] && [va, vb, vc, vd] == [va] + [vb, vc, vd];
  }

  /** The fields `join_from_compare` formats. */
  function Fields(t: seq<int>): seq<string>
    requires |t| == 4
  {
    [FormatInt(t[0]), Format02(t[1]), Format02(t[2]), FormatInt(t[3])]
  }

  /** Each field of a non-negative key is dash-free and reads back as its number. */
  lemma FieldsParse(t: seq<int>)
    requires |t| == 4 && forall i | 0 <= i < 4 :: t[i] >= 0
    ensures forall i | 0 <= i < 4 :: DASH !in Fields(t)[i]
    ensures ParseAll(Fields(t)) == Ok(t)
  {
    var a, b, c, d := FormatInt(t[0]), Format02(t[1]), Format02(t[2]), FormatInt(t[3]);
    Format02Digits(t[1]);
    Format02Digits(t[2]);
    DigitsHaveNoDash(a);
    DigitsHaveNoDash(b);
    DigitsHaveNoDash(c);
    DigitsHaveNoDash(d);
    ParseFormatted(t[0]);
    ParseFormatted(t[1]);
    ParseFormatted(t[2]);
    ParseFormatted(t[3]);
    ParseFour(a, b, c, d);
    assert t == [t[0], t[1], t[2], t[3]];
  }

  /** `split_for_compare(join_from_compare(t)) == t` for every 4-tuple of non-negative numbers. */
  lemma SplitJoinRoundTrip(t: seq<int>)
    requires |t| == 4 && forall i | 0 <= i < 4 :: t[i] >= 0
    ensures JoinFromCompare(t).Ok?
    ensures SplitForCompare(JoinFromCompare(t).value) == Ok(t)
  {
    FieldsParse(t);
    SplitJoinDash(Fields(t));
  }

  /** Different keys of non-negative numbers give different log names. */
  lemma JoinInjective(t: seq<int>, u: seq<int>)
    requires |t| == 4 && forall i | 0 <= i < 4 :: t[i] >= 0
    requires |u| == 4 && forall i | 0 <= i < 4 :: u[i] >= 0
    requires JoinFromCompare(t) == JoinFromCompare(u)
    ensures t == u
  {
    SplitJoinRoundTrip(t);
    SplitJoinRoundTrip(u);
  }

  // ---------------------------------------------------------------------------------------
  // Tuple order

  /** Python's `a < b` on tuples and lists of ints. */
  predicate LexLess(a: seq<int>, b: seq<int>)
    decreases |a|
  {
    if a == [] then b != []
    else if b == [] then false
    else if a[0] != b[0] then a[0] < b[0]
    else LexLess(a[1..], b[1..])
  }

  /** Python's `a <= b` on tuples and lists of ints. */
  predicate LexLessEq(a: seq<int>, b: seq<int>)
  {
    a == b || LexLess(a, b)
  }

  lemma {:induction false} LexLessIrreflexive(a: seq<int>)
    ensures !LexLess(a, a)
    decreases |a|
  {
    if a != [] {
      LexLessIrreflexive(a[1..]);
    }
  }

  lemma {:induction false} LexLessTransitive(a: seq<int>, b: seq<int>, c: seq<int>)
    requires LexLess(a, b) && LexLess(b, c)
    ensures LexLess(a, c)
    decreases |a|
  {
    if a != [] && a[0] == b[0] && b[0] == c[0] {
      LexLessTransitive(a[1..], b[1..], c[1..]);
    }
  }

  lemma {:induction false} LexLessTotal(a: seq<int>, b: seq<int>)
    ensures LexLess(a, b) || a == b || LexLess(b, a)
    decreases |a|
  {
    if a != [] && b != [] && a[0] == b[0] {
      LexLessTotal(a[1..], b[1..]);
      if a[1..] == b[1..] {
        assert a == [a[0]] + a[1..] && b == [b[0]] + b[1..];
      }
    }
  }

  /** Python's tuple order is a strict total order. */
  lemma LexOrder(a: seq<int>, b: seq<int>, c: seq<int>)
    ensures !LexLess(a, a)
    ensures LexLess(a, b) || a == b || LexLess(b, a)
    ensures LexLess(a, b) ==> !LexLess(b, a)
    ensures LexLess(a, b) && LexLess(b, c) ==> LexLess(a, c)
  {
    LexLessIrreflexive(a);
    LexLessTotal(a, b);
    if LexLess(a, b) && LexLess(b, a) {
      LexLessTransitive(a, b, a);
      LexLessIrreflexive(a);
    }
    if LexLess(a, b) && LexLess(b, c) {
      LexLessTransitive(a, b, c);
    }
  }

  lemma LexLessEqTransitive(a: seq<int>, b: seq<int>, c: seq<int>)
    requires LexLessEq(a, b) && LexLessEq(b, c)
    ensures LexLessEq(a, c)
  {
    if LexLess(a, b) && LexLess(b, c) {
      LexLessTransitive(a, b, c);
    }
  }

  ghost predicate Sorted(s: seq<seq<int>>)
  {
    forall i, j | 0 <= i < j < |s| :: LexLessEq(s[i], s[j])
  }

  // ---------------------------------------------------------------------------------------
  // `sorted(...)`

  /** `x` placed into the sorted `s` after every element not greater than it. */
  function Insert(x: seq<int>, s: seq<seq<int>>): (r: seq<seq<int>>)
    ensures multiset(r) == multiset(s) + multiset{x}
    ensures Sorted(s) ==> Sorted(r)
    decreases |s|
  {
    if s == [] then [x]
    else if LexLess(x, s[0]) then
      LexOrderFacts(x, s);
      [x] + s
    else
      var rest := Insert(x, s[1..]);
      assert s == [s[0]] + s[1..];
      InsertAfterHead(x, s, rest);
      [s[0]] + rest
  }

  lemma LexOrderFacts(x: seq<int>, s: seq<seq<int>>)
    requires s != [] && LexLess(x, s[0])
    ensures Sorted(s) ==> Sorted([x] + s)
  {
    if Sorted(s) {
      forall j | 0 < j < |s| ensures LexLessEq(x, s[j]) {
        LexLessEqTransitive(x, s[0], s[j]);
      }
    }
  }

  lemma InsertAfterHead(x: seq<int>, s: seq<seq<int>>, rest: seq<seq<int>>)
    requires s != [] && !LexLess(x, s[0])
    requires multiset(rest) == multiset(s[1..]) + multiset{x}
    requires Sorted(s[1..]) ==> Sorted(rest)
    ensures Sorted(s) ==> Sorted([s[0]] + rest)
  {
    if Sorted(s) {
      LexLessTotal(x, s[0]);
      forall y | y in multiset(rest) ensures LexLessEq(s[0], y) {
        if y != x {
          assert y in multiset(s[1..]);
          var k :| 0 <= k < |s[1..]| && s[1..][k] == y;
          assert s[k + 1] == y;
        }
      }
      forall j | 0 <= j < |rest| ensures LexLessEq(s[0], rest[j]) {
        assert rest[j] in multiset(rest);
      }
    }
  }

  /** `sorted(keys)`: an ordered permutation of the keys. */
  function Sort(keys: seq<seq<int>>): (r: seq<seq<int>>)
    ensures Sorted(r)
    ensures multiset(r) == multiset(keys)
    decreases |keys|
  {
    if keys == [] then []
    else
      assert keys == [keys[0]] + keys[1..];
      Insert(keys[0], Sort(keys[1..]))
  }

  // ---------------------------------------------------------------------------------------
  // Range filters

  /** `log[:3]`: the day part of a key. */
  function Day(key: seq<int>): seq<int>
  {
    if |key| <= 3 then key else key[..3]
  }

  /** The condition `iter_log_name_tuples_between` filters with. */
  predicate InDayRange(key: seq<int>, from: Option<seq<int>>, to: Option<seq<int>>, inclusiveTo: bool)
  {
    && (from.Some? ==> LexLessEq(from.value, Day(key)))
    && (to.Some? ==> if inclusiveTo then LexLessEq(Day(key), to.value) else LexLess(Day(key), to.value))
  }

  function FilterDayRange(keys: seq<seq<int>>, from: Option<seq<int>>, to: Option<seq<int>>, inclusiveTo: bool): (r: seq<seq<int>>)
    decreases |keys|
  {
    if keys == [] then []
    else
      var rest := FilterDayRange(keys[..|keys| - 1], from, to, inclusiveTo);
      var k := keys[|keys| - 1];
      if InDayRange(k, from, to, inclusiveTo) then rest + [k] else rest
  }

  function ParseBound(log: Option<string>): Result<Option<seq<int>>, LogNameError>
  {
    match log
    case None => Ok(None)
    case Some(s) =>
      match SplitForCompare(s)
      case Err(e) => Err(e)
      case Ok(t) => Ok(Some(t))
  }

  /**
   * `iter_log_name_tuples_between`: the sorted keys whose day lies in `[from, to)`, or in
   * `[from, to]` with `inclusiveTo`; a missing bound does not restrict. A bound that is not a
   * dash-separated list of integers raises.
   */
  function IterLogNameTuplesBetween(keys: seq<seq<int>>, fromLog: Option<string>, toLog: Option<string>, inclusiveTo: bool)
    : Result<seq<seq<int>>, LogNameError>
  {
    match ParseBound(fromLog)
    case Err(e) => Err(e)
    case Ok(from) =>
      match ParseBound(toLog)
      case Err(e) => Err(e)
      case Ok(to) => Ok(FilterDayRange(keys, from, to, inclusiveTo))
  }

  /** The kept keys are exactly those in range. */
  lemma {:induction false} FilterDayRangeMembers(keys: seq<seq<int>>, from: Option<seq<int>>, to: Option<seq<int>>, inclusiveTo: bool)
    ensures forall k :: k in FilterDayRange(keys, from, to, inclusiveTo) <==> k in keys && InDayRange(k, from, to, inclusiveTo)
    decreases |keys|
  {
    if keys != [] {
      FilterDayRangeMembers(keys[..|keys| - 1], from, to, inclusiveTo);
      assert keys == keys[..|keys| - 1] + [keys[|keys| - 1]];
    }
  }

  /** A key in range is kept as often as it occurs, and one out of range not at all. */
  lemma {:induction false} FilterDayRangeCounts(keys: seq<seq<int>>, from: Option<seq<int>>, to: Option<seq<int>>, inclusiveTo: bool, k: seq<int>)
    ensures multiset(FilterDayRange(keys, from, to, inclusiveTo))[k] ==
      if InDayRange(k, from, to, inclusiveTo) then multiset(keys)[k] else 0
    decreases |keys|
  {
    if keys != [] {
      FilterDayRangeCounts(keys[..|keys| - 1], from, to, inclusiveTo, k);
      assert keys == keys[..|keys| - 1] + [keys[|keys| - 1]];
    }
  }

  /** Filtering keeps the order: sorted keys give a sorted result. */
  lemma {:induction false} FilterDayRangeSorted(keys: seq<seq<int>>, from: Option<seq<int>>, to: Option<seq<int>>, inclusiveTo: bool)
    requires Sorted(keys)
    ensures Sorted(FilterDayRange(keys, from, to, inclusiveTo))
    decreases |keys|
  {
    if keys != [] {
      var init := keys[..|keys| - 1];
      var k := keys[|keys| - 1];
      assert Sorted(init);
      FilterDayRangeSorted(init, from, to, inclusiveTo);
      FilterDayRangeMembers(init, from, to, inclusiveTo);
      var rest := FilterDayRange(init, from, to, inclusiveTo);
      forall i | 0 <= i < |rest| ensures LexLessEq(rest[i], k) {
        assert rest[i] in init;
      }
    }
  }

  /** `date_to_log_day`: both bounds cut to their day; a `to_date` with a time makes the range inclusive. */
  function DateToLogDay(fromDate: Option<string>, toDate: Option<string>, inclusiveTo: bool)
    : (r: (Option<string>, Option<string>, bool))
  {
    var inclusive := if toDate.Some? && toDate.value != [] && SEP in toDate.value then true else inclusiveTo;
    (EnsureDayOnly(fromDate), EnsureDayOnly(toDate), inclusive)
  }

  /**
   * A time in `to_date` forces an inclusive range, and otherwise the flag passes through; the
   * bounds come back as bare days, `None` staying `None`.
   */
  lemma DateToLogDayCases(fromDate: Option<string>, toDate: Option<string>, inclusiveTo: bool)
    ensures var (f, t, inc) := DateToLogDay(fromDate, toDate, inclusiveTo);
      && (inc <==> inclusiveTo || (toDate.Some? && SEP in toDate.value))
      && (f.None? <==> fromDate.None?) && (t.None? <==> toDate.None?)
      && (f.Some? ==> SEP !in f.value && f.value <= fromDate.value)
      && (t.Some? ==> SEP !in t.value && t.value <= toDate.value)
  {
    EnsureDayOnlyCases(fromDate);
    EnsureDayOnlyCases(toDate);
  }
}
