/**
 * The date-string helpers of timeutils.py. Date strings have the shape
 * `Y-M-D` or `Y-M-D H:M:S`; the day and the time are separated by one space.
 * The local-time conversions (`mktime`, `strftime`) are left to the caller:
 * `DateStrToEpoch` receives them as a function.
 */
module TimeUtils {
  import opened Wrappers

  /** `date_str_sep` */
  const SEP: char := ' '

  /** The default time of day appended to a bare day. */
  const MIDNIGHT: string := "00:00:00"

  /** The suffix `human_date_str` strips: a separator and midnight. */
  const MIDNIGHT_SUFFIX: string := [SEP] + MIDNIGHT

  /** `ensure_full_date`: append `' ' + timeStr` unless the string already holds a time. */
  function EnsureFullDate(dateStr: string, timeStr: string): string
  {
    if SEP !in dateStr then dateStr + [SEP] + timeStr else dateStr
  }

  /** The prefix of `s` before the first `c`; all of `s` when `c` does not occur. */
  function PrefixBefore(s: string, c: char): (r: string)
    ensures r <= s
    ensures c !in r
    ensures |r| < |s| <==> c in s
    ensures |r| < |s| ==> s[|r|] == c
  {
    if s == [] then []
    else if s[0] == c then []
    else [s[0]] + PrefixBefore(s[1..], c)
  }

  /** `ensure_day_only`: `None` and `""` pass through, otherwise the part before the first space. */
  function EnsureDayOnly(dateStr: Option<string>): Option<string>
  {
    match dateStr
    case None => None
    case Some(d) => if d != [] && SEP in d then Some(PrefixBefore(d, SEP)) else dateStr
  }

  /**
   * `date_str_to_epoch`: `None` for `None`; otherwise the local-time epoch of the full date.
   * `toEpoch` stands for `mktime(strptime(...))`.
   */
  function DateStrToEpoch(dateStr: Option<string>, timeStr: string, toEpoch: string -> int): (r: Option<int>)
    ensures r.None? <==> dateStr.None?
  {
    match dateStr
    case None => None
    case Some(d) => Some(toEpoch(EnsureFullDate(d, timeStr)))
  }

  /** `human_date_str` with the evidently intended `midnight_str == ' 00:00:00'`. */
  function HumanDateStr(dateStr: Option<string>): Option<string>
  {
    match dateStr
    case None => None
    case Some(d) =>
      if d != [] && |d| >= |MIDNIGHT_SUFFIX| && d[|d| - |MIDNIGHT_SUFFIX|..] == MIDNIGHT_SUFFIX
      then Some(d[..|d| - |MIDNIGHT_SUFFIX|])
      else dateStr
  }

  /** The error `human_date_str` raises as written: `midnight_str` is never defined. */
  datatype NameError = MidnightStrUndefined

  /**
   * `human_date_str` as written: `date_str and date_str.endswith(midnight_str)` evaluates the
   * undefined name whenever `date_str` is truthy.
   */
  function HumanDateStrAsWritten(dateStr: Option<string>): Result<Option<string>, NameError>
  {
    match dateStr
    case None => Ok(None)
    case Some(d) => if d == [] then Ok(dateStr) else Err(MidnightStrUndefined)
  }

  // ---------------------------------------------------------------------------------------
  // Properties

  /** A full date is returned unchanged; a bare day gets exactly `' ' + timeStr` appended. */
  lemma EnsureFullDateAppendsIffNoSpace(dateStr: string, timeStr: string)
    ensures SEP in dateStr ==> EnsureFullDate(dateStr, timeStr) == dateStr
    ensures SEP !in dateStr ==> EnsureFullDate(dateStr, timeStr) == dateStr + " " + timeStr
    ensures SEP in EnsureFullDate(dateStr, timeStr)
  {
    if SEP !in dateStr {
      assert (dateStr + [SEP] + timeStr)[|dateStr|] == SEP;
    }
  }

  /** `ensure_full_date` is idempotent, whatever time the second call would append. */
  lemma EnsureFullDateIdempotent(dateStr: string, timeStr: string, timeStr': string)
    ensures EnsureFullDate(EnsureFullDate(dateStr, timeStr), timeStr') == EnsureFullDate(dateStr, timeStr)
  {
    EnsureFullDateAppendsIffNoSpace(dateStr, timeStr);
  }

  /**
   * `ensure_day_only` passes `None` and `""` through, leaves a bare day alone, and otherwise
   * keeps exactly the text before the first space; its result never contains a space.
   */
  lemma EnsureDayOnlyCases(dateStr: Option<string>)
    ensures dateStr.None? ==> EnsureDayOnly(dateStr) == None
    ensures dateStr == Some("") ==> EnsureDayOnly(dateStr) == Some("")
    ensures dateStr.Some? && SEP !in dateStr.value ==> EnsureDayOnly(dateStr) == dateStr
    ensures dateStr.Some? && SEP in dateStr.value ==>
      var r := EnsureDayOnly(dateStr).value;
      r + [SEP] <= dateStr.value && SEP !in r
    ensures EnsureDayOnly(dateStr).Some? ==> SEP !in EnsureDayOnly(dateStr).value
  {
    if dateStr.Some? && SEP in dateStr.value {
      var d := dateStr.value;
      var r := PrefixBefore(d, SEP);
      assert r + [SEP] == d[..|r| + 1];
    }
  }

  /** `ensure_day_only` is idempotent. */
  lemma EnsureDayOnlyIdempotent(dateStr: Option<string>)
    ensures EnsureDayOnly(EnsureDayOnly(dateStr)) == EnsureDayOnly(dateStr)
  {
    EnsureDayOnlyCases(dateStr);
    EnsureDayOnlyCases(EnsureDayOnly(dateStr));
  }

  /** The text before the first `c` of `a + [c] + b` is `a`, when `a` holds no `c`. */
  lemma {:induction false} PrefixBeforeSeparator(a: string, c: char, b: string)
    requires c !in a
    ensures PrefixBefore(a + [c] + b, c) == a
  {
    if a != [] {
      assert (a + [c] + b)[1..] == a[1..] + [c] + b;
      PrefixBeforeSeparator(a[1..], c, b);
    }
  }

  /** Cutting the time off a completed day gives the day back. */
  lemma DayOnlyOfFullDate(day: string, timeStr: string)
    requires SEP !in day
    ensures EnsureDayOnly(Some(EnsureFullDate(day, timeStr))) == Some(day)
  {
    var full := day + [SEP] + timeStr;
    assert full[|day|] == SEP;
    PrefixBeforeSeparator(day, SEP, timeStr);
  }

  /** `date_str_to_epoch(None)` is `None`; a full date ignores the time argument. */
  lemma DateStrToEpochCases(dateStr: Option<string>, timeStr: string, timeStr': string, toEpoch: string -> int)
    ensures dateStr.None? ==> DateStrToEpoch(dateStr, timeStr, toEpoch) == None
    ensures dateStr.Some? && SEP in dateStr.value ==>
      DateStrToEpoch(dateStr, timeStr, toEpoch) == DateStrToEpoch(dateStr, timeStr', toEpoch) == Some(toEpoch(dateStr.value))
  {
  }

  /**
   * The docstring of `human_date_str`: a trailing `' 00:00:00'` is stripped, any other string
   * and `None` come back unchanged.
   */
  lemma HumanDateStrCases(dateStr: Option<string>)
    ensures dateStr.None? ==> HumanDateStr(dateStr) == None
    ensures dateStr.Some? && !EndsWithMidnight(dateStr.value) ==> HumanDateStr(dateStr) == dateStr
    ensures dateStr.Some? && EndsWithMidnight(dateStr.value) ==>
      HumanDateStr(dateStr).Some? && HumanDateStr(dateStr).value + MIDNIGHT_SUFFIX == dateStr.value
  {
    if dateStr.Some? && EndsWithMidnight(dateStr.value) {
      var d := dateStr.value;
      assert d[..|d| - 9] + d[|d| - 9..] == d;
    }
  }

  predicate EndsWithMidnight(s: string)
  {
    |s| >= |MIDNIGHT_SUFFIX| && s[|s| - |MIDNIGHT_SUFFIX|..] == MIDNIGHT_SUFFIX
  }

  /** A day completed with midnight reads back as the bare day. */
  lemma HumanDateOfMidnight(day: string)
    requires SEP !in day
    ensures HumanDateStr(Some(EnsureFullDate(day, MIDNIGHT))) == Some(day)
  {
    var full := day + [SEP] + MIDNIGHT;
    assert full[|full| - 9..] == MIDNIGHT_SUFFIX;
    assert full[..|full| - 9] == day;
  }

  /** Finding: as written, the docstring's own example raises instead of returning the day. */
  lemma HumanDateStrAsWrittenRaises()
    ensures HumanDateStrAsWritten(Some("2015-03-12 00:00:00")) == Err(MidnightStrUndefined)
    ensures HumanDateStr(Some("2015-03-12 00:00:00")) == Some("2015-03-12")
  {
    HumanDateOfMidnight("2015-03-12");
    assert EnsureFullDate("2015-03-12", MIDNIGHT) == "2015-03-12 00:00:00";
  }

  /** As written, every non-empty date string raises; `None` and `""` pass. */
  lemma HumanDateStrAsWrittenFailsOnAnyDate(d: string)
    requires d != []
    ensures HumanDateStrAsWritten(Some(d)).Err?
    ensures HumanDateStrAsWritten(None) == Ok(HumanDateStr(None))
    ensures HumanDateStrAsWritten(Some("")) == Ok(HumanDateStr(Some("")))
  {
  }
}
