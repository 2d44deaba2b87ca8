/**
 The log-line budget: each of the three free-text fields of a flushed log
 line is cut to an equal share of what the fixed fields leave over.
 */
module Logger {

  /** Longest log line the harness keeps. */
  const MAX_LOG_LENGTH: int := 3750

  /** The marker appended to a cut string. */
  const ELLIPSIS: string := "..."

  function Min(a: int, b: int): int {
    if a <= b then a else b
  }

  function Max(a: int, b: int): int {
    if a <= b then b else a
  }

  /** Python's `s[:k]`: a negative `k` counts from the end. */
  function PyPrefix(s: string, k: int): (r: string)
    ensures |r| == if k >= 0 then Min(k, |s|) else Max(|s| + k, 0)
    ensures r == s[..|r|]
  {
    if k >= 0 then s[..Min(k, |s|)] else s[..Max(|s| + k, 0)]
  }

  /** `Logger.truncate`: a string that fits is kept; a longer one is cut so
      that, with the ellipsis appended, it is exactly `maxLength` long. */
  function Truncate(value: string, maxLength: int): (r: string)
    requires maxLength >= 3
    ensures |r| <= maxLength
    ensures |r| == Min(|value|, maxLength)
    ensures r == value <==> |value| <= maxLength
    ensures |value| > maxLength ==> r[maxLength - 3..] == ELLIPSIS
    ensures r[..Min(|value|, maxLength - 3)] == value[..Min(|value|, maxLength - 3)]
  {
    if |value| <= maxLength then value
    else value[..maxLength - 3] + ELLIPSIS
  }

  /** Cutting twice to the same length is cutting once. */
  lemma TruncateIdempotent(value: string, maxLength: int)
    requires maxLength >= 3
    ensures Truncate(Truncate(value, maxLength), maxLength) == Truncate(value, maxLength)
  {
  }

  /** The share of the budget each free-text field gets, given the length of
      the line with those fields empty: the largest equal share that fits.
      Python's `//` floors; for the positive
      divisor 3 Dafny's division agrees with it. */
  function ItemBudget(baseLength: int): (k: int)
    ensures baseLength + 3 * k <= MAX_LOG_LENGTH
    ensures MAX_LOG_LENGTH < baseLength + 3 * (k + 1)
  {
    (MAX_LOG_LENGTH - baseLength) / 3
  }

  /** `Logger.truncate` exactly as written, for every limit. From a limit of
      3 up it is `Truncate`; below 3 the slice index `maxLength - 3` is
      negative, so Python counts it from the end and a string that does not
      fit comes back longer than the limit. */
  function TruncateAsWritten(value: string, maxLength: int): (r: string)
    ensures maxLength >= 3 ==> r == Truncate(value, maxLength)
    ensures maxLength < 3 && |value| > maxLength ==>
              |r| == Max(|value| + maxLength - 3, 0) + 3 && |r| > maxLength
    ensures |value| <= maxLength ==> r == value
    ensures |value| > maxLength ==>
              |r| >= 3 && r[|r| - 3..] == ELLIPSIS && r[..|r| - 3] == value[..|r| - 3]
  {
    if |value| <= maxLength then value
    else PyPrefix(value, maxLength - 3) + ELLIPSIS
  }

  /** A fixed part of 3745 characters still fits the 3750 budget, but leaves a
      share of 1 per field; "hello" is then cut to "hel...", six characters,
      and three such fields carry the line to 3763 characters. */
  lemma TruncateAsWrittenOverflowsShare()
    ensures ItemBudget(3745) == 1
    ensures TruncateAsWritten("hello", 1) == "hel..."
    ensures 3745 <= MAX_LOG_LENGTH
    ensures 3745 + 3 * |TruncateAsWritten("hello", ItemBudget(3745))| > MAX_LOG_LENGTH
  {
    assert PyPrefix("hello", -2) == "hel";
  }

  /** The cut the budget split evidently intends: as `Logger.truncate` for a
      limit of 3 or more, and for a smaller limit the ellipsis itself cut to
      the limit, so a result is never longer than a non-negative limit. */
  function TruncateToShare(value: string, maxLength: int): (r: string)
    ensures |r| <= Max(maxLength, 0)
    ensures maxLength >= 3 ==> r == TruncateAsWritten(value, maxLength)
    ensures maxLength >= 0 ==> (r == value <==> |value| <= maxLength)
    ensures maxLength >= 0 && |value| > maxLength ==> |r| == maxLength
  {
    if |value| <= maxLength then value
    else if maxLength >= 3 then Truncate(value, maxLength)
    else ELLIPSIS[..Max(maxLength, 0)]
  }

  /** With the intended cut, whenever the fixed part itself fits, the three
      cut fields and the fixed part together stay within the line budget,
      counting characters before any JSON escaping. */
  lemma FlushWithinBudget(baseLength: int, traderDataIn: string, traderDataOut: string, logs: string)
    requires baseLength <= MAX_LOG_LENGTH
    ensures baseLength
            + |TruncateToShare(traderDataIn, ItemBudget(baseLength))|
            + |TruncateToShare(traderDataOut, ItemBudget(baseLength))|
            + |TruncateToShare(logs, ItemBudget(baseLength))|
            <= MAX_LOG_LENGTH
  {
    var k := ItemBudget(baseLength);
    assert k >= 0;
  }

  /** As written, the same bound holds once the share is at least the
      ellipsis. */
  lemma FlushAsWrittenWithinBudget(baseLength: int, traderDataIn: string, traderDataOut: string, logs: string)
    requires ItemBudget(baseLength) >= 3
    ensures baseLength
            + |TruncateAsWritten(traderDataIn, ItemBudget(baseLength))|
            + |TruncateAsWritten(traderDataOut, ItemBudget(baseLength))|
            + |TruncateAsWritten(logs, ItemBudget(baseLength))|
            <= MAX_LOG_LENGTH
  {
  }
}
