/** Values shared by every part of the model: nullable values, the exceptions the
    services raise, the string normalisers, and the time types. */
module Common {

  /** A database identity (a Java `Long` primary key). */
  type Id = int

  /** A Java reference that may be null. */
  datatype Option<+T> = None | Some(value: T)

  /** The three exception classes the services throw:
      ResourceNotFoundException, ConflictException and IllegalArgumentException.
      `what` names the check that failed. */
  datatype Error =
    | NotFound(what: string)
    | Conflict(what: string)
    | InvalidArgument(what: string)

  /** A value, or the exception raised instead of returning it. */
  datatype Result<+T> = Success(value: T) | Failure(error: Error) {
    predicate IsFailure() { Failure? }
    function PropagateFailure<U>(): Result<U> requires Failure? { Failure(error) }
    function Extract(): T requires Success? { value }
  }

  /** A `void` check: it passes or raises. */
  datatype Outcome = Pass | Fail(error: Error) {
    predicate IsFailure() { Fail? }
    function PropagateFailure(): Outcome requires Fail? { this }
  }

  function Need(condition: bool, error: Error): (r: Outcome)
    ensures r.Pass? <==> condition
  {
    if condition then Pass else Fail(error)
  }

  /** Some element of a non-empty set; which one is left open. */
  method Pick<T>(s: set<T>) returns (x: T)
    requires s != {}
    ensures x in s
  {
    x :| x in s;
  }

  // ---------------------------------------------------------------------------
  // Strings

  /** `String.trim()` drops every leading and trailing character whose code is at most U+0020. */
  predicate IsTrimmed(c: char) { c <= ' ' }

  function TrimLeading(s: string): (r: string)
    ensures |r| <= |s| && r == s[|s| - |r|..]
    ensures r == [] || !IsTrimmed(r[0])
    ensures forall k | 0 <= k < |s| - |r| :: IsTrimmed(s[k])
  {
    if s != [] && IsTrimmed(s[0]) then TrimLeading(s[1..]) else s
  }

  function TrimTrailing(s: string): (r: string)
    ensures |r| <= |s| && r == s[..|r|]
    ensures r == [] || !IsTrimmed(r[|r| - 1])
    ensures forall k | |r| <= k < |s| :: IsTrimmed(s[k])
  {
    if s != [] && IsTrimmed(s[|s| - 1]) then TrimTrailing(s[..|s| - 1]) else s
  }

  /** Java's `String.trim()`. */
  function Trim(s: string): (r: string)
    ensures |r| <= |s|
    ensures r == [] || (!IsTrimmed(r[0]) && !IsTrimmed(r[|r| - 1]))
    ensures exists i | 0 <= i <= |s| - |r| :: CutAt(s, r, i)
  {
    var leading := TrimLeading(s);
    var r := TrimTrailing(leading);
    TrimIsCut(s, leading, r);
    r
  }

  /** Trimming the end after the start leaves a slice with only trimmable characters around it. */
  lemma TrimIsCut(s: string, leading: string, r: string)
    requires |leading| <= |s| && leading == s[|s| - |leading|..]
    requires forall k | 0 <= k < |s| - |leading| :: IsTrimmed(s[k])
    requires |r| <= |leading| && r == leading[..|r|]
    requires forall k | |r| <= k < |leading| :: IsTrimmed(leading[k])
    ensures |s| - |leading| + |r| <= |s| && CutAt(s, r, |s| - |leading|)
  {
    var i := |s| - |leading|;
    forall k | i + |r| <= k < |s|
      ensures IsTrimmed(s[k])
    {
      assert s[k] == leading[k - i];
    }
    assert r == s[i..i + |r|];
  }

  /** `r` is the slice of `s` starting at `i`, and every character of `s` before or
      after that slice is one `trim` drops. */
  predicate CutAt(s: string, r: string, i: nat)
    requires i + |r| <= |s|
  {
    && r == s[i..i + |r|]
    && (forall k | 0 <= k < i :: IsTrimmed(s[k]))
    && (forall k | i + |r| <= k < |s| :: IsTrimmed(s[k]))
  }

  /** A string that has no character to trim at either end is its own trim. */
  lemma {:induction false} TrimOfTrimmed(s: string)
    requires s == [] || (!IsTrimmed(s[0]) && !IsTrimmed(s[|s| - 1]))
    ensures Trim(s) == s
  {
  }

  lemma TrimIdempotent(s: string)
    ensures Trim(Trim(s)) == Trim(s)
  {
    TrimOfTrimmed(Trim(s));
  }

  /** Every character of a blank string (one made only of characters `trim` drops) is dropped. */
  lemma {:induction false} TrimOfBlank(s: string)
    requires forall k | 0 <= k < |s| :: IsTrimmed(s[k])
    ensures Trim(s) == []
  {
  }

  /** The lower-case mapping of `String.toLowerCase()` on the ASCII letters. */
  function LowerChar(c: char): (r: char)
    ensures 'A' <= c <= 'Z' ==> 'a' <= r <= 'z'
    ensures !('A' <= c <= 'Z') ==> r == c
  {
    if 'A' <= c <= 'Z' then (c as int + 32) as char else c
  }

  function ToLower(s: string): (r: string)
    ensures |r| == |s|
    ensures forall k | 0 <= k < |s| :: r[k] == LowerChar(s[k])
  {
    if s == [] then [] else [LowerChar(s[0])] + ToLower(s[1..])
  }

  lemma {:induction false} ToLowerIdempotent(s: string)
    ensures ToLower(ToLower(s)) == ToLower(s)
  {
    var once := ToLower(s);
    var twice := ToLower(once);
    assert forall k | 0 <= k < |s| :: twice[k] == once[k];
  }

  /** `normalizeRequired`: trims, and keeps a null as null. */
  function NormalizeRequired(value: Option<string>): (r: Option<string>)
    ensures r.None? <==> value.None?
    ensures r.Some? ==> r.value == Trim(value.value)
  {
    match value
    case None => None
    case Some(v) => Some(Trim(v))
  }

  /** `normalizeOptional`: trims, and turns a null or a blank string into null. */
  function NormalizeOptional(value: Option<string>): (r: Option<string>)
    ensures value.None? ==> r.None?
    ensures r.Some? ==> value.Some? && r.value == Trim(value.value) && r.value != []
    ensures value.Some? && Trim(value.value) != [] ==> r == Some(Trim(value.value))
  {
    match value
    case None => None
    case Some(v) => var t := Trim(v); if t == [] then None else Some(t)
  }

  /** A value that passed through `normalizeOptional` passes through it again unchanged. */
  lemma NormalizeOptionalIdempotent(value: Option<string>)
    ensures NormalizeOptional(NormalizeOptional(value)) == NormalizeOptional(value)
  {
    if NormalizeOptional(value).Some? {
      TrimIdempotent(value.value);
    }
  }

  /** A blank string, or a null, is normalised to null. */
  lemma NormalizeOptionalBlank(v: string)
    requires forall k | 0 <= k < |v| :: IsTrimmed(v[k])
    ensures NormalizeOptional(Some(v)) == None
  {
    TrimOfBlank(v);
  }

  // ---------------------------------------------------------------------------
  // Time

  /** An instant on the time line, in nanoseconds since 1970-01-01T00:00Z. */
  type Instant = int

  const NanosPerSecond: int := 1_000_000_000
  const NanosPerMinute: int := 60 * NanosPerSecond
  const NanosPerDay: int := 86_400 * NanosPerSecond

  /** A `LocalDate`, as the number of days since 1970-01-01. */
  type LocalDate = int

  /** A `LocalTime`, as the nanosecond of the day. */
  type LocalTime = t: int | 0 <= t < NanosPerDay

  /** An `OffsetDateTime`: a local date and time and the offset from UTC, in seconds. */
  datatype OffsetDateTime = OffsetDateTime(date: LocalDate, time: LocalTime, offsetSeconds: int) {
    /** The instant it denotes; this is what `timestamptz` stores and orders by. */
    function ToInstant(): Instant {
      date * NanosPerDay + time - offsetSeconds * NanosPerSecond
    }
    /** `toLocalDate()`. */
    function ToLocalDate(): LocalDate { date }
    /** `toLocalTime()`. */
    function ToLocalTime(): LocalTime { time }
  }
}
