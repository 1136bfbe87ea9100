/** Shared vocabulary of the model: optional values, calendar days,
    the authenticated user as the permission classes see it, and the few
    ASCII string operations the views rely on (lower-casing, prefix and
    case-insensitive substring tests, decimal rendering of ids). */
module Base {

  datatype Option<T> = None | Some(value: T)

  /** `data.get(key, default)` for a key that is present or absent. */
  function OrElse<T>(o: Option<T>, default: T): T
  {
    if o.Some? then o.value else default
  }

  /** A calendar day as a proleptic Gregorian ordinal (Python's
      `date.toordinal()`): consecutive days are consecutive integers. */
  type Date = int

  /** A point in time, in whole seconds. */
  type Timestamp = int

  const SECONDS_PER_DAY: int := 86400

  /** The first second of a day; Django compares a DateTimeField with a
      bare date by turning the date into this instant. */
  function DayStart(d: Date): Timestamp
  {
    d * SECONDS_PER_DAY
  }

  type UserId = nat

  /** `request.user` as the permission classes read it: whether the
      session is authenticated and the role of its user profile. */
  datatype User = User(id: UserId, authenticated: bool, role: string)

  const ADMIN: string := "admin"
  const DOCTOR: string := "doctor"
  const PHARMACIST: string := "pharmacist"

  predicate IsUpperAscii(c: char) { 'A' <= c <= 'Z' }
  predicate IsLowerAscii(c: char) { 'a' <= c <= 'z' }

  function LowerChar(c: char): (r: char)
    ensures !IsUpperAscii(r)
    ensures IsUpperAscii(c) ==> r as int == c as int + 32
    ensures !IsUpperAscii(c) ==> r == c
  {
    if IsUpperAscii(c) then (c as int + 32) as char else c
  }

  function UpperChar(c: char): (r: char)
    ensures !IsLowerAscii(r)
    ensures IsLowerAscii(c) ==> r as int == c as int - 32
    ensures !IsLowerAscii(c) ==> r == c
  {
    if IsLowerAscii(c) then (c as int - 32) as char else c
  }

  /** `str.lower()` restricted to ASCII letters. */
  function Lower(s: string): (r: string)
    ensures |r| == |s|
    ensures forall i :: 0 <= i < |s| ==> r[i] == LowerChar(s[i])
  {
    seq(|s|, i requires 0 <= i < |s| => LowerChar(s[i]))
  }

  /** `str.upper()` restricted to ASCII letters. */
  function Upper(s: string): (r: string)
    ensures |r| == |s|
    ensures forall i :: 0 <= i < |s| ==> r[i] == UpperChar(s[i])
  {
    seq(|s|, i requires 0 <= i < |s| => UpperChar(s[i]))
  }

  lemma LowerIdempotent(s: string)
    ensures Lower(Lower(s)) == Lower(s)
  {
    assert forall i :: 0 <= i < |s| ==> LowerChar(LowerChar(s[i])) == LowerChar(s[i]);
  }

  predicate StartsWith(s: string, prefix: string)
  {
    |prefix| <= |s| && s[..|prefix|] == prefix
  }

  lemma StartsWithConcat(prefix: string, rest: string)
    ensures StartsWith(prefix + rest, prefix)
  {
    assert (prefix + rest)[..|prefix|] == prefix;
  }

  predicate OccursAt(needle: string, hay: string, i: int)
  {
    0 <= i <= |hay| - |needle| && hay[i..i + |needle|] == needle
  }

  /** `needle in hay` for strings. */
  predicate IsSubstring(needle: string, hay: string)
  {
    exists i | 0 <= i <= |hay| :: OccursAt(needle, hay, i)
  }

  /** Django's `__icontains` lookup, with ASCII case folding. */
  predicate ContainsIgnoreCase(hay: string, needle: string)
  {
    IsSubstring(Lower(needle), Lower(hay))
  }

  function DigitChar(d: nat): (c: char)
    requires d < 10
    ensures '0' <= c <= '9'
  {
    ('0' as int + d) as char
  }

  /** Decimal rendering of a natural number, as `f"{n}"`. */
  function NatToString(n: nat): (s: string)
    ensures |s| >= 1
    ensures forall i :: 0 <= i < |s| ==> '0' <= s[i] <= '9'
    decreases n
  {
    if n < 10 then [DigitChar(n)] else NatToString(n / 10) + [DigitChar(n % 10)]
  }
}
