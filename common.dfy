/** Values of the JavaScript runtime that more than one service relies on:
    optional values, number tags, dates, Math.round, decimal strings and trimming. */
module Common {

  datatype Option<+T> = None | Some(value: T)

  /** A JavaScript number: a finite value, or NaN / +Infinity / -Infinity. */
  datatype Num = Num(value: real) | NonFinite

  /** A JavaScript number that the model only lets take integral values (a
      counter delta, a limiter option); `undefined`, NaN and the infinities
      are all `NotFinite`. */
  datatype Whole = Whole(value: int) | NotFinite

  /** A JavaScript Date: a millisecond timestamp, or an Invalid Date whose
      `getTime()` is NaN. */
  datatype Date = At(ms: int) | InvalidDate

  /** A value handed to parseDate / parseBatteryUpdatedAt: a falsy value
      (undefined, null, "", 0, NaN), a Date, a non-empty string together with
      the Date that `new Date(string)` parses it to, an integral number, or
      any other value. */
  datatype DateInput =
    | NoDate
    | DateObject(date: Date)
    | DateText(text: string, parsed: Date)
    | DateNumber(n: Whole)
    | OtherInput

  /** The largest magnitude of a Date's time value, 8.64e15 ms. */
  const MaxTimeMs: int := 8640000000000000

  /** parseDate: the time in ms of a value that makes a valid Date, `None`
      for a falsy value, an Invalid Date, or any other type. */
  function ParseDate(v: DateInput): (r: Option<int>)
    ensures v.NoDate? || v.OtherInput? ==> r.None?
    ensures v.DateObject? ==> (r.Some? <==> v.date.At?) && (r.Some? ==> r.value == v.date.ms)
    ensures v.DateText? ==> (r.Some? <==> v.text != "" && v.parsed.At?) && (r.Some? ==> r.value == v.parsed.ms)
    ensures v.DateNumber? ==> (r.Some? <==> v.n.Whole? && v.n.value != 0 && -MaxTimeMs <= v.n.value <= MaxTimeMs)
    ensures v.DateNumber? && r.Some? ==> r.value == v.n.value
  {
    match v
    case NoDate => None
    case DateObject(d) => if d.At? then Some(d.ms) else None
    case DateText(t, d) => if t != "" && d.At? then Some(d.ms) else None
    case DateNumber(n) =>
      if n.Whole? && n.value != 0 && -MaxTimeMs <= n.value <= MaxTimeMs then Some(n.value) else None
    case OtherInput => None
  }

  /** Math.round: the nearest integer, a half rounded towards +Infinity. */
  function Round(x: real): (r: int)
    ensures x - 0.5 < r as real <= x + 0.5
  {
    (x + 0.5).Floor
  }

  /** Math.min(100, Math.max(0, n)). */
  function Clamp100(n: int): (r: int)
    ensures 0 <= r <= 100
    ensures 0 <= n <= 100 ==> r == n
    ensures n < 0 ==> r == 0
    ensures n > 100 ==> r == 100
  {
    if n < 0 then 0 else if n > 100 then 100 else n
  }

  function Digit(d: int): (c: char)
    requires 0 <= d < 10
    ensures '0' <= c <= '9' && (c as int) - ('0' as int) == d
  {
    ('0' as int + d) as char
  }

  predicate IsDigit(c: char) { '0' <= c <= '9' }

  function DigitValue(c: char): (d: int)
    requires IsDigit(c)
    ensures 0 <= d < 10 && Digit(d) == c
  {
    c as int - '0' as int
  }

  /** String(n) for a natural number: its decimal digits, no leading zero. */
  function NatString(n: nat): (s: string)
    ensures |s| >= 1 && (forall i :: 0 <= i < |s| ==> IsDigit(s[i]))
    ensures |s| > 1 ==> s[0] != '0'
  {
    if n < 10 then [Digit(n)] else NatString(n / 10) + [Digit(n % 10)]
  }

  /** String(n) for an integer: a minus sign before the digits of a negative number. */
  function IntString(n: int): (s: string)
    ensures |s| >= 1
    ensures n >= 0 <==> IsDigit(s[0])
  {
    if n >= 0 then NatString(n) else "-" + NatString(-n)
  }

  /** The characters String.prototype.trim and Number.parseInt skip:
      ECMAScript WhiteSpace and LineTerminator. */
  predicate IsJsSpace(c: char)
  {
    c == ' ' || c == '\t' || c == '\n' || c == '\r' || c == '\U{000B}' || c == '\U{000C}'
    || c == '\U{00A0}' || c == '\U{FEFF}' || c == '\U{1680}'
    || ('\U{2000}' <= c <= '\U{200A}') || c == '\U{2028}' || c == '\U{2029}'
    || c == '\U{202F}' || c == '\U{205F}' || c == '\U{3000}'
  }

  function TrimStart(s: string): (r: string)
    ensures |r| <= |s| && r == s[|s| - |r|..]
    ensures r == [] || !IsJsSpace(r[0])
    ensures forall i :: 0 <= i < |s| - |r| ==> IsJsSpace(s[i])
  {
    if s == [] || !IsJsSpace(s[0]) then s else TrimStart(s[1..])
  }

  function TrimEnd(s: string): (r: string)
    ensures |r| <= |s| && r == s[..|r|]
    ensures r == [] || !IsJsSpace(r[|r| - 1])
    ensures forall i :: |r| <= i < |s| ==> IsJsSpace(s[i])
  {
    if s == [] || !IsJsSpace(s[|s| - 1]) then s else TrimEnd(s[..|s| - 1])
  }

  /** Every character of `u` is white space. */
  predicate AllSpace(u: string)
  {
    forall k :: 0 <= k < |u| ==> IsJsSpace(u[k])
  }

  /** String.prototype.trim: a slice of `s` that neither starts nor ends
      with white space, and only white space is cut off on either side. */
  function Trim(s: string): (r: string)
    ensures r == [] || (!IsJsSpace(r[0]) && !IsJsSpace(r[|r| - 1]))
    ensures exists i, j :: 0 <= i <= j <= |s| && r == s[i..j] && AllSpace(s[..i]) && AllSpace(s[j..])
  {
    var t := TrimStart(s);
    var r := TrimEnd(t);
    TrimmedSlice(s, t, r);
    r
  }

  /** Cutting white space off the front of `s` (giving `t`) and then off the
      back of `t` (giving `r`) leaves a slice of `s` with only white space
      cut on either side. */
  lemma TrimmedSlice(s: string, t: string, r: string)
    requires |t| <= |s| && t == s[|s| - |t|..] && forall k :: 0 <= k < |s| - |t| ==> IsJsSpace(s[k])
    requires |r| <= |t| && r == t[..|r|] && forall k :: |r| <= k < |t| ==> IsJsSpace(t[k])
    ensures exists i, j :: 0 <= i <= j <= |s| && r == s[i..j] && AllSpace(s[..i]) && AllSpace(s[j..])
  {
    var i := |s| - |t|;
    var j := i + |r|;
    forall k | 0 <= k < i
      ensures IsJsSpace(s[..i][k])
    {
      assert s[..i][k] == s[k];
    }
    forall k | 0 <= k < |s| - j
      ensures IsJsSpace(s[j..][k])
    {
      assert s[j..][k] == t[|r| + k];
    }
    assert r == s[i..j];
  }

  /** JavaScript truthiness of an optional string: absent and "" are falsy. */
  predicate Truthy(s: Option<string>)
  {
    s.Some? && s.value != ""
  }

  /** The first position whose element satisfies `p` (MongoDB's first match in natural order). */
  function FirstIndex<T>(s: seq<T>, p: T -> bool): (r: Option<nat>)
    ensures r.Some? ==> r.value < |s| && p(s[r.value]) && forall j :: 0 <= j < r.value ==> !p(s[j])
    ensures r.None? ==> forall j :: 0 <= j < |s| ==> !p(s[j])
  {
    if s == [] then None
    else if p(s[0]) then Some(0)
    else match FirstIndex(s[1..], p)
      case None => None
      case Some(k) => Some(k + 1)
  }

  /** The last position whose element satisfies `p` (a descending `_id` sort, then findOne). */
  function LastIndex<T>(s: seq<T>, p: T -> bool): (r: Option<nat>)
    ensures r.Some? ==> r.value < |s| && p(s[r.value]) && forall j :: r.value < j < |s| ==> !p(s[j])
    ensures r.None? ==> forall j :: 0 <= j < |s| ==> !p(s[j])
  {
    if s == [] then None
    else if p(s[|s| - 1]) then Some(|s| - 1)
    else LastIndex(s[..|s| - 1], p)
  }
}
