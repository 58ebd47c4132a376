/** The fixed-window rate limiter (src/middleware/rateLimit.ts): the option
    parsing, the key built from the client and the route, and the per-key
    counter kept in the store, whose expiry is set on the first hit of a
    window. Store time is the `nowMs` parameter. */
module RateLimit {
  import opened Common

  const DefaultWindowMs: int := 60000
  const DefaultMax: int := 60

  // ------------------------------------------------------------------
  // Number.parseInt(value, 10)
  // ------------------------------------------------------------------

  /** The run of decimal digits at the start of `s`. */
  function LeadingDigits(s: string): (r: string)
    ensures |r| <= |s| && r == s[..|r|]
    ensures forall i :: 0 <= i < |r| ==> IsDigit(r[i])
    ensures |r| < |s| ==> !IsDigit(s[|r|])
  {
    if s == [] || !IsDigit(s[0]) then [] else [s[0]] + LeadingDigits(s[1..])
  }

  predicate AllDigits(d: string)
  {
    forall i :: 0 <= i < |d| ==> IsDigit(d[i])
  }

  /** The value of a string of decimal digits. */
  function DecimalValue(d: string): (n: nat)
    requires AllDigits(d)
  {
    if d == [] then 0 else DecimalValue(d[..|d| - 1]) * 10 + DigitValue(d[|d| - 1])
  }

  /** The text after one optional leading sign. */
  function Unsigned(t: string): (r: string)
    ensures |r| <= |t|
    ensures |r| < |t| <==> |t| > 0 && (t[0] == '-' || t[0] == '+')
  {
    if |t| > 0 && (t[0] == '-' || t[0] == '+') then t[1..] else t
  }

  /** Number.parseInt(s, 10): leading whitespace skipped, an optional sign,
      then the longest run of digits; `None` is NaN (no digit at all). What
      it reads is stated by ParseIntReads. */
  function ParseInt(s: string): Option<int>
  {
    ParseSigned(TrimStart(s))
  }

  /** The sign-and-digits part of parseInt, on text past the white space. */
  function ParseSigned(t: string): Option<int>
  {
    var d := LeadingDigits(Unsigned(t));
    if d == [] then None
    else Some(if |t| > 0 && t[0] == '-' then -(DecimalValue(d) as int) else DecimalValue(d))
  }

  /** parseInt is NaN iff no digit follows the leading white space and one
      optional sign; otherwise it is the value of the digit run there,
      negated after a minus sign. */
  lemma ParseIntReads(s: string)
    ensures var t := TrimStart(s);
            && (ParseInt(s).None? <==> Unsigned(t) == [] || !IsDigit(Unsigned(t)[0]))
            && (ParseInt(s).Some? ==>
                  && |t| > 0
                  && ParseInt(s).value == (if t[0] == '-' then -(DecimalValue(LeadingDigits(Unsigned(t))) as int)
                                          else DecimalValue(LeadingDigits(Unsigned(t)))))
  {
  }

  /** Reading back the decimal digits of n gives n. */
  lemma {:induction false} DecimalValueOfNatString(n: nat)
    ensures AllDigits(NatString(n)) && DecimalValue(NatString(n)) == n
  {
    var s := NatString(n);
    if n >= 10 {
      DecimalValueOfNatString(n / 10);
      assert s[..|s| - 1] == NatString(n / 10);
      assert s[|s| - 1] == Digit(n % 10);
    }
  }

  /** The digit run of a string of digits followed by a non-digit is that string. */
  lemma {:induction false} LeadingDigitsOfDigits(d: string, rest: string)
    requires AllDigits(d)
    requires rest == [] || !IsDigit(rest[0])
    ensures LeadingDigits(d + rest) == d
  {
    if d != [] {
      assert (d + rest)[1..] == d[1..] + rest;
      LeadingDigitsOfDigits(d[1..], rest);
    }
  }

  /** parseInt of unsigned digits followed by a non-digit. */
  lemma {:induction false} ParseIntOfDigits(d: string, rest: string)
    requires AllDigits(d) && d != []
    requires rest == [] || !IsDigit(rest[0])
    ensures ParseInt(d + rest) == Some(DecimalValue(d) as int)
  {
    var s := d + rest;
    assert s[0] == d[0] && IsDigit(s[0]);
    assert !IsJsSpace(s[0]);
    assert TrimStart(s) == s;
    LeadingDigitsOfDigits(d, rest);
  }

  /** parseInt of a minus sign, digits, then a non-digit. */
  lemma {:induction false} ParseIntOfNegativeDigits(d: string, rest: string)
    requires AllDigits(d) && d != []
    requires rest == [] || !IsDigit(rest[0])
    ensures ParseInt("-" + d + rest) == Some(-(DecimalValue(d) as int))
  {
    var s := "-" + d + rest;
    assert s[0] == '-' && !IsJsSpace('-');
    assert TrimStart(s) == s;
    assert s[1..] == d + rest;
    LeadingDigitsOfDigits(d, rest);
  }

  /** Leading white space is skipped. */
  lemma ParseIntSkipsSpace(c: char, s: string)
    requires IsJsSpace(c)
    ensures ParseInt([c] + s) == ParseInt(s)
  {
    var t := [c] + s;
    assert t[0] == c && t[1..] == s;
    assert TrimStart(t) == TrimStart(s);
  }

  /** A plus sign is read and ignored. */
  lemma {:induction false} ParseIntOfPlusDigits(d: string, rest: string)
    requires AllDigits(d) && d != []
    requires rest == [] || !IsDigit(rest[0])
    ensures ParseInt("+" + d + rest) == Some(DecimalValue(d) as int)
  {
    var s := "+" + d + rest;
    assert s[0] == '+' && !IsJsSpace('+');
    assert TrimStart(s) == s;
    assert s[1..] == d + rest;
    LeadingDigitsOfDigits(d, rest);
  }

  /** parseInt reads back String(n), ignoring anything after the digits
      that does not start with a digit ("30ms" is 30). */
  lemma {:induction false} ParseIntOfIntString(n: int, rest: string)
    requires rest == [] || !IsDigit(rest[0])
    ensures ParseInt(IntString(n) + rest) == Some(n)
  {
    var m: nat := if n >= 0 then n else -n;
    var d := NatString(m);
    assert AllDigits(d) && DecimalValue(d) == m by {
      DecimalValueOfNatString(m);
    }
    if n >= 0 {
      assert IntString(n) == d;
      ParseIntOfDigits(d, rest);
    } else {
      assert IntString(n) + rest == "-" + d + rest;
      ParseIntOfNegativeDigits(d, rest);
    }
  }

  /** parsePositiveInt: the parsed value when positive, else the fallback;
      a missing value is parsed as "". */
  function ParsePositiveInt(value: Option<string>, fallback: int): (r: int)
    ensures value.None? ==> r == fallback
    ensures r > 0 || r == fallback
    ensures value.Some? ==>
              var p := ParseInt(value.value);
              (p.Some? && p.value > 0 ==> r == p.value) && (p.None? || p.value <= 0 ==> r == fallback)
  {
    var parsed := ParseInt(if value.Some? then value.value else "");
    if parsed.Some? && parsed.value > 0 then parsed.value else fallback
  }

  /** resolveLimitValue: a finite positive option, else the fallback. */
  function ResolveLimitValue(value: Whole, fallback: int): (r: int)
    ensures value.Whole? && value.value > 0 ==> r == value.value
    ensures value.NotFinite? || value.value <= 0 ==> r == fallback
  {
    if value.Whole? && value.value > 0 then value.value else fallback
  }

  // ------------------------------------------------------------------
  // Keys
  // ------------------------------------------------------------------

  /** What the limiter reads of a request. `userId` is `req.user?.id` and
      `sessionUserId` is `req.session?.user?.id` (`None` for undefined or
      null); `forwarded` is the `x-forwarded-for` header when it is one string. */
  datatype Request = Request(
    httpMethod: string,
    userId: Option<string>,
    sessionUserId: Option<string>,
    forwarded: Option<string>,
    ip: Option<string>,
    baseUrl: Option<string>,
    path: Option<string>)

  /** `s.split(",")[0]`: everything before the first comma. */
  function FirstField(s: string): (r: string)
    ensures |r| <= |s| && r == s[..|r|]
    ensures ',' !in r
    ensures |r| < |s| ==> s[|r|] == ','
  {
    if s == [] || s[0] == ',' then [] else [s[0]] + FirstField(s[1..])
  }

  /** The user id, `req.user?.id ?? req.session?.user?.id`. */
  function RequestUserId(req: Request): (r: Option<string>)
    ensures req.userId.Some? ==> r == req.userId
    ensures req.userId.None? ==> r == req.sessionUserId
  {
    if req.userId.Some? then req.userId else req.sessionUserId
  }

  /** The address, the trimmed first forwarded entry when the header is a string, else `req.ip`. */
  function RequestIp(req: Request): (r: Option<string>)
    ensures req.forwarded.None? ==> r == req.ip
    ensures req.forwarded.Some? ==>
              && r.Some? && ',' !in r.value
              && (r.value == [] || (!IsJsSpace(r.value[0]) && !IsJsSpace(r.value[|r.value| - 1])))
  {
    if req.forwarded.Some? then Some(Trim(FirstField(req.forwarded.value))) else req.ip
  }

  /** resolveClientKey. */
  function ResolveClientKey(req: Request): (k: string)
    ensures Truthy(RequestUserId(req)) ==> k == "user:" + RequestUserId(req).value
    ensures !Truthy(RequestUserId(req)) && Truthy(RequestIp(req)) ==> k == "ip:" + RequestIp(req).value
    ensures !Truthy(RequestUserId(req)) && !Truthy(RequestIp(req)) ==> k == "ip:unknown"
  {
    var userId := RequestUserId(req);
    if Truthy(userId) then "user:" + userId.value
    else
      var ip := RequestIp(req);
      "ip:" + (if Truthy(ip) then ip.value else "unknown")
  }

  /** Signed-in users and anonymous clients never share a counter: their
      client keys differ in the first character. */
  lemma UserAndIpKeysDiffer(a: Request, b: Request)
    requires Truthy(RequestUserId(a)) && !Truthy(RequestUserId(b))
    ensures ResolveClientKey(a) != ResolveClientKey(b)
  {
    assert ResolveClientKey(a)[0] == 'u';
    assert ResolveClientKey(b)[0] == 'i';
  }

  /** A forwarded header wins over `req.ip`, and only its first entry counts,
      without the surrounding white space. */
  lemma ForwardedFirstEntry(req: Request, first: string, rest: string)
    requires !Truthy(RequestUserId(req))
    requires req.forwarded == Some(first + "," + rest)
    requires ',' !in first && Trim(first) != []
    ensures ResolveClientKey(req) == "ip:" + Trim(first)
  {
    FirstFieldBeforeComma(first, rest);
  }

  lemma {:induction false} FirstFieldBeforeComma(first: string, rest: string)
    requires ',' !in first
    ensures FirstField(first + "," + rest) == first
  {
    if first != [] {
      assert (first + "," + rest)[1..] == first[1..] + "," + rest;
      FirstFieldBeforeComma(first[1..], rest);
    }
  }

  /** resolveRouteKey: `${method}:${baseUrl}${path}`, a missing part being "". */
  function ResolveRouteKey(req: Request): (k: string)
    ensures |k| > |req.httpMethod| && k[..|req.httpMethod|] == req.httpMethod && k[|req.httpMethod|] == ':'
  {
    req.httpMethod + ":" + (if req.baseUrl.Some? then req.baseUrl.value else "")
      + (if req.path.Some? then req.path.value else "")
  }

  /** The prefix: "rate:" and the option when one is given, else "rate". */
  function KeyPrefix(keyPrefix: Option<string>): (p: string)
    ensures Truthy(keyPrefix) ==> p == "rate:" + keyPrefix.value
    ensures !Truthy(keyPrefix) ==> p == "rate"
  {
    if Truthy(keyPrefix) then "rate:" + keyPrefix.value else "rate"
  }

  /** The store key, prefix:clientKey:routeKey. */
  function RedisKey(prefix: string, req: Request): (k: string)
    ensures var c := ResolveClientKey(req); var n := |prefix| + 1 + |c|;
            && |k| == n + 1 + |ResolveRouteKey(req)|
            && k[..|prefix|] == prefix && k[|prefix|] == ':'
            && k[|prefix| + 1..n] == c && k[n] == ':'
            && k[n + 1..] == ResolveRouteKey(req)
  {
    prefix + ":" + ResolveClientKey(req) + ":" + ResolveRouteKey(req)
  }

  // ------------------------------------------------------------------
  // The limiter
  // ------------------------------------------------------------------

  datatype Options = Options(windowMs: Whole, max: Whole, keyPrefix: Option<string>)

  datatype Limiter = Limiter(windowMs: int, max: int, prefix: string)

  /** createRateLimitMiddleware's settings; the process-wide defaults come
      from RATE_LIMIT_WINDOW_MS and RATE_LIMIT_MAX. */
  function CreateLimiter(options: Options, envWindowMs: Option<string>, envMax: Option<string>): (l: Limiter)
    ensures l.windowMs > 0 && l.max > 0
    ensures options.windowMs.Whole? && options.windowMs.value > 0 ==> l.windowMs == options.windowMs.value
    ensures options.max.Whole? && options.max.value > 0 ==> l.max == options.max.value
    ensures !(options.windowMs.Whole? && options.windowMs.value > 0) ==>
              l.windowMs == ParsePositiveInt(envWindowMs, DefaultWindowMs)
    ensures !(options.max.Whole? && options.max.value > 0) ==> l.max == ParsePositiveInt(envMax, DefaultMax)
    ensures l.prefix == KeyPrefix(options.keyPrefix)
  {
    var windowFallback := ParsePositiveInt(envWindowMs, DefaultWindowMs);
    var maxFallback := ParsePositiveInt(envMax, DefaultMax);
    Limiter(
      ResolveLimitValue(options.windowMs, windowFallback),
      ResolveLimitValue(options.max, maxFallback),
      KeyPrefix(options.keyPrefix))
  }

  /** A counter in the store: its value and, once `pexpire` ran, its expiry time. */
  datatype Counter = Counter(count: nat, expiresAtMs: Option<int>)

  /** The key holds a counter that has not expired at `nowMs`. */
  predicate Live(c: Option<Counter>, nowMs: int)
  {
    c.Some? && (c.value.expiresAtMs.None? || c.value.expiresAtMs.value > nowMs)
  }

  /** INCR at `nowMs`: an expired or missing counter starts again from 1. */
  function Incr(c: Option<Counter>, nowMs: int): (r: Counter)
    ensures Live(c, nowMs) ==> r == Counter(c.value.count + 1, c.value.expiresAtMs)
    ensures !Live(c, nowMs) ==> r == Counter(1, None)
  {
    if Live(c, nowMs) then Counter(c.value.count + 1, c.value.expiresAtMs) else Counter(1, None)
  }

  /** One counted hit: INCR, and PEXPIRE when the count is 1. */
  function Hit(c: Option<Counter>, nowMs: int, windowMs: int): (r: Counter)
    ensures r.count >= 1
    ensures r.count == 1 ==> r.expiresAtMs == Some(nowMs + windowMs)
  {
    var n := Incr(c, nowMs);
    if n.count == 1 then n.(expiresAtMs := Some(nowMs + windowMs)) else n
  }

  /** PTTL: the milliseconds left, -1 for a counter without expiry. */
  function Pttl(c: Counter, nowMs: int): (r: int)
    ensures c.expiresAtMs.None? ==> r == -1
    ensures c.expiresAtMs.Some? ==> nowMs + r == c.expiresAtMs.value
    ensures c.expiresAtMs.Some? ==> (r > 0 <==> Live(Some(c), nowMs))
  {
    if c.expiresAtMs.None? then -1 else c.expiresAtMs.value - nowMs
  }

  /** Math.ceil(a / b) for a positive b. */
  function CeilDiv(a: int, b: int): (q: int)
    requires b > 0
    ensures (q - 1) * b < a <= q * b
  {
    -((-a) / b)
  }

  /** Where a store call can fail. */
  datatype Fault = NoFault | IncrFails | PexpireFails | PttlFails

  datatype RateHeaders = RateHeaders(limit: int, remaining: int)

  /** The outcome: `next()` (with the headers that were set), or a 429 with
      Retry-After and X-RateLimit-Reset in seconds when a ttl is known. */
  datatype Response =
    | Passed(headers: Option<RateHeaders>)
    | TooManyRequests(limitHeaders: RateHeaders, retryAfterSec: Option<int>, resetSec: Option<int>)

  /** X-RateLimit-Remaining: max(0, max - count). */
  function Remaining(max: int, count: int): (r: int)
    ensures r >= 0 && (count <= max ==> r == max - count) && (count >= max ==> r == 0)
  {
    if max - count > 0 then max - count else 0
  }

  /** The fault-free decision at a count: admitted iff the count is at most max. */
  function Decide(l: Limiter, c: Counter, nowMs: int): (r: Response)
    ensures r.TooManyRequests? <==> c.count > l.max
    ensures r.Passed? ==> r.headers == Some(RateHeaders(l.max, Remaining(l.max, c.count)))
    ensures r.TooManyRequests? ==> r.limitHeaders == RateHeaders(l.max, 0)
    ensures r.TooManyRequests? ==> (r.retryAfterSec.Some? <==> Pttl(c, nowMs) > 0)
    ensures r.TooManyRequests? && r.retryAfterSec.Some? ==>
              (r.retryAfterSec.value - 1) * 1000 < Pttl(c, nowMs) <= r.retryAfterSec.value * 1000
    ensures r.TooManyRequests? ==> (r.resetSec.Some? <==> Pttl(c, nowMs) > 0)
    ensures r.TooManyRequests? && r.resetSec.Some? ==>
              (r.resetSec.value - 1) * 1000 < nowMs + Pttl(c, nowMs) <= r.resetSec.value * 1000
  {
    var headers := RateHeaders(l.max, Remaining(l.max, c.count));
    if c.count > l.max then
      var ttl := Pttl(c, nowMs);
      if ttl > 0 then TooManyRequests(headers, Some(CeilDiv(ttl, 1000)), Some(CeilDiv(nowMs + ttl, 1000)))
      else TooManyRequests(headers, None, None)
    else Passed(Some(headers))
  }

  /** The counter after `k` hits of one key at the times `ts`. */
  function Hits(c: Option<Counter>, ts: seq<int>, windowMs: int): (r: Option<Counter>)
    ensures ts == [] ==> r == c
    ensures ts != [] ==> r.Some?
  {
    if ts == [] then c else Some(Hit(Hits(c, ts[..|ts| - 1], windowMs), ts[|ts| - 1], windowMs))
  }

  /** Within one window, opened by the first hit at ts[0], the k-th hit
      counts k and the expiry stays at ts[0] + windowMs. */
  lemma {:induction false} HitsWithinWindow(c: Option<Counter>, ts: seq<int>, windowMs: int)
    requires windowMs > 0 && |ts| > 0
    requires !Live(c, ts[0])
    requires forall i :: 0 <= i < |ts| ==> ts[0] <= ts[i] < ts[0] + windowMs
    ensures Hits(c, ts, windowMs) == Some(Counter(|ts|, Some(ts[0] + windowMs)))
  {
    if |ts| > 1 {
      var init := ts[..|ts| - 1];
      HitsWithinWindow(c, init, windowMs);
      assert Live(Hits(c, init, windowMs), ts[|ts| - 1]);
    }
  }

  /** Exactly `max` requests of one client and route are admitted per
      window: the k-th is admitted iff k <= max. */
  lemma ExactlyMaxPerWindow(l: Limiter, c: Option<Counter>, ts: seq<int>)
    requires l.windowMs > 0 && |ts| > 0
    requires !Live(c, ts[0])
    requires forall i :: 0 <= i < |ts| ==> ts[0] <= ts[i] < ts[0] + l.windowMs
    ensures Decide(l, Hits(c, ts, l.windowMs).value, ts[|ts| - 1]).Passed? <==> |ts| <= l.max
  {
    HitsWithinWindow(c, ts, l.windowMs);
  }

  /** Once the window's expiry has passed, the next hit opens a new window. */
  lemma WindowResets(c: Counter, nowMs: int, windowMs: int)
    requires c.expiresAtMs.Some? && nowMs >= c.expiresAtMs.value
    ensures Hit(Some(c), nowMs, windowMs) == Counter(1, Some(nowMs + windowMs))
  {
  }

  /** The store: counters by key, and whether the client connection is open. */
  class RateStore {
    var counters: map<string, Counter>
    var isOpen: bool

    constructor (isOpen: bool)
      ensures counters == map[] && this.isOpen == isOpen
    {
      counters := map[];
      this.isOpen := isOpen;
    }

    function Lookup(key: string): Option<Counter>
      reads this
    {
      if key in counters then Some(counters[key]) else None
    }

    /** The middleware handling one request at `nowMs`. */
    method Handle(l: Limiter, req: Request, nowMs: int, fault: Fault) returns (response: Response)
      modifies this
      ensures isOpen == old(isOpen)
      ensures req.httpMethod == "OPTIONS" || !isOpen ==> response == Passed(None) && counters == old(counters)
      ensures req.httpMethod != "OPTIONS" && isOpen ==>
                var key := RedisKey(l.prefix, req);
                var found := if key in old(counters) then Some(old(counters)[key]) else None;
                var counted := Hit(found, nowMs, l.windowMs);
                && (fault == IncrFails ==> response == Passed(None) && counters == old(counters))
                && (fault == PexpireFails && Incr(found, nowMs).count == 1 ==>
                      response == Passed(None) && counters == old(counters)[key := Incr(found, nowMs)])
                && (fault == PttlFails && counted.count > l.max ==>
                      response == Passed(Some(RateHeaders(l.max, 0))) && counters == old(counters)[key := counted])
                && ((fault == NoFault || (fault == PexpireFails && Incr(found, nowMs).count != 1)
                     || (fault == PttlFails && counted.count <= l.max)) ==>
                      response == Decide(l, counted, nowMs) && counters == old(counters)[key := counted])
    {
      if req.httpMethod == "OPTIONS" {
        return Passed(None);
      }
      if !isOpen {
        return Passed(None);
      }
      var key := RedisKey(l.prefix, req);
      if fault == IncrFails {
        return Passed(None);
      }
      var current := Incr(Lookup(key), nowMs);
      counters := counters[key := current];
      if current.count == 1 {
        if fault == PexpireFails {
          return Passed(None);
        }
        current := current.(expiresAtMs := Some(nowMs + l.windowMs));
        counters := counters[key := current];
      }
      var remaining := Remaining(l.max, current.count);
      var headers := RateHeaders(l.max, remaining);
      if current.count > l.max {
        if fault == PttlFails {
          return Passed(Some(headers));
        }
        var ttl := Pttl(current, nowMs);
        if ttl > 0 {
          return TooManyRequests(headers, Some(CeilDiv(ttl, 1000)), Some(CeilDiv(nowMs + ttl, 1000)));
        }
        return TooManyRequests(headers, None, None);
      }
      response := Passed(Some(headers));
    }
  }

  /** A failed PEXPIRE on the first hit leaves a counter that never expires:
      once it passes max, every later request of that key is refused, with
      no Retry-After. */
  lemma {:induction false} LostExpiryNeverResets(l: Limiter, count: nat, nowMs: int)
    requires l.max > 0 && count >= l.max
    ensures var after := Hit(Some(Counter(count, None)), nowMs, l.windowMs);
            after == Counter(count + 1, None)
            && Decide(l, after, nowMs) == TooManyRequests(RateHeaders(l.max, 0), None, None)
  {
  }
}
