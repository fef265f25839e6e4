/**
 * One proxy endpoint (lib/httpproxy.js): its validated identity, its per-target
 * usage map, and the two static checks, validateProxy and validateTarget.
 */
module ProxyEntry {
  import opened Results

  /**
   * The third-party checks the library calls: is-ip's `v4` and its default
   * export, is-valid-domain and valid-url's `isUri`. Their grammars are not
   * part of this model; every operation takes them as given functions.
   */
  datatype Validators = Validators(
    isIpV4: string -> bool,
    isIp: string -> bool,
    isDomain: string -> bool,
    isUri: string -> bool)

  /**
   * A port value as JavaScript sees it: an integral number, NaN (what parseInt
   * yields for text without leading digits), or a string not yet parsed.
   */
  datatype JsPort = Num(n: int) | NaN | Text(s: string)

  datatype Protocol = Http | Https

  /** A usage date handed to `use`: none (use the clock), a Date object, or any other value. */
  datatype DateArg = NoDate | DateValue(time: int) | NotADate

  function ProtocolName(p: Protocol): string {
    match p
    case Http => "http"
    case Https => "https"
  }

  // ---------------------------------------------------------------------------
  // parseInt on ports

  predicate IsDigit(c: char) {
    '0' <= c <= '9'
  }

  /** Length of the longest prefix of `s` made of decimal digits. */
  function LeadingDigits(s: string): (k: nat)
    ensures k <= |s|
    ensures forall i :: 0 <= i < k ==> IsDigit(s[i])
    ensures k < |s| ==> !IsDigit(s[k])
  {
    if s == [] || !IsDigit(s[0]) then 0 else 1 + LeadingDigits(s[1..])
  }

  function DigitValue(c: char): nat
    requires IsDigit(c)
  {
    c as int - '0' as int
  }

  /** The value of a string of decimal digits, most significant digit first. */
  function DigitsValue(s: string): nat
    requires forall i :: 0 <= i < |s| ==> IsDigit(s[i])
  {
    if s == [] then 0 else DigitsValue(s[..|s| - 1]) * 10 + DigitValue(s[|s| - 1])
  }

  /**
   * parseInt as applied to a port: a number is kept, a string is read up to
   * its first non-digit, and a string that does not start with a digit is NaN.
   */
  function ParseInt(p: JsPort): (r: JsPort)
    ensures !r.Text?
    ensures p.Num? ==> r == p
    ensures p.NaN? ==> r == NaN
    ensures p.Text? ==> (r.Num? <==> p.s != [] && IsDigit(p.s[0]))
    ensures p.Text? && r.Num? ==> r.n >= 0
  {
    match p
    case Num(_) => p
    case NaN => NaN
    case Text(s) =>
      var k := LeadingDigits(s);
      if k == 0 then NaN else Num(DigitsValue(s[..k]))
  }

  /** String(n) for a non-negative integer: its decimal digits. */
  function Decimal(n: nat): (s: string)
    decreases n
  {
    if n < 10 then [('0' as int + n) as char]
    else Decimal(n / 10) + [('0' as int + n % 10) as char]
  }

  lemma {:induction false} DecimalIsDigits(n: nat)
    ensures Decimal(n) != []
    ensures forall i :: 0 <= i < |Decimal(n)| ==> IsDigit(Decimal(n)[i])
    decreases n
  {
    if n >= 10 {
      DecimalIsDigits(n / 10);
    }
  }

  lemma {:induction false} DecimalValue(n: nat)
    ensures forall i :: 0 <= i < |Decimal(n)| ==> IsDigit(Decimal(n)[i])
    ensures DigitsValue(Decimal(n)) == n
    decreases n
  {
    DecimalIsDigits(n);
    if n >= 10 {
      DecimalValue(n / 10);
      var s := Decimal(n);
      assert s[..|s| - 1] == Decimal(n / 10);
    }
  }

  /**
   * A port written as a decimal string parses back to the same number, so
   * `add(host, "8080")` and `add(host, 8080)` name the same proxy.
   */
  lemma {:induction false} ParseDecimal(n: nat)
    ensures ParseInt(Text(Decimal(n))) == Num(n)
  {
    DecimalValue(n);
    var s := Decimal(n);
    assert LeadingDigits(s) == |s|;
    assert s[..|s|] == s;
  }

  /**
   * parseInt of a string reads its leading digits and ignores what follows
   * them: `"08080"` and `"8080x"` both give 8080.
   */
  lemma ParseDigitsThenRest(d: string, rest: string)
    requires d != [] && forall i :: 0 <= i < |d| ==> IsDigit(d[i])
    requires rest == [] || !IsDigit(rest[0])
    ensures ParseInt(Text(d + rest)) == Num(DigitsValue(d))
  {
    var s := d + rest;
    assert forall i :: 0 <= i < |d| ==> s[i] == d[i];
    assert |d| < |s| ==> s[|d|] == rest[0];
    assert LeadingDigits(s) == |d|;
    assert s[..|d|] == d;
  }

  /** The constructor parses the port that `Cycler.add` has already parsed; the second parse changes nothing. */
  lemma ParseIntIdempotent(p: JsPort)
    ensures ParseInt(ParseInt(p)) == ParseInt(p)
  {
  }

  // ---------------------------------------------------------------------------
  // validateProxy

  /**
   * validateProxy(host, port, protocol): rejects an empty host, a falsy port
   * (0 or NaN), a host that is neither an IPv4 address nor a domain, and a
   * protocol other than "http" or "https". There is no upper bound on the port.
   * Its only caller passes the output of parseInt, so the port is never text.
   * On success it gives the port and protocol the constructor stores.
   */
  function ValidateProxy(v: Validators, host: string, port: JsPort, protocol: Option<string>): (r: Result<(int, Protocol)>)
    requires !port.Text?
    ensures r.Ok? <==>
      && host != []
      && port.Num? && port.n != 0
      && (v.isIpV4(host) || v.isDomain(host))
      && (protocol == Some("http") || protocol == Some("https"))
    ensures r.Ok? ==> port == Num(r.value.0) && protocol == Some(ProtocolName(r.value.1))
    ensures r.Err? ==> r.error == InvalidProxy
  {
    if host == [] || !port.Num? || port.n == 0 || (!v.isIpV4(host) && !v.isDomain(host))
       || (protocol != Some("http") && protocol != Some("https"))
    then Err(InvalidProxy)
    else Ok((port.n, if protocol == Some("http") then Http else Https))
  }

  // ---------------------------------------------------------------------------
  // validateTarget

  /** The ASCII lower-case of `c`, as a case-insensitive regular expression compares it. */
  function Lower(c: char): char {
    if 'A' <= c <= 'Z' then (c as int + 32) as char else c
  }

  /** `s` starts with `prefix` (written in lower case) ignoring ASCII case. */
  predicate StartsWithIgnoringCase(s: string, prefix: string) {
    |prefix| <= |s| && forall i :: 0 <= i < |prefix| ==> Lower(s[i]) == prefix[i]
  }

  /** `r` occurs somewhere in `t` as a contiguous slice. */
  ghost predicate IsInfix(r: string, t: string) {
    exists k :: 0 <= k <= |t| && r <= t[k..]
  }

  /** The optional `https?://` part of the target pattern, matched ignoring case. */
  function StripScheme(s: string): (r: string)
    ensures |r| <= |s| && r == s[|s| - |r|..]
    ensures |s| - |r| == 8 <==> StartsWithIgnoringCase(s, "https://")
    ensures |s| - |r| == 7 <==> StartsWithIgnoringCase(s, "http://")
    ensures |s| - |r| in {0, 7, 8}
  {
    if StartsWithIgnoringCase(s, "https://") then
      assert Lower(s[4]) == 's';
      s[8..]
    else if StartsWithIgnoringCase(s, "http://") then s[7..]
    else s
  }

  /** The optional `www.` part of the target pattern, matched ignoring case. */
  function StripWww(s: string): (r: string)
    ensures |r| <= |s| && r == s[|s| - |r|..]
    ensures |s| - |r| == 4 <==> StartsWithIgnoringCase(s, "www.")
    ensures |s| - |r| in {0, 4}
  {
    if StartsWithIgnoringCase(s, "www.") then s[4..] else s
  }

  /** `s.split('/')[0]`: everything before the first slash. */
  function BeforeSlash(s: string): (r: string)
    ensures r <= s
    ensures '/' !in r
    ensures |r| < |s| ==> s[|r|] == '/'
  {
    if s == [] || s[0] == '/' then [] else [s[0]] + BeforeSlash(s[1..])
  }

  /** The key a URI target is recorded under: scheme and `www.` dropped, cut at the first slash. */
  function UriKey(s: string): (r: string)
    ensures '/' !in r
    ensures IsInfix(r, s)
  {
    var a := StripScheme(s);
    var b := StripWww(a);
    var r := BeforeSlash(b);
    assert r <= s[|s| - |b|..];
    r
  }

  /**
   * validateTarget(target): a missing target, or one that is neither a URI
   * nor an IP address, is rejected; an IP that is not a URI is its own key; a
   * URI is reduced to its UriKey.
   */
  function ValidateTarget(v: Validators, target: Option<string>): (r: Result<string>)
    ensures r.Err? <==> target.None? || (!v.isUri(target.value) && !v.isIp(target.value))
    ensures r.Err? ==> r.error == InvalidTarget
    ensures r.Ok? && !v.isUri(target.value) ==> r.value == target.value
    ensures r.Ok? && v.isUri(target.value) ==> r.value == UriKey(target.value)
    ensures r.Ok? ==> '/' !in r.value || r.value == target.value
  {
    match target
    case None => Err(InvalidTarget)
    case Some(t) =>
      if !v.isUri(t) && !v.isIp(t) then Err(InvalidTarget)
      else if v.isUri(t) then Ok(UriKey(t))
      else Ok(t)
  }

  /** A prefix the pattern `^(?:https?:\/\/)` removes: `http://` or `https://` in any case. */
  predicate IsHttpScheme(p: string) {
    (|p| == 7 && StartsWithIgnoringCase(p, "http://")) || (|p| == 8 && StartsWithIgnoringCase(p, "https://"))
  }

  /** What `(?:www\.)?` may remove: nothing, or `www.` in any case. */
  predicate IsWwwPart(w: string) {
    w == [] || (|w| == 4 && StartsWithIgnoringCase(w, "www."))
  }

  lemma {:induction false} BeforeSlashStopsAtSlash(host: string, rest: string)
    requires '/' !in host
    requires rest == [] || rest[0] == '/'
    ensures BeforeSlash(host + rest) == host
  {
    if host != [] {
      assert host[0] != '/';
      assert (host + rest)[1..] == host[1..] + rest;
      BeforeSlashStopsAtSlash(host[1..], rest);
    }
  }

  /**
   * The key of an http(s) URL is its host: the scheme and a leading `www.`
   * are dropped whatever their case, and so is everything from the first
   * slash on. For example `http://www.example.com/path` has key `example.com`.
   */
  lemma {:induction false} UriKeyIsHost(scheme: string, www: string, host: string, rest: string)
    requires IsHttpScheme(scheme) && IsWwwPart(www)
    requires '/' !in host
    requires rest == [] || rest[0] == '/'
    requires www == [] ==> !StartsWithIgnoringCase(host + rest, "www.")
    ensures UriKey(scheme + www + host + rest) == host
  {
    var s := scheme + www + host + rest;
    assert s == scheme + (www + host + rest);
    var tail := www + host + rest;
    if |scheme| == 7 {
      assert s[4] == ':';
      assert !StartsWithIgnoringCase(s, "https://");
      assert StartsWithIgnoringCase(s, "http://") by {
        forall i | 0 <= i < 7 ensures Lower(s[i]) == "http://"[i] {
          assert s[i] == scheme[i];
        }
      }
    } else {
      assert StartsWithIgnoringCase(s, "https://") by {
        forall i | 0 <= i < 8 ensures Lower(s[i]) == "https://"[i] {
          assert s[i] == scheme[i];
        }
      }
    }
    assert StripScheme(s) == tail;
    assert tail == www + (host + rest);
    if www != [] {
      assert StartsWithIgnoringCase(tail, "www.") by {
        forall i | 0 <= i < 4 ensures Lower(tail[i]) == "www."[i] {
          assert tail[i] == www[i];
        }
      }
      assert StripWww(tail) == host + rest;
    } else {
      assert tail == host + rest;
    }
    BeforeSlashStopsAtSlash(host, rest);
  }

  /** An example: `http://www.example.com/path` is recorded under `example.com`. */
  lemma ExampleTargetKey(v: Validators, target: string)
    requires target == "http://www.example.com/path" && v.isUri(target)
    ensures ValidateTarget(v, Some(target)) == Ok("example.com")
  {
    var scheme, www, host, rest := "http://", "www.", "example.com", "/path";
    assert target == scheme + www + host + rest;
    assert IsHttpScheme(scheme) by {
      assert StartsWithIgnoringCase(scheme, "http://");
    }
    assert IsWwwPart(www) by {
      assert StartsWithIgnoringCase(www, "www.");
    }
    assert '/' !in host by {
      forall i | 0 <= i < |host| ensures host[i] != '/' { }
    }
    UriKeyIsHost(scheme, www, host, rest);
  }

  /**
   * Normalising a key can change it again: with `www.` written twice, each
   * pass drops one, so `http://www.www.a` has the key `www.a`, whose own key is `a`.
   */
  lemma {:induction false} KeyOfKeyDropsAnotherWww(scheme: string, www1: string, www2: string, host: string)
    requires IsHttpScheme(scheme) && IsWwwPart(www1) && IsWwwPart(www2) && www1 != [] && www2 != []
    requires '/' !in host
    ensures UriKey(scheme + www1 + www2 + host) == www2 + host
    ensures UriKey(www2 + host) == host
    ensures UriKey(UriKey(scheme + www1 + www2 + host)) != UriKey(scheme + www1 + www2 + host)
  {
    var t := www2 + host;
    assert '/' !in t by {
      forall i | 0 <= i < |t| ensures t[i] != '/' {
        if i < 4 {
          assert Lower(t[i]) == "www."[i];
        } else {
          assert t[i] == host[i - 4];
        }
      }
    }
    assert scheme + www1 + www2 + host == scheme + www1 + t + [];
    UriKeyIsHost(scheme, www1, t, []);
    assert Lower(t[0]) == 'w';
    assert !StartsWithIgnoringCase(t, "https://") by {
      assert "https://"[0] == 'h';
    }
    assert !StartsWithIgnoringCase(t, "http://") by {
      assert "http://"[0] == 'h';
    }
    assert StripScheme(t) == t;
    assert StartsWithIgnoringCase(t, "www.") by {
      forall i | 0 <= i < 4 ensures Lower(t[i]) == "www."[i] {
        assert t[i] == www2[i];
      }
    }
    assert t[4..] == host;
    BeforeSlashStopsAtSlash(host, []);
    assert host + [] == host;
  }

  // ---------------------------------------------------------------------------
  // dates

  /**
   * The date check of `use` as written: it throws exactly when it IS given a
   * Date. Whenever a date is supplied, it accepts exactly what the documented
   * rule rejects.
   */
  function AcceptsDateAsWritten(date: DateArg): (ok: bool)
    ensures date.NoDate? ==> ok
    ensures !date.NoDate? ==> (ok <==> ResolveDate(date, 0).Err?)
  {
    !(date.DateValue?)
  }

  /**
   * The date check as its documentation describes it: no date means the
   * clock's `now`, a Date is used as given, any other value is rejected.
   */
  function ResolveDate(date: DateArg, now: int): (r: Result<int>)
    ensures r.Err? <==> date.NotADate?
    ensures r.Err? ==> r.error == InvalidDate
    ensures date.NoDate? ==> r == Ok(now)
    ensures date.DateValue? ==> r == Ok(date.time)
  {
    match date
    case NoDate => Ok(now)
    case DateValue(t) => Ok(t)
    case NotADate => Err(InvalidDate)
  }

  /**
   * The check as written rejects every Date and lets a non-Date through,
   * the opposite of ResolveDate on both inputs.
   */
  lemma DateCheckInverted(t: int, now: int)
    ensures !AcceptsDateAsWritten(DateValue(t)) && ResolveDate(DateValue(t), now) == Ok(t)
    ensures AcceptsDateAsWritten(NotADate) && ResolveDate(NotADate, now).Err?
  {
  }

  /**
   * What `use(target, date)` does to a usage map: the target's key is set to
   * the resolved date, overwriting an earlier one, and every other key keeps
   * its date. An invalid target is reported before the date is looked at.
   */
  function RecordUse(v: Validators, used: map<string, int>, target: Option<string>, date: DateArg, now: int)
    : (r: Result<map<string, int>>)
    ensures r.Err? <==> ValidateTarget(v, target).Err? || date.NotADate?
    ensures r.Err? ==> r.error == if ValidateTarget(v, target).Err? then InvalidTarget else InvalidDate
    ensures r.Ok? ==>
      var key := ValidateTarget(v, target).value;
      && r.value.Keys == used.Keys + {key}
      && r.value[key] == (if date.NoDate? then now else date.time)
      && forall k :: k in used && k != key ==> r.value[k] == used[k]
  {
    match ValidateTarget(v, target)
    case Err(e) => Err(e)
    case Ok(key) =>
      match ResolveDate(date, now)
      case Err(e) => Err(e)
      case Ok(stamp) => Ok(used[key := stamp])
  }

  // ---------------------------------------------------------------------------
  // the entry

  class HttpProxy {
    const host: string
    const port: int
    const protocol: Protocol
    /** Last time of use per normalised target. */
    var used: map<string, int>

    /** The field assignments of the constructor, reached once validation has passed. */
    constructor Init(host: string, port: int, protocol: Protocol)
      ensures this.host == host && this.port == port && this.protocol == protocol
      ensures used == map[]
    {
      this.host := host;
      this.port := port;
      this.protocol := protocol;
      used := map[];
    }

    /**
     * `new HTTPProxy(host, port, protocol)`: parse the port, validate, and
     * build an entry with an empty usage map; a validation failure builds nothing.
     */
    static method Create(v: Validators, host: string, port: JsPort, protocol: Option<string>)
      returns (r: Result<HttpProxy>)
      ensures var c := ValidateProxy(v, host, ParseInt(port), protocol);
        && (c.Err? ==> r == Err(InvalidProxy))
        && (c.Ok? ==> r.Ok? && fresh(r.value) && r.value.used == map[]
                      && r.value.host == host && Num(r.value.port) == ParseInt(port)
                      && Some(ProtocolName(r.value.protocol)) == protocol)
    {
      var portCopy := ParseInt(port);
      var c := ValidateProxy(v, host, portCopy, protocol);
      if c.Err? {
        return Err(c.error);
      }
      var p := new HttpProxy.Init(host, c.value.0, c.value.1);
      return Ok(p);
    }

    /**
     * `use(target, date)`: normalise the target, resolve the date, then record
     * the date under the target's key, overwriting an earlier one. A failure
     * leaves the usage map untouched. On success it returns the entry itself.
     */
    method Use(v: Validators, target: Option<string>, date: DateArg, now: int) returns (r: Result<HttpProxy>)
      modifies this
      ensures var rec := RecordUse(v, old(used), target, date, now);
        && (rec.Err? ==> r == Err(rec.error) && used == old(used))
        && (rec.Ok? ==> r == Ok(this) && used == rec.value)
    {
      var targetCopy := ValidateTarget(v, target);
      if targetCopy.Err? {
        return Err(targetCopy.error);
      }
      var stamp := ResolveDate(date, now);
      if stamp.Err? {
        return Err(stamp.error);
      }
      used := used[targetCopy.value := stamp.value];
      return Ok(this);
    }
  }
}
