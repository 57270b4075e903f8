/** Matching search targets, and putting an IP address into a URL. */
module Targets {
  import opened Machine

  // ---- strings ----

  /** The position of the first occurrence of `c`, as `str::find`. */
  function Find(s: string, c: char): (r: Option<nat>)
    ensures r.None? ==> c !in s
    ensures r.Some? ==> r.value < |s| && s[r.value] == c && c !in s[..r.value]
  {
    if s == "" then None
    else if s[0] == c then Some(0)
    else
      match Find(s[1..], c)
      case None => None
      case Some(i) => assert s[..i + 1] == [s[0]] + s[1..][..i]; Some(i + 1)
  }

  /** The position of the last occurrence of `c`, for `rsplit_once`. */
  function FindLast(s: string, c: char): (r: Option<nat>)
    ensures r.None? ==> c !in s
    ensures r.Some? ==> r.value < |s| && s[r.value] == c && c !in s[r.value + 1..]
  {
    if s == "" then None
    else if s[|s| - 1] == c then Some(|s| - 1)
    else
      match FindLast(s[..|s| - 1], c)
      case None => None
      case Some(i) => assert s[i + 1..] == s[..|s| - 1][i + 1..] + [s[|s| - 1]]; Some(i)
  }

  predicate Occurs(s: string, pattern: string, i: nat) {
    i + |pattern| <= |s| && s[i..i + |pattern|] == pattern
  }

  /** The first occurrence of `pattern` at or after `i`, as `str::find`. */
  function FindText(s: string, pattern: string, i: nat): (r: Option<nat>)
    requires i <= |s|
    ensures r.None? ==> forall k :: i <= k ==> !Occurs(s, pattern, k)
    ensures r.Some? ==> i <= r.value && Occurs(s, pattern, r.value)
                        && forall k :: i <= k < r.value ==> !Occurs(s, pattern, k)
    decreases |s| - i
  {
    if Occurs(s, pattern, i) then Some(i)
    else if i == |s| then None
    else FindText(s, pattern, i + 1)
  }

  // ---- numbers ----

  /** That of a 64-bit `usize`; nothing proved here depends on it. */
  const USIZE_LIMIT: nat := 0x1_0000_0000_0000_0000

  predicate IsDigit(c: char) {
    '0' <= c <= '9'
  }

  function DigitValue(c: char): nat
    requires IsDigit(c)
  {
    c as int - 48
  }

  predicate AllDigits(s: string) {
    forall c :: c in s ==> IsDigit(c)
  }

  function Digits(s: string): nat
    requires AllDigits(s)
  {
    if s == "" then 0 else assert s[|s| - 1] in s; Digits(s[..|s| - 1]) * 10 + DigitValue(s[|s| - 1])
  }

  /** `str::parse` for an unsigned type: digits, perhaps after a plus sign, below the limit. */
  function ParseUnsigned(s: string, limit: nat): Option<nat> {
    var digits := if s != "" && s[0] == '+' then s[1..] else s;
    if digits != "" && AllDigits(digits) && Digits(digits) < limit
    then Some(Digits(digits)) else None
  }

  // ---- target_match ----

  /** Base and version of a versioned type: what is before and after the last colon. */
  function Version(s: string): Option<(string, nat)> {
    match FindLast(s, ':')
    case None => None
    case Some(i) =>
      match ParseUnsigned(s[i + 1..], USIZE_LIMIT)
      case None => None
      case Some(n) => Some((s[..i], n))
  }

  predicate TargetMatch(search: string, candidate: string) {
    if search == "ssdp:all" then true
    else if search == candidate then true
    else
      match FindLast(search, ':')
      case None => false
      case Some(i) =>
        match FindLast(candidate, ':')
        case None => false
        case Some(j) =>
          if search[..i] != candidate[..j] then false
          else
            match ParseUnsigned(search[i + 1..], USIZE_LIMIT)
            case None => false
            case Some(sversion) =>
              match ParseUnsigned(candidate[j + 1..], USIZE_LIMIT)
              case None => false
              case Some(cversion) => cversion >= sversion
  }

  /** UPnP Device Architecture 1.0 section 1.2.3: a search is met by itself and by every
    * later version of the same type; "ssdp:all" by everything.
    */
  lemma TargetMatchMeans(search: string, candidate: string)
    ensures TargetMatch(search, candidate) <==>
      || search == "ssdp:all"
      || search == candidate
      || (Version(search).Some? && Version(candidate).Some?
          && Version(search).value.0 == Version(candidate).value.0
          && Version(search).value.1 <= Version(candidate).value.1)
  {
  }

  lemma FindLastIs(s: string, c: char, i: nat)
    requires i < |s| && s[i] == c && c !in s[i + 1..]
    ensures FindLast(s, c) == Some(i)
  {
    var j := FindLast(s, c);
    assert s[i] in s;
    assert forall k :: i < k < |s| ==> s[i + 1..][k - i - 1] == s[k];
    assert forall k :: j.value < k < |s| ==> s[j.value + 1..][k - j.value - 1] == s[k];
  }

  /** The version of a type is the number after its last colon, whatever colons are before. */
  lemma VersionIs(base: string, version: string)
    requires ':' !in version
    ensures Version(base + ":" + version) ==
      match ParseUnsigned(version, USIZE_LIMIT)
      case None => None
      case Some(n) => Some((base, n))
    ensures Version(version) == None
  {
    var s := base + ":" + version;
    hide ParseUnsigned;
    assert s[..|base|] == base && s[|base|] == ':' && s[|base| + 1..] == version;
    FindLastIs(s, ':', |base|);
  }

  /** "ssdp:all" is no version of anything, so only itself and "ssdp:all" accept it. */
  lemma AllHasNoVersion()
    ensures Version("ssdp:all").None?
  {
    var s := "ssdp:all";
    assert forall k :: 0 <= k < |s| && s[k] == ':' ==> k == 4;
    assert FindLast(s, ':') == Some(4) by {
      assert s[4] in s;
    }
    assert s[5..] == "all" && !IsDigit("all"[0]) && "all"[0] in "all";
  }

  /** Acceptance is a preorder: what a search accepts, every search that accepts it
    * accepts too. So a search for "ssdp:all" stands in for any other.
    */
  lemma TargetMatchPreorder(a: string, b: string, c: string)
    ensures TargetMatch(a, a)
    ensures TargetMatch("ssdp:all", a)
    ensures TargetMatch(a, b) && TargetMatch(b, c) ==> TargetMatch(a, c)
  {
    TargetMatchMeans(a, b);
    TargetMatchMeans(b, c);
    TargetMatchMeans(a, c);
    AllHasNoVersion();
  }

  // ---- rewrite_host ----

  /** Neither a port separator nor a path separator: true of any IPv4 address as text. */
  predicate PlainHost(ip: string) {
    ':' !in ip && '/' !in ip
  }

  function RewriteHost(url: string, ip: string): string {
    match FindText(url, "://", 0)
    case None => url
    case Some(prefix) =>
      var scheme, rest := url[..prefix + 3], url[prefix + 3..];
      match Find(rest, '/')
      case None => scheme + ip
      case Some(slash) =>
        match Find(rest, ':')
        case Some(colon) =>
          if colon < slash then scheme + ip + rest[colon..] else scheme + ip + rest[slash..]
        case None => scheme + ip + rest[slash..]
  }

  /** How far the plain host at the start of `rest` goes: up to the first colon or slash. */
  ghost function HostLength(rest: string): (n: nat)
    ensures n <= |rest| && PlainHost(rest[..n])
    ensures n < |rest| ==> rest[n] == ':' || rest[n] == '/'
  {
    if rest == "" || rest[0] == ':' || rest[0] == '/' then 0
    else
      var n := 1 + HostLength(rest[1..]);
      assert rest[..n] == [rest[0]] + rest[1..][..n - 1];
      n
  }

  lemma {:induction false} HostLengthIs(rest: string, n: nat)
    requires n < |rest| && PlainHost(rest[..n]) && (rest[n] == ':' || rest[n] == '/')
    ensures HostLength(rest) == n
  {
    if n > 0 {
      assert rest[0] == rest[..n][0] && rest[1..][..n - 1] == rest[..n][1..];
      HostLengthIs(rest[1..], n - 1);
    }
  }

  /** What should be kept of the text after "scheme://": what follows the host, if there is a
    * slash in it, and nothing otherwise.
    */
  ghost function Kept(rest: string): string {
    if '/' in rest then rest[HostLength(rest)..] else ""
  }

  lemma FindIs(s: string, c: char, i: nat)
    requires i < |s| && s[i] == c && c !in s[..i]
    ensures Find(s, c) == Some(i)
  {
    var j := Find(s, c);
    assert s[i] in s;
    assert forall k :: 0 <= k < i ==> s[..i][k] == s[k];
    assert forall k :: 0 <= k < j.value ==> s[..j.value][k] == s[k];
  }

  /** Rewriting the same text with a scheme of the same length finds the same "://". */
  lemma SchemeStays(url: string, url': string, prefix: nat)
    requires FindText(url, "://", 0) == Some(prefix)
    requires prefix + 3 <= |url'| && url'[..prefix + 3] == url[..prefix + 3]
    ensures FindText(url', "://", 0) == Some(prefix)
  {
    forall k | 0 <= k <= prefix
      ensures Occurs(url', "://", k) == Occurs(url, "://", k)
    {
      assert url[k..k + 3] == url[..prefix + 3][k..k + 3];
      assert url'[k..k + 3] == url'[..prefix + 3][k..k + 3];
    }
  }

  /** When a slash follows the scheme, the text up to the first colon or slash goes and the
    * rest is kept, byte for byte: the port and path of an ordinary host, but of an IPv6
    * literal everything from the first colon inside its brackets on. With no slash,
    * whatever follows the scheme goes, a port number included.
    */
  lemma RewriteKeepsRest(url: string, ip: string)
    ensures match FindText(url, "://", 0)
      case None => RewriteHost(url, ip) == url
      case Some(prefix) =>
        var scheme, rest := url[..prefix + 3], url[prefix + 3..];
        RewriteHost(url, ip) == scheme + ip + Kept(rest)
  {
    var found := FindText(url, "://", 0);
    if found.Some? {
      var rest := url[found.value + 3..];
      var slash, colon := Find(rest, '/'), Find(rest, ':');
      if slash.Some? {
        var n := if colon.Some? && colon.value < slash.value then colon.value else slash.value;
        assert forall k :: 0 <= k < n ==> rest[..n][k] == rest[..slash.value][k];
        if colon.Some? {
          assert forall k :: 0 <= k < n ==> rest[..n][k] == rest[..colon.value][k];
        }
        HostLengthIs(rest, n);
      }
    }
  }

  /** Put any plain host before what was kept, and the same is kept again. */
  lemma KeptAgain(rest: string, ip: string)
    requires PlainHost(ip)
    ensures Kept(ip + Kept(rest)) == Kept(rest)
  {
    var tail := Kept(rest);
    if '/' in rest {
      var n := HostLength(rest);
      var slash :| 0 <= slash < |rest| && rest[slash] == '/';
      assert forall k :: 0 <= k < n ==> rest[..n][k] == rest[k];
      assert tail[slash - n] == '/' && (ip + tail)[|ip| + slash - n] == '/';
      assert (ip + tail)[..|ip|] == ip;
      HostLengthIs(ip + tail, |ip|);
    }
  }

  // ---- IP addresses ----

  datatype Ip = V4(a: u8, b: u8, c: u8, d: u8) | V6(text: string)

  function Digit(n: nat): char
    requires n < 10
  {
    "0123456789"[n]
  }

  function Decimal(n: nat): string {
    if n < 10 then [Digit(n)] else Decimal(n / 10) + [Digit(n % 10)]
  }

  function IpText(ip: Ip): string {
    match ip
    case V4(a, b, c, d) => Decimal(a) + "." + Decimal(b) + "." + Decimal(c) + "." + Decimal(d)
    case V6(text) => text
  }

  lemma {:induction false} DecimalPlain(n: nat)
    ensures AllDigits(Decimal(n))
  {
    if n >= 10 {
      DecimalPlain(n / 10);
    }
  }

  /** Numbers written are read back, unless they are out of range, and a plus sign before one
    * makes no difference.
    */
  lemma DecimalReads(n: nat, limit: nat)
    ensures ParseUnsigned(Decimal(n), limit) == if n < limit then Some(n) else None
    ensures ParseUnsigned("+" + Decimal(n), limit) == if n < limit then Some(n) else None
  {
    DecimalPlain(n);
    DigitsDecimal(n);
    hide Digits;
    assert Decimal(n)[0] in Decimal(n);
    assert ("+" + Decimal(n))[1..] == Decimal(n);
  }

  lemma {:induction false} DigitsDecimal(n: nat)
    ensures Decimal(n) != "" && AllDigits(Decimal(n)) && Digits(Decimal(n)) == n
  {
    DecimalPlain(n);
    if n >= 10 {
      DigitsDecimal(n / 10);
      assert Decimal(n)[..|Decimal(n)| - 1] == Decimal(n / 10);
    }
  }

  lemma DigitsEnd(s: string, c: char)
    requires AllDigits(s + [c])
    ensures AllDigits(s) && IsDigit(c) && Digits(s + [c]) == Digits(s) * 10 + DigitValue(c)
  {
    assert (s + [c])[..|s|] == s && (s + [c])[|s|] == c;
    assert c in s + [c];
    assert forall d :: d in s ==> d in s + [c];
  }

  /** The other way round: with no leading zero there is only one way to write a number. */
  lemma {:induction false} DecimalDigits(s: string)
    requires s != "" && AllDigits(s) && (|s| > 1 ==> s[0] != '0')
    ensures Decimal(Digits(s)) == s && (s[0] != '0' ==> Digits(s) > 0)
  {
    var init, last := s[..|s| - 1], s[|s| - 1];
    assert s == init + [last];
    DigitsEnd(init, last);
    hide AllDigits;
    if init == "" {
      hide Decimal;
      assert Digits(s) == DigitValue(last);
      OneDigit(last);
    } else {
      DecimalDigits(init);
      var n := Digits(init);
      hide Digits;
      assert n > 0 && Digits(s) / 10 == n && Digits(s) % 10 == DigitValue(last);
      OneDigit(last);
    }
  }

  lemma OneDigit(c: char)
    requires IsDigit(c)
    ensures Digit(DigitValue(c)) == c && Decimal(DigitValue(c)) == [c]
  {
  }

  ghost function PowerOfTen(n: nat): nat {
    if n == 0 then 1 else 10 * PowerOfTen(n - 1)
  }

  /** Each digit counts for its place. */
  lemma {:induction false} DigitsPlaces(s: string, t: string)
    requires AllDigits(s + t)
    ensures AllDigits(s) && AllDigits(t)
    ensures Digits(s + t) == Digits(s) * PowerOfTen(|t|) + Digits(t)
  {
    if t == "" {
      assert s + t == s;
    } else {
      var init, last := t[..|t| - 1], t[|t| - 1];
      assert t == init + [last] && s + t == (s + init) + [last];
      hide AllDigits, Digits, PowerOfTen;
      DigitsEnd(s + init, last);
      DigitsPlaces(s, init);
      AllDigitsConcat(s, t);
      DigitsEnd(init, last);
      Shift(Digits(s), |init|, Digits(init), DigitValue(last));
    }
  }

  lemma AllDigitsConcat(s: string, t: string)
    requires AllDigits(s + t)
    ensures AllDigits(s) && AllDigits(t)
  {
    assert forall c :: c in s ==> c in s + t;
    assert forall c :: c in t ==> c in s + t;
  }

  lemma Shift(a: nat, n: nat, b: nat, d: nat)
    ensures (a * PowerOfTen(n) + b) * 10 + d == a * PowerOfTen(n + 1) + (b * 10 + d)
  {
    var p := PowerOfTen(n);
    assert a * (10 * p) == a * p * 10;
  }

  /** A search for a version of a type is met by that version of it and all later ones, and
    * by no other type.
    */
  lemma LaterVersionsMatch(base: string, n: nat, base': string, n': nat)
    requires n < USIZE_LIMIT && n' < USIZE_LIMIT
    ensures TargetMatch(base + ":" + Decimal(n), base' + ":" + Decimal(n')) <==> base == base' && n <= n'
  {
    var search, candidate := base + ":" + Decimal(n), base' + ":" + Decimal(n');
    DecimalPlain(n);
    DecimalPlain(n');
    DecimalReads(n, USIZE_LIMIT);
    DecimalReads(n', USIZE_LIMIT);
    VersionIs(base, Decimal(n));
    VersionIs(base', Decimal(n'));
    AllHasNoVersion();
    TargetMatchMeans(search, candidate);
    hide Version, TargetMatch, ParseUnsigned, Decimal;
  }

  /** An empty string, a sign alone and anything with another character in it are no numbers. */
  lemma NoNumber(s: string, c: char, t: string, limit: nat)
    requires !IsDigit(c) && (s == "" ==> c != '+')
    ensures ParseUnsigned("", limit) == ParseUnsigned("+", limit) == None
    ensures ParseUnsigned(s + [c] + t, limit) == None
  {
    var all := s + [c] + t;
    assert all[|s|] == c && (s != "" ==> all[1..][|s| - 1] == c);
    assert "+"[1..] == "";
  }

  /** An IPv4 address as text has no separator in it. */
  lemma V4Plain(ip: Ip)
    requires ip.V4?
    ensures PlainHost(IpText(ip))
  {
    DecimalPlain(ip.a);
    DecimalPlain(ip.b);
    DecimalPlain(ip.c);
    DecimalPlain(ip.d);
  }

  // ---- last wins ----

  lemma RewriteAgain(url: string, a: string, b: string)
    requires PlainHost(a)
    ensures RewriteHost(RewriteHost(url, a), b) == RewriteHost(url, b)
  {
    hide RewriteHost, Kept;
    RewriteKeepsRest(url, a);
    RewriteKeepsRest(url, b);
    RewriteKeepsRest(RewriteHost(url, a), b);
    if FindText(url, "://", 0).Some? {
      var prefix := FindText(url, "://", 0).value;
      var scheme, tail := url[..prefix + 3], Kept(url[prefix + 3..]);
      var url' := RewriteHost(url, a);
      assert url' == scheme + (a + tail);
      assert url'[..prefix + 3] == scheme && url'[prefix + 3..] == a + tail;
      SchemeStays(url, url', prefix);
      KeptAgain(url[prefix + 3..], a);
    }
  }

  /** The last address written wins: rewriting with an IPv4 address first makes no difference. */
  lemma RewriteLastWins(url: string, a: Ip, b: Ip)
    requires a.V4?
    ensures RewriteHost(RewriteHost(url, IpText(a)), IpText(b)) == RewriteHost(url, IpText(b))
  {
    V4Plain(a);
    hide RewriteHost, IpText;
    RewriteAgain(url, IpText(a), IpText(b));
  }
}
