/**
 Parsing ss:// share links (internal/generator/tmplctx/sharelink.go): SIP002 with base64 or
 percent-encoded user info, and the legacy form that is base64 throughout.

 The string helpers follow Go's strings.Cut, strings.LastIndexByte, url.QueryUnescape, url.ParseQuery,
 net.SplitHostPort and strconv.Atoi.
 */
module ShareLink {
  import opened Options
  import opened Base64
  import opened Sequences
  import opened Text

  datatype Context = Context(
    protocol: string, cipher: string, password: string, server: string, port: int, remark: string,
    network: string, security: string, rawParams: map<string, string>)

  datatype Error = BadLegacyBase64 | MissingAt | BadUserInfo | BadHostPort | BadPort

  // ---------------------------------------------------------------- string helpers

  /** The index of the first c in s, or |s|. */
  function IndexOf(s: string, c: char): (i: nat)
    ensures i <= |s| && forall k :: 0 <= k < i ==> s[k] != c
    ensures i < |s| ==> s[i] == c
  {
    if s == [] || s[0] == c then 0 else 1 + IndexOf(s[1..], c)
  }

  function Cut(s: string, c: char): Option<(string, string)> {
    var i := IndexOf(s, c);
    if i == |s| then None else Some((s[..i], s[i + 1..]))
  }

  /** The index of the last c in s, or -1. */
  function LastIndexOf(s: string, c: char): (i: int)
    ensures -1 <= i < |s| && forall k :: i < k < |s| ==> s[k] != c
    ensures 0 <= i ==> s[i] == c
  {
    if s == [] then -1
    else if s[|s| - 1] == c then |s| - 1
    else LastIndexOf(s[..|s| - 1], c)
  }

  lemma {:induction false} IndexAt(a: string, c: char, b: string)
    requires c !in a
    ensures IndexOf(a + [c] + b, c) == |a|
  {
    var s := a + [c] + b;
    if a == [] {
      assert s[0] == c;
    } else {
      assert s[0] == a[0] && s[1..] == a[1..] + [c] + b;
      IndexAt(a[1..], c, b);
    }
  }

  lemma CutAt(a: string, c: char, b: string)
    requires c !in a
    ensures Cut(a + [c] + b, c) == Some((a, b))
  {
    var s := a + [c] + b;
    IndexAt(a, c, b);
    assert s[..|a|] == a && s[|a| + 1..] == b;
  }

  lemma CutNothing(s: string, c: char)
    requires c !in s
    ensures Cut(s, c) == None
  {
  }

  lemma {:induction false} LastIndexAt(a: string, c: char, b: string)
    requires c !in b
    ensures LastIndexOf(a + [c] + b, c) == |a|
    decreases |b|
  {
    var s := a + [c] + b;
    if b == [] {
      assert s[|s| - 1] == c;
    } else {
      var init := b[..|b| - 1];
      assert s[..|s| - 1] == a + [c] + init && s[|s| - 1] == b[|b| - 1];
      LastIndexAt(a, c, init);
    }
  }

  /** What the first character or escape of s stands for, and how long it is. */
  function Head(s: string): (h: Option<(char, nat)>)
    requires s != []
    ensures h.Some? ==> 1 <= h.value.1 <= |s|
  {
    if s[0] != '%' then Some((if s[0] == '+' then ' ' else s[0], 1))
    else if |s| < 3 || HexDigit(s[1]) == None || HexDigit(s[2]) == None then None
    else Some(((16 * HexDigit(s[1]).value + HexDigit(s[2]).value) as char, 3))
  }

  function Unescape(s: string): Option<string>
    decreases |s|
  {
    if s == [] then Some([])
    else match Head(s)
      case None => None
      case Some((c, n)) =>
        match Unescape(s[n..])
        case None => None
        case Some(rest) => Some([c] + rest)
  }

  predicate Unreserved(c: char) {
    'A' <= c <= 'Z' || 'a' <= c <= 'z' || '0' <= c <= '9' || c in "-_.~"
  }

  function ToHex(d: nat): char
    requires d < 16
  {
    if d < 10 then '0' + d as char else 'A' + (d - 10) as char
  }

  /** Percent-encoding of everything outside the unreserved set (section 2.3 of RFC 3986). */
  function Escape(s: string): string
    requires Bytewise(s)
  {
    if s == [] then []
    else EscapeOne(s[0]) + Escape(s[1..])
  }

  function EscapeOne(c: char): string
    requires c < 256 as char
  {
    if Unreserved(c) then [c] else ['%', ToHex(c as nat / 16), ToHex(c as nat % 16)]
  }

  lemma {:induction false} UnescapeInverts(s: string)
    requires Bytewise(s)
    ensures Unescape(Escape(s)) == Some(s)
  {
    if s == [] {
    } else {
      UnescapeInverts(s[1..]);
      UnescapeFirst(s[0], Escape(s[1..]));
      assert s == [s[0]] + s[1..];
    }
  }

  lemma UnescapeFirst(c: char, rest: string)
    requires c < 256 as char
    ensures Unescape(EscapeOne(c) + rest) ==
      if Unescape(rest) == None then None else Some([c] + Unescape(rest).value)
  {
    var t := EscapeOne(c) + rest;
    if Unreserved(c) {
      assert t[0] == c && t[1..] == rest;
    } else {
      assert t[0] == '%' && t[1] == ToHex(c as nat / 16) && t[2] == ToHex(c as nat % 16) && t[3..] == rest;
      assert Head(t) == Some((c, 3));
    }
  }

  /** An escaped string holds no delimiter. */
  lemma {:induction false} EscapedIsPlain(s: string, c: char)
    requires Bytewise(s) && c != '%' && !Unreserved(c)
    ensures c !in Escape(s)
  {
    if s == [] {
    } else {
      EscapedIsPlain(s[1..], c);
      forall d: nat | d < 16 ensures ToHex(d) != c {
      }
    }
  }

  /** The parameters of a query, each with its first value; a malformed pair or a ';' voids them all. */
  function ParseQuery(s: string): Option<map<string, string>>
    decreases |s|
  {
    if s == [] then Some(map[])
    else
      var i := IndexOf(s, '&');
      var rest := ParseQuery(if i == |s| then [] else s[i + 1..]);
      if rest == None then None
      else if s[..i] == [] then rest
      else if ';' in s[..i] then None
      else
        var (k, v) := match Cut(s[..i], '=') case Some(p) => p case None => (s[..i], "");
        if Unescape(k) == None || Unescape(v) == None then None
        else Some(rest.value[Unescape(k).value := Unescape(v).value])
  }

  lemma DecimalIsPlain(n: nat)
    ensures '[' !in Decimal(n) && ']' !in Decimal(n) && ':' !in Decimal(n)
  {
  }

  function SplitHostPort(s: string): Option<(string, string)> {
    var i := LastIndexOf(s, ':');
    if i < 0 then None
    else if s[0] == '[' then
      var end := IndexOf(s, ']');
      if end == |s| || end + 1 != i then None
      else if '[' in s[1..] || ']' in s[end + 1..] then None
      else Some((s[1..end], s[i + 1..]))
    else if ':' in s[..i] || '[' in s || ']' in s then None
    else Some((s[..i], s[i + 1..]))
  }

  /** net.JoinHostPort: IPv6 addresses go in brackets. */
  function JoinHostPort(host: string, port: string): string {
    if ':' in host then "[" + host + "]:" + port else host + ":" + port
  }

  lemma SplitInvertsJoin(host: string, port: string)
    requires '[' !in host && ']' !in host
    requires '[' !in port && ']' !in port && ':' !in port
    ensures SplitHostPort(JoinHostPort(host, port)) == Some((host, port))
  {
    if ':' in host {
      SplitBracketed(host, port);
    } else {
      var s := host + ":" + port;
      assert s == host + [':'] + port;
      LastIndexAt(host, ':', port);
      assert s[..|host|] == host && s[|host| + 1..] == port;
      assert s[0] != '[';
    }
  }

  lemma SplitBracketed(host: string, port: string)
    requires '[' !in host && ']' !in host
    requires '[' !in port && ']' !in port && ':' !in port
    ensures SplitHostPort("[" + host + "]:" + port) == Some((host, port))
  {
    var s := "[" + host + "]:" + port;
    assert s == ("[" + host + "]") + [':'] + port;
    LastIndexAt("[" + host + "]", ':', port);
    assert s == ("[" + host) + [']'] + (":" + port);
    IndexAt("[" + host, ']', ":" + port);
    BracketsOnce(s, host, port);
  }

  lemma BracketsOnce(s: string, host: string, port: string)
    requires s == "[" + host + "]:" + port
    requires '[' !in host && ']' !in host && '[' !in port && ']' !in port
    ensures s[0] == '[' && s[1..|host| + 1] == host && s[|host| + 3..] == port
    ensures '[' !in s[1..] && ']' !in s[|host| + 2..]
  {
    assert s[1..] == host + ("]:" + port);
    assert s[|host| + 2..] == ":" + port;
  }

  // ---------------------------------------------------------------- the parser

  function ToLower(c: char): char {
    if 'A' <= c <= 'Z' then c + 32 as char else c
  }

  function Lowercase(s: string): string {
    seq(|s|, i requires 0 <= i < |s| => ToLower(s[i]))
  }

  /** The scheme, up to the first "://". */
  function Scheme(link: string): Option<string> {
    if |link| < 3 then None
    else if link[..3] == "://" then Some([])
    else match Scheme(link[1..])
      case None => None
      case Some(s) => Some([link[0]] + s)
  }

  predicate MarkAt(link: string, i: int) {
    0 <= i && i + 3 <= |link| && link[i..i + 3] == "://"
  }

  /** The link's scheme is what stands before position n, where the first "://" begins. */
  ghost predicate SchemeEnds(link: string, n: nat) {
    MarkAt(link, n) && forall i :: 0 <= i < n ==> !MarkAt(link, i)
  }

  lemma {:induction false} SchemeIs(link: string)
    ensures Scheme(link) == None ==> forall i :: !MarkAt(link, i)
    ensures Scheme(link).Some? ==> var n := |Scheme(link).value|; SchemeEnds(link, n) && Scheme(link).value == link[..n]
  {
    if |link| < 3 || link[..3] == "://" {
      assert |link| < 3 || MarkAt(link, 0);
    } else {
      SchemeIs(link[1..]);
      forall i ensures MarkAt(link, i) <==> MarkAt(link[1..], i - 1) {
        if 1 <= i && i + 3 <= |link| {
          assert link[i..i + 3] == link[1..][i - 1..i + 2];
        }
      }
      if Scheme(link).Some? {
        assert MarkAt(link, |Scheme(link[1..]).value| + 1);
      }
    }
  }

  lemma SchemeEndsOnce(link: string, m: nat, n: nat)
    requires SchemeEnds(link, m) && SchemeEnds(link, n)
    ensures m == n
  {
  }

  function TrimPrefix(s: string, prefix: string): string {
    if prefix <= s then s[|prefix|..] else s
  }

  /** method:password and host:port, from what is left of '#'. */
  ghost function Credentials(rest: string): Result<(string, string), Error> {
    match Cut(rest, '@')
    case Some((userinfo, hostPort)) =>
      (match DecodeAny(userinfo)
       case Some(decoded) => Ok((decoded, hostPort))
       case None => Ok((match Unescape(userinfo) case Some(u) => u case None => userinfo, hostPort)))
    case None =>
      match DecodeAny(rest)
      case None => Err(BadLegacyBase64)
      case Some(full) =>
        var at := LastIndexOf(full, '@');
        if at < 0 then Err(MissingAt) else Ok((full[..at], full[at + 1..]))
  }

  function Remark(fragment: string): string {
    match Unescape(fragment) case Some(u) => u case None => fragment
  }

  function QueryParams(query: string): map<string, string> {
    match ParseQuery(query) case Some(m) => m case None => map[]
  }

  function Assemble(methodPass: string, hostPort: string, remark: string): Result<Context, Error> {
    var (address, params) :=
      match Cut(hostPort, '?') case Some((hp, query)) => (hp, QueryParams(query)) case None => (hostPort, map[]);
    match Cut(methodPass, ':')
    case None => Err(BadUserInfo)
    case Some((cipher, password)) =>
      match SplitHostPort(address)
      case None => Err(BadHostPort)
      case Some((host, portText)) =>
        match Atoi(portText)
        case None => Err(BadPort)
        case Some(port) => Ok(Context("shadowsocks", cipher, password, host, port, remark, "tcp", "none", params))
  }

  ghost function Parsed(link: string): Result<Context, Error> {
    var rest := TrimPrefix(link, "ss://");
    var (body, remark) := match Cut(rest, '#') case Some((b, f)) => (b, Remark(f)) case None => (rest, "");
    match Credentials(body)
    case Err(e) => Err(e)
    case Ok((methodPass, hostPort)) => Assemble(methodPass, hostPort, remark)
  }

  /** parseShadowsocks, left of the fragment: SIP002 with an '@', otherwise legacy. */
  method ReadCredentials(rest: string) returns (r: Result<(string, string), Error>)
    ensures r == Credentials(rest)
  {
    var parts := Cut(rest, '@');
    if parts.Some? {
      var methodPass := parts.value.0;
      var decoded := DecodeBase64Any(methodPass);
      var unescaped := Unescape(methodPass);
      if decoded.Some? {
        methodPass := decoded.value;
      } else if unescaped.Some? {
        methodPass := unescaped.value;
      }
      return Ok((methodPass, parts.value.1));
    }
    var decoded := DecodeBase64Any(rest);
    if decoded == None {
      return Err(BadLegacyBase64);
    }
    var full := decoded.value;
    var at := LastIndexOf(full, '@');
    if at < 0 {
      return Err(MissingAt);
    }
    return Ok((full[..at], full[at + 1..]));
  }

  /** parseShadowsocks. */
  method ParseShadowsocks(link: string) returns (r: Result<Context, Error>)
    ensures r == Parsed(link)
  {
    var rest := TrimPrefix(link, "ss://");
    var remark := "";
    var fragment := Cut(rest, '#');
    if fragment.Some? {
      rest := fragment.value.0;
      remark := Remark(fragment.value.1);
    }
    var credentials := ReadCredentials(rest);
    match credentials
    case Err(e) => r := Err(e);
    case Ok((methodPass, hostPort)) => r := Assemble(methodPass, hostPort, remark);
  }

  /** Where a link goes: which parser takes it, with the result of the ss:// one. */
  datatype Dispatched =
    | NoScheme
    | Unsupported(scheme: string)
    | UriScheme(protocol: string)      // parseURIScheme, for vless and trojan
    | VMess                            // parseVMess
    | Shadowsocks(result: Result<Context, Error>)

  /** The scheme, in any case, decides. */
  ghost predicate GoesTo(d: Dispatched, link: string, scheme: string) {
    var lower := Lowercase(scheme);
    match d
    case NoScheme => false
    case Unsupported(s) => s == scheme && lower !in ["vless", "trojan", "vmess", "ss"]
    case UriScheme(p) => p == lower && lower in ["vless", "trojan"]
    case VMess => lower == "vmess"
    case Shadowsocks(r) => lower == "ss" && r == Parsed(link)
  }

  /** ParseShareLink. */
  method ParseShareLink(link: string) returns (d: Dispatched)
    ensures d == NoScheme <==> forall i :: !MarkAt(link, i)
    ensures forall n: nat :: SchemeEnds(link, n) ==> GoesTo(d, link, link[..n])
  {
    SchemeIs(link);
    var scheme := Scheme(link);
    if scheme == None {
      return NoScheme;
    }
    forall n: nat | SchemeEnds(link, n) ensures link[..n] == scheme.value {
      SchemeEndsOnce(link, n, |scheme.value|);
    }
    match Lowercase(scheme.value) {
      case "vless" => d := UriScheme("vless");
      case "trojan" => d := UriScheme("trojan");
      case "vmess" => d := VMess;
      case "ss" =>
        var r := ParseShadowsocks(link);
        d := Shadowsocks(r);
      case _ => d := Unsupported(scheme.value);
    }
  }

  // ---------------------------------------------------------------- printed links parse back

  /** A link's content: any bytes in the password and the remark, no ':' in the method, an address without
      the characters links give a meaning to. */
  datatype Account = Account(cipher: string, password: string, host: string, port: nat)

  predicate Printable(a: Account) {
    && Bytewise(a.cipher) && ':' !in a.cipher && Bytewise(a.password)
    && Bytewise(a.host) && (forall c :: c in "@#?[]" ==> c !in a.host)
    && a.port <= 65535
  }

  function Address(a: Account): string {
    JoinHostPort(a.host, Decimal(a.port))
  }

  function UserInfo(a: Account): string {
    a.cipher + ":" + a.password
  }

  function Tail(query: Option<string>, remark: Option<string>): string
    requires remark.Some? ==> Bytewise(remark.value)
  {
    (if query.Some? then "?" + query.value else "") + (if remark.Some? then "#" + Escape(remark.value) else "")
  }

  /** SIP002: ss://base64(method:password)@host:port?query#remark. */
  function PrintSip002(e: Encoding, a: Account, query: Option<string>, remark: Option<string>): string
    requires Printable(a) && (remark.Some? ==> Bytewise(remark.value))
  {
    "ss://" + (Encode(e, UserInfo(a)) + "@" + Address(a) + Tail(query, remark))
  }

  /** SIP002 with plain user info: ss://method:password@host:port?query#remark, percent-encoded. */
  function PrintPlain(a: Account, query: Option<string>, remark: Option<string>): string
    requires Printable(a) && (remark.Some? ==> Bytewise(remark.value))
  {
    "ss://" + (Escape(a.cipher) + ":" + Escape(a.password) + "@" + Address(a) + Tail(query, remark))
  }

  /** Legacy: ss://base64(method:password@host:port)#remark. */
  function PrintLegacy(e: Encoding, a: Account, remark: Option<string>): string
    requires Printable(a) && (remark.Some? ==> Bytewise(remark.value))
  {
    AddressIsPlain(a);
    "ss://" + (Encode(e, UserInfo(a) + "@" + Address(a)) + Tail(None, remark))
  }

  function Expected(a: Account, query: Option<string>, remark: Option<string>): Context {
    Context("shadowsocks", a.cipher, a.password, a.host, a.port,
            if remark.Some? then remark.value else "", "tcp", "none",
            if query.Some? then QueryParams(query.value) else map[])
  }

  lemma AddressIsPlain(a: Account)
    requires Printable(a)
    ensures Bytewise(Address(a)) && forall c :: c in "@#?" ==> c !in Address(a)
    ensures Bytewise(UserInfo(a) + "@" + Address(a))
  {
  }

  /** Stripping the scheme and the fragment. */
  lemma SplitFragment(body: string, remark: Option<string>)
    requires '#' !in body && (remark.Some? ==> Bytewise(remark.value))
    ensures var rest := TrimPrefix("ss://" + (body + Tail(None, remark)), "ss://");
      if remark.Some? then
        Cut(rest, '#') == Some((body, Escape(remark.value))) && Remark(Escape(remark.value)) == remark.value
      else rest == body && Cut(rest, '#') == None
  {
    var link := "ss://" + (body + Tail(None, remark));
    assert link[5..] == body + Tail(None, remark);
    if remark.Some? {
      assert body + Tail(None, remark) == body + ['#'] + Escape(remark.value);
      CutAt(body, '#', Escape(remark.value));
      UnescapeInverts(remark.value);
    } else {
      assert body + Tail(None, remark) == body;
    }
  }

  lemma AddressSplits(a: Account)
    requires Printable(a)
    ensures SplitHostPort(Address(a)) == Some((a.host, Decimal(a.port))) && Atoi(Decimal(a.port)) == Some(a.port)
  {
    DecimalIsPlain(a.port);
    SplitInvertsJoin(a.host, Decimal(a.port));
    AtoiInvertsItoa(a.port);
  }

  /** The '?' that starts the query, if there is one. */
  lemma QueryCuts(address: string, query: Option<string>)
    requires '?' !in address
    ensures Cut(address + Tail(query, None), '?') == if query.Some? then Some((address, query.value)) else None
    ensures query == None ==> address + Tail(query, None) == address
  {
    if query.Some? {
      assert address + Tail(query, None) == address + ['?'] + query.value;
      CutAt(address, '?', query.value);
    } else {
      assert address + Tail(query, None) == address;
      CutNothing(address, '?');
    }
  }

  lemma AssembleOf(
    methodPass: string, hostPort: string, address: string, query: Option<string>, remark: string, a: Account)
    requires Cut(methodPass, ':') == Some((a.cipher, a.password))
    requires Cut(hostPort, '?') == if query.Some? then Some((address, query.value)) else None
    requires query == None ==> hostPort == address
    requires SplitHostPort(address) == Some((a.host, Decimal(a.port))) && Atoi(Decimal(a.port)) == Some(a.port)
    ensures Assemble(methodPass, hostPort, remark) == Ok(Expected(a, query, Some(remark)))
  {
  }

  lemma AssembleReturns(a: Account, query: Option<string>, remark: string)
    requires Printable(a)
    ensures Assemble(UserInfo(a), Address(a) + Tail(query, None), remark) ==
      Ok(Expected(a, query, Some(remark)))
    ensures remark == "" ==> Expected(a, query, Some(remark)) == Expected(a, query, None)
  {
    AddressIsPlain(a);
    CutAt(a.cipher, ':', a.password);
    AddressSplits(a);
    QueryCuts(Address(a), query);
    AssembleOf(UserInfo(a), Address(a) + Tail(query, None), Address(a), query, remark, a);
  }

  lemma SafeHasNo(s: string, c: char)
    requires forall i :: 0 <= i < |s| ==> LinkSafe(s[i])
    requires c in "@#?:"
    ensures c !in s
  {
  }

  lemma ParsedOfBody(body: string, remark: Option<string>)
    requires '#' !in body && (remark.Some? ==> Bytewise(remark.value))
    ensures Parsed("ss://" + (body + Tail(None, remark))) ==
      match Credentials(body)
      case Err(e) => Err(e)
      case Ok((mp, hp)) => Assemble(mp, hp, RemarkOr(remark))
  {
    SplitFragment(body, remark);
  }

  function RemarkOr(remark: Option<string>): string {
    if remark.Some? then remark.value else ""
  }

  /** What both SIP002 forms share: everything right of the user info. */
  lemma Sip002Returns(
    userinfo: string, decoded: string, address: string, query: Option<string>, remark: Option<string>)
    requires remark.Some? ==> Bytewise(remark.value)
    requires '#' !in userinfo && '@' !in userinfo && '#' !in address && (query.Some? ==> '#' !in query.value)
    requires DecodeAny(userinfo) == Some(decoded) ||
      (DecodeAny(userinfo) == None && Unescape(userinfo) == Some(decoded))
    ensures Parsed("ss://" + (userinfo + "@" + address + Tail(query, remark))) ==
      Assemble(decoded, address + Tail(query, None), RemarkOr(remark))
  {
    var rest := address + Tail(query, None);
    TailSplits(userinfo + ['@'], address, query, remark);
    CutAt(userinfo, '@', rest);
    NoFragment(userinfo, address, query);
    CredentialsOf(userinfo + ['@'] + rest, userinfo, decoded, rest);
    ParsedWith(userinfo + ['@'] + rest, remark, decoded, rest);
  }

  lemma NoFragment(userinfo: string, address: string, query: Option<string>)
    requires '#' !in userinfo && '#' !in address && (query.Some? ==> '#' !in query.value)
    ensures '#' !in userinfo + ['@'] + (address + Tail(query, None))
  {
  }

  lemma ParsedWith(body: string, remark: Option<string>, decoded: string, rest: string)
    requires '#' !in body && (remark.Some? ==> Bytewise(remark.value)) && Credentials(body) == Ok((decoded, rest))
    ensures Parsed("ss://" + (body + Tail(None, remark))) == Assemble(decoded, rest, RemarkOr(remark))
  {
    ParsedOfBody(body, remark);
  }

  lemma TailSplits(front: string, address: string, query: Option<string>, remark: Option<string>)
    requires remark.Some? ==> Bytewise(remark.value)
    ensures front + address + Tail(query, remark) == front + (address + Tail(query, None)) + Tail(None, remark)
  {
  }

  lemma CredentialsOf(body: string, userinfo: string, decoded: string, rest: string)
    requires Cut(body, '@') == Some((userinfo, rest))
    requires DecodeAny(userinfo) == Some(decoded) ||
      (DecodeAny(userinfo) == None && Unescape(userinfo) == Some(decoded))
    ensures Credentials(body) == Ok((decoded, rest))
  {
  }

  lemma LegacyReturns(body: string, userinfo: string, address: string, remark: Option<string>)
    requires remark.Some? ==> Bytewise(remark.value)
    requires '#' !in body && '@' !in body && '@' !in address
    requires DecodeAny(body) == Some(userinfo + "@" + address)
    ensures Parsed("ss://" + (body + Tail(None, remark))) == Assemble(userinfo, address, RemarkOr(remark))
  {
    var full := userinfo + "@" + address;
    CutNothing(body, '@');
    assert full == userinfo + ['@'] + address;
    LastIndexAt(userinfo, '@', address);
    assert full[..|userinfo|] == userinfo && full[|userinfo| + 1..] == address;
    ParsedOfBody(body, remark);
  }

  /** SIP002 links in any of the four encodings parse back to what was printed. */
  lemma Sip002RoundTrip(e: Encoding, a: Account, query: Option<string>, remark: Option<string>)
    requires Printable(a) && (remark.Some? ==> Bytewise(remark.value)) && (query.Some? ==> '#' !in query.value)
    ensures Parsed(PrintSip002(e, a, query, remark)) == Ok(Expected(a, query, remark))
  {
    var u := Encode(e, UserInfo(a));
    EncodeIsLinkSafe(e, UserInfo(a));
    SafeHasNo(u, '@');
    SafeHasNo(u, '#');
    AddressIsPlain(a);
    DecodeAnyInverts(e, UserInfo(a));
    Sip002Returns(u, UserInfo(a), Address(a), query, remark);
    AssembleReturns(a, query, RemarkOr(remark));
  }

  /** Legacy links parse back as well: the password may contain '@'. */
  lemma LegacyRoundTrip(e: Encoding, a: Account, remark: Option<string>)
    requires Printable(a) && (remark.Some? ==> Bytewise(remark.value))
    ensures Parsed(PrintLegacy(e, a, remark)) == Ok(Expected(a, None, remark))
  {
    AddressIsPlain(a);
    var body := Encode(e, UserInfo(a) + "@" + Address(a));
    EncodeIsLinkSafe(e, UserInfo(a) + "@" + Address(a));
    SafeHasNo(body, '@');
    SafeHasNo(body, '#');
    DecodeAnyInverts(e, UserInfo(a) + "@" + Address(a));
    LegacyReturns(body, UserInfo(a), Address(a), remark);
    AssembleReturns(a, None, RemarkOr(remark));
    assert Address(a) + Tail(None, None) == Address(a);
  }

  /** Percent-encoded user info is never mistaken for base64, because of its ':'. */
  lemma PlainRoundTrip(a: Account, query: Option<string>, remark: Option<string>)
    requires Printable(a) && (remark.Some? ==> Bytewise(remark.value)) && (query.Some? ==> '#' !in query.value)
    ensures Parsed(PrintPlain(a, query, remark)) == Ok(Expected(a, query, remark))
  {
    EscapedIsPlain(a.cipher, '@');
    EscapedIsPlain(a.password, '@');
    EscapedIsPlain(a.cipher, '#');
    EscapedIsPlain(a.password, '#');
    UnescapeInverts(a.cipher);
    UnescapeInverts(a.password);
    AddressIsPlain(a);
    PlainUserInfo(Escape(a.cipher), Escape(a.password));
    Sip002Returns(Escape(a.cipher) + ":" + Escape(a.password), UserInfo(a), Address(a), query, remark);
    AssembleReturns(a, query, RemarkOr(remark));
  }

  lemma PlainUserInfo(c: string, p: string)
    requires Unescape(c).Some? && Unescape(p).Some?
    ensures Unescape(c + ":" + p) == Some(Unescape(c).value + ":" + Unescape(p).value)
    ensures DecodeAny(c + ":" + p) == None
  {
    ColonUnescapes(p);
    UnescapeAppend(c, ":" + p);
    Regroup(c, ":", p);
    Regroup(Unescape(c).value, ":", Unescape(p).value);
    ColonFailsAll(c, p);
  }

  lemma ColonFailsAll(c: string, p: string)
    ensures DecodeAny(c + ":" + p) == None
  {
    assert (c + ":" + p)[|c|] == ':';
    ForeignCharacterFailsAll(c + ":" + p, |c|);
  }

  lemma ColonUnescapes(p: string)
    requires Unescape(p).Some?
    ensures Unescape(":" + p) == Some(":" + Unescape(p).value)
  {
    UnescapeStep(":" + p, ':', 1, p);
  }

  /** One step of Unescape. */
  lemma UnescapeStep(s: string, c: char, n: nat, rest: string)
    requires s != [] && Head(s) == Some((c, n)) && s[n..] == rest && Unescape(rest).Some?
    ensures Unescape(s) == Some([c] + Unescape(rest).value)
  {
  }

  lemma {:induction false} UnescapeAppend(a: string, b: string)
    requires Unescape(a).Some? && Unescape(b).Some?
    ensures Unescape(a + b) == Some(Unescape(a).value + Unescape(b).value)
    decreases |a|
  {
    if a == [] {
      assert a + b == b;
      assert [] + Unescape(b).value == Unescape(b).value;
    } else {
      var c, n := UnescapeUnfolds(a);
      HeadOfAppend(a, b);
      assert (a + b)[n..] == a[n..] + b;
      UnescapeAppend(a[n..], b);
      UnescapeStep(a + b, c, n, a[n..] + b);
      Regroup([c], Unescape(a[n..]).value, Unescape(b).value);
    }
  }

  lemma UnescapeUnfolds(s: string) returns (c: char, n: nat)
    requires s != [] && Unescape(s).Some?
    ensures Head(s) == Some((c, n)) && 1 <= n <= |s|
    ensures Unescape(s[n..]).Some? && Unescape(s).value == [c] + Unescape(s[n..]).value
  {
    c, n := Head(s).value.0, Head(s).value.1;
  }

  lemma HeadOfAppend(a: string, b: string)
    requires a != [] && Head(a).Some?
    ensures Head(a + b) == Head(a)
  {
  }

  /** One character outside every alphabet, other than a line break, and no variant decodes. */
  lemma ForeignCharacterFailsAll(s: string, i: nat)
    requires i < |s| && !LinkSafe(s[i]) && s[i] != '\n' && s[i] != '\r'
    ensures DecodeAny(s) == None
  {
    forall e: Encoding ensures Decode(e, s) == None {
      StripKeeps(s, i);
      var t := StripBreaks(s);
      var k :| 0 <= k < |t| && t[k] == s[i];
      ForeignCharacterFails(e, t, k);
    }
  }

  lemma {:induction false} StripKeeps(s: string, i: nat)
    requires i < |s| && s[i] != '\n' && s[i] != '\r'
    ensures s[i] in StripBreaks(s)
  {
    if i == 0 {
    } else {
      StripKeeps(s[1..], i - 1);
    }
  }

  lemma DigitAt(e: Encoding, s: string, n: nat, i: nat)
    requires i < n <= |s| && Base64.Digits(e, s[..n])
    ensures Value(e.url, s[i]).Some?
  {
    assert s[..n][i] == s[i];
  }

  lemma {:induction false} ForeignCharacterFails(e: Encoding, s: string, i: nat)
    requires i < |s| && !LinkSafe(s[i])
    ensures DecodeClean(e, s) == None
    decreases |s|
  {
    assert Value(e.url, s[i]) == None;
    if 4 <= |s| && Base64.Digits(e, s[..4]) {
      if i < 4 {
        DigitAt(e, s, 4, i);
      } else {
        ForeignCharacterFails(e, s[4..], i - 4);
      }
    } else if e.padded && |s| == 4 && s[3] == '=' {
      assert i < |Unpad(s)| ==> Unpad(s)[i] == s[i];
    }
  }
}
