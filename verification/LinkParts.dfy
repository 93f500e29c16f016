/**
 What the string helpers behind an ss:// link accept, read and refuse, for every input: escapes, addresses, letter
 case, and which error a malformed link gets.
 */
module LinkParts {
  import opened Options
  import opened Base64
  import opened ShareLink
  import opened Text

  // ---------------------------------------------------------------- escapes

  /** A '%' at i that two hexadecimal digits do not follow. */
  predicate BadEscape(s: string, i: int) {
    0 <= i < |s| && s[i] == '%' &&
      (|s| < i + 3 || HexDigit(s[i + 1]) == None || HexDigit(s[i + 2]) == None)
  }

  /** An unescaped text fails exactly for such a '%'. */
  lemma {:induction false} UnescapeFailsIff(s: string)
    ensures Unescape(s) == None <==> exists i :: BadEscape(s, i)
    decreases |s|
  {
    if s == [] {
    } else if Head(s) == None {
      assert BadEscape(s, 0);
    } else {
      var n := Head(s).value.1;
      UnescapeFailsIff(s[n..]);
      BadEscapesLater(s, n);
    }
  }

  /** Behind a good first character or escape, the bad escapes are those of the rest. */
  lemma BadEscapesLater(s: string, n: nat)
    requires s != [] && Head(s).Some? && n == Head(s).value.1
    ensures (exists i :: BadEscape(s, i)) <==> exists i :: BadEscape(s[n..], i)
  {
    if i :| BadEscape(s, i) {
      assert n <= i;
      assert BadEscape(s[n..], i - n);
    }
    if i :| BadEscape(s[n..], i) {
      assert BadEscape(s, i + n);
    }
  }

  /** What one character stands for: itself, or a space for '+'. */
  lemma UnescapeOne(c: char)
    requires c != '%'
    ensures Unescape([c]) == Some([if c == '+' then ' ' else c])
  {
    var meant := if c == '+' then ' ' else c;
    UnescapeStep([c], meant, 1, "");
    assert [meant] + "" == [meant];
  }

  /** And what an escape does: the byte its two digits say, in either case. */
  lemma UnescapeByte(high: nat, low: nat, x: char, y: char)
    requires high < 16 && low < 16 && HexDigit(x) == Some(high) && HexDigit(y) == Some(low)
    ensures Unescape(['%', x, y]) == Some([(16 * high + low) as char])
  {
    var e := ['%', x, y];
    var meant := (16 * high + low) as char;
    UnescapeStep(e, meant, 3, "");
    assert [meant] + "" == [meant];
  }

  // ---------------------------------------------------------------- letter case

  /** Only the capital letters change, each to its small one. */
  lemma LowercaseIs(s: string, i: nat, k: nat)
    requires i < |s| && k < 26
    ensures |Lowercase(s)| == |s|
    ensures s[i] == "ABCDEFGHIJKLMNOPQRSTUVWXYZ"[k] ==> Lowercase(s)[i] == "abcdefghijklmnopqrstuvwxyz"[k]
    ensures !('A' <= s[i] <= 'Z') ==> Lowercase(s)[i] == s[i]
  {
  }

  // ---------------------------------------------------------------- addresses

  predicate NoBrackets(s: string) {
    '[' !in s && ']' !in s
  }

  /** host:port with no other ':', or [host]:port with any ':' in the host. */
  predicate Joins(s: string, host: string, port: string) {
    && NoBrackets(host) && NoBrackets(port) && ':' !in port
    && (s == "[" + host + "]:" + port || (s == host + ":" + port && ':' !in host))
  }

  /** Those are the addresses that are split, and they are split there. */
  lemma SplitHostPortIff(s: string, host: string, port: string)
    ensures SplitHostPort(s) == Some((host, port)) <==> Joins(s, host, port)
  {
    if SplitHostPort(s) == Some((host, port)) {
      SplitJoins(s);
    }
    if Joins(s, host, port) {
      if s == "[" + host + "]:" + port {
        SplitBracketed(host, port);
      } else {
        SplitInvertsJoin(host, port);
      }
    }
  }

  lemma SplitJoins(s: string)
    requires SplitHostPort(s).Some?
    ensures Joins(s, SplitHostPort(s).value.0, SplitHostPort(s).value.1)
  {
    var i := LastIndexOf(s, ':');
    if s[0] == '[' {
      var end := IndexOf(s, ']');
      InBrackets(s, end);
    } else {
      Slice(s, 0, i);
      Slice(s, i + 1, |s|);
      assert s == s[..i] + ":" + s[i + 1..];
    }
  }

  /** What is in a slice is in the text. */
  lemma Slice(s: string, i: nat, j: nat)
    requires i <= j <= |s|
    ensures forall c :: c in s[i..j] ==> c in s
  {
  }

  lemma InBrackets(s: string, end: nat)
    requires 2 <= end + 2 <= |s| && 1 <= end && s[0] == '[' && s[end] == ']' && s[end + 1] == ':'
    requires '[' !in s[1..] && ']' !in s[end + 1..] && (forall k :: 0 <= k < end ==> s[k] != ']')
    requires ':' !in s[end + 2..]
    ensures Joins(s, s[1..end], s[end + 2..])
  {
    var host, port := s[1..end], s[end + 2..];
    assert s == "[" + host + "]:" + port;
    assert s[1..][..end - 1] == host && s[1..][end + 1..] == port;
    Slice(s[1..], 0, end - 1);
    Slice(s[1..], end + 1, |s| - 1);
    assert s[end + 1..][1..] == port;
    Slice(s[end + 1..], 1, |s| - end - 1);
  }

  // ---------------------------------------------------------------- errors

  /** What is left of '#' either has an '@', and then it is never refused here: the user info is decoded if some
      variant takes it, or else unescaped if that works, or else left alone.  Or it has none, and then it must be
      base64 with an '@' in it, of which the last one counts. */
  lemma CredentialsAre(userinfo: string, hostPort: string, rest: string)
    requires '@' !in userinfo && '@' !in rest
    ensures Credentials(userinfo + "@" + hostPort) == Ok((
      if DecodeAny(userinfo).Some? then DecodeAny(userinfo).value
      else match Unescape(userinfo) case Some(plain) => plain case None => userinfo, hostPort))
    ensures DecodeAny(rest) == None ==> Credentials(rest) == Err(BadLegacyBase64)
    ensures DecodeAny(rest).Some? && '@' !in DecodeAny(rest).value ==> Credentials(rest) == Err(MissingAt)
    ensures forall left, right ::
      DecodeAny(rest) == Some(left + "@" + right) && '@' !in right ==> Credentials(rest) == Ok((left, right))
  {
    assert userinfo + "@" + hostPort == userinfo + ['@'] + hostPort;
    CutAt(userinfo, '@', hostPort);
    CutNothing(rest, '@');
    forall left, right | DecodeAny(rest) == Some(left + "@" + right) && '@' !in right
      ensures Credentials(rest) == Ok((left, right))
    {
      var full := left + "@" + right;
      assert full == left + ['@'] + right;
      LastIndexAt(left, '@', right);
      assert full[..|left|] == left && full[|left| + 1..] == right;
    }
  }

  /** The rest of the parser: no ':' in method:password, an address that does not split, a port that is no number;
      otherwise the method is what stands before the first ':'. */
  lemma AssembledIs(methodPass: string, hostPort: string, remark: string)
    requires '?' !in hostPort
    ensures ':' !in methodPass ==> Assemble(methodPass, hostPort, remark) == Err(BadUserInfo)
    ensures forall cipher, password :: methodPass == cipher + ":" + password && ':' !in cipher ==>
      && ((forall h, p :: !Joins(hostPort, h, p)) ==> Assemble(methodPass, hostPort, remark) == Err(BadHostPort))
      && (forall h, p :: Joins(hostPort, h, p) ==>
            Assemble(methodPass, hostPort, remark) == match Atoi(p)
              case None => Err(BadPort)
              case Some(n) => Ok(Context("shadowsocks", cipher, password, h, n, remark, "tcp", "none", map[])))
  {
    CutNothing(hostPort, '?');
    if ':' !in methodPass {
      CutNothing(methodPass, ':');
    }
    forall cipher, password | methodPass == cipher + ":" + password && ':' !in cipher
      ensures Cut(methodPass, ':') == Some((cipher, password))
    {
      assert methodPass == cipher + [':'] + password;
      CutAt(cipher, ':', password);
    }
    forall h, p ensures SplitHostPort(hostPort) == Some((h, p)) <==> Joins(hostPort, h, p) {
      SplitHostPortIff(hostPort, h, p);
    }
  }

  /** The scheme is taken off if it is there in small letters, and the rest is left alone. */
  lemma PrefixIs(link: string, prefix: string, rest: string)
    ensures TrimPrefix(prefix + rest, prefix) == rest
    ensures !(prefix <= link) ==> TrimPrefix(link, prefix) == link
  {
    assert (prefix + rest)[|prefix|..] == rest;
  }

  /** The remark is the fragment unescaped, or as it stands if that fails. */
  lemma RemarkIs(fragment: string)
    ensures (exists i :: BadEscape(fragment, i)) ==> Remark(fragment) == fragment
    ensures !(exists i :: BadEscape(fragment, i)) ==> Unescape(fragment) == Some(Remark(fragment))
  {
    UnescapeFailsIff(fragment);
  }
}
