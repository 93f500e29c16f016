/**
 What a reader of the rendered document finds in a proxy definition, protocol by protocol: each key under its own
 name, each scalar by its text, tag and quoting, and the nested options one level down.
 */
module ProxyFields {
  import opened Options
  import opened Text
  import opened YamlTree
  import opened Proxies
  import ShareLink
  import B = Base64

  /** This text, in double quotes. */
  predicate Quoted(v: Option<Tree>, text: string) {
    v == Some(Tree(Scalar, "!!str", text, DoubleQuoted, []))
  }

  /** This text, without quotes. */
  predicate Plain(v: Option<Tree>, text: string) {
    v == Some(Tree(Scalar, "!!str", text, Unstyled, []))
  }

  /** "true" or "false". */
  predicate Flag(v: Option<Tree>, b: bool) {
    v == Some(Tree(Scalar, "!!bool", if b then "true" else "false", Unstyled, []))
  }

  /** A decimal number. */
  predicate Number(v: Option<Tree>, n: int) {
    v == Some(Tree(Scalar, "!!int", Itoa(n), Unstyled, []))
  }

  // ---------------------------------------------------------------- nested mappings

  lemma TwoPairs(a: string, x: Tree, b: string, y: Tree)
    requires a != b
    ensures var t := MappingOf(Pair(a, x) + Pair(b, y)); Get(t, a) == Some(x) && Get(t, b) == Some(y)
  {
    HasInPair(a, x, a);
    HasInPair(a, x, b);
    HasInPair(b, y, b);
    GetInAppend(Pair(a, x), Pair(b, y), a);
    GetInAppend(Pair(a, x), Pair(b, y), b);
  }

  /** reality-opts. */
  predicate HoldsReality(o: Option<Tree>, cc: Client) {
    o.Some? && Quoted(Get(o.value, "public-key"), cc.publicKey) && Quoted(Get(o.value, "short-id"), cc.shortId)
  }

  lemma RealityHolds(cc: Client)
    ensures HoldsReality(Some(RealityOpts(cc)), cc)
  {
    TwoPairs("public-key", StrTree(cc.publicKey), "short-id", StrTree(cc.shortId));
  }

  /** ws-opts, with the host among its headers. */
  predicate HoldsWs(o: Option<Tree>, cc: Client) {
    && o.Some? && Quoted(Get(o.value, "path"), cc.path)
    && Get(o.value, "headers").Some? && Quoted(Get(Get(o.value, "headers").value, "Host"), cc.host)
  }

  lemma WsHolds(cc: Client)
    ensures HoldsWs(Some(WsOpts(cc)), cc)
  {
    var headers := MappingOf(Pair("Host", StrTree(cc.host)));
    TwoPairs("path", StrTree(cc.path), "headers", headers);
    HasInPair("Host", StrTree(cc.host), "Host");
  }

  /** grpc-opts. */
  predicate HoldsGrpc(o: Option<Tree>, cc: Client) {
    o.Some? && Quoted(Get(o.value, "grpc-service-name"), cc.serviceName)
  }

  lemma GrpcHolds(cc: Client)
    ensures HoldsGrpc(Some(GrpcOpts(cc)), cc)
  {
    HasInPair("grpc-service-name", StrTree(cc.serviceName), "grpc-service-name");
  }

  /** xhttp-opts. */
  predicate HoldsXhttp(o: Option<Tree>, cc: Client) {
    o.Some? && Quoted(Get(o.value, "path"), cc.path) && Quoted(Get(o.value, "host"), cc.host)
  }

  lemma XhttpHolds(cc: Client)
    ensures HoldsXhttp(Some(XhttpOpts(cc)), cc)
  {
    TwoPairs("path", StrTree(cc.path), "host", StrTree(cc.host));
  }

  // ---------------------------------------------------------------- what all definitions share

  /** Name, type, address and udp. */
  predicate HasHead(t: Tree, cc: Client, kind: string) {
    && t.kind == Mapping
    && Quoted(Get(t, "name"), cc.remark) && Plain(Get(t, "type"), kind)
    && Quoted(Get(t, "server"), cc.server) && Number(Get(t, "port"), cc.port) && Flag(Get(t, "udp"), true)
  }

  lemma HeadIs(t: Tree, cc: Client)
    requires Known(cc.protocol) && t.kind == Mapping && Defines(t, cc)
    ensures HasHead(t, cc, if cc.protocol == "shadowsocks" then "ss" else cc.protocol)
  {
    assert Get(t, KeyName(Name)) == Field(cc, Name);
    assert Get(t, KeyName(Type)) == Field(cc, Type);
    assert Get(t, KeyName(Server)) == Field(cc, Server);
    assert Get(t, KeyName(Port)) == Field(cc, Port);
    assert Get(t, KeyName(Udp)) == Field(cc, Udp);
  }

  /** The transport: its name, whether there is tls, and the options of this network and no other. */
  predicate HasTransport(t: Tree, cc: Client) {
    && Plain(Get(t, "network"), cc.network) && Flag(Get(t, "tls"), cc.security != "none")
    && (if cc.network == "ws" then HoldsWs(Get(t, "ws-opts"), cc) else Get(t, "ws-opts") == None)
    && (if cc.network == "grpc" then HoldsGrpc(Get(t, "grpc-opts"), cc) else Get(t, "grpc-opts") == None)
    && (if cc.network == "xhttp" then HoldsXhttp(Get(t, "xhttp-opts"), cc) else Get(t, "xhttp-opts") == None)
  }

  predicate HasNoTransport(t: Tree) {
    && Get(t, "network") == None && Get(t, "tls") == None
    && Get(t, "ws-opts") == None && Get(t, "grpc-opts") == None && Get(t, "xhttp-opts") == None
  }

  lemma TransportIs(t: Tree, cc: Client)
    requires Known(cc.protocol) && Defines(t, cc)
    ensures cc.protocol == "vless" || cc.protocol == "vmess" ==> HasTransport(t, cc)
    ensures cc.protocol == "trojan" || cc.protocol == "shadowsocks" ==> HasNoTransport(t)
  {
    assert Get(t, KeyName(Network)) == Field(cc, Network);
    assert Get(t, KeyName(Label.Tls)) == Field(cc, Label.Tls);
    WsIs(t, cc);
    GrpcIs(t, cc);
    XhttpIs(t, cc);
  }

  predicate OverNetwork(cc: Client, network: string) {
    (cc.protocol == "vless" || cc.protocol == "vmess") && cc.network == network
  }

  lemma WsIs(t: Tree, cc: Client)
    requires Defines(t, cc)
    ensures if OverNetwork(cc, "ws") then HoldsWs(Get(t, "ws-opts"), cc) else Get(t, "ws-opts") == None
  {
    assert Get(t, KeyName(Ws)) == Field(cc, Ws);
    WsHolds(cc);
  }

  lemma GrpcIs(t: Tree, cc: Client)
    requires Defines(t, cc)
    ensures if OverNetwork(cc, "grpc") then HoldsGrpc(Get(t, "grpc-opts"), cc) else Get(t, "grpc-opts") == None
  {
    assert Get(t, KeyName(Grpc)) == Field(cc, Grpc);
    GrpcHolds(cc);
  }

  lemma XhttpIs(t: Tree, cc: Client)
    requires Defines(t, cc)
    ensures if OverNetwork(cc, "xhttp") then HoldsXhttp(Get(t, "xhttp-opts"), cc) else Get(t, "xhttp-opts") == None
  {
    assert Get(t, KeyName(Xhttp)) == Field(cc, Xhttp);
    XhttpHolds(cc);
  }

  /** A field that is there, in quotes, under a condition. */
  predicate QuotedIf(v: Option<Tree>, b: bool, text: string) {
    if b then Quoted(v, text) else v == None
  }

  /** The insecure flag is there only when it is set. */
  predicate SkipsVerify(t: Tree, insecure: bool) {
    if insecure then Flag(Get(t, "skip-cert-verify"), true) else Get(t, "skip-cert-verify") == None
  }

  /** The security block of vless, and of no other protocol. */
  predicate HasSecurity(t: Tree, cc: Client) {
    var secured := cc.security == "tls" || cc.security == "reality";
    && QuotedIf(Get(t, "servername"), secured, cc.sni)
    && QuotedIf(Get(t, "client-fingerprint"), secured, cc.fingerprint)
    && (if cc.security == "reality" then HoldsReality(Get(t, "reality-opts"), cc) else Get(t, "reality-opts") == None)
  }

  predicate HasNoSecurity(t: Tree) {
    Get(t, "servername") == None && Get(t, "client-fingerprint") == None && Get(t, "reality-opts") == None
  }

  lemma SecurityIs(t: Tree, cc: Client)
    requires Known(cc.protocol) && Defines(t, cc)
    ensures cc.protocol == "vless" ==> HasSecurity(t, cc)
    ensures cc.protocol != "vless" ==> HasNoSecurity(t)
  {
    assert Get(t, KeyName(ServerName)) == Field(cc, ServerName);
    assert Get(t, KeyName(Fingerprint)) == Field(cc, Fingerprint);
    RealityIs(t, cc);
  }

  lemma SkippingIs(t: Tree, cc: Client)
    requires Known(cc.protocol) && Defines(t, cc)
    ensures SkipsVerify(t, cc.insecure && cc.protocol != "shadowsocks")
  {
    assert Get(t, KeyName(SkipVerify)) == Field(cc, SkipVerify);
  }

  lemma RealityIs(t: Tree, cc: Client)
    requires Defines(t, cc)
    ensures if cc.protocol == "vless" && cc.security == "reality" then HoldsReality(Get(t, "reality-opts"), cc)
            else Get(t, "reality-opts") == None
  {
    assert Get(t, KeyName(Reality)) == Field(cc, Reality);
    RealityHolds(cc);
  }

  // ---------------------------------------------------------------- protocol by protocol

  lemma VlessDefinition(cc: Client)
    requires cc.protocol == "vless"
    ensures var t := ProxyTree(cc);
      && HasHead(t, cc, "vless") && HasTransport(t, cc) && HasSecurity(t, cc) && SkipsVerify(t, cc.insecure)
      && Quoted(Get(t, "uuid"), cc.uuid) && QuotedIf(Get(t, "flow"), cc.flow != "", cc.flow)
      && Get(t, "alterId") == None && Get(t, "cipher") == None && Get(t, "password") == None && Get(t, "sni") == None
  {
    var t := ProxyTree(cc);
    DefinitionDefines(cc);
    HeadIs(t, cc);
    TransportIs(t, cc);
    SecurityIs(t, cc);
    SkippingIs(t, cc);
    CredentialsAre(t, cc);
  }

  lemma VmessDefinition(cc: Client)
    requires cc.protocol == "vmess"
    ensures var t := ProxyTree(cc);
      && HasHead(t, cc, "vmess") && HasTransport(t, cc) && HasNoSecurity(t) && SkipsVerify(t, cc.insecure)
      && Quoted(Get(t, "uuid"), cc.uuid) && Number(Get(t, "alterId"), 0) && Plain(Get(t, "cipher"), "auto")
      && Get(t, "password") == None && Get(t, "sni") == None && Get(t, "flow") == None
  {
    var t := ProxyTree(cc);
    DefinitionDefines(cc);
    HeadIs(t, cc);
    TransportIs(t, cc);
    SecurityIs(t, cc);
    SkippingIs(t, cc);
    CredentialsAre(t, cc);
  }

  lemma TrojanDefinition(cc: Client)
    requires cc.protocol == "trojan"
    ensures var t := ProxyTree(cc);
      && HasHead(t, cc, "trojan") && HasNoTransport(t) && HasNoSecurity(t) && SkipsVerify(t, cc.insecure)
      && Quoted(Get(t, "password"), cc.password) && QuotedIf(Get(t, "sni"), cc.sni != "", cc.sni)
      && Get(t, "uuid") == None && Get(t, "alterId") == None && Get(t, "cipher") == None && Get(t, "flow") == None
  {
    var t := ProxyTree(cc);
    DefinitionDefines(cc);
    HeadIs(t, cc);
    TransportIs(t, cc);
    SecurityIs(t, cc);
    SkippingIs(t, cc);
    CredentialsAre(t, cc);
  }

  lemma ShadowsocksDefinition(cc: Client)
    requires cc.protocol == "shadowsocks"
    ensures var t := ProxyTree(cc);
      && HasHead(t, cc, "ss") && HasNoTransport(t) && HasNoSecurity(t) && SkipsVerify(t, false)
      && Quoted(Get(t, "cipher"), cc.cipher) && Quoted(Get(t, "password"), cc.password)
      && Get(t, "uuid") == None && Get(t, "alterId") == None && Get(t, "sni") == None && Get(t, "flow") == None
  {
    var t := ProxyTree(cc);
    DefinitionDefines(cc);
    HeadIs(t, cc);
    TransportIs(t, cc);
    SecurityIs(t, cc);
    SkippingIs(t, cc);
    CredentialsAre(t, cc);
  }

  /** The fields that tell the protocols apart. */
  lemma CredentialsAre(t: Tree, cc: Client)
    requires Known(cc.protocol) && Defines(t, cc)
    ensures var vless, vmess := cc.protocol == "vless", cc.protocol == "vmess";
      var trojan, ss := cc.protocol == "trojan", cc.protocol == "shadowsocks";
      && QuotedIf(Get(t, "uuid"), vless || vmess, cc.uuid) && QuotedIf(Get(t, "password"), trojan || ss, cc.password)
      && QuotedIf(Get(t, "flow"), vless && cc.flow != "", cc.flow)
      && QuotedIf(Get(t, "sni"), trojan && cc.sni != "", cc.sni)
      && (if vmess then Number(Get(t, "alterId"), 0) else Get(t, "alterId") == None)
      && (if vmess then Plain(Get(t, "cipher"), "auto") else QuotedIf(Get(t, "cipher"), ss, cc.cipher))
  {
    assert Get(t, KeyName(Uuid)) == Field(cc, Uuid);
    assert Get(t, KeyName(Label.Password)) == Field(cc, Label.Password);
    assert Get(t, KeyName(Flow)) == Field(cc, Flow);
    assert Get(t, KeyName(Sni)) == Field(cc, Sni);
    assert Get(t, KeyName(AlterId)) == Field(cc, AlterId);
    assert Get(t, KeyName(Cipher)) == Field(cc, Cipher);
  }

  /** The forms of a link, with parameters or without. */
  ghost predicate Prints(
    link: string, e: B.Encoding, a: ShareLink.Account, query: Option<string>, remark: string)
    requires ShareLink.Printable(a) && B.Bytewise(remark)
  {
    || link == ShareLink.PrintSip002(e, a, query, Some(remark))
    || link == ShareLink.PrintPlain(a, query, Some(remark))
    || (query == None && link == ShareLink.PrintLegacy(e, a, Some(remark)))
  }

  /** An ss:// link printed in any form and encoding, with any query, ends up as a definition that holds the account's
      own values. */
  lemma LinkBecomesItsProxy(
    e: B.Encoding, a: ShareLink.Account, query: Option<string>, remark: string, link: string)
    requires ShareLink.Printable(a) && B.Bytewise(remark) && (query.Some? ==> '#' !in query.value)
    requires Prints(link, e, a, query, remark)
    ensures ShareLink.Parsed(link).Ok?
    ensures var t := ProxyTree(FromLink(ShareLink.Parsed(link).value));
      && Quoted(Get(t, "name"), remark) && Plain(Get(t, "type"), "ss") && Quoted(Get(t, "server"), a.host)
      && Number(Get(t, "port"), a.port) && Quoted(Get(t, "cipher"), a.cipher) && Quoted(Get(t, "password"), a.password)
  {
    if link == ShareLink.PrintSip002(e, a, query, Some(remark)) {
      ShareLink.Sip002RoundTrip(e, a, query, Some(remark));
    } else if link == ShareLink.PrintPlain(a, query, Some(remark)) {
      ShareLink.PlainRoundTrip(a, query, Some(remark));
    } else {
      ShareLink.LegacyRoundTrip(e, a, Some(remark));
    }
    ShadowsocksDefinition(FromLink(ShareLink.Parsed(link).value));
  }

  /** A number is written in decimal digits and read back as itself. */
  lemma NumbersReadBack(n: int)
    requires -INT64_MAX - 1 <= n <= INT64_MAX
    ensures Atoi(Itoa(n)) == Some(n) && (0 <= n ==> Itoa(n) == Decimal(n)) && (n < 0 ==> Itoa(n) == "-" + Decimal(-n))
  {
    AtoiInvertsItoa(n);
  }
}
