/** One client's proxy definition (buildProxyNode and append* of internal/generator/yamlgen/inject.go). */
module Proxies {
  import opened Options
  import opened Sequences
  import opened Text
  import opened YamlTree
  import opened Yaml
  import ShareLink

  /** The fields of a client that a proxy definition is made from. */
  datatype Client = Client(
    protocol: string, uuid: string, password: string, cipher: string, remark: string, server: string, port: int,
    flow: string, network: string, security: string, sni: string, fingerprint: string, insecure: bool,
    publicKey: string, shortId: string, path: string, host: string, serviceName: string)

  predicate Known(protocol: string) {
    protocol in {"vless", "vmess", "trojan", "shadowsocks"}
  }

  function NumTree(n: int): Tree {
    Tree(Scalar, "!!int", Itoa(n), Unstyled, [])
  }

  function BoolTree(b: bool): Tree {
    Tree(Scalar, "!!bool", if b then "true" else "false", Unstyled, [])
  }

  /** The keys of a proxy definition. */
  datatype Label =
    | Name | Type | Server | Port | Udp | Uuid | AlterId | Cipher | Password | Sni
    | Network | Tls | SkipVerify | Flow | ServerName | Fingerprint | Reality | Ws | Grpc | Xhttp

  function KeyName(l: Label): string {
    match l
    case Name => "name"
    case Type => "type"
    case Server => "server"
    case Port => "port"
    case Udp => "udp"
    case Uuid => "uuid"
    case AlterId => "alterId"
    case Cipher => "cipher"
    case Password => "password"
    case Sni => "sni"
    case Network => "network"
    case Tls => "tls"
    case SkipVerify => "skip-cert-verify"
    case Flow => "flow"
    case ServerName => "servername"
    case Fingerprint => "client-fingerprint"
    case Reality => "reality-opts"
    case Ws => "ws-opts"
    case Grpc => "grpc-opts"
    case Xhttp => "xhttp-opts"
  }

  /** Length and first letter tell the keys apart. */
  function Sign(l: Label): (nat, char) {
    match l
    case Name => (4, 'n')
    case Type => (4, 't')
    case Server => (6, 's')
    case Port => (4, 'p')
    case Udp => (3, 'u')
    case Uuid => (4, 'u')
    case AlterId => (7, 'a')
    case Cipher => (6, 'c')
    case Password => (8, 'p')
    case Sni => (3, 's')
    case Network => (7, 'n')
    case Tls => (3, 't')
    case SkipVerify => (16, 's')
    case Flow => (4, 'f')
    case ServerName => (10, 's')
    case Fingerprint => (18, 'c')
    case Reality => (12, 'r')
    case Ws => (7, 'w')
    case Grpc => (9, 'g')
    case Xhttp => (10, 'x')
  }

  lemma KeyNameIsSigned(l: Label)
    ensures |KeyName(l)| == Sign(l).0 && KeyName(l)[0] == Sign(l).1
  {
  }

  lemma KeyNameIsInjective(a: Label, b: Label)
    requires KeyName(a) == KeyName(b)
    ensures a == b
  {
    KeyNameIsSigned(a);
    KeyNameIsSigned(b);
  }

  function Pair(k: string, v: Tree): seq<Tree> {
    [KeyTree(k), v]
  }

  function Entry(l: Label, v: Tree): seq<Tree> {
    Pair(KeyName(l), v)
  }

  function When(b: bool, kids: seq<Tree>): seq<Tree> {
    if b then kids else []
  }

  // ---------------------------------------------------------------- the kids, block by block

  function AddressKids(cc: Client): seq<Tree> {
    Entry(Server, StrTree(cc.server)) + (Entry(Port, NumTree(cc.port)) + Entry(Udp, BoolTree(true)))
  }

  function HeadKids(cc: Client): seq<Tree> {
    Entry(Name, StrTree(cc.remark))
    + (Entry(Type, KeyTree(if cc.protocol == "shadowsocks" then "ss" else cc.protocol))
    + AddressKids(cc))
  }

  function RealityOpts(cc: Client): Tree {
    MappingOf(Pair("public-key", StrTree(cc.publicKey)) + Pair("short-id", StrTree(cc.shortId)))
  }

  function WsOpts(cc: Client): Tree {
    MappingOf(Pair("path", StrTree(cc.path)) + Pair("headers", MappingOf(Pair("Host", StrTree(cc.host)))))
  }

  function XhttpOpts(cc: Client): Tree {
    MappingOf(Pair("path", StrTree(cc.path)) + Pair("host", StrTree(cc.host)))
  }

  function GrpcOpts(cc: Client): Tree {
    MappingOf(Pair("grpc-service-name", StrTree(cc.serviceName)))
  }

  function TransportKids(cc: Client): seq<Tree> {
    When(cc.network == "ws", Entry(Ws, WsOpts(cc)))
    + (When(cc.network == "grpc", Entry(Grpc, GrpcOpts(cc)))
    + When(cc.network == "xhttp", Entry(Xhttp, XhttpOpts(cc))))
  }

  function NetworkKids(cc: Client): seq<Tree> {
    Entry(Network, KeyTree(cc.network)) + Entry(Tls, BoolTree(cc.security != "none"))
  }

  function InsecureKids(cc: Client): seq<Tree> {
    When(cc.insecure, Entry(SkipVerify, BoolTree(true)))
  }

  function FlowKids(cc: Client): seq<Tree> {
    When(cc.flow != "", Entry(Flow, StrTree(cc.flow)))
  }

  function SniKids(cc: Client): seq<Tree> {
    When(cc.sni != "", Entry(Sni, StrTree(cc.sni)))
  }

  function VmessBase(cc: Client): seq<Tree> {
    Entry(Uuid, StrTree(cc.uuid))
    + (Entry(AlterId, NumTree(0)) + (Entry(Cipher, KeyTree("auto")) + NetworkKids(cc)))
  }

  function TlsKids(cc: Client): seq<Tree> {
    When(cc.security in {"reality", "tls"},
         Entry(ServerName, StrTree(cc.sni)) + Entry(Fingerprint, StrTree(cc.fingerprint)))
  }

  function SecurityKids(cc: Client): seq<Tree> {
    TlsKids(cc) + When(cc.security == "reality", Entry(Reality, RealityOpts(cc)))
  }

  function VlessKids(cc: Client): seq<Tree> {
    (Entry(Uuid, StrTree(cc.uuid)) + NetworkKids(cc))
    + (InsecureKids(cc) + (FlowKids(cc) + (SecurityKids(cc) + TransportKids(cc))))
  }

  function VmessKids(cc: Client): seq<Tree> {
    VmessBase(cc) + (InsecureKids(cc) + TransportKids(cc))
  }

  function TrojanKids(cc: Client): seq<Tree> {
    Entry(Password, StrTree(cc.password))
    + (SniKids(cc) + InsecureKids(cc))
  }

  function ShadowsocksKids(cc: Client): seq<Tree> {
    Entry(Cipher, StrTree(cc.cipher)) + Entry(Password, StrTree(cc.password))
  }

  function BodyKids(cc: Client): seq<Tree> {
    if cc.protocol == "vless" then VlessKids(cc)
    else if cc.protocol == "vmess" then VmessKids(cc)
    else if cc.protocol == "trojan" then TrojanKids(cc)
    else if cc.protocol == "shadowsocks" then ShadowsocksKids(cc)
    else []
  }

  function ProxyTree(cc: Client): Tree {
    MappingOf(HeadKids(cc) + BodyKids(cc))
  }

  // ---------------------------------------------------------------- building the nodes

  method AppendInsecure(m: Node, cc: Client, ghost s: Shape) returns (ghost s': Shape)
    requires Is(s, m)
    modifies m`content
    ensures Is(s', m) && fresh(Nodes(s') - Nodes(s))
    ensures Value(s') == old(Value(s)).(kids := old(Value(s)).kids + InsecureKids(cc))
  {
    s' := s;
    if cc.insecure {
      s' := AppendContent(m, Entry(SkipVerify, BoolTree(true)), s);
    }
  }

  method AppendFlow(m: Node, cc: Client, ghost s: Shape) returns (ghost s': Shape)
    requires Is(s, m)
    modifies m`content
    ensures Is(s', m) && fresh(Nodes(s') - Nodes(s))
    ensures Value(s') == old(Value(s)).(kids := old(Value(s)).kids + FlowKids(cc))
  {
    s' := s;
    if cc.flow != "" {
      s' := AppendContent(m, Entry(Flow, StrTree(cc.flow)), s);
    }
  }

  method AppendSecurity(m: Node, cc: Client, ghost s: Shape) returns (ghost s': Shape)
    requires Is(s, m)
    modifies m`content
    ensures Is(s', m) && fresh(Nodes(s') - Nodes(s))
    ensures Value(s') == old(Value(s)).(kids := old(Value(s)).kids + SecurityKids(cc))
  {
    s' := s;
    if cc.security == "reality" {
      s' := AppendContent(m, Entry(ServerName, StrTree(cc.sni))
        + Entry(Fingerprint, StrTree(cc.fingerprint)) + Entry(Reality, RealityOpts(cc)), s);
    } else if cc.security == "tls" {
      s' := AppendContent(m, Entry(ServerName, StrTree(cc.sni))
        + Entry(Fingerprint, StrTree(cc.fingerprint)), s);
    }
  }

  method AppendTransportOpts(m: Node, cc: Client, ghost s: Shape) returns (ghost s': Shape)
    requires Is(s, m)
    modifies m`content
    ensures Is(s', m) && fresh(Nodes(s') - Nodes(s))
    ensures Value(s') == old(Value(s)).(kids := old(Value(s)).kids + TransportKids(cc))
  {
    s' := s;
    if cc.network == "ws" {
      s' := AppendContent(m, Entry(Ws, WsOpts(cc)), s);
    } else if cc.network == "grpc" {
      s' := AppendContent(m, Entry(Grpc, GrpcOpts(cc)), s);
    } else if cc.network == "xhttp" {
      s' := AppendContent(m, Entry(Xhttp, XhttpOpts(cc)), s);
    }
  }

  method AppendVLESS(m: Node, cc: Client, ghost s: Shape) returns (ghost s': Shape)
    requires Is(s, m)
    modifies m`content
    ensures Is(s', m) && fresh(Nodes(s') - Nodes(s))
    ensures Value(s') == old(Value(s)).(kids := old(Value(s)).kids + VlessKids(cc))
  {
    ghost var start := Value(s).kids;
    ghost var base := Entry(Uuid, StrTree(cc.uuid)) + NetworkKids(cc);
    s' := AppendContent(m, Entry(Uuid, StrTree(cc.uuid)) + NetworkKids(cc), s);
    s' := AppendInsecure(m, cc, s');
    s' := AppendFlow(m, cc, s');
    s' := AppendSecurity(m, cc, s');
    s' := AppendTransportOpts(m, cc, s');
    RegroupSix(start, base, InsecureKids(cc), FlowKids(cc), SecurityKids(cc), TransportKids(cc));
  }

  method AppendVMess(m: Node, cc: Client, ghost s: Shape) returns (ghost s': Shape)
    requires Is(s, m)
    modifies m`content
    ensures Is(s', m) && fresh(Nodes(s') - Nodes(s))
    ensures Value(s') == old(Value(s)).(kids := old(Value(s)).kids + VmessKids(cc))
  {
    ghost var start := Value(s).kids;
    ghost var base := VmessBase(cc);
    s' := AppendContent(m, VmessBase(cc), s);
    s' := AppendInsecure(m, cc, s');
    s' := AppendTransportOpts(m, cc, s');
    RegroupFour(start, base, InsecureKids(cc), TransportKids(cc));
  }

  method AppendTrojan(m: Node, cc: Client, ghost s: Shape) returns (ghost s': Shape)
    requires Is(s, m)
    modifies m`content
    ensures Is(s', m) && fresh(Nodes(s') - Nodes(s))
    ensures Value(s') == old(Value(s)).(kids := old(Value(s)).kids + TrojanKids(cc))
  {
    ghost var start := Value(s).kids;
    s' := AppendContent(m, Entry(Password, StrTree(cc.password)), s);
    s' := AppendSni(m, cc, s');
    s' := AppendInsecure(m, cc, s');
    RegroupFour(start, Entry(Password, StrTree(cc.password)), SniKids(cc), InsecureKids(cc));
  }

  method AppendSni(m: Node, cc: Client, ghost s: Shape) returns (ghost s': Shape)
    requires Is(s, m)
    modifies m`content
    ensures Is(s', m) && fresh(Nodes(s') - Nodes(s))
    ensures Value(s') == old(Value(s)).(kids := old(Value(s)).kids + SniKids(cc))
  {
    s' := s;
    if cc.sni != "" {
      s' := AppendContent(m, Entry(Sni, StrTree(cc.sni)), s);
    }
  }

  method AppendShadowsocks(m: Node, cc: Client, ghost s: Shape) returns (ghost s': Shape)
    requires Is(s, m)
    modifies m`content
    ensures Is(s', m) && fresh(Nodes(s') - Nodes(s))
    ensures Value(s') == old(Value(s)).(kids := old(Value(s)).kids + ShadowsocksKids(cc))
  {
    s' := AppendContent(m, Entry(Cipher, StrTree(cc.cipher)) + Entry(Password, StrTree(cc.password)), s);
  }

  method AppendBody(m: Node, cc: Client, ghost s: Shape) returns (known: bool, ghost s': Shape)
    requires Is(s, m)
    modifies m`content
    ensures known <==> Known(cc.protocol)
    ensures known ==> Is(s', m) && fresh(Nodes(s') - Nodes(s))
    ensures known ==> Value(s') == old(Value(s)).(kids := old(Value(s)).kids + BodyKids(cc))
  {
    known := true;
    if cc.protocol == "vless" {
      s' := AppendVLESS(m, cc, s);
    } else if cc.protocol == "vmess" {
      s' := AppendVMess(m, cc, s);
    } else if cc.protocol == "trojan" {
      s' := AppendTrojan(m, cc, s);
    } else if cc.protocol == "shadowsocks" {
      s' := AppendShadowsocks(m, cc, s);
    } else {
      known, s' := false, s;
    }
  }

  /** None for a protocol without a proxy definition. */
  method BuildProxyNode(cc: Client) returns (n: Option<Node>, ghost s: Shape)
    ensures n.Some? <==> Known(cc.protocol)
    ensures n.Some? ==> Is(s, n.value) && fresh(Nodes(s)) && Value(s) == ProxyTree(cc)
  {
    var m, known;
    m, s := Build(MappingOf(HeadKids(cc)));
    ghost var start := Nodes(s);
    label built:
    known, s := AppendBody(m, cc, s);
    if !known {
      return None, s;
    }
    forall node | node in Nodes(s) ensures fresh(node) {
      assert node in start || fresh@built(node);
    }
    n := Some(m);
  }

  // ---------------------------------------------------------------- what the definition says

  function Provided(b: bool, v: Tree): Option<Tree> {
    if b then Some(v) else None
  }

  /** The fields a client of each protocol gets, key by key. */
  function Field(cc: Client, l: Label): Option<Tree> {
    var vless, vmess, trojan := cc.protocol == "vless", cc.protocol == "vmess", cc.protocol == "trojan";
    var ss := cc.protocol == "shadowsocks";
    match l
    case Name => Some(StrTree(cc.remark))
    case Type => Some(KeyTree(if ss then "ss" else cc.protocol))
    case Server => Some(StrTree(cc.server))
    case Port => Some(NumTree(cc.port))
    case Udp => Some(BoolTree(true))
    case Uuid => Provided(vless || vmess, StrTree(cc.uuid))
    case AlterId => Provided(vmess, NumTree(0))
    case Cipher => if vmess then Some(KeyTree("auto")) else Provided(ss, StrTree(cc.cipher))
    case Password => Provided(trojan || ss, StrTree(cc.password))
    case Sni => Provided(trojan && cc.sni != "", StrTree(cc.sni))
    case Network => Provided(vless || vmess, KeyTree(cc.network))
    case Tls => Provided(vless || vmess, BoolTree(cc.security != "none"))
    case SkipVerify => Provided(cc.insecure && !ss, BoolTree(true))
    case Flow => Provided(vless && cc.flow != "", StrTree(cc.flow))
    case ServerName => Provided(vless && cc.security in {"tls", "reality"}, StrTree(cc.sni))
    case Fingerprint => Provided(vless && cc.security in {"tls", "reality"}, StrTree(cc.fingerprint))
    case Reality => Provided(vless && cc.security == "reality", RealityOpts(cc))
    case Ws => Provided((vless || vmess) && cc.network == "ws", WsOpts(cc))
    case Grpc => Provided((vless || vmess) && cc.network == "grpc", GrpcOpts(cc))
    case Xhttp => Provided((vless || vmess) && cc.network == "xhttp", XhttpOpts(cc))
  }

  function First(a: Option<Tree>, b: Option<Tree>): Option<Tree> {
    if a.Some? then a else b
  }

  ghost predicate IsKeyName(key: string) {
    exists l: Label :: KeyName(l) == key
  }

  ghost predicate OnlyKeyNames(kids: seq<Tree>) {
    |kids| < 2 || (IsKeyName(kids[0].value) && OnlyKeyNames(kids[2..]))
  }

  lemma {:induction false} OnlyKeyNamesAppend(a: seq<Tree>, b: seq<Tree>)
    requires OnlyKeyNames(a) && OnlyKeyNames(b) && |a| % 2 == 0
    ensures OnlyKeyNames(a + b)
  {
    if a == [] {
      assert a + b == b;
    } else {
      assert (a + b)[2..] == a[2..] + b;
      OnlyKeyNamesAppend(a[2..], b);
    }
  }

  lemma {:induction false} OtherKeysAbsent(kids: seq<Tree>, key: string)
    requires OnlyKeyNames(kids) && !IsKeyName(key)
    ensures Occurrences(kids, key) == 0
  {
    if |kids| < 2 {
    } else {
      OtherKeysAbsent(kids[2..], key);
    }
  }

  /** Under this key a reader of the kids finds v, once; and all keys are ones we know. */
  ghost predicate Says(kids: seq<Tree>, l: Label, v: Option<Tree>) {
    Has(kids, KeyName(l), v) && OnlyKeyNames(kids)
  }

  lemma Joined(a: seq<Tree>, b: seq<Tree>, l: Label, va: Option<Tree>, vb: Option<Tree>)
    requires Says(a, l, va) && Says(b, l, vb) && (va == None || vb == None)
    ensures Says(a + b, l, First(va, vb))
  {
    HasInAppend(a, b, KeyName(l), va, vb);
    OnlyKeyNamesAppend(a, b);
  }

  lemma Lone(b: bool, k: Label, v: Tree, l: Label)
    ensures Says(When(b, Entry(k, v)), l, Provided(b && k == l, v))
  {
    if b {
      EntrySays(k, v, l);
    }
  }

  lemma EntrySays(k: Label, v: Tree, l: Label)
    ensures Says(Entry(k, v), l, Provided(k == l, v))
  {
    HasInPair(KeyName(k), v, KeyName(l));
    KeyNamesDiffer(k, l);
    OneKeyName(k, v);
  }

  lemma OneKeyName(k: Label, v: Tree)
    ensures OnlyKeyNames(Entry(k, v))
  {
    assert Entry(k, v)[2..] == [] && IsKeyName(Entry(k, v)[0].value);
  }

  lemma KeyNamesDiffer(k: Label, l: Label)
    ensures KeyName(k) == KeyName(l) <==> k == l
  {
    if KeyName(k) == KeyName(l) {
      KeyNameIsInjective(k, l);
    }
  }

  /** An entry in front of kids that lack its key. */
  lemma Front(b: bool, k: Label, v: Tree, rest: seq<Tree>, l: Label, found: Option<Tree>)
    requires Says(rest, l, found) && (b && k == l ==> found == None)
    ensures Says(When(b, Entry(k, v)) + rest, l, First(Provided(b && k == l, v), found))
  {
    Lone(b, k, v, l);
    Joined(When(b, Entry(k, v)), rest, l, Provided(b && k == l, v), found);
  }

  function TransportField(cc: Client, l: Label): Option<Tree> {
    match l
    case Ws => Provided(cc.network == "ws", WsOpts(cc))
    case Grpc => Provided(cc.network == "grpc", GrpcOpts(cc))
    case Xhttp => Provided(cc.network == "xhttp", XhttpOpts(cc))
    case _ => None
  }

  lemma TransportSays(cc: Client, l: Label)
    ensures Says(TransportKids(cc), l, TransportField(cc, l))
  {
    var ws, grpc, xhttp := cc.network == "ws", cc.network == "grpc", cc.network == "xhttp";
    var last := When(xhttp, Entry(Xhttp, XhttpOpts(cc)));
    Lone(xhttp, Xhttp, XhttpOpts(cc), l);
    var f := Provided(xhttp && Xhttp == l, XhttpOpts(cc));
    Front(grpc, Grpc, GrpcOpts(cc), last, l, f);
    Front(ws, Ws, WsOpts(cc), When(grpc, Entry(Grpc, GrpcOpts(cc))) + last, l,
          First(Provided(grpc && Grpc == l, GrpcOpts(cc)), f));
  }

  function SecurityField(cc: Client, l: Label): Option<Tree> {
    match l
    case ServerName => Provided(cc.security in {"tls", "reality"}, StrTree(cc.sni))
    case Fingerprint => Provided(cc.security in {"tls", "reality"}, StrTree(cc.fingerprint))
    case Reality => Provided(cc.security == "reality", RealityOpts(cc))
    case _ => None
  }

  function TlsField(cc: Client, l: Label): Option<Tree> {
    match l
    case ServerName => Provided(cc.security in {"tls", "reality"}, StrTree(cc.sni))
    case Fingerprint => Provided(cc.security in {"tls", "reality"}, StrTree(cc.fingerprint))
    case _ => None
  }

  lemma TlsSays(cc: Client, l: Label)
    ensures Says(TlsKids(cc), l, TlsField(cc, l))
  {
    var both := cc.security in {"reality", "tls"};
    var sni, fingerprint := StrTree(cc.sni), StrTree(cc.fingerprint);
    Lone(both, Fingerprint, fingerprint, l);
    Front(both, ServerName, sni, When(both, Entry(Fingerprint, fingerprint)), l,
          Provided(both && Fingerprint == l, fingerprint));
    assert When(false, Entry(ServerName, sni)) + When(false, Entry(Fingerprint, fingerprint)) == [];
  }

  lemma SecuritySays(cc: Client, l: Label)
    ensures Says(SecurityKids(cc), l, SecurityField(cc, l))
  {
    var reality := cc.security == "reality";
    TlsSays(cc, l);
    Lone(reality, Reality, RealityOpts(cc), l);
    Joined(TlsKids(cc), When(reality, Entry(Reality, RealityOpts(cc))), l, TlsField(cc, l),
           Provided(reality && Reality == l, RealityOpts(cc)));
  }

  function NetworkField(cc: Client, l: Label): Option<Tree> {
    match l
    case Network => Some(KeyTree(cc.network))
    case Tls => Some(BoolTree(cc.security != "none"))
    case _ => None
  }

  lemma NetworkSays(cc: Client, l: Label)
    ensures Says(NetworkKids(cc), l, NetworkField(cc, l))
  {
    var tls := BoolTree(cc.security != "none");
    Lone(true, Tls, tls, l);
    Front(true, Network, KeyTree(cc.network), Entry(Tls, tls), l, Provided(Tls == l, tls));
  }

  lemma FlowSays(cc: Client, l: Label, rest: seq<Tree>, found: Option<Tree>)
    requires Says(rest, l, found) && (l == Flow || l == SkipVerify ==> found == None)
    ensures Says(InsecureKids(cc) + (FlowKids(cc) + rest), l,
      First(Provided(cc.insecure && SkipVerify == l, BoolTree(true)),
            First(Provided(cc.flow != "" && Flow == l, StrTree(cc.flow)), found)))
  {
    Front(cc.flow != "", Flow, StrTree(cc.flow), rest, l, found);
    Front(cc.insecure, SkipVerify, BoolTree(true), FlowKids(cc) + rest, l,
          First(Provided(cc.flow != "" && Flow == l, StrTree(cc.flow)), found));
  }

  predicate HeadLabel(l: Label) {
    l.Name? || l.Type? || l.Server? || l.Port? || l.Udp?
  }

  function HeadField(cc: Client, l: Label): Option<Tree> {
    if HeadLabel(l) then Field(cc, l) else None
  }

  function BodyField(cc: Client, l: Label): Option<Tree> {
    if HeadLabel(l) then None else Field(cc, l)
  }

  function VlessTail(cc: Client): seq<Tree> {
    InsecureKids(cc) + (FlowKids(cc) + (SecurityKids(cc) + TransportKids(cc)))
  }

  function VlessTailField(cc: Client, l: Label): Option<Tree> {
    First(Provided(cc.insecure && SkipVerify == l, BoolTree(true)),
          First(Provided(cc.flow != "" && Flow == l, StrTree(cc.flow)),
                First(SecurityField(cc, l), TransportField(cc, l))))
  }

  lemma VlessTailSays(cc: Client, l: Label)
    ensures Says(VlessTail(cc), l, VlessTailField(cc, l))
  {
    TransportSays(cc, l);
    SecuritySays(cc, l);
    var transport, security := TransportField(cc, l), SecurityField(cc, l);
    Joined(SecurityKids(cc), TransportKids(cc), l, security, transport);
    FlowSays(cc, l, SecurityKids(cc) + TransportKids(cc), First(security, transport));
  }

  function VlessField(cc: Client, l: Label): Option<Tree> {
    First(First(Provided(Uuid == l, StrTree(cc.uuid)), NetworkField(cc, l)), VlessTailField(cc, l))
  }

  lemma VlessSays(cc: Client, l: Label)
    ensures Says(VlessKids(cc), l, VlessField(cc, l))
  {
    VlessTailSays(cc, l);
    NetworkSays(cc, l);
    Front(true, Uuid, StrTree(cc.uuid), NetworkKids(cc), l, NetworkField(cc, l));
    Joined(Entry(Uuid, StrTree(cc.uuid)) + NetworkKids(cc), VlessTail(cc), l,
           First(Provided(Uuid == l, StrTree(cc.uuid)), NetworkField(cc, l)), VlessTailField(cc, l));
  }

  function VmessBaseField(cc: Client, l: Label): Option<Tree> {
    First(Provided(Uuid == l, StrTree(cc.uuid)),
          First(Provided(AlterId == l, NumTree(0)), First(Provided(Cipher == l, KeyTree("auto")), NetworkField(cc, l))))
  }

  lemma VmessBaseSays(cc: Client, l: Label)
    ensures Says(VmessBase(cc), l, VmessBaseField(cc, l))
  {
    NetworkSays(cc, l);
    var network, auto, zero := NetworkField(cc, l), KeyTree("auto"), NumTree(0);
    Front(true, Cipher, auto, NetworkKids(cc), l, network);
    var f1 := First(Provided(Cipher == l, auto), network);
    Front(true, AlterId, zero, Entry(Cipher, auto) + NetworkKids(cc), l, f1);
    var f2 := First(Provided(AlterId == l, zero), f1);
    Front(true, Uuid, StrTree(cc.uuid), Entry(AlterId, zero) + (Entry(Cipher, auto) + NetworkKids(cc)), l, f2);
  }

  function VmessField(cc: Client, l: Label): Option<Tree> {
    First(VmessBaseField(cc, l), First(Provided(cc.insecure && SkipVerify == l, BoolTree(true)), TransportField(cc, l)))
  }

  lemma VmessSays(cc: Client, l: Label)
    ensures Says(VmessKids(cc), l, VmessField(cc, l))
  {
    TransportSays(cc, l);
    VmessBaseSays(cc, l);
    Front(cc.insecure, SkipVerify, BoolTree(true), TransportKids(cc), l, TransportField(cc, l));
    Joined(VmessBase(cc), InsecureKids(cc) + TransportKids(cc), l, VmessBaseField(cc, l),
           First(Provided(cc.insecure && SkipVerify == l, BoolTree(true)), TransportField(cc, l)));
  }

  function TrojanField(cc: Client, l: Label): Option<Tree> {
    First(Provided(Password == l, StrTree(cc.password)),
          First(Provided(cc.sni != "" && Sni == l, StrTree(cc.sni)),
                Provided(cc.insecure && SkipVerify == l, BoolTree(true))))
  }

  lemma TrojanSays(cc: Client, l: Label)
    ensures Says(TrojanKids(cc), l, TrojanField(cc, l))
  {
    Lone(cc.insecure, SkipVerify, BoolTree(true), l);
    var f1 := Provided(cc.insecure && SkipVerify == l, BoolTree(true));
    Front(cc.sni != "", Sni, StrTree(cc.sni), InsecureKids(cc), l, f1);
    var f2 := First(Provided(cc.sni != "" && Sni == l, StrTree(cc.sni)), f1);
    Front(true, Password, StrTree(cc.password), SniKids(cc) + InsecureKids(cc), l, f2);
  }

  function ShadowsocksField(cc: Client, l: Label): Option<Tree> {
    First(Provided(Cipher == l, StrTree(cc.cipher)), Provided(Password == l, StrTree(cc.password)))
  }

  lemma ShadowsocksSays(cc: Client, l: Label)
    ensures Says(ShadowsocksKids(cc), l, ShadowsocksField(cc, l))
  {
    Lone(true, Password, StrTree(cc.password), l);
    Front(true, Cipher, StrTree(cc.cipher), Entry(Password, StrTree(cc.password)), l,
          Provided(Password == l, StrTree(cc.password)));
  }

  // The protocols' own fields are what the table calls for.

  lemma VlessIsTabled(cc: Client, l: Label)
    requires cc.protocol == "vless"
    ensures VlessField(cc, l) == BodyField(cc, l)
  {
  }

  lemma VmessIsTabled(cc: Client, l: Label)
    requires cc.protocol == "vmess"
    ensures VmessField(cc, l) == BodyField(cc, l)
  {
  }

  lemma TrojanIsTabled(cc: Client, l: Label)
    requires cc.protocol == "trojan"
    ensures TrojanField(cc, l) == BodyField(cc, l)
  {
  }

  lemma ShadowsocksIsTabled(cc: Client, l: Label)
    requires cc.protocol == "shadowsocks"
    ensures ShadowsocksField(cc, l) == BodyField(cc, l)
  {
  }

  lemma BodySays(cc: Client, l: Label)
    requires Known(cc.protocol)
    ensures Says(BodyKids(cc), l, BodyField(cc, l))
  {
    if cc.protocol == "vless" {
      VlessSays(cc, l);
      VlessIsTabled(cc, l);
    } else if cc.protocol == "vmess" {
      VmessSays(cc, l);
      VmessIsTabled(cc, l);
    } else if cc.protocol == "trojan" {
      TrojanSays(cc, l);
      TrojanIsTabled(cc, l);
    } else {
      ShadowsocksSays(cc, l);
      ShadowsocksIsTabled(cc, l);
    }
  }

  lemma HeadSays(cc: Client, l: Label)
    ensures Says(HeadKids(cc), l, HeadField(cc, l))
  {
    AddressSays(cc, l);
    var kind := KeyTree(if cc.protocol == "shadowsocks" then "ss" else cc.protocol);
    NamedSays(cc.remark, kind, AddressKids(cc), l, AddressField(cc, l));
  }

  lemma NamedSays(remark: string, kind: Tree, rest: seq<Tree>, l: Label, found: Option<Tree>)
    requires Says(rest, l, found) && (l == Type || l == Name ==> found == None)
    ensures Says(Entry(Name, StrTree(remark)) + (Entry(Type, kind) + rest), l,
                 First(Provided(Name == l, StrTree(remark)), First(Provided(Type == l, kind), found)))
  {
    Front(true, Type, kind, rest, l, found);
    Front(true, Name, StrTree(remark), Entry(Type, kind) + rest, l, First(Provided(Type == l, kind), found));
  }

  function AddressField(cc: Client, l: Label): Option<Tree> {
    match l
    case Server => Some(StrTree(cc.server))
    case Port => Some(NumTree(cc.port))
    case Udp => Some(BoolTree(true))
    case _ => None
  }

  lemma AddressSays(cc: Client, l: Label)
    ensures Says(AddressKids(cc), l, AddressField(cc, l))
  {
    var server, port, udp := StrTree(cc.server), NumTree(cc.port), BoolTree(true);
    Lone(true, Udp, udp, l);
    Front(true, Port, port, Entry(Udp, udp), l, Provided(Udp == l, udp));
    Front(true, Server, server, Entry(Port, port) + Entry(Udp, udp), l,
          First(Provided(Port == l, port), Provided(Udp == l, udp)));
  }

  lemma DefinitionSays(cc: Client, l: Label)
    requires Known(cc.protocol)
    ensures Says(ProxyTree(cc).kids, l, Field(cc, l))
  {
    HeadSays(cc, l);
    BodySays(cc, l);
    Joined(HeadKids(cc), BodyKids(cc), l, HeadField(cc, l), BodyField(cc, l));
  }

  /** A proxy definition has exactly the fields its protocol calls for, with the client's own values. */
  lemma FieldsAreTheProtocols(cc: Client, l: Label)
    requires Known(cc.protocol)
    ensures Get(ProxyTree(cc), KeyName(l)) == Field(cc, l)
  {
    DefinitionSays(cc, l);
  }

  /** No key comes twice: the parser that checks the rendered document would refuse it. */
  lemma NoKeyTwice(cc: Client, key: string)
    requires Known(cc.protocol)
    ensures Occurrences(ProxyTree(cc).kids, key) <= 1
  {
    if IsKeyName(key) {
      var l: Label :| KeyName(l) == key;
      DefinitionSays(cc, l);
    } else {
      DefinitionSays(cc, Name);
      OtherKeysAbsent(ProxyTree(cc).kids, key);
    }
  }

  // ---------------------------------------------------------------- from link to definition

  /** The client a parsed ss:// link stands for. */
  function FromLink(c: ShareLink.Context): Client {
    Client(c.protocol, "", c.password, c.cipher, c.remark, c.server, c.port, "", c.network, c.security,
           "", "", false, "", "", "", "", "")
  }

  /** t holds the fields of cc. */
  ghost predicate Defines(t: Tree, cc: Client) {
    forall l: Label :: Get(t, KeyName(l)) == Field(cc, l)
  }

  lemma DefinitionDefines(cc: Client)
    requires Known(cc.protocol)
    ensures Defines(ProxyTree(cc), cc)
  {
    forall l: Label ensures Get(ProxyTree(cc), KeyName(l)) == Field(cc, l) {
      FieldsAreTheProtocols(cc, l);
    }
  }
}
