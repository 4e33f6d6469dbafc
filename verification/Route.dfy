/** Where a connection goes: the rules of proto/tunnel.go as a plan. */
module Route {
  import opened Texts
  import opened DnsCache

  datatype PortMap = PortMap(src: nat, dst: nat)

  datatype Host = Host(name: string, match_: string, target: string, dns: string, ip: string,
                       ports: seq<PortMap>, proxy: string)

  const NO_HOST := Host("", "", "", "", "", [], "")

  datatype Proxy = Proxy(scheme: string, server: string, port: nat)

  /** The configuration: rules in order, defaults, and the global proxy. */
  datatype Config = Config(hosts: seq<Host>, defMatch: string, defTarget: string, defTCPTarget: string, defDNS: string,
                           global: Proxy)

  /** The world outside: name resolution, which proxies answer a probe, which
      attempts to connect succeed, and whether the client's address may use a rule. */
  datatype World = World(resolve: string -> seq<string>, reach: (string, nat) -> bool, connects: Attempt -> bool,
                         allows: Host -> bool)

  /** A dialled address; IPv6 hosts are bracketed and use tcp6. */
  datatype Addr = NoAddr | Addr(host: string, port: nat, v6: bool)

  datatype Attempt =
    | Direct(addr: Addr, quick: bool)
    | ViaSocks5(proxy: Addr, target: Addr)
    | ViaConnect(proxy: Addr, target: Addr, encrypted: bool)
    | ViaPlain(proxy: Addr)

  datatype Error = Nil | NotAllowed | DenyVisit | AllProxyFail | TargetEmpty | BadScheme | NoDestination | DialFail

  /** Refuse, or try something and perhaps something else after it. */
  datatype Plan = Refuse(e: Error) | Try(a: Attempt) | TryThen(a: Attempt, next: Plan)

  // ---- The rule that applies ----

  predicate Matches(cfg: Config, h: Host, name: string, ip: string) {
    var m := GetString(h.match_, cfg.defMatch, "equal");
    if m == "equal" then h.name == name || h.name == ip
    else m == "contain" && (Contains(name, h.name) || Contains(ip, h.name))
  }

  function FirstRule(cfg: Config, hosts: seq<Host>, name: string, ip: string): Host {
    if hosts == [] then NO_HOST
    else if Matches(cfg, hosts[0], name, ip) then hosts[0]
    else FirstRule(cfg, hosts[1..], name, ip)
  }

  /** The first matching rule decides, and no later one matters. */
  lemma {:induction false} FirstRuleDecides(cfg: Config, hosts: seq<Host>, name: string, ip: string, i: nat)
    requires i < |hosts| && Matches(cfg, hosts[i], name, ip)
    requires forall j :: 0 <= j < i ==> !Matches(cfg, hosts[j], name, ip)
    ensures FirstRule(cfg, hosts, name, ip) == hosts[i]
  {
    if i > 0 {
      FirstRuleDecides(cfg, hosts[1..], name, ip, i - 1);
    }
  }

  function MapPort(ports: seq<PortMap>, port: nat): nat {
    if ports == [] then port
    else if ports[0].src == port then ports[0].dst
    else MapPort(ports[1..], port)
  }

  // ---- Custom proxies ----

  /** A rule's proxy text: the list, and the four letters after a final space. */
  datatype ProxyList = ProxyList(list: string, op: string)

  function SplitOp(proxy: string): ProxyList {
    var n := |proxy|;
    if n >= 5 && proxy[n - 5] == ' ' then ProxyList(proxy[..n - 5], proxy[n - 4..]) else ProxyList(proxy, "")
  }

  datatype Probe = Down | Up(proxy: Proxy)

  /** `[scheme://]host:port`, with the port cut to sixteen bits, if it answers. */
  function ProbeOne(w: World, spec: string): Probe {
    var parts := Split(spec, "://");
    var scheme, rest := if |parts| == 2 then parts[0] else "tunnel", if |parts| == 2 then parts[1] else spec;
    var hp := Split(rest, ":");
    if spec == "" || |hp| != 2 || Atoi(hp[1]).NoInt? then Down
    else
      var port := Atoi(hp[1]).n % 65536;
      if w.reach(hp[0], port) then Up(Proxy(scheme, hp[0], port)) else Down
  }

  /** The first proxy of the list that answers. */
  function FirstUp(w: World, specs: seq<string>): Probe {
    if specs == [] then Down
    else
      var p := ProbeOne(w, TrimSpace(specs[0]));
      if p.Up? then p else FirstUp(w, specs[1..])
  }

  lemma {:induction false} FirstUpIsFirst(w: World, specs: seq<string>)
    ensures FirstUp(w, specs).Down? <==> forall i :: 0 <= i < |specs| ==> ProbeOne(w, TrimSpace(specs[i])).Down?
    ensures FirstUp(w, specs).Up? ==>
              exists i :: 0 <= i < |specs| && FirstUp(w, specs) == ProbeOne(w, TrimSpace(specs[i]))
                          && forall j :: 0 <= j < i ==> ProbeOne(w, TrimSpace(specs[j])).Down?
  {
    hide ProbeOne, TrimSpace;
    if specs != [] {
      FirstUpIsFirst(w, specs[1..]);
      if ProbeOne(w, TrimSpace(specs[0])).Down? && FirstUp(w, specs).Up? {
        var i :| 0 <= i < |specs[1..]| && FirstUp(w, specs[1..]) == ProbeOne(w, TrimSpace(specs[1..][i]))
                 && forall j :: 0 <= j < i ==> ProbeOne(w, TrimSpace(specs[1..][j])).Down?;
        assert specs[i + 1] == specs[1..][i];
        forall j | 0 <= j < i + 1
          ensures ProbeOne(w, TrimSpace(specs[j])).Down?
        {
          if j > 0 {
            assert specs[j] == specs[1..][j - 1];
          }
        }
      }
    }
  }

  // ---- Addresses ----

  predicate IsV6(ip: string) { ':' in ip }

  /** The IP if there is one, else the name. */
  function BuildAddress(name: string, ip: string, port: nat): Addr {
    if ip != "" then Addr(ip, port, IsV6(ip))
    else if name != "" then Addr(name, port, false)
    else NoAddr
  }

  /** An address whose text is empty or starts with a colon is refused. */
  predicate BadTarget(a: Addr) {
    a.NoAddr? || (!a.v6 && (a.host == "" || a.host[0] == ':'))
  }

  // ---- The plan ----

  /** What is known when the way is chosen. */
  datatype Query = Query(proto: string, name: string, ip: string, port: nat, state: DialState, remoteDNS: bool)

  function Remote(p: Proxy, q: Query, remoteDNS: bool): Plan {
    var target := if remoteDNS then BuildAddress(if q.name == "" then q.ip else q.name, "", q.port)
                  else BuildAddress("", q.ip, q.port);
    var at := BuildAddress(p.server, "", p.port);
    if BadTarget(target) then Refuse(TargetEmpty)
    else if p.scheme == "socks5" then Try(ViaSocks5(at, target))
    else if p.scheme == "tunnel" then Try(ViaConnect(at, target, true))
    else if p.scheme == "http" then
      if q.proto == "http" then Try(ViaPlain(at)) else Try(ViaConnect(at, target, false))
    else Refuse(BadScheme)
  }

  function Local(q: Query): Plan {
    var a := BuildAddress(q.name, q.ip, q.port);
    if a.NoAddr? then Refuse(NoDestination) else Try(Direct(a, false))
  }

  /** A quick direct dial first, unless one failed lately; then the proxy, which has
      to resolve the name itself. */
  function Auto(p: Proxy, q: Query): Plan {
    var a := BuildAddress(q.name, q.ip, q.port);
    if q.state == StateFail || a.NoAddr? then Remote(p, q, true)
    else TryThen(Direct(a, true), Remote(p, q, true))
  }

  /** With no proxy, or a local target, it is direct; otherwise by target. */
  function ByTarget(p: Proxy, target: string, q: Query): Plan {
    if p.server == "" || p.port == 0 || target == "local" then Local(q)
    else if target == "auto" then Auto(p, q)
    else Remote(p, q, q.remoteDNS)
  }

  /** Deny refuses; a rule's own proxies come first and force remote; with none of
      them up, "deny" refuses, "last" goes without a proxy, and the global one is left. */
  function PlanFor(cfg: Config, w: World, rule: Host, target: string, q: Query): Plan {
    var custom := SplitOp(rule.proxy);
    var up := FirstUp(w, Split(custom.list, ","));
    if target == "deny" then Refuse(DenyVisit)
    else if rule.proxy == "" then ByTarget(cfg.global, target, q)
    else if up.Up? then ByTarget(up.proxy, "remote", q)
    else if custom.op == "deny" then Refuse(AllProxyFail)
    else if custom.op == "last" then ByTarget(cfg.global.(server := ""), target, q)
    else ByTarget(cfg.global, target, q)
  }
}
