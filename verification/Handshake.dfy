/** The handshake itself, after `handshake`, `lookup` and `findHost` in
    proto/tunnel.go, and what the shared cache makes of many of them. */
module Handshake {
  import opened Texts
  import opened DnsCache
  import opened Route

  const RESOLVE_TTL := 600
  const FAIL_TTL := 3600

  datatype Phase = PhaseNew | PhaseActive | PhaseClosed | PhaseIdle
  datatype Made = Nothing | Made(a: Attempt)

  /** What carrying out a plan does: the error, and every attempt in order. */
  function Tries(w: World, p: Plan): seq<Attempt> {
    match p
    case Refuse(_) => []
    case Try(a) => [a]
    case TryThen(a, next) => [a] + if w.connects(a) then [] else Tries(w, next)
  }

  function Verdict(w: World, p: Plan): Error {
    match p
    case Refuse(e) => e
    case Try(a) => if w.connects(a) then Nil else DialFail
    case TryThen(a, next) => if w.connects(a) then Nil else Verdict(w, next)
  }

  // ---- The cache's part ----

  datatype Resolved = Resolved(ip: string, state: DialState)

  /** A cached address, or the first one the resolver knows, which is then cached. */
  function LookupRing(c: Ring, w: World, name: string, now: int): (r: Ring)
    requires c.Ok()
    ensures r.Ok()
  {
    var c1 := LookupIn(c, name, now);
    if FindIn(c, name, now).ip == "" && w.resolve(name) != [] then
      StoreIn(c1, name, Entry(w.resolve(name)[0], StateNew, now + RESOLVE_TTL))
    else c1
  }

  function LookupAnswer(c: Ring, w: World, name: string, now: int): Resolved {
    var f := FindIn(c, name, now);
    if f.ip == "" && w.resolve(name) != [] then Resolved(w.resolve(name)[0], StateNew) else Resolved(f.ip, f.state)
  }

  /** The target of one handshake. */
  datatype Request = Request(proto: string, name: string, ip: string, port: nat)

  function RuleFor(cfg: Config, r: Request): Host {
    FirstRule(cfg, cfg.hosts, r.name, r.ip)
  }

  function TargetFor(cfg: Config, r: Request): string {
    GetString(RuleFor(cfg, r).target, if r.proto == "tcp" then cfg.defTCPTarget else cfg.defTarget, "auto")
  }

  function DNSFor(cfg: Config, r: Request): string {
    GetString(RuleFor(cfg, r).dns, cfg.defDNS, "local")
  }

  /** Whether the name goes through the cache. */
  predicate Resolves(cfg: Config, r: Request) {
    RuleFor(cfg, r).ip == "" && r.name != "" && DNSFor(cfg, r) != "remote"
  }

  lemma {:induction false} OnlyNames(cfg: Config, r: Request)
    ensures Resolves(cfg, r) ==> r.name != ""
  {
  }

  function QueryFor(cfg: Config, w: World, c: Ring, r: Request, now: int): Query {
    var rule := RuleFor(cfg, r);
    var port := MapPort(rule.ports, r.port);
    var found := LookupAnswer(c, w, r.name, now);
    if Resolves(cfg, r) then Query(r.proto, r.name, found.ip, port, found.state, false)
    else Query(r.proto, r.name, if rule.ip != "" then rule.ip else r.ip, port, StateNew, DNSFor(cfg, r) == "remote")
  }

  function PlanOf(cfg: Config, w: World, c: Ring, r: Request, now: int): Plan {
    if !w.allows(RuleFor(cfg, r)) then Refuse(NotAllowed)
    else PlanFor(cfg, w, RuleFor(cfg, r), TargetFor(cfg, r), QueryFor(cfg, w, c, r, now))
  }

  /** A quick direct dial was tried and failed. */
  predicate Missed(w: World, p: Plan) {
    p.TryThen? && !w.connects(p.a)
  }

  /** The note that is left when it was the address of a name. */
  function Noted(c: Ring, w: World, p: Plan, q: Query, now: int): (r: Ring)
    requires c.Ok()
    ensures r.Ok()
  {
    if Missed(w, p) && q.name != "" && q.ip != "" then StoreIn(c, q.name, Entry(q.ip, StateFail, now + FAIL_TTL)) else c
  }

  /** The cache afterwards: the lookup, and the note. */
  function RingAfter(cfg: Config, w: World, c: Ring, r: Request, now: int): (r': Ring)
    requires c.Ok()
    ensures r'.Ok()
  {
    if !w.allows(RuleFor(cfg, r)) then c
    else
      var c1 := if Resolves(cfg, r) then LookupRing(c, w, r.name, now) else c;
      Noted(c1, w, PlanOf(cfg, w, c, r, now), QueryFor(cfg, w, c, r, now), now)
  }

  class Tunnel {
    var conn: Made
    var curState: Phase
    var inbound: bool
    var outbound: bool
    ghost var tried: seq<Attempt>

    constructor ()
      ensures conn == Nothing && curState == PhaseNew && !inbound && !outbound && tried == []
    {
      conn, curState, inbound, outbound, tried := Nothing, PhaseNew, false, false, [];
    }

    /** One attempt to connect.  A proxy that was reached but answers a CONNECT with
        something else leaves its connection behind. */
    method Dial(w: World, a: Attempt) returns (err: Error)
      modifies this`conn, this`tried
      ensures tried == old(tried) + [a] && (err == Nil <==> w.connects(a)) && (err == Nil || err == DialFail)
      ensures err == Nil ==> conn == Made(a)
      ensures !a.ViaConnect? && err != Nil ==> conn == old(conn)
    {
      tried := tried + [a];
      if w.connects(a) {
        conn := Made(a);
        return Nil;
      }
      if a.ViaConnect? {
        if * {
          conn := Made(a);
        }
      }
      return DialFail;
    }

    /** Where the counters of a connection are registered. */
    method CountedAddress(name: string, ip: string, port: nat) returns (a: Addr)
      modifies this`inbound, this`outbound
      ensures a == BuildAddress(name, ip, port)
      ensures inbound == (old(inbound) || a.Addr?) && outbound == (old(outbound) || a.Addr?)
    {
      a := BuildAddress(name, ip, port);
      if a.Addr? {
        inbound, outbound := true, true;
      }
    }

    method Lookup(w: World, cache: ResolveCache, name: string, ip: string, now: int) returns (found: Resolved)
      requires cache.Valid() && name != ""
      modifies cache, cache.keys
      ensures cache.Valid() && found == LookupAnswer(old(cache.View()), w, name, now)
      ensures cache.View() == LookupRing(old(cache.View()), w, name, now)
    {
      var f := cache.Lookup(name, now);
      if f.ip == "" {
        var ups := w.resolve(name);
        if |ups| > 0 {
          cache.Store(name, ups[0], StateNew, now, RESOLVE_TTL);
          return Resolved(ups[0], StateNew);
        }
      }
      return Resolved(f.ip, f.state);
    }

    /** The proxy branch. */
    method DialRemote(w: World, p: Proxy, q: Query, remoteDNS: bool) returns (err: Error)
      requires p.server != ""
      modifies this
      ensures err == Verdict(w, Remote(p, q, remoteDNS)) && tried == old(tried) + Tries(w, Remote(p, q, remoteDNS))
      ensures err == Nil ==> conn == Made(Remote(p, q, remoteDNS).a) && inbound && outbound && curState == PhaseNew
    {
      var target;
      if remoteDNS {
        var name := if q.name == "" then q.ip else q.name;
        target := BuildAddress(name, "", q.port);
      } else {
        target := BuildAddress("", q.ip, q.port);
      }
      if BadTarget(target) {
        return TargetEmpty;
      }
      var at := CountedAddress(p.server, "", p.port);
      match p.scheme {
        case "socks5" =>
          err := Dial(w, ViaSocks5(at, target));
        case "tunnel" =>
          err := Dial(w, ViaConnect(at, target, true));
        case "http" =>
          if q.proto == "http" {
            err := Dial(w, ViaPlain(at));
          } else {
            err := Dial(w, ViaConnect(at, target, false));
          }
        case _ =>
          return BadScheme;
      }
      if err == Nil {
        curState := PhaseNew;
      }
    }

    method DialLocal(w: World, q: Query) returns (err: Error)
      modifies this
      ensures err == Verdict(w, Local(q)) && tried == old(tried) + Tries(w, Local(q))
      ensures err == Nil ==> conn == Made(Local(q).a) && inbound && outbound && curState == PhaseNew
    {
      var a := CountedAddress(q.name, q.ip, q.port);
      if a.NoAddr? {
        return NoDestination;
      }
      err := Dial(w, Direct(a, false));
      if err == Nil {
        curState := PhaseNew;
      }
    }

    /** The first proxy of a rule's list that answers a probe. */
    method FirstReachable(w: World, list: string) returns (up: Probe)
      ensures up == FirstUp(w, Split(list, ","))
    {
      var specs := Split(list, ",");
      var i := 0;
      while i < |specs|
        invariant i <= |specs| && FirstUp(w, specs) == FirstUp(w, specs[i..])
      {
        up := ProbeOne(w, TrimSpace(specs[i]));
        if up.Up? {
          return;
        }
        assert specs[i..][1..] == specs[i + 1..];
        i := i + 1;
      }
      up := Down;
    }

    /** Carries out the choice between direct, quick direct then proxy, and proxy. */
    method Connect(w: World, cache: ResolveCache, now: int, p: Proxy, target: string, q: Query) returns (err: Error)
      requires cache.Valid()
      modifies this, cache, cache.keys
      ensures cache.Valid() && cache.View() == Noted(old(cache.View()), w, ByTarget(p, target, q), q, now)
      ensures err == Verdict(w, ByTarget(p, target, q)) && tried == old(tried) + Tries(w, ByTarget(p, target, q))
      ensures err == Nil ==> tried != [] && conn == Made(tried[|tried| - 1]) && inbound && outbound && curState == PhaseNew
    {
      hide StoreIn;
      if p.server == "" || p.port == 0 || target == "local" {
        err := DialLocal(w, q);
        return;
      }
      if target != "auto" {
        err := DialRemote(w, p, q, q.remoteDNS);
        return;
      }
      if q.state != StateFail {
        var a := CountedAddress(q.name, q.ip, q.port);
        if a.Addr? {
          err := Dial(w, Direct(a, true));
          if err == Nil {
            curState := PhaseNew;
            return;
          }
        }
        if q.name != "" && q.ip != "" {
          cache.Store(q.name, q.ip, StateFail, now, FAIL_TTL);
        }
      }
      err := DialRemote(w, p, q, true);
    }

    method Handshake(cfg: Config, w: World, cache: ResolveCache, now: int, r: Request) returns (err: Error)
      requires cache.Valid()
      modifies this, cache, cache.keys
      ensures cache.Valid() && cache.View() == RingAfter(cfg, w, old(cache.View()), r, now)
      ensures !w.allows(RuleFor(cfg, r)) ==> err == NotAllowed && unchanged(this)
      ensures w.allows(RuleFor(cfg, r)) && TargetFor(cfg, r) == "deny" ==> err == DenyVisit && unchanged(this)
      ensures err == Verdict(w, PlanOf(cfg, w, old(cache.View()), r, now))
      ensures tried == old(tried) + Tries(w, PlanOf(cfg, w, old(cache.View()), r, now))
      ensures err == Nil ==> tried != [] && conn == Made(tried[|tried| - 1]) && inbound && outbound && curState == PhaseNew
    {
      hide StoreIn, FindIn, LookupIn, SplitOp, FirstUp, ByTarget, Resolves;
      ghost var was := cache.View();
      var rule := FindHost(cfg, r.name, r.ip);
      if !w.allows(rule) {
        return NotAllowed;
      }
      var target := TargetFor(cfg, r);
      var found := Resolved(if rule.ip != "" then rule.ip else r.ip, StateNew);
      if Resolves(cfg, r) {
        OnlyNames(cfg, r);
        found := Lookup(w, cache, r.name, r.ip, now);
      }
      var port := FindPort(rule.ports, r.port);
      var q := Query(r.proto, r.name, found.ip, port, found.state, !Resolves(cfg, r) && DNSFor(cfg, r) == "remote");
      if target == "deny" {
        return DenyVisit;
      }
      var p, way := cfg.global, target;
      if rule.proxy != "" {
        var custom := SplitOp(rule.proxy);
        var up := FirstReachable(w, custom.list);
        if up.Up? {
          p, way := up.proxy, "remote";
        } else if custom.op == "last" {
          p := p.(server := "");
        } else if custom.op == "deny" {
          return AllProxyFail;
        }
      }
      assert PlanOf(cfg, w, was, r, now) == ByTarget(p, way, q);
      err := Connect(w, cache, now, p, way, q);
    }
  }

  method FindHost(cfg: Config, name: string, ip: string) returns (h: Host)
    ensures h == FirstRule(cfg, cfg.hosts, name, ip)
  {
    var i := 0;
    while i < |cfg.hosts|
      invariant i <= |cfg.hosts| && FirstRule(cfg, cfg.hosts, name, ip) == FirstRule(cfg, cfg.hosts[i..], name, ip)
    {
      h := cfg.hosts[i];
      match GetString(h.match_, cfg.defMatch, "equal") {
        case "equal" =>
          if h.name == name || h.name == ip {
            return;
          }
        case "contain" =>
          if Contains(name, h.name) || Contains(ip, h.name) {
            return;
          }
        case _ =>
      }
      assert cfg.hosts[i..][1..] == cfg.hosts[i + 1..];
      i := i + 1;
    }
    h := NO_HOST;
  }

  method FindPort(ports: seq<PortMap>, port: nat) returns (to: nat)
    ensures to == MapPort(ports, port)
  {
    to := port;
    var i := 0;
    while i < |ports|
      invariant i <= |ports| && to == port && MapPort(ports, port) == MapPort(ports[i..], port)
    {
      if ports[i].src == port {
        return ports[i].dst;
      }
      assert ports[i..][1..] == ports[i + 1..];
      i := i + 1;
    }
  }
}
