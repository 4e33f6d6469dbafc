/** Where a connection goes, said of the attempts it makes and their outcome
    (proto/tunnel.go:274-533). */
module RouteMeans {
  import opened Texts
  import opened DnsCache
  import opened Route
  import opened Handshake
  import Routing

  // ---- The rule and what it says ----

  lemma {:induction false} ContainsMeans(s: string, t: string)
    ensures Contains(s, t) <==> exists pre, post :: s == pre + t + post
  {
    if Contains(s, t) {
      if t <= s {
        assert s == "" + t + s[|t|..];
      } else {
        ContainsMeans(s[1..], t);
        var pre, post :| s[1..] == pre + t + post;
        assert s == ([s[0]] + pre) + t + post;
      }
    }
    if pre, post :| s == pre + t + post {
      ContainsAt(s, t, pre, post);
    }
  }

  lemma {:induction false} ContainsAt(s: string, t: string, pre: string, post: string)
    requires s == pre + t + post
    ensures Contains(s, t)
  {
    if pre != "" {
      assert s[1..] == pre[1..] + t + post;
      ContainsAt(s[1..], t, pre[1..], post);
    } else {
      assert s == t + post;
    }
  }

  /** A rule applies to a name or an address that is its own, or contains it, by the
      rule's way to match, else the default one, else equality. */
  lemma {:induction false} MatchMeans(cfg: Config, h: Host, name: string, ip: string)
    ensures var way := if h.match_ != "" then h.match_ else if cfg.defMatch != "" then cfg.defMatch else "equal";
            Matches(cfg, h, name, ip) <==>
              || (way == "equal" && (name == h.name || ip == h.name))
              || (way == "contain" && exists pre, post :: name == pre + h.name + post || ip == pre + h.name + post)
  {
    ContainsMeans(name, h.name);
    ContainsMeans(ip, h.name);
    hide Contains;
  }

  /** The rule of a request is the first that applies, or one that says nothing. */
  lemma {:induction false} RuleMeans(cfg: Config, hosts: seq<Host>, name: string, ip: string)
    ensures (exists i :: 0 <= i < |hosts| && FirstRule(cfg, hosts, name, ip) == hosts[i] && Matches(cfg, hosts[i], name, ip)
                         && forall j :: 0 <= j < i ==> !Matches(cfg, hosts[j], name, ip))
            || (FirstRule(cfg, hosts, name, ip) == Host("", "", "", "", "", [], "")
                && forall j :: 0 <= j < |hosts| ==> !Matches(cfg, hosts[j], name, ip))
  {
    hide Matches;
    if hosts != [] && !Matches(cfg, hosts[0], name, ip) {
      RuleMeans(cfg, hosts[1..], name, ip);
      if i :| 0 <= i < |hosts[1..]| && FirstRule(cfg, hosts[1..], name, ip) == hosts[1..][i] && Matches(cfg, hosts[1..][i], name, ip)
              && forall j :: 0 <= j < i ==> !Matches(cfg, hosts[1..][j], name, ip) {
        assert hosts[i + 1] == hosts[1..][i];
        forall j | 0 <= j < i + 1
          ensures !Matches(cfg, hosts[j], name, ip)
        {
          assert j > 0 ==> hosts[j] == hosts[1..][j - 1];
        }
      } else {
        forall j | 0 <= j < |hosts|
          ensures !Matches(cfg, hosts[j], name, ip)
        {
          assert j > 0 ==> hosts[j] == hosts[1..][j - 1];
        }
      }
    } else if hosts != [] {
      assert Matches(cfg, hosts[0], name, ip);
    }
  }

  /** The port is the first mapping's, or stays. */
  lemma {:induction false} PortMeans(ports: seq<PortMap>, port: nat)
    ensures (exists i :: 0 <= i < |ports| && ports[i].src == port && MapPort(ports, port) == ports[i].dst
                         && forall j :: 0 <= j < i ==> ports[j].src != port)
            || (MapPort(ports, port) == port && forall j :: 0 <= j < |ports| ==> ports[j].src != port)
  {
    if ports != [] {
      if ports[0].src != port {
        PortMeans(ports[1..], port);
        if i :| 0 <= i < |ports[1..]| && ports[1..][i].src == port && MapPort(ports[1..], port) == ports[1..][i].dst
                && forall j :: 0 <= j < i ==> ports[1..][j].src != port {
          assert ports[i + 1] == ports[1..][i];
          assert forall j :: 1 <= j < i + 1 ==> ports[j] == ports[1..][j - 1];
        } else {
          assert forall j :: 1 <= j < |ports| ==> ports[j] == ports[1..][j - 1];
        }
      } else {
        assert ports[0].src == port && MapPort(ports, port) == ports[0].dst;
      }
    }
  }

  /** What is known of a request: a rule's own address; or with remote resolution or no
      name the request's; or the cached address, if it has not expired, with its state; or
      the resolver's first one. */
  lemma {:induction false} QueryMeans(cfg: Config, w: World, c: Ring, r: Request, now: int)
    ensures var rule, q := RuleFor(cfg, r), QueryFor(cfg, w, c, r, now);
            var dns := if rule.dns != "" then rule.dns else if cfg.defDNS != "" then cfg.defDNS else "local";
            var cached := r.name in c.ips && c.ips[r.name].expires > now && c.ips[r.name].ip != "";
            && q.proto == r.proto && q.name == r.name && q.port == MapPort(rule.ports, r.port) && (q.remoteDNS <==> dns == "remote")
            && (rule.ip != "" ==> q.ip == rule.ip && q.state == StateNew)
            && (rule.ip == "" && (r.name == "" || dns == "remote") ==> q.ip == r.ip && q.state == StateNew)
            && (rule.ip == "" && r.name != "" && dns != "remote" ==>
                  if cached then q.ip == c.ips[r.name].ip && q.state == c.ips[r.name].state
                  else if w.resolve(r.name) != [] then q.ip == w.resolve(r.name)[0] && q.state == StateNew
                  else q.ip == "")
  {
    hide FirstRule, MapPort;
  }

  /** The target is the rule's, else the default of its protocol, else "auto". */
  lemma {:induction false} TargetMeans(cfg: Config, r: Request)
    ensures var rule := RuleFor(cfg, r);
            var def := if r.proto == "tcp" then cfg.defTCPTarget else cfg.defTarget;
            TargetFor(cfg, r) == if rule.target != "" then rule.target else if def != "" then def else "auto"
  {
    hide FirstRule;
  }

  // ---- The attempts ----

  /** The IP if there is one, else the name. */
  predicate Reaches(a: Addr, name: string, ip: string, port: nat) {
    if ip != "" then a == Addr(ip, port, ':' in ip) else name != "" && a == Addr(name, port, false)
  }

  /** One attempt that decides. */
  predicate Once(w: World, tries: seq<Attempt>, err: Error, a: Attempt) {
    tries == [a] && err == if w.connects(a) then Nil else DialFail
  }

  /** One direct dial, or none with nowhere to go. */
  ghost predicate GoesDirect(w: World, tries: seq<Attempt>, err: Error, q: Query) {
    if q.ip == "" && q.name == "" then tries == [] && err == NoDestination
    else exists a :: Reaches(a, q.name, q.ip, q.port) && Once(w, tries, err, Direct(a, false))
  }

  /** What a proxy is asked, by its scheme. */
  predicate Asks(w: World, tries: seq<Attempt>, err: Error, p: Proxy, at: Addr, target: Addr, proto: string) {
    if p.scheme == "socks5" then Once(w, tries, err, ViaSocks5(at, target))
    else if p.scheme == "tunnel" then Once(w, tries, err, ViaConnect(at, target, true))
    else if p.scheme == "http" && proto == "http" then Once(w, tries, err, ViaPlain(at))
    else if p.scheme == "http" then Once(w, tries, err, ViaConnect(at, target, false))
    else tries == [] && err == BadScheme
  }

  /** Through a proxy, with the name to be resolved there, or with the address. */
  predicate GoesThrough(w: World, tries: seq<Attempt>, err: Error, p: Proxy, q: Query, byName: bool) {
    var host := if !byName then q.ip else if q.name != "" then q.name else q.ip;
    if host == "" || (byName && host[0] == ':') then tries == [] && err == TargetEmpty
    else Asks(w, tries, err, p, Addr(p.server, p.port, false), Addr(host, q.port, !byName && ':' in host), q.proto)
  }

  /** A quick direct dial, unless one failed lately or there is nowhere to dial; the proxy
      behind it, by name. */
  ghost predicate GoesAuto(w: World, tries: seq<Attempt>, err: Error, p: Proxy, q: Query) {
    if q.state == StateFail || (q.ip == "" && q.name == "") then GoesThrough(w, tries, err, p, q, true)
    else
      tries != [] && tries[0].Direct? && tries[0].quick && Reaches(tries[0].addr, q.name, q.ip, q.port)
      && if w.connects(tries[0]) then tries == [tries[0]] && err == Nil else GoesThrough(w, tries[1..], err, p, q, true)
  }

  /** By proxy and target: without a proxy, or for "local", direct. */
  ghost predicate Goes(w: World, tries: seq<Attempt>, err: Error, p: Proxy, target: string, q: Query) {
    if p.server == "" || p.port == 0 || target == "local" then GoesDirect(w, tries, err, q)
    else if target == "auto" then GoesAuto(w, tries, err, p, q)
    else GoesThrough(w, tries, err, p, q, q.remoteDNS)
  }

  /** The `i`-th of a rule's own proxies is the first that answers. */
  predicate Answers(w: World, specs: seq<string>, i: nat) {
    && i < |specs| && ProbeOne(w, TrimSpace(specs[i])).Up?
    && forall j :: 0 <= j < i ==> ProbeOne(w, TrimSpace(specs[j])).Down?
  }

  predicate NoneAnswers(w: World, specs: seq<string>) {
    forall j :: 0 <= j < |specs| ==> ProbeOne(w, TrimSpace(specs[j])).Down?
  }

  lemma {:induction false} GoesIs(w: World, p: Proxy, target: string, q: Query)
    ensures var plan := ByTarget(p, target, q); Goes(w, Tries(w, plan), Verdict(w, plan), p, target, q)
  {
    var a := BuildAddress(q.name, q.ip, q.port);
    assert a.Addr? ==> Reaches(a, q.name, q.ip, q.port);
    if p.server == "" || p.port == 0 || target == "local" {
      hide Remote;
    } else if target == "auto" {
      RemoteIs(w, p, q, true);
      hide Remote, GoesThrough;
      var plan := Auto(p, q);
      if plan.TryThen? && !w.connects(plan.a) {
        assert Tries(w, plan)[1..] == Tries(w, plan.next);
      }
    } else {
      RemoteIs(w, p, q, q.remoteDNS);
      hide Remote, GoesThrough;
    }
  }

  lemma {:induction false} RemoteIs(w: World, p: Proxy, q: Query, byName: bool)
    requires p.server != ""
    ensures GoesThrough(w, Tries(w, Remote(p, q, byName)), Verdict(w, Remote(p, q, byName)), p, q, byName)
    ensures !Remote(p, q, byName).TryThen?
  {
  }

  /** The whole route.  A client that is not allowed is refused, and so is a target
      "deny", both without an attempt; a rule's own proxies are asked first and force the
      way through the first that answers; if none does the letters behind them refuse or
      leave the proxies out; else the configured proxy is used. */
  ghost predicate GoesBy(cfg: Config, w: World, rule: Host, target: string, q: Query, tries: seq<Attempt>, err: Error) {
    var own := SplitOp(rule.proxy);
    var specs := Split(own.list, ",");
    if !w.allows(rule) then tries == [] && err == NotAllowed
    else if target == "deny" then tries == [] && err == DenyVisit
    else if rule.proxy == "" then Goes(w, tries, err, cfg.global, target, q)
    else
      && (forall i: nat :: Answers(w, specs, i) ==> Goes(w, tries, err, ProbeOne(w, TrimSpace(specs[i])).proxy, "remote", q))
      && (NoneAnswers(w, specs) ==>
            if own.op == "deny" then tries == [] && err == AllProxyFail
            else if own.op == "last" then GoesDirect(w, tries, err, q)
            else Goes(w, tries, err, cfg.global, target, q))
  }

  lemma {:induction false} WholeRoute(cfg: Config, w: World, c: Ring, r: Request, now: int)
    ensures var plan := PlanOf(cfg, w, c, r, now);
            GoesBy(cfg, w, RuleFor(cfg, r), TargetFor(cfg, r), QueryFor(cfg, w, c, r, now), Tries(w, plan), Verdict(w, plan))
  {
    var rule, target, q := RuleFor(cfg, r), TargetFor(cfg, r), QueryFor(cfg, w, c, r, now);
    if w.allows(rule) {
      PlanGoes(cfg, w, rule, target, q);
    }
    hide PlanFor, GoesBy, RuleFor, TargetFor, QueryFor;
    assert PlanOf(cfg, w, c, r, now) == if !w.allows(rule) then Refuse(NotAllowed) else PlanFor(cfg, w, rule, target, q);
    if !w.allows(rule) {
      NotAllowedGoes(cfg, w, rule, target, q);
    }
  }

  lemma {:induction false} NotAllowedGoes(cfg: Config, w: World, rule: Host, target: string, q: Query)
    requires !w.allows(rule)
    ensures GoesBy(cfg, w, rule, target, q, Tries(w, Refuse(NotAllowed)), Verdict(w, Refuse(NotAllowed)))
  {
    hide SplitOp, Split;
  }

  lemma {:induction false} PlanGoes(cfg: Config, w: World, rule: Host, target: string, q: Query)
    requires w.allows(rule)
    ensures var plan := PlanFor(cfg, w, rule, target, q); GoesBy(cfg, w, rule, target, q, Tries(w, plan), Verdict(w, plan))
  {
    hide SplitOp, Split, ProbeOne, TrimSpace, ByTarget, Goes, GoesDirect;
    var own := SplitOp(rule.proxy);
    var specs := Split(own.list, ",");
    var up := FirstUp(w, specs);
    GoesIs(w, cfg.global, target, q);
    LastIsDirect(w, cfg.global, target, q);
    FirstUpIsFirst(w, specs);
    forall i: nat | Answers(w, specs, i)
      ensures up == ProbeOne(w, TrimSpace(specs[i]))
    {
    }
    if up.Up? {
      GoesIs(w, up.proxy, "remote", q);
    }
    hide FirstUp;
    if target == "deny" || (rule.proxy != "" && up.Down? && own.op == "deny") {
      hide Answers, NoneAnswers;
    } else {
      hide Tries, Verdict;
    }
  }

  lemma {:induction false} LastIsDirect(w: World, p: Proxy, target: string, q: Query)
    ensures var plan := ByTarget(p.(server := ""), target, q); GoesDirect(w, Tries(w, plan), Verdict(w, plan), q)
  {
    GoesIs(w, p.(server := ""), target, q);
    hide ByTarget, GoesDirect, GoesAuto, GoesThrough;
  }

  /** So the handshake makes these attempts and no others and ends like that; refused, it
      touches nothing. */
  method CarryOut(tunnel: Tunnel, cfg: Config, w: World, cache: ResolveCache, now: int, r: Request)
    returns (err: Error, ghost tries: seq<Attempt>)
    requires cache.Valid()
    modifies tunnel, cache, cache.keys
    ensures tunnel.tried == old(tunnel.tried) + tries
    ensures GoesBy(cfg, w, RuleFor(cfg, r), TargetFor(cfg, r), QueryFor(cfg, w, old(cache.View()), r, now), tries, err)
    ensures err == Nil ==> tries != [] && tunnel.conn == Made(tries[|tries| - 1])
    ensures !w.allows(RuleFor(cfg, r)) || TargetFor(cfg, r) == "deny" ==> unchanged(tunnel)
  {
    ghost var c := cache.View();
    WholeRoute(cfg, w, c, r, now);
    Routing.SucceedsWithLastTry(cfg, w, c, r, now);
    hide *;
    err := tunnel.Handshake(cfg, w, cache, now, r);
    tries := Tries(w, PlanOf(cfg, w, c, r, now));
  }

  /** What is left in the cache: an address the resolver gave, for ten minutes; and the
      address of a name whose quick dial failed, for an hour. */
  lemma {:induction false} CacheMeans(cfg: Config, w: World, c: Ring, r: Request, now: int)
    requires c.Ok() && w.allows(RuleFor(cfg, r))
    ensures var q, plan, after := QueryFor(cfg, w, c, r, now), PlanOf(cfg, w, c, r, now), RingAfter(cfg, w, c, r, now);
            var cached := r.name in c.ips && c.ips[r.name].expires > now && c.ips[r.name].ip != "";
            var failed := plan.TryThen? && !w.connects(plan.a) && r.name != "" && q.ip != "";
            && (failed ==> r.name in after.ips && after.ips[r.name] == Entry(q.ip, StateFail, now + 3600))
            && (!failed && Resolves(cfg, r) && !cached && w.resolve(r.name) != [] ==>
                  r.name in after.ips && after.ips[r.name] == Entry(w.resolve(r.name)[0], StateNew, now + 600))
  {
    hide PlanOf, RuleFor, Resolves, DNSFor, MapPort;
  }

  // ---- A rule's own proxies ----

  /** Four letters behind a final space are no part of the list. */
  lemma {:induction false} OwnProxiesMean(list: string, op: string)
    requires |op| == 4
    ensures SplitOp(list + " " + op) == ProxyList(list, op)
  {
    var p := list + " " + op;
    assert p[|p| - 5] == ' ' && p[..|p| - 5] == list && p[|p| - 4..] == op;
  }

  lemma {:induction false} NoLetters(list: string)
    requires |list| < 5 || list[|list| - 5] != ' '
    ensures SplitOp(list) == ProxyList(list, "")
  {
  }

  lemma {:induction false} SplitAt(a: string, sep: string, b: string, piece: string)
    requires sep != "" && sep[0] !in a
    ensures SplitFrom(a + sep + b, sep, piece) == [piece + a] + SplitFrom(b, sep, "")
  {
    var s := a + sep + b;
    if a == "" {
      assert s == sep + b && s[|sep|..] == b && piece + a == piece;
    } else {
      assert s[0] == a[0] && s[1..] == a[1..] + sep + b && !(sep <= s);
      SplitAt(a[1..], sep, b, piece + [s[0]]);
      assert piece + [s[0]] + a[1..] == piece + a;
    }
  }

  function Joined(xs: seq<string>): string
    requires xs != []
  {
    if |xs| == 1 then xs[0] else xs[0] + "," + Joined(xs[1..])
  }

  /** A list is taken apart at its commas. */
  lemma {:induction false} CommasMean(xs: seq<string>)
    requires xs != [] && forall i :: 0 <= i < |xs| ==> ',' !in xs[i]
    ensures Split(Joined(xs), ",") == xs
  {
    assert "" + xs[0] == xs[0];
    if |xs| == 1 {
      Routing.SplitNone(xs[0], ",", "", ',');
    } else {
      CommasMean(xs[1..]);
      SplitAt(xs[0], ",", Joined(xs[1..]), "");
      assert xs == [xs[0]] + xs[1..];
    }
  }

  /** A proxy is written as scheme, host and port, or without the scheme for a tunnel; it
      is up if it answers on that port, cut to sixteen bits. */
  lemma {:induction false} ProxyMeans(w: World, scheme: string, host: string, n: nat)
    requires ':' !in scheme && ':' !in host && n <= MAX_INT64
    ensures ProbeOne(w, scheme + "://" + (host + ":" + Digits(n)))
            == if w.reach(host, n % 65536) then Up(Proxy(scheme, host, n % 65536)) else Down
    ensures ProbeOne(w, host + ":" + Digits(n))
            == if w.reach(host, n % 65536) then Up(Proxy("tunnel", host, n % 65536)) else Down
  {
    hide Split, Digits, Atoi;
    var spec := host + ":" + Digits(n);
    HostAndPort(host, n);
    assert SchemeOf(scheme, spec) by {
      hide Digits;
      SchemeAndRest(scheme, host, n);
    }
  }

  predicate SchemeOf(scheme: string, spec: string) {
    Split(scheme + "://" + spec, "://") == [scheme, spec]
  }

  lemma {:induction false} NumberMeans(n: nat)
    requires n <= MAX_INT64
    ensures Atoi(Digits(n)) == Int(n) && ':' !in Digits(n) && '/' !in Digits(n)
  {
    DigitsMean(n);
    hide Digits, Decimal;
    assert '0' <= Digits(n)[0] <= '9';
  }

  lemma {:induction false} HostAndPort(host: string, n: nat)
    requires ':' !in host && n <= MAX_INT64
    ensures Split(host + ":" + Digits(n), ":") == [host, Digits(n)] && Atoi(Digits(n)) == Int(n)
    ensures Split(host + ":" + Digits(n), "://") == [host + ":" + Digits(n)]
  {
    NumberMeans(n);
    hide Digits, Atoi, SplitFrom;
    SplitAt(host, ":", Digits(n), "");
    Routing.SplitNone(Digits(n), ":", "", ':');
    assert "" + host == host && "" + Digits(n) == Digits(n);
    assert ":"[0] == ':' && "://"[0] == ':';
    NotSplit(host, Digits(n), "");
    assert "" + (host + ":" + Digits(n)) == host + ":" + Digits(n);
  }

  /** A colon without two slashes behind it separates no scheme. */
  lemma {:induction false} NotSplit(a: string, d: string, piece: string)
    requires ':' !in a && ':' !in d && '/' !in d
    ensures SplitFrom(a + ":" + d, "://", piece) == [piece + (a + ":" + d)]
  {
    var s := a + ":" + d;
    if a != "" {
      assert s[0] == a[0] && s[1..] == a[1..] + ":" + d && !("://" <= s);
      NotSplit(a[1..], d, piece + [s[0]]);
      assert piece + [s[0]] + s[1..] == piece + s;
    } else {
      assert s == ":" + d && s[1..] == d;
      assert |s| > 1 ==> s[1] == d[0] && s[1] != '/';
      assert "://"[1] == '/' && !("://" <= s);
      Routing.SplitNone(d, "://", piece + [':'], ':');
      assert piece + [':'] + d == piece + s;
    }
  }

  lemma {:induction false} SchemeAndRest(scheme: string, host: string, n: nat)
    requires ':' !in scheme && ':' !in host && n <= MAX_INT64
    ensures SchemeOf(scheme, host + ":" + Digits(n))
  {
    var spec := host + ":" + Digits(n);
    HostAndPort(host, n);
    hide Digits, SplitFrom;
    SplitAt(scheme, "://", spec, "");
    assert "" + scheme == scheme;
  }
}
