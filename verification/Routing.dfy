/** What the routing rules amount to, and what the shared cache makes of many
    handshakes: a failed quick dial is not repeated (proto/tunnel.go:346-498). */
module Routing {
  import opened Texts
  import opened DnsCache
  import opened Route
  import opened Handshake

  // ---- One handshake ----

  /** An outright refusal, one attempt, or a quick direct dial with a proxy behind it. */
  lemma {:induction false} PlanForms(cfg: Config, w: World, c: Ring, r: Request, now: int)
    ensures var p := PlanOf(cfg, w, c, r, now);
            match p
            case Refuse(e) => e != Nil
            case Try(a) => a.Direct? ==> !a.quick
            case TryThen(a, next) =>
              a.Direct? && a.quick && next != Refuse(Nil) && !next.TryThen? && (next.Try? ==> !next.a.Direct?)
  {
    hide LookupAnswer, FirstUp, SplitOp, BuildAddress, BadTarget, MapPort, FirstRule, GetString;
  }

  /** A handshake succeeds exactly when its last attempt connects, and it only goes on
      to another attempt after a failure. */
  lemma {:induction false} SucceedsWithLastTry(cfg: Config, w: World, c: Ring, r: Request, now: int)
    ensures var p := PlanOf(cfg, w, c, r, now);
            var tries := Tries(w, p);
            && (Verdict(w, p) == Nil <==> tries != [] && w.connects(tries[|tries| - 1]))
            && (forall i :: 0 <= i < |tries| - 1 ==> !w.connects(tries[i]))
            && |tries| <= 2
  {
    PlanForms(cfg, w, c, r, now);
    hide PlanOf;
    var p := PlanOf(cfg, w, c, r, now);
    if p.TryThen? {
      assert Tries(w, p.next) == if p.next.Try? then [p.next.a] else [];
    }
  }

  // ---- A rule's own proxies ----

  function Specs(rule: Host): seq<string> {
    Split(SplitOp(rule.proxy).list, ",")
  }

  ghost predicate FirstUpAt(w: World, specs: seq<string>, i: nat) {
    && i < |specs| && ProbeOne(w, TrimSpace(specs[i])).Up?
    && forall j :: 0 <= j < i ==> ProbeOne(w, TrimSpace(specs[j])).Down?
  }

  lemma {:induction false} FirstUpAtDecides(w: World, specs: seq<string>, i: nat)
    requires FirstUpAt(w, specs, i)
    ensures FirstUp(w, specs) == ProbeOne(w, TrimSpace(specs[i]))
  {
    FirstUpIsFirst(w, specs);
  }

  /** The first of them that answers carries the connection and nothing is dialled
      directly, unless it was written without a host or with port zero. */
  lemma {:induction false} OwnProxyDecides(cfg: Config, w: World, c: Ring, r: Request, now: int, i: nat)
    requires var rule := RuleFor(cfg, r);
             w.allows(rule) && TargetFor(cfg, r) != "deny" && rule.proxy != "" && FirstUpAt(w, Specs(rule), i)
    ensures var p := ProbeOne(w, TrimSpace(Specs(RuleFor(cfg, r))[i])).proxy;
            var plan := PlanOf(cfg, w, c, r, now);
            && (p.server == "" || p.port == 0 ==> plan == Local(QueryFor(cfg, w, c, r, now)))
            && (p.server != "" && p.port != 0 ==>
                  forall a :: a in Tries(w, plan) ==> !a.Direct? && a.proxy == BuildAddress(p.server, "", p.port))
  {
    FirstUpAtDecides(w, Specs(RuleFor(cfg, r)), i);
    hide SplitOp, ProbeOne, FirstUp, QueryFor, RuleFor, TargetFor;
  }

  /** Such as ":80", where something answers at no host and port eighty. */
  lemma {:induction false} HostlessIsDirect(cfg: Config, w: World, c: Ring, r: Request, now: int)
    requires w.allows(RuleFor(cfg, r)) && TargetFor(cfg, r) != "deny" && RuleFor(cfg, r).proxy == ":80" && w.reach("", 80)
    ensures PlanOf(cfg, w, c, r, now) == Local(QueryFor(cfg, w, c, r, now))
  {
    var rule := RuleFor(cfg, r);
    HostlessProxy(w);
    assert Specs(rule) == [":80"] by { hide RuleFor; }
    OwnProxyDecides(cfg, w, c, r, now, 0);
  }

  lemma {:induction false} HostlessProxy(w: World)
    requires w.reach("", 80)
    ensures Split(SplitOp(":80").list, ",") == [":80"] && TrimSpace(":80") == ":80"
    ensures ProbeOne(w, ":80") == Up(Proxy("tunnel", "", 80))
  {
    hide Split, TrimSpace;
    OnePiece();
    assert Atoi("80") == Int(80) by { EightyIs(); }
  }

  lemma {:induction false} SplitNone(s: string, sep: string, piece: string, c: char)
    requires c in sep && c !in s
    ensures SplitFrom(s, sep, piece) == [piece + s]
  {
    if s != "" {
      SplitNone(s[1..], sep, piece + [s[0]], c);
      assert piece + [s[0]] + s[1..] == piece + s;
    } else {
      assert piece + s == piece;
    }
  }

  lemma {:induction false} OnePiece()
    ensures Split(":80", ",") == [":80"] && Split(":80", "://") == [":80"] && Split(":80", ":") == ["", "80"] && TrimSpace(":80") == ":80"
  {
    SplitNone(":80", ",", "", ',');
    SplitNone(":80", "://", "", '/');
    SplitNone("80", ":", "", ':');
    assert ":80"[1..] == "80" && "" + ":80" == ":80" && "" + "80" == "80";
  }

  lemma {:induction false} EightyIs()
    ensures Atoi("80") == Int(80)
  {
    assert "80"[..1] == "8" && "8"[..0] == "";
    assert Decimal("8") == 8;
  }

  /** With none of them up, the suffix says what happens: refuse, go without a proxy,
      or carry on as if the rule had named none. */
  lemma {:induction false} NoOwnProxyUp(cfg: Config, w: World, c: Ring, r: Request, now: int)
    requires var rule := RuleFor(cfg, r);
             w.allows(rule) && TargetFor(cfg, r) != "deny" && rule.proxy != ""
             && forall i :: 0 <= i < |Specs(rule)| ==> ProbeOne(w, TrimSpace(Specs(rule)[i])).Down?
    ensures var rule, plan, q := RuleFor(cfg, r), PlanOf(cfg, w, c, r, now), QueryFor(cfg, w, c, r, now);
            var op := SplitOp(rule.proxy).op;
            if op == "deny" then plan == Refuse(AllProxyFail)
            else if op == "last" then plan == Local(q)
            else plan == PlanFor(cfg, w, rule.(proxy := ""), TargetFor(cfg, r), q)
  {
    FirstUpIsFirst(w, Specs(RuleFor(cfg, r)));
    hide SplitOp, ProbeOne, FirstUp, QueryFor, RuleFor, TargetFor;
  }

  // ---- Many handshakes ----

  datatype Visit = Visit(w: World, r: Request, now: int)

  function RingRun(cfg: Config, c: Ring, visits: seq<Visit>): (r: Ring)
    requires c.Ok()
    ensures r.Ok()
  {
    if visits == [] then c
    else
      var v := visits[|visits| - 1];
      RingAfter(cfg, v.w, RingRun(cfg, c, visits[..|visits| - 1]), v.r, v.now)
  }

  /** A failed dial is on record, at least until then. */
  predicate OnRecord(c: Ring, name: string, until: int) {
    name in c.ips && c.ips[name].state == StateFail && c.ips[name].ip != "" && c.ips[name].expires >= until
  }

  lemma {:induction false} OnRecordBefore(c: Ring, name: string, until: int, sooner: int)
    requires OnRecord(c, name, until) && sooner <= until
    ensures OnRecord(c, name, sooner)
  {
  }

  /** The way of a handshake that would dial directly first if nothing were known. */
  predicate TriesDirectFirst(cfg: Config, w: World, r: Request) {
    var rule := RuleFor(cfg, r);
    && w.allows(rule) && TargetFor(cfg, r) == "auto" && Resolves(cfg, r)
    && cfg.global.server != "" && cfg.global.port != 0
    && (rule.proxy == ""
        || (FirstUp(w, Specs(rule)).Down? && SplitOp(rule.proxy).op != "deny" && SplitOp(rule.proxy).op != "last"))
  }

  /** Failing is noted, for an hour. */
  lemma {:induction false} FailureIsNoted(cfg: Config, c: Ring, v: Visit)
    requires c.Ok() && Resolves(cfg, v.r) && QueryFor(cfg, v.w, c, v.r, v.now).ip != ""
    requires Missed(v.w, PlanOf(cfg, v.w, c, v.r, v.now))
    ensures OnRecord(RingAfter(cfg, v.w, c, v.r, v.now), v.r.name, v.now + FAIL_TTL)
  {
    hide LookupRing, LookupAnswer, PlanFor, RuleFor, TargetFor, DNSFor;
  }

  /** While it is on record, such a handshake uses the proxy at once, names the host to
      it so that it resolves there, and leaves the cache as it is. */
  lemma {:induction false} GoesAround(cfg: Config, c: Ring, v: Visit)
    requires c.Ok() && TriesDirectFirst(cfg, v.w, v.r) && OnRecord(c, v.r.name, v.now + 1)
    ensures var plan := PlanOf(cfg, v.w, c, v.r, v.now);
            && plan == Remote(cfg.global, QueryFor(cfg, v.w, c, v.r, v.now), true)
            && (forall a :: a in Tries(v.w, plan) ==>
                  && !a.Direct?
                  && (a.ViaPlain? || a.target == Addr(v.r.name, MapPort(RuleFor(cfg, v.r).ports, v.r.port), false)))
    ensures RingAfter(cfg, v.w, c, v.r, v.now) == c
  {
    hide MapPort, RuleFor, TargetFor, DNSFor, FirstUp, SplitOp, BadTarget;
    assert LookupAnswer(c, v.w, v.r.name, v.now).state == StateFail;
    assert LookupRing(c, v.w, v.r.name, v.now) == c;
  }

  /** One handshake takes at most one slot of the ring, and forgets a failure only by
      taking the slot of its name. */
  lemma {:induction false} StaysOnRecord(cfg: Config, c: Ring, v: Visit, name: string, until: int)
    requires c.Ok() && OnRecord(c, name, until) && v.now < until <= v.now + FAIL_TTL
    ensures var c' := RingAfter(cfg, v.w, c, v.r, v.now);
            && (if name in c'.ips then OnRecord(c', name, until) else c.keys[c.next] == name)
            && ((c'.next == c.next && c'.keys == c.keys)
                || (c'.next == (c.next + 1) % SLOTS && c'.keys == c.keys[c.next := v.r.name]))
  {
    hide MapPort, RuleFor, TargetFor, DNSFor, PlanOf, Missed;
    var q := QueryFor(cfg, v.w, c, v.r, v.now);
    var c1 := if Resolves(cfg, v.r) then LookupRing(c, v.w, v.r.name, v.now) else c;
    assert q.name == v.r.name;
    if Resolves(cfg, v.r) && q.ip != "" {
      assert v.r.name in c1.ips;
    }
  }

  /** Nobody took it off: it is still there after each of the handshakes. */
  ghost predicate NotEvicted(cfg: Config, c: Ring, visits: seq<Visit>, name: string)
    requires c.Ok()
  {
    forall i :: 0 <= i <= |visits| ==> name in RingRun(cfg, c, visits[..i]).ips
  }

  ghost predicate Within(visits: seq<Visit>, until: int) {
    forall v :: v in visits ==> v.now < until <= v.now + FAIL_TTL
  }

  lemma {:induction false} FailureIsRemembered(cfg: Config, c: Ring, visits: seq<Visit>, name: string, until: int)
    requires c.Ok() && OnRecord(c, name, until) && Within(visits, until) && NotEvicted(cfg, c, visits, name)
    ensures OnRecord(RingRun(cfg, c, visits), name, until)
  {
    if visits != [] {
      var front, v := visits[..|visits| - 1], visits[|visits| - 1];
      assert NotEvicted(cfg, c, front, name) by {
        assert forall i :: 0 <= i <= |front| ==> front[..i] == visits[..i];
      }
      FailureIsRemembered(cfg, c, front, name, until);
      hide RingAfter, OnRecord;
      StaysOnRecord(cfg, RingRun(cfg, c, front), v, name, until);
      assert visits[..|visits|] == visits;
    }
  }

  /** `s` is `c` after `m` slots were reused. */
  ghost predicate Reused(c: Ring, s: Ring, m: nat) {
    && c.Ok() && s.Ok() && s.next == (c.next + m) % SLOTS
    && forall j :: m <= j < SLOTS ==> s.keys[c.Slot(j)] == c.keys[c.Slot(j)]
  }

  lemma {:induction false} ReusedStep(c: Ring, s: Ring, s': Ring, m: nat, name: string) returns (m': nat)
    requires Reused(c, s, m) && s'.Ok()
    requires (s'.next == s.next && s'.keys == s.keys)
             || (s'.next == (s.next + 1) % SLOTS && s'.keys == s.keys[s.next := name])
    ensures Reused(c, s', m') && m' <= m + 1
  {
    if s'.next == s.next {
      return m;
    }
    m' := m + 1;
    NextSlot(c.next, m);
    forall j | m + 1 <= j < SLOTS
      ensures s'.keys[c.Slot(j)] == c.keys[c.Slot(j)]
    {
      SlotsDiffer(c.next, m, j);
    }
  }

  lemma {:induction false} NotEvictedSnoc(cfg: Config, c: Ring, visits: seq<Visit>, name: string)
    requires c.Ok() && visits != [] && NotEvicted(cfg, c, visits[..|visits| - 1], name)
    requires name in RingRun(cfg, c, visits).ips
    ensures NotEvicted(cfg, c, visits, name)
  {
    hide RingRun;
    var front := visits[..|visits| - 1];
    forall i | 0 <= i <= |visits|
      ensures name in RingRun(cfg, c, visits[..i]).ips
    {
      assert visits[..i] == if i == |visits| then visits else front[..i];
    }
  }

  lemma {:induction false} RunSnoc(cfg: Config, c: Ring, visits: seq<Visit>, until: int)
    requires c.Ok() && visits != [] && Within(visits, until)
    ensures var v, front := visits[|visits| - 1], visits[..|visits| - 1];
            && RingRun(cfg, c, visits) == RingAfter(cfg, v.w, RingRun(cfg, c, front), v.r, v.now)
            && v.now < until <= v.now + FAIL_TTL && Within(front, until)
  {
    hide RingAfter;
    assert visits[|visits| - 1] in visits;
  }

  /** The slots the handshakes can have reused are the next ones, so a failure cannot be
      evicted before its name comes up among them. */
  lemma {:induction false} EvictedOnlyInTurn(cfg: Config, c: Ring, visits: seq<Visit>, name: string, until: int)
    returns (m: nat)
    requires c.Ok() && OnRecord(c, name, until) && Within(visits, until) && |visits| <= SLOTS
    requires forall j :: 0 <= j < |visits| ==> c.keys[c.Slot(j)] != name
    ensures NotEvicted(cfg, c, visits, name) && m <= |visits| && Reused(c, RingRun(cfg, c, visits), m)
  {
    m := 0;
    if visits == [] {
      return;
    }
    hide RingAfter, RingRun, OnRecord, NotEvicted, Within;
    var front, v := visits[..|visits| - 1], visits[|visits| - 1];
    RunSnoc(cfg, c, visits, until);
    m := EvictedOnlyInTurn(cfg, c, front, name, until);
    FailureIsRemembered(cfg, c, front, name, until);
    var s, s' := RingRun(cfg, c, front), RingRun(cfg, c, visits);
    StaysOnRecord(cfg, s, v, name, until);
    assert s.next == c.Slot(m) && s.keys[s.next] == c.keys[c.Slot(m)];
    NotEvictedSnoc(cfg, c, visits, name);
    m := ReusedStep(c, s, s', m, v.r.name);
  }

  /** The main result: once a quick direct dial to a resolved name has failed, then for
      an hour, whatever handshakes come in between, no handshake for that name dials it
      directly; every one goes to the proxy with the name, as long as the ring has not
      evicted the note. */
  lemma {:induction false} NeverDialsDirectAgain(cfg: Config, c: Ring, first: Visit, between: seq<Visit>, v: Visit)
    requires c.Ok() && Resolves(cfg, first.r) && QueryFor(cfg, first.w, c, first.r, first.now).ip != ""
    requires Missed(first.w, PlanOf(cfg, first.w, c, first.r, first.now))
    requires Within(between + [v], first.now + FAIL_TTL)
    requires NotEvicted(cfg, RingAfter(cfg, first.w, c, first.r, first.now), between, first.r.name)
    requires v.r.name == first.r.name && TriesDirectFirst(cfg, v.w, v.r)
    ensures var c' := RingRun(cfg, RingAfter(cfg, first.w, c, first.r, first.now), between);
            PlanOf(cfg, v.w, c', v.r, v.now) == Remote(cfg.global, QueryFor(cfg, v.w, c', v.r, v.now), true)
    ensures var c' := RingRun(cfg, RingAfter(cfg, first.w, c, first.r, first.now), between);
            forall a :: a in Tries(v.w, PlanOf(cfg, v.w, c', v.r, v.now)) ==>
              && !a.Direct?
              && (a.ViaPlain? || a.target == Addr(v.r.name, MapPort(RuleFor(cfg, v.r).ports, v.r.port), false))
  {
    var until := first.now + FAIL_TTL;
    assert v in between + [v] && v.now < until && Within(between, until);
    hide *;
    FailureIsNoted(cfg, c, first);
    FailureIsRemembered(cfg, RingAfter(cfg, first.w, c, first.r, first.now), between, first.r.name, until);
    var c' := RingRun(cfg, RingAfter(cfg, first.w, c, first.r, first.now), between);
    OnRecordBefore(c', v.r.name, until, v.now + 1);
    GoesAround(cfg, c', v);
  }
}
