/** The resolve cache: a map of entries bounded by a ring of names, after
    utils/cache/cache.go. */
module DnsCache {

  const SLOTS := 65536

  datatype DialState = StateNew | StateFail | StateNone

  datatype Entry = Entry(ip: string, state: DialState, expires: int)

  type Entries = map<string, Entry>

  datatype Ring = Ring(ips: Entries, keys: seq<string>, next: nat) {
    predicate Ok() {
      |keys| == SLOTS && next < SLOTS
    }

    /** The slot that is reused `j` insertions from now. */
    function Slot(j: nat): (i: nat)
      requires Ok()
      ensures i < |keys|
    {
      (next + j) % SLOTS
    }
  }

  /** The cache at the start. */
  function Empty(): (c: Ring)
    ensures c.Ok() && forall i :: 0 <= i < SLOTS ==> c.keys[i] == ""
  {
    Ring(map[], seq(SLOTS, _ => ""), 0)
  }

  datatype Found = Found(ip: string, state: DialState)

  /** A known host is overwritten in place; a new one takes the next slot and evicts
      whoever is named there. */
  function StoreIn(c: Ring, host: string, e: Entry): Ring
    requires c.Ok()
  {
    if host in c.ips then c.(ips := c.ips[host := e])
    else Ring((c.ips - {c.keys[c.next]})[host := e], c.keys[c.next := host], (c.next + 1) % SLOTS)
  }

  function FindIn(c: Ring, host: string, now: int): Found {
    if host in c.ips && c.ips[host].expires > now then Found(c.ips[host].ip, c.ips[host].state)
    else Found("", StateNone)
  }

  /** An expired entry is dropped when it is looked up; its slot keeps the name. */
  function LookupIn(c: Ring, host: string, now: int): Ring {
    if host in c.ips && c.ips[host].expires <= now then c.(ips := c.ips - {host}) else c
  }

  /** Go's `&`, bit by bit. */
  function BitAnd(x: nat, y: nat): nat {
    if x == 0 || y == 0 then 0
    else 2 * BitAnd(x / 2, y / 2) + if x % 2 == 1 && y % 2 == 1 then 1 else 0
  }

  function Pow2(k: nat): nat {
    if k == 0 then 1 else 2 * Pow2(k - 1)
  }

  lemma {:induction false} HalfMod(x: nat, p: nat)
    requires p > 0
    ensures x % (2 * p) == 2 * ((x / 2) % p) + x % 2
  {
    var t, r := x / 2 / p, x / 2 % p;
    assert x / 2 == p * t + r;
    assert x == (2 * p) * t + (2 * r + x % 2);
    ModIs(x, 2 * p, t, 2 * r + x % 2);
  }

  lemma {:induction false} ModIs(x: nat, m: nat, t: nat, r: nat)
    requires m > 0 && r < m && x == m * t + r
    ensures x % m == r
  {
    var q := x / m;
    assert x == m * q + x % m;
    MulStep(m, q, t);
    MulStep(m, t, q);
  }

  lemma {:induction false} MulStep(m: nat, a: nat, b: nat)
    ensures a < b ==> m * a + m <= m * b
  {
    if a < b {
      assert m * b == m * a + m * (b - a);
      assert m * (b - a) == m + m * (b - a - 1);
    }
  }

  /** Masking with all ones below a power of two is the remainder. */
  lemma {:induction false} MaskIsRemainder(x: nat, k: nat)
    ensures Pow2(k) > 0 && BitAnd(x, Pow2(k) - 1) == x % Pow2(k)
  {
    if k > 0 {
      MaskIsRemainder(x / 2, k - 1);
      HalfMod(x, Pow2(k - 1));
    }
  }

  lemma {:induction false} MaskIsMod(x: nat)
    ensures BitAnd(x, 65535) == x % SLOTS
  {
    assert Pow2(4) == 16;
    assert Pow2(8) == 256;
    assert Pow2(12) == 4096;
    assert Pow2(16) == SLOTS;
    MaskIsRemainder(x, 16);
  }

  class ResolveCache {
    var ips: Entries
    const keys: array<string>
    var next: nat

    function View(): Ring
      reads this, keys
    {
      Ring(ips, keys[..], next)
    }

    predicate Valid()
      reads this, keys
    {
      View().Ok()
    }

    constructor ()
      ensures Valid() && View() == Empty()
    {
      ips, next := map[], 0;
      keys := new string[SLOTS](_ => "");
      new;
      assert keys[..] == seq(SLOTS, _ => "");
    }

    method Lookup(host: string, now: int) returns (found: Found)
      requires Valid()
      modifies this`ips
      ensures Valid() && found == FindIn(old(View()), host, now)
      ensures found == if host in old(ips) && old(ips)[host].expires > now
                       then Found(old(ips)[host].ip, old(ips)[host].state) else Found("", StateNone)
      ensures View() == LookupIn(old(View()), host, now)
      ensures ips == if host in old(ips) && old(ips)[host].expires <= now then old(ips) - {host} else old(ips)
    {
      if host in ips {
        var hit := ips[host];
        if hit.expires > now {
          return Found(hit.ip, hit.state);
        }
        ips := ips - {host};
      }
      return Found("", StateNone);
    }

    method Store(host: string, ip: string, state: DialState, now: int, d: int)
      requires Valid()
      modifies this, keys
      ensures Valid() && View() == StoreIn(old(View()), host, Entry(ip, state, now + d))
    {
      if host in ips {
        ips := ips[host := Entry(ip, state, now + d)];
        return;
      }
      MaskIsMod(next + 1);
      ips := ips - {keys[next]};
      keys[next] := host;
      next := BitAnd(next + 1, 65535);
      ips := ips[host := Entry(ip, state, now + d)];
    }
  }

  // ---- Runs ----

  datatype Op = Stored(host: string, e: Entry) | LookedUp(host: string, now: int)

  function Step(c: Ring, op: Op): (r: Ring)
    requires c.Ok()
    ensures r.Ok()
  {
    match op
    case Stored(host, e) => StoreIn(c, host, e)
    case LookedUp(host, now) => LookupIn(c, host, now)
  }

  function Run(c: Ring, ops: seq<Op>): (r: Ring)
    requires c.Ok()
    ensures r.Ok()
  {
    if ops == [] then c else Step(Run(c, ops[..|ops| - 1]), ops[|ops| - 1])
  }

  /** The plain map that remembers the last store of every host. */
  function LastStores(m: Entries, ops: seq<Op>): Entries {
    if ops == [] then m
    else
      var op := ops[|ops| - 1];
      var before := LastStores(m, ops[..|ops| - 1]);
      if op.Stored? then before[op.host := op.e] else before
  }

  /** The cache never answers anything but the last store. */
  lemma {:induction false} AgreesWithLastStore(c: Ring, ops: seq<Op>, host: string, now: int)
    requires c.Ok()
    ensures host in Run(c, ops).ips ==>
              host in LastStores(c.ips, ops) && Run(c, ops).ips[host] == LastStores(c.ips, ops)[host]
    ensures var f := FindIn(Run(c, ops), host, now);
            f.state != StateNone || f.ip != "" ==>
              && host in LastStores(c.ips, ops) && LastStores(c.ips, ops)[host].expires > now
              && f == Found(LastStores(c.ips, ops)[host].ip, LastStores(c.ips, ops)[host].state)
  {
    if ops != [] {
      AgreesWithLastStore(c, ops[..|ops| - 1], host, now);
    }
  }

  ghost predicate Named(c: Ring) {
    forall h :: h in c.ips ==> h in c.keys
  }

  lemma {:induction false} StepNamed(c: Ring, op: Op)
    requires c.Ok() && Named(c)
    ensures Named(Step(c, op))
  {
    var c' := Step(c, op);
    forall h | h in c'.ips
      ensures h in c'.keys
    {
      if op.Stored? && h == op.host {
        if h !in c.ips {
          assert c'.keys[c.next] == h;
        }
      } else {
        var i :| 0 <= i < |c.keys| && c.keys[i] == h;
        assert c'.keys[i] == h;
      }
    }
  }

  function Elements(s: seq<string>): set<string> {
    set i | 0 <= i < |s| :: s[i]
  }

  lemma {:induction false} ElementsBound(s: seq<string>)
    ensures |Elements(s)| <= |s|
  {
    if s != [] {
      var front := s[..|s| - 1];
      ElementsBound(front);
      assert Elements(s) == Elements(front) + {s[|s| - 1]} by {
        assert forall i :: 0 <= i < |front| ==> front[i] == s[i];
      }
    }
  }

  lemma {:induction false} SubsetSize(a: set<string>, b: set<string>)
    requires a <= b
    ensures |a| <= |b|
  {
    assert b == a + (b - a);
  }

  /** Every entry is named in the ring, so there are never more than 65536. */
  lemma {:induction false} NeverOverfull(c: Ring, ops: seq<Op>)
    requires c.Ok() && Named(c)
    ensures Named(Run(c, ops)) && |Run(c, ops).ips| <= SLOTS
  {
    if ops != [] {
      NeverOverfull(c, ops[..|ops| - 1]);
      StepNamed(Run(c, ops[..|ops| - 1]), ops[|ops| - 1]);
    }
    var r := Run(c, ops);
    ElementsBound(r.keys);
    SubsetSize(r.ips.Keys, Elements(r.keys));
    assert |r.ips| == |r.ips.Keys|;
  }

  // ---- How long an entry lives ----

  /** How many of the operations took a slot. */
  function Inserts(c: Ring, ops: seq<Op>): nat
    requires c.Ok()
  {
    if ops == [] then 0
    else
      var front, op := ops[..|ops| - 1], ops[|ops| - 1];
      Inserts(c, front) + if op.Stored? && op.host !in Run(c, front).ips then 1 else 0
  }

  /** Along the run `h` is neither found expired nor stored while it is missing. */
  ghost predicate Gentle(c: Ring, ops: seq<Op>, h: string)
    requires c.Ok()
  {
    forall i :: 0 <= i < |ops| && ops[i].host == h ==>
      var s := Run(c, ops[..i]);
      if ops[i].Stored? then h in s.ips else h in s.ips ==> s.ips[h].expires > ops[i].now
  }

  lemma {:induction false} GentleFront(c: Ring, ops: seq<Op>, h: string)
    requires c.Ok() && Gentle(c, ops, h) && ops != []
    ensures Gentle(c, ops[..|ops| - 1], h)
  {
    var front := ops[..|ops| - 1];
    forall i | 0 <= i < |front| && front[i].host == h
      ensures var s := Run(c, front[..i]);
              if front[i].Stored? then h in s.ips else h in s.ips ==> s.ips[h].expires > front[i].now
    {
      assert front[..i] == ops[..i] && ops[i].host == h;
    }
  }

  lemma {:induction false} NextSlot(n: nat, m: nat)
    ensures ((n + m) % SLOTS + 1) % SLOTS == (n + m + 1) % SLOTS
  {
  }

  /** Slots are taken in order: those not yet reached keep their names. */
  lemma {:induction false} RingShape(c: Ring, ops: seq<Op>)
    requires c.Ok()
    ensures Run(c, ops).next == (c.next + Inserts(c, ops)) % SLOTS
    ensures forall j :: Inserts(c, ops) <= j < SLOTS ==> Run(c, ops).keys[c.Slot(j)] == c.keys[c.Slot(j)]
  {
    if ops != [] {
      var front, op := ops[..|ops| - 1], ops[|ops| - 1];
      RingShape(c, front);
      var s, m := Run(c, front), Inserts(c, front);
      NextSlot(c.next, m);
      forall j | Inserts(c, ops) <= j < SLOTS
        ensures Run(c, ops).keys[c.Slot(j)] == c.keys[c.Slot(j)]
      {
        assert s.keys[c.Slot(j)] == c.keys[c.Slot(j)];
        if m < j {
          SlotsDiffer(c.next, m, j);
        }
      }
    }
  }

  lemma {:induction false} SlotsDiffer(n: nat, i: nat, j: nat)
    requires n < SLOTS && i < j < i + SLOTS
    ensures (n + i) % SLOTS != (n + j) % SLOTS
  {
  }

  /** One operation takes an entry away only by reusing the slot it is named in. */
  lemma {:induction false} StepSurvives(s: Ring, op: Op, h: string)
    requires s.Ok()
    requires op.host == h ==> if op.Stored? then h in s.ips else h in s.ips ==> s.ips[h].expires > op.now
    ensures h in Step(s, op).ips <==>
              h in s.ips && !(op.Stored? && op.host !in s.ips && s.keys[s.next] == h)
  {
  }

  /** Exactly when an entry is still there after some insertions: when none of the
      slots they reused carried its name. */
  lemma {:induction false} Survives(c: Ring, ops: seq<Op>, h: string)
    requires c.Ok() && h in c.ips && Gentle(c, ops, h) && Inserts(c, ops) <= SLOTS
    ensures h in Run(c, ops).ips <==> forall j :: 0 <= j < Inserts(c, ops) ==> c.keys[c.Slot(j)] != h
  {
    if ops != [] {
      var front, op := ops[..|ops| - 1], ops[|ops| - 1];
      var s, m := Run(c, front), Inserts(c, front);
      GentleFront(c, ops, h);
      Survives(c, front, h);
      RingShape(c, front);
      assert op.host == h ==> ops[|ops| - 1].host == h;
      hide Step, Gentle;
      StepSurvives(s, op, h);
      if op.Stored? && op.host !in s.ips {
        assert s.next == c.Slot(m) && s.keys[s.next] == c.keys[c.Slot(m)];
      }
    }
  }

  /** A ring whose names are the entries, each once. */
  ghost predicate Strict(c: Ring) {
    && c.Ok()
    && (forall i, j :: 0 <= i < j < |c.keys| ==> c.keys[i] == "" || c.keys[i] != c.keys[j])
    && (forall h :: h in c.ips <==> h != "" && h in c.keys)
  }

  /** It stays one as long as hosts are named and no lookup drops an entry. */
  lemma {:induction false} StrictStep(c: Ring, op: Op)
    requires Strict(c)
    requires if op.Stored? then op.host != "" else LookupIn(c, op.host, op.now) == c
    ensures Strict(Step(c, op))
  {
    var c' := Step(c, op);
    if op.Stored? && op.host !in c.ips {
      forall h | true
        ensures h in c'.ips <==> h != "" && h in c'.keys
      {
        if h in c.keys && h != c.keys[c.next] {
          var i :| 0 <= i < |c.keys| && c.keys[i] == h;
          assert c'.keys[i] == h;
        }
        if h in c'.keys && h != op.host {
          var i :| 0 <= i < |c'.keys| && c'.keys[i] == h;
          assert c.keys[i] == h;
        }
        assert c'.keys[c.next] == op.host;
      }
    }
  }

  lemma {:induction false} EmptyIsStrict()
    ensures Strict(Empty()) && Named(Empty())
  {
  }

  /** Along the run hosts are named and no lookup drops an entry. */
  ghost predicate Tidy(c: Ring, ops: seq<Op>)
    requires c.Ok()
  {
    forall i :: 0 <= i < |ops| ==>
      if ops[i].Stored? then ops[i].host != "" else LookupIn(Run(c, ops[..i]), ops[i].host, ops[i].now) == Run(c, ops[..i])
  }

  lemma {:induction false} StrictRun(c: Ring, ops: seq<Op>)
    requires Strict(c) && Tidy(c, ops)
    ensures Strict(Run(c, ops))
  {
    if ops != [] {
      var front, op := ops[..|ops| - 1], ops[|ops| - 1];
      assert Tidy(c, front) by {
        assert forall i :: 0 <= i < |front| ==> front[..i] == ops[..i] && front[i] == ops[i];
      }
      StrictRun(c, front);
      assert ops[|ops| - 1] == op && ops[..|ops| - 1] == front;
      hide Strict, Step, LookupIn;
      StrictStep(Run(c, front), op);
    }
  }

  /** So in a cache that was always used like that the named slots are distinct and are
      exactly the cached hosts. */
  lemma {:induction false} AlwaysStrict(ops: seq<Op>)
    requires Tidy(Empty(), ops)
    ensures var c := Run(Empty(), ops);
            && (forall i, j :: 0 <= i < j < SLOTS && c.keys[i] != "" ==> c.keys[i] != c.keys[j])
            && (forall h :: h in c.ips <==> h != "" && h in c.keys)
  {
    EmptyIsStrict();
    StrictRun(Empty(), ops);
  }

  /** In such a ring a new entry lives until precisely the 65536th insertion after its
      own, no matter how often it or others are stored again in between. */
  lemma {:induction false} LivesExactly(c: Ring, h: string, e: Entry, ops: seq<Op>)
    requires Strict(c) && h !in c.ips && h != ""
    requires var c1 := StoreIn(c, h, e); Gentle(c1, ops, h) && Inserts(c1, ops) <= SLOTS
    ensures var c1 := StoreIn(c, h, e); h in Run(c1, ops).ips <==> Inserts(c1, ops) < SLOTS
  {
    hide Gentle, Run, Inserts;
    var c1 := StoreIn(c, h, e);
    StrictStep(c, Stored(h, e));
    Survives(c1, ops, h);
    assert c1.keys[c.next] == h && c1.Slot(SLOTS - 1) == c.next;
    forall j | 0 <= j < SLOTS - 1
      ensures c1.keys[c1.Slot(j)] != h
    {
      SlotsDiffer(c1.next, j, SLOTS - 1);
    }
  }

  /** Without that it fails: an entry dropped by a lookup leaves its name behind, and
      when it is stored anew the old slot evicts it early, before 65535 others. */
  lemma {:induction false} StaleNameEvictsEarly(c: Ring, h: string, e: Entry, i: nat) returns (d: nat)
    requires c.Ok() && h !in c.ips && i < SLOTS && c.keys[i] == h && i != c.next
    ensures d < SLOTS - 1
    ensures var c1 := StoreIn(c, h, e);
            forall ops :: Gentle(c1, ops, h) && d < Inserts(c1, ops) <= SLOTS ==> h !in Run(c1, ops).ips
  {
    var c1 := StoreIn(c, h, e);
    d := (i + SLOTS - c1.next) % SLOTS;
    assert c1.Slot(d) == i && c1.keys[i] == h;
    assert d == SLOTS - 1 ==> i == c.next;
    forall ops | Gentle(c1, ops, h) && d < Inserts(c1, ops) <= SLOTS
      ensures h !in Run(c1, ops).ips
    {
      Survives(c1, ops, h);
    }
  }

  // ---- What is answered ----

  /** The last of the operations that stored `h`, or `e` if none did. */
  ghost predicate IsLast(h: string, e: Entry, ops: seq<Op>, last: Entry) {
    || (last == e && forall i :: 0 <= i < |ops| ==> !(ops[i].Stored? && ops[i].host == h))
    || (exists i :: 0 <= i < |ops| && ops[i] == Stored(h, last)
                    && forall j :: i < j < |ops| ==> !(ops[j].Stored? && ops[j].host == h))
  }

  lemma {:induction false} LastIs(h: string, e: Entry, m: Entries, ops: seq<Op>, last: Entry)
    requires IsLast(h, e, ops, last) && h in m && m[h] == e
    ensures h in LastStores(m, ops) && LastStores(m, ops)[h] == last
  {
    if ops != [] {
      var front, op := ops[..|ops| - 1], ops[|ops| - 1];
      if op.Stored? && op.host == h {
        assert last == op.e;
      } else {
        assert IsLast(h, e, front, last) by {
          if i :| 0 <= i < |ops| && ops[i] == Stored(h, last)
                  && forall j :: i < j < |ops| ==> !(ops[j].Stored? && ops[j].host == h) {
            assert front[i] == ops[i];
          }
        }
        LastIs(h, e, m, front, last);
      }
    }
  }

  /** The other half: in a cache of which no entry was dropped, a host that was stored is
      found with its last address and state, whatever that is, exactly until that expires
      or 65536 others have been inserted since it was. */
  lemma {:induction false} FoundExactly(c: Ring, h: string, e: Entry, ops: seq<Op>, last: Entry)
    requires Strict(c) && h !in c.ips && h != "" && IsLast(h, e, ops, last)
    requires var c1 := StoreIn(c, h, e); Gentle(c1, ops, h) && Inserts(c1, ops) <= SLOTS
    ensures var c1 := StoreIn(c, h, e);
            && (h in Run(c1, ops).ips <==> Inserts(c1, ops) < 65536)
            && (h in Run(c1, ops).ips ==> Run(c1, ops).ips[h] == last)
  {
    var c1 := StoreIn(c, h, e);
    assert h in c1.ips && c1.ips[h] == e;
    hide Gentle, Run, Inserts, StoreIn, Strict, IsLast;
    LivesExactly(c, h, e, ops);
    LastIs(h, e, c1.ips, ops, last);
    AgreesWithLastStore(c1, ops, h, 0);
  }

  /** Performs operations one by one. */
  method Perform(cache: ResolveCache, ops: seq<Op>)
    requires cache.Valid()
    modifies cache, cache.keys
    ensures cache.Valid() && cache.View() == Run(old(cache.View()), ops)
  {
    hide StoreIn, LookupIn, FindIn;
    ghost var c := cache.View();
    for i := 0 to |ops|
      invariant cache.Valid() && cache.View() == Run(c, ops[..i])
    {
      assert ops[..i + 1][..i] == ops[..i];
      match ops[i] {
        case Stored(host, e) =>
          cache.Store(host, e.ip, e.state, e.expires, 0);
        case LookedUp(host, now) =>
          var found := cache.Lookup(host, now);
      }
    }
    assert ops[..|ops|] == ops;
  }

  /** So what a lookup answers after a store and whatever came between is the last stored
      address and state if and only if that has not expired and fewer than 65536 others
      were inserted. */
  method StoreThenLookup(cache: ResolveCache, h: string, ip: string, state: DialState, at: int, d: int, ops: seq<Op>,
                         now: int, ghost last: Entry)
    returns (found: Found)
    requires cache.Valid() && Strict(cache.View()) && h !in cache.ips && h != ""
    requires IsLast(h, Entry(ip, state, at + d), ops, last)
    requires var c1 := StoreIn(cache.View(), h, Entry(ip, state, at + d)); Gentle(c1, ops, h) && Inserts(c1, ops) <= SLOTS
    modifies cache, cache.keys
    ensures found == if last.expires > now && Inserts(StoreIn(old(cache.View()), h, Entry(ip, state, at + d)), ops) < 65536
                     then Found(last.ip, last.state) else Found("", StateNone)
  {
    hide Gentle, Run, Inserts, StoreIn, Strict, IsLast, LookupIn, FindIn;
    FoundExactly(cache.View(), h, Entry(ip, state, at + d), ops, last);
    cache.Store(h, ip, state, at, d);
    Perform(cache, ops);
    assert cache.ips == cache.View().ips;
    found := cache.Lookup(h, now);
  }

  // ---- A run that does it ----

  /** Names that are all different, and none of them "a". */
  function Name(k: nat): (r: string)
    ensures |r| == k + 2
  {
    seq(k + 2, _ => 'x')
  }

  function Fillers(n: nat, e: Entry): (r: seq<Op>)
    ensures |r| == n && forall i :: 0 <= i < n ==> r[i] == Stored(Name(i), e)
  {
    seq(n, i requires 0 <= i < n => Stored(Name(i), e))
  }

  lemma {:induction false} FillersFront(n: nat, e: Entry)
    requires n > 0
    ensures Fillers(n, e)[..n - 1] == Fillers(n - 1, e) && Fillers(n, e)[n - 1] == Stored(Name(n - 1), e)
  {
  }

  /** Each of them takes a slot. */
  lemma {:induction false} FillersInsert(c: Ring, n: nat, e: Entry)
    requires c.Ok() && forall k :: Name(k) !in c.ips
    ensures Inserts(c, Fillers(n, e)) == n
    ensures forall k :: k >= n ==> Name(k) !in Run(c, Fillers(n, e)).ips
  {
    if n > 0 {
      FillersFront(n, e);
      FillersInsert(c, n - 1, e);
      forall k | k >= n
        ensures Name(k) != Name(n - 1)
      {
        assert |Name(k)| != |Name(n - 1)|;
      }
    }
  }

  lemma {:induction false} FillersAreGentle(c: Ring, n: nat, e: Entry)
    requires c.Ok()
    ensures Gentle(c, Fillers(n, e), "a")
  {
    forall i | 0 <= i < n
      ensures Fillers(n, e)[i].host != "a"
    {
      assert |Name(i)| != |"a"|;
    }
  }

  /** An entry is stored and, once expired, looked up. */
  const ONCE: Entry := Entry("1.2.3.4", StateNew, 600)

  function Stale(): (c: Ring)
    ensures c.Ok()
  {
    Ring(map[], Empty().keys[0 := "a"], 1)
  }

  lemma {:induction false} StaleIsReached()
    ensures Run(Empty(), [Stored("a", ONCE), LookedUp("a", 600)]) == Stale()
  {
    var ops := [Stored("a", ONCE), LookedUp("a", 600)];
    var c := StoreIn(Empty(), "a", ONCE);
    assert ops[..1] == [Stored("a", ONCE)] && ops[..1][..0] == [];
    assert Run(Empty(), ops[..1]) == c;
    assert c.ips == map["a" := ONCE] && c.ips - {"a"} == map[];
  }

  /** Stored anew after that, it is gone after 65535 insertions of other hosts, one
      before its time. */
  lemma {:induction false} StaleRun(e: Entry)
    ensures StoreIn(Stale(), "a", e).Ok()
    ensures var c, ops := StoreIn(Stale(), "a", e), Fillers(SLOTS - 1, e);
            "a" in c.ips && Gentle(c, ops, "a") && Inserts(c, ops) == SLOTS - 1 && "a" !in Run(c, ops).ips
  {
    var c := StoreIn(Stale(), "a", e);
    assert c.keys[c.Slot(SLOTS - 2)] == "a";
    forall k: nat
      ensures Name(k) !in c.ips
    {
      assert |Name(k)| != |"a"|;
    }
    hide Stale, StoreIn, Fillers, Inserts, Gentle, Run, Name;
    FillersInsert(c, SLOTS - 1, e);
    FillersAreGentle(c, SLOTS - 1, e);
    Survives(c, Fillers(SLOTS - 1, e), "a");
  }
}
