/** The header map and its four operations (proto/http/header.go:12-50). */
module HeaderMap {
  import opened HeaderKeys

  type Values = map<string, seq<string>>

  datatype Op = Add(key: string, value: string) | Set(key: string, value: string) | Del(key: string)

  /** The values stored for a name, whatever its spelling. */
  function At(m: Values, key: string): seq<string> {
    var k := Canonical(key);
    if k in m then m[k] else []
  }

  function Apply(m: Values, op: Op): Values {
    var k := Canonical(op.key);
    match op
    case Add(_, v) => m[k := At(m, op.key) + [v]]
    case Set(_, v) => m[k := [v]]
    case Del(_) => m - {k}
  }

  class Header {
    var m: Values

    constructor (m: Values)
      ensures this.m == m
    {
      this.m := m;
    }

    method AddValue(key: string, value: string)
      modifies this
      ensures m == Apply(old(m), Add(key, value))
    {
      var k := CanonicalMIMEHeaderKey(key);
      m := m[k := (if k in m then m[k] else []) + [value]];
    }

    method SetValue(key: string, value: string)
      modifies this
      ensures m == Apply(old(m), Set(key, value))
    {
      var k := CanonicalMIMEHeaderKey(key);
      m := m[k := [value]];
    }

    method Get(key: string) returns (value: string)
      ensures value == if At(m, key) == [] then "" else At(m, key)[0]
    {
      var k := CanonicalMIMEHeaderKey(key);
      if k !in m || |m[k]| == 0 {
        return "";
      }
      value := m[k][0];
    }

    method Delete(key: string)
      modifies this
      ensures m == Apply(old(m), Del(key))
    {
      var k := CanonicalMIMEHeaderKey(key);
      m := m - {k};
    }

    /** Any sequence of changes. */
    method Change(ops: seq<Op>)
      modifies this
      ensures m == Run(old(m), ops)
    {
      for i := 0 to |ops|
        invariant m == Run(old(m), ops[..i])
      {
        assert ops[..i + 1][..i] == ops[..i];
        match ops[i] {
          case Add(k, v) => AddValue(k, v);
          case Set(k, v) => SetValue(k, v);
          case Del(k) => Delete(k);
        }
      }
      assert ops[..|ops|] == ops;
    }
  }

  function Run(m: Values, ops: seq<Op>): Values {
    if ops == [] then m else Apply(Run(m, ops[..|ops| - 1]), ops[|ops| - 1])
  }

  /** The same name: the same text, or two spellings of a name in the table. */
  ghost predicate SameName(a: string, b: string) {
    a == b || exists k :: k in COMMON_HEADER && SameFold(a, k) && SameFold(b, k)
  }

  /** What a history says about a name: the values added since it was last set or
      deleted, under any spelling. */
  ghost function History(was: seq<string>, ops: seq<Op>, key: string): seq<string> {
    if ops == [] then was
    else
      var op := ops[|ops| - 1];
      var before := History(was, ops[..|ops| - 1], key);
      if !SameName(op.key, key) then before
      else
        match op
        case Add(_, v) => before + [v]
        case Set(_, v) => [v]
        case Del(_) => []
  }

  /** After any changes a name has exactly the values its history says: spellings are
      told apart unless the table knows them, and no change touches another name. */
  lemma {:induction false} HoldsItsHistory(m: Values, ops: seq<Op>, key: string)
    ensures At(Run(m, ops), key) == History(At(m, key), ops, key)
  {
    if ops != [] {
      var op := ops[|ops| - 1];
      HoldsItsHistory(m, ops[..|ops| - 1], key);
      CanonicalCollides(op.key, key);
      hide Canonical;
      assert SameName(op.key, key) <==> Canonical(op.key) == Canonical(key);
    }
  }
}
