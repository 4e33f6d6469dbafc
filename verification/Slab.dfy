/** The header map while it is read: value slices cut one by one out of a shared
    slab, after proto/text/reader.go.  The point is that the sharing never shows. */
module Slab {

  /** A Go `[]string`: a window into an array with room to grow up to `cap`. */
  datatype Slice = NoSlice | Slice(arr: array<string>, off: nat, len: nat, cap: nat) {
    predicate Ok() {
      Slice? ==> len <= cap && off + cap <= arr.Length
    }

    function View(): seq<string>
      requires Ok()
      reads if Slice? then {arr} else {}
    {
      if NoSlice? then [] else arr[off..off + len]
    }

    /** No cell, used or spare, in common. */
    predicate Apart(other: Slice) {
      NoSlice? || other.NoSlice? || arr != other.arr || off + cap <= other.off || other.off + other.cap <= off
    }
  }

  /** Go's `append`: in place while there is room, else into a larger copy. */
  method Append(s: Slice, v: string) returns (t: Slice)
    requires s.Ok()
    modifies if s.Slice? then {s.arr} else {}
    ensures t.Slice? && t.Ok() && t.View() == old(s.View()) + [v]
    ensures fresh(t.arr) || (s.Slice? && t.arr == s.arr && t.off == s.off && t.cap == s.cap)
    ensures forall o: Slice :: o.Ok() && old(allocated(o)) && o.Apart(s) ==> o.View() == old(o.View())
  {
    if s.Slice? && s.len < s.cap {
      s.arr[s.off + s.len] := v;
      t := s.(len := s.len + 1);
    } else {
      var used := s.View();
      var cap :| cap > |used|;
      var arr := new string[cap](i => if 0 <= i < |used| then used[i] else v);
      t := Slice(arr, 0, |used| + 1, cap);
      assert t.View()[..|used|] == used;
    }
  }

  /** `s[0] = v`. */
  method SetFirst(s: Slice, v: string)
    requires s.Slice? && s.Ok() && s.len == 1
    modifies s.arr
    ensures s.View() == [v]
    ensures forall o: Slice :: o.Ok() && old(allocated(o)) && o.Apart(s) ==> o.View() == old(o.View())
  {
    s.arr[s.off] := v;
  }

  function Values(view: map<string, seq<string>>, key: string): seq<string> {
    if key in view then view[key] else []
  }

  /** No two keys, and no key and the rest of the slab, share a cell. */
  ghost predicate Separate(m: map<string, Slice>, strs: Slice) {
    && strs.Ok()
    && (forall k :: k in m ==> m[k].Slice? && m[k].Ok() && m[k].Apart(strs))
    && (forall j, k :: j in m && k in m && j != k ==> m[j].Apart(m[k]))
  }

  lemma {:induction false} SeparateUpdate(m: map<string, Slice>, strs: Slice, key: string, vv: Slice, strs': Slice)
    requires Separate(m, strs) && strs'.Ok()
    requires vv.Slice? && vv.Ok() && vv.Apart(strs')
    requires forall k :: k in m && k != key ==> m[k].Apart(vv) && m[k].Apart(strs')
    ensures Separate(m[key := vv], strs')
  {
  }

  ghost function Arrays(m: map<string, Slice>, strs: Slice): set<array<string>> {
    (set k | k in m && m[k].Slice? :: m[k].arr) + if strs.Slice? then {strs.arr} else {}
  }

  lemma {:induction false} ArraysUpdate(m: map<string, Slice>, strs: Slice, key: string, vv: Slice, strs': Slice)
    requires vv.Slice? && (strs'.Slice? ==> strs.Slice? && strs'.arr == strs.arr)
    ensures Arrays(m[key := vv], strs') <= Arrays(m, strs) + {vv.arr}
  {
    var m' := m[key := vv];
    forall k | k in m' && m'[k].Slice?
      ensures m'[k].arr in Arrays(m, strs) + {vv.arr}
    {
      assert k != key ==> k in m && m[k] == m'[k];
    }
  }

  class HeaderTable {
    var m: map<string, Slice>
    var strs: Slice
    ghost var view: map<string, seq<string>>

    ghost function Repr(): set<array<string>>
      reads this
    {
      Arrays(m, strs)
    }

    ghost predicate Valid()
      reads this, Repr()
    {
      && m.Keys == view.Keys
      && Separate(m, strs)
      && (forall k :: k in m ==> m[k].View() == view[k])
    }

    constructor (hint: nat)
      ensures Valid() && fresh(Repr()) && view == map[]
    {
      m, view, strs := map[], map[], NoSlice;
      if hint > 0 {
        var slab := new string[hint](_ => "");
        strs := Slice(slab, 0, hint, hint);
      }
    }

    /** A new key takes the next cell of the slab as a slice of capacity one. */
    method Cut(key: string, value: string)
      requires Valid() && key !in m && strs.Slice? && strs.len > 0
      modifies this, strs.arr
      ensures Valid() && Repr() <= old(Repr())
      ensures view == old(view)[key := [value]]
    {
      var vv := strs.(len := 1, cap := 1);
      var rest := strs.(off := strs.off + 1, len := strs.len - 1, cap := strs.cap - 1);
      SeparateUpdate(m, strs, key, vv, rest);
      ArraysUpdate(m, strs, key, vv, rest);
      SetFirst(vv, value);
      forall k | k in m
        ensures m[k].View() == view[k]
      {
        assert m[k].Apart(strs);
        assert m[k].View() == old(m[k].View());
      }
      strs, m, view := rest, m[key := vv], view[key := [value]];
    }

    /** Points a key at a slice that holds what it should. */
    method Put(key: string, vv: Slice, value: string)
      requires m.Keys == view.Keys && Separate(m[key := vv], strs)
      requires forall k :: k in m && k != key ==> m[k].Ok() && m[k].View() == view[k]
      requires vv.Ok() && vv.View() == Values(view, key) + [value]
      modifies this`m, this`view
      ensures Valid() && Repr() == Arrays(old(m)[key := vv], strs)
      ensures view == old(view)[key := Values(old(view), key) + [value]]
    {
      m, view := m[key := vv], view[key := Values(view, key) + [value]];
    }

    /** Otherwise the value is appended to whatever the key has. */
    method AppendTo(key: string, value: string)
      requires Valid()
      modifies this, Repr()
      ensures Valid() && fresh(Repr() - old(Repr()))
      ensures view == old(view)[key := Values(old(view), key) + [value]]
    {
      var vv := if key in m then m[key] else NoSlice;
      forall k | k in m && k != key
        ensures m[k].Apart(vv)
      {
      }
      ghost var before := vv;
      vv := Append(vv, value);
      forall k | k in m && k != key
        ensures m[k].View() == view[k] && m[k].Apart(vv)
      {
        assert m[k].Apart(before);
        assert m[k].View() == old(m[k].View());
      }
      assert vv.Apart(strs);
      SeparateUpdate(m, strs, key, vv, strs);
      ArraysUpdate(m, strs, key, vv, strs);
      Put(key, vv, value);
    }

    /** One header line's worth: no other key's values ever move. */
    method Add(key: string, value: string)
      requires Valid()
      modifies this, Repr()
      ensures Valid() && fresh(Repr() - old(Repr()))
      ensures view == old(view)[key := Values(old(view), key) + [value]]
    {
      if key !in m && strs.Slice? && strs.len > 0 {
        assert Values(view, key) + [value] == [value];
        Cut(key, value);
      } else {
        AppendTo(key, value);
      }
    }

    method Snapshot() returns (h: map<string, seq<string>>)
      requires Valid()
      ensures h == view
    {
      h := map k | k in m :: m[k].View();
    }
  }
}
