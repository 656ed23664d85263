/** A Python `dict` of request parameters: keys in insertion order, each at
    most once. Assigning to a key that is present replaces its value where it
    stands; assigning to a new key appends it at the end. */
module Dict {
  import opened Values

  type Entry = (string, Value)

  /** The keys, in insertion order. */
  function Keys(m: seq<Entry>): seq<string> {
    seq(|m|, i requires 0 <= i < |m| => m[i].0)
  }

  predicate Distinct(ks: seq<string>) {
    forall i, j :: 0 <= i < j < |ks| ==> ks[i] != ks[j]
  }

  /** `m.get(k)` */
  function Lookup(m: seq<Entry>, k: string): Option<Value> {
    if m == [] then None
    else if m[0].0 == k then Some(m[0].1)
    else Lookup(m[1..], k)
  }

  /** `m[k] = v` */
  function Assign(m: seq<Entry>, k: string, v: Value): seq<Entry> {
    if m == [] then [(k, v)]
    else if m[0].0 == k then [(k, v)] + m[1..]
    else [m[0]] + Assign(m[1..], k, v)
  }

  /** `get` finds a value exactly for the keys present, and the value it
      finds is stored under that key. */
  lemma {:induction false} LookupSpec(m: seq<Entry>, k: string)
    ensures Lookup(m, k).Some? <==> k in Keys(m)
    ensures Lookup(m, k).Some? ==> (k, Lookup(m, k).value) in m
  {
    if m != [] {
      assert Keys(m) == [m[0].0] + Keys(m[1..]);
      LookupSpec(m[1..], k);
    }
  }

  /** In a dictionary with distinct keys, the entry holding a key is the one
      `get` finds. */
  lemma LookupEntry(m: seq<Entry>, k: string, v: Value)
    requires Distinct(Keys(m))
    requires (k, v) in m
    ensures Lookup(m, k) == Some(v)
  {
    var i :| 0 <= i < |m| && m[i] == (k, v);
    assert Keys(m)[i] == k;
    LookupSpec(m, k);
    var r := Lookup(m, k);
    var j :| 0 <= j < |m| && m[j] == (k, r.value);
    assert Keys(m)[j] == k;
  }

  /** The keys of a dictionary with one more entry in front. */
  lemma KeysCons(e: Entry, m: seq<Entry>)
    ensures Keys([e] + m) == [e.0] + Keys(m)
  {
    assert forall i :: 0 <= i < |m| ==> ([e] + m)[i + 1] == m[i];
  }

  /** Assignment keeps the keys and their order, adding a new key at the end. */
  lemma {:induction false} AssignKeys(m: seq<Entry>, k: string, v: Value)
    ensures Keys(Assign(m, k, v)) == if k in Keys(m) then Keys(m) else Keys(m) + [k]
  {
    if m == [] {
      assert Keys([(k, v)]) == [k];
    } else {
      assert [m[0]] + m[1..] == m;
      KeysCons(m[0], m[1..]);
      if m[0].0 == k {
        KeysCons((k, v), m[1..]);
      } else {
        var rest := Assign(m[1..], k, v);
        AssignKeys(m[1..], k, v);
        KeysCons(m[0], rest);
        assert k in Keys(m) <==> k in Keys(m[1..]);
        if k !in Keys(m[1..]) {
          assert [m[0].0] + (Keys(m[1..]) + [k]) == Keys(m) + [k];
        }
      }
    }
  }

  /** After `m[k] = v`, `k` maps to `v` and every other key to what it did. */
  lemma {:induction false} AssignLookup(m: seq<Entry>, k: string, v: Value, j: string)
    ensures Lookup(Assign(m, k, v), j) == if j == k then Some(v) else Lookup(m, j)
  {
    if m != [] && m[0].0 != k {
      AssignLookup(m[1..], k, v, j);
    }
  }

  /** Assignment keeps the keys distinct. */
  lemma AssignDistinct(m: seq<Entry>, k: string, v: Value)
    requires Distinct(Keys(m))
    ensures Distinct(Keys(Assign(m, k, v)))
  {
    AssignKeys(m, k, v);
  }

  /** Assigning a key that is not yet present appends exactly one entry. */
  lemma {:induction false} AssignNewKey(m: seq<Entry>, k: string, v: Value)
    requires k !in Keys(m)
    ensures Assign(m, k, v) == m + [(k, v)]
  {
    if m != [] {
      assert Keys(m) == [m[0].0] + Keys(m[1..]);
      AssignNewKey(m[1..], k, v);
      assert [m[0]] + (m[1..] + [(k, v)]) == m + [(k, v)];
    }
  }

  /** Assigning a key that is present replaces its value where it stands. */
  lemma {:induction false} AssignReplace(m: seq<Entry>, tail: seq<Entry>, k: string, v: Value, w: Value)
    requires k !in Keys(m)
    ensures Assign(m + [(k, v)] + tail, k, w) == m + [(k, w)] + tail
  {
    if m != [] {
      assert Keys(m) == [m[0].0] + Keys(m[1..]);
      AssignReplace(m[1..], tail, k, v, w);
      assert (m + [(k, v)] + tail)[1..] == m[1..] + [(k, v)] + tail;
      assert [m[0]] + (m[1..] + [(k, w)] + tail) == m + [(k, w)] + tail;
    } else {
      assert m + [(k, v)] + tail == [(k, v)] + tail;
      assert m + [(k, w)] + tail == [(k, w)] + tail;
    }
  }

  /** The parameter dictionary that the client mutates in place. */
  class ParamMap {
    var entries: seq<Entry>

    ghost predicate Valid()
      reads this
    {
      Distinct(Keys(entries))
    }

    /** `{}` */
    constructor ()
      ensures Valid() && entries == []
    {
      entries := [];
    }

    /** A dictionary display `{k1: v1, ..., kn: vn}` with distinct keys. */
    constructor Of(init: seq<Entry>)
      requires Distinct(Keys(init))
      ensures Valid() && entries == init
    {
      entries := init;
    }

    /** `self[k] = v` */
    method Set(k: string, v: Value)
      requires Valid()
      modifies this
      ensures Valid()
      ensures entries == Assign(old(entries), k, v)
    {
      AssignDistinct(entries, k, v);
      entries := Assign(entries, k, v);
    }
  }
}
