/**
 * Python's `dict` with string keys: a mapping that remembers the order in which keys
 * were first inserted. Assigning to an existing key keeps its place, a new key goes
 * last, deleting a key closes the gap, and `d | other` assigns the keys of `other`
 * in `other`'s order.
 */
module Dicts {

  datatype Dict<V> = Dict(keys: seq<string>, vals: map<string, V>) {

    /** The representation invariant every Python dict satisfies: each key is listed
        once, and the listed keys are exactly the keys that have a value. */
    ghost predicate Valid() {
      && (forall i, j :: 0 <= i < j < |keys| ==> keys[i] != keys[j])
      && (forall k :: k in vals <==> k in keys)
    }
  }

  /** `{}` */
  function Empty<V>(): (r: Dict<V>)
    ensures r.Valid() && r.keys == [] && r.vals == map[]
  {
    Dict([], map[])
  }

  /** `d[k] = v` */
  function Assign<V>(d: Dict<V>, k: string, v: V): (r: Dict<V>)
    ensures k in r.vals && r.vals[k] == v
    ensures forall j :: j != k ==> (j in r.vals <==> j in d.vals)
    ensures forall j :: j != k && j in d.vals ==> r.vals[j] == d.vals[j]
    ensures d.keys <= r.keys
    ensures |r.keys| == if k in d.vals then |d.keys| else |d.keys| + 1
    ensures d.Valid() ==> r.Valid() && (k !in d.vals ==> r.keys[|d.keys|] == k)
  {
    if k in d.vals then Dict(d.keys, d.vals[k := v]) else Dict(d.keys + [k], d.vals[k := v])
  }

  /** The keys that a list of pairs assigns. */
  function KeysOf<V>(ps: seq<(string, V)>): (ks: set<string>)
    ensures forall i :: 0 <= i < |ps| ==> ps[i].0 in ks
  {
    if ps == [] then {} else KeysOf(ps[..|ps| - 1]) + {ps[|ps| - 1].0}
  }

  /** Whether no later pair assigns the key of pair `i` again. */
  predicate LastFor<V>(ps: seq<(string, V)>, i: nat)
    requires i < |ps|
  {
    forall j :: i < j < |ps| ==> ps[j].0 != ps[i].0
  }

  /** `d | dict(ps)`: the pairs are assigned from left to right. */
  function AssignAll<V>(d: Dict<V>, ps: seq<(string, V)>): (r: Dict<V>)
    ensures d.keys <= r.keys
    decreases |ps|
  {
    if ps == [] then d else Assign(AssignAll(d, ps[..|ps| - 1]), ps[|ps| - 1].0, ps[|ps| - 1].1)
  }

  /** `d | dict(ps)` holds the keys of `d` and of `ps`, keeps the value of every key of
      `d` that `ps` does not name, and keeps the representation invariant. */
  lemma {:induction false} AssignAllKeeps<V>(d: Dict<V>, ps: seq<(string, V)>)
    ensures var r := AssignAll(d, ps);
      && (forall k :: k in r.vals <==> k in d.vals || k in KeysOf(ps))
      && (forall k :: k in d.vals && k !in KeysOf(ps) ==> r.vals[k] == d.vals[k])
      && (d.Valid() ==> r.Valid())
    decreases |ps|
  {
    if ps != [] {
      var front := ps[..|ps| - 1];
      AssignAllKeeps(d, front);
      assert KeysOf(ps) == KeysOf(front) + {ps[|ps| - 1].0};
    }
  }

  /** In `d | dict(ps)` a key of `ps` maps to the value of the last pair naming it. */
  lemma {:induction false} AssignAllLastWins<V>(d: Dict<V>, ps: seq<(string, V)>)
    ensures var r := AssignAll(d, ps);
      forall i :: 0 <= i < |ps| && LastFor(ps, i) ==> ps[i].0 in r.vals && r.vals[ps[i].0] == ps[i].1
    decreases |ps|
  {
    if ps != [] {
      var front := ps[..|ps| - 1];
      AssignAllLastWins(d, front);
      var r := AssignAll(d, ps);
      forall i | 0 <= i < |front| && LastFor(ps, i) ensures ps[i].0 in r.vals && r.vals[ps[i].0] == ps[i].1 {
        assert ps[i] == front[i];
        assert ps[|ps| - 1].0 != ps[i].0;
        assert LastFor(front, i) by {
          forall j | i < j < |front| ensures front[j].0 != front[i].0 { assert front[j] == ps[j]; }
        }
      }
    }
  }

  /** What `d | dict(ps)` holds: every key of `d` or of `ps`; a key of `ps` maps to the
      value of the last pair that names it, and every other key keeps its value. */
  lemma AssignAllValues<V>(d: Dict<V>, ps: seq<(string, V)>)
    ensures var r := AssignAll(d, ps);
      && (forall k :: k in r.vals <==> k in d.vals || k in KeysOf(ps))
      && (forall k :: k in d.vals && k !in KeysOf(ps) ==> r.vals[k] == d.vals[k])
      && (forall i :: 0 <= i < |ps| && LastFor(ps, i) ==> ps[i].0 in r.vals && r.vals[ps[i].0] == ps[i].1)
      && (d.Valid() ==> r.Valid())
  {
    AssignAllKeeps(d, ps);
    AssignAllLastWins(d, ps);
  }

  /** The position of a listed key. */
  function Position(ks: seq<string>, k: string): (i: nat)
    requires k in ks
    ensures i < |ks| && ks[i] == k
  {
    if ks[0] == k then 0 else 1 + Position(ks[1..], k)
  }

  /** Dropping the entry at a position of a list of distinct keys drops exactly that key
      and keeps the others distinct. */
  lemma DropAt(ks: seq<string>, i: nat)
    requires i < |ks|
    requires forall a, b :: 0 <= a < b < |ks| ==> ks[a] != ks[b]
    ensures var rest := ks[..i] + ks[i + 1..];
      && (forall a, b :: 0 <= a < b < |rest| ==> rest[a] != rest[b])
      && (forall j :: j in rest <==> j in ks && j != ks[i])
  {
    var rest := ks[..i] + ks[i + 1..];
    assert forall a :: 0 <= a < |rest| ==> rest[a] == if a < i then ks[a] else ks[a + 1];
    forall j ensures j in rest <==> j in ks && j != ks[i] {
      if j in ks && j != ks[i] {
        var m :| 0 <= m < |ks| && ks[m] == j;
        if m < i { assert rest[m] == j; } else { assert rest[m - 1] == j; }
      }
    }
  }

  /** `del d[k]` for a present key, and no change for an absent one. */
  function Remove<V>(d: Dict<V>, k: string): (r: Dict<V>)
    ensures k !in r.vals
    ensures forall j :: j != k ==> (j in r.vals <==> j in d.vals)
    ensures forall j :: j != k && j in d.vals ==> r.vals[j] == d.vals[j]
    ensures d.Valid() ==> r.Valid() && (forall j :: j in r.keys <==> j in d.keys && j != k)
  {
    if k in d.keys then
      var i := Position(d.keys, k);
      var ks := d.keys[..i] + d.keys[i + 1..];
      assert d.Valid() ==> Dict(ks, d.vals - {k}).Valid() && (forall j :: j in ks <==> j in d.keys && j != k) by {
        if d.Valid() { DropAt(d.keys, i); }
      }
      Dict(ks, d.vals - {k})
    else
      Dict(d.keys, d.vals - {k})
  }

  /** The list `ks` with every occurrence of `k` left out. */
  function Without(ks: seq<string>, k: string): (r: seq<string>)
    ensures forall j :: j in r <==> j in ks && j != k
  {
    if ks == [] then [] else (if ks[0] == k then [] else [ks[0]]) + Without(ks[1..], k)
  }

  lemma {:induction false} WithoutAbsent(ks: seq<string>, k: string)
    requires k !in ks
    ensures Without(ks, k) == ks
  {
    if ks != [] {
      WithoutAbsent(ks[1..], k);
      assert ks == [ks[0]] + ks[1..];
    }
  }

  lemma {:induction false} WithoutOnce(ks: seq<string>, i: nat, k: string)
    requires i < |ks| && ks[i] == k
    requires forall m :: 0 <= m < |ks| && m != i ==> ks[m] != k
    ensures Without(ks, k) == ks[..i] + ks[i + 1..]
  {
    if i == 0 {
      assert k !in ks[1..];
      WithoutAbsent(ks[1..], k);
    } else {
      WithoutOnce(ks[1..], i - 1, k);
      assert ks[..i] == [ks[0]] + ks[1..][..i - 1];
      assert ks[i + 1..] == ks[1..][i..];
    }
  }

  /** Deleting a key from a dict keeps the other keys in their order. */
  lemma RemoveKeys<V>(d: Dict<V>, k: string)
    requires d.Valid()
    ensures Remove(d, k).keys == Without(d.keys, k)
  {
    if k in d.keys {
      WithoutOnce(d.keys, Position(d.keys, k), k);
    } else {
      WithoutAbsent(d.keys, k);
    }
  }
}
