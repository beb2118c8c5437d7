/** The string dictionary (dictionary.cpp): parallel arrays of keys, values and hashes, scanned linearly,
    the hash sparing most string comparisons. It behaves like a finite map. */
module Dictionary {
  import opened Options

  const DICT_MIN_SIZE: nat := 128

  type Slots = seq<Option<string>>

  /** How many slots hold a key. */
  ghost function Occupied(ks: Slots): nat {
    if ks == [] then 0 else Occupied(ks[..|ks| - 1]) + if ks[|ks| - 1].Some? then 1 else 0
  }

  lemma {:induction false} OccupiedBound(ks: Slots)
    ensures Occupied(ks) <= |ks|
    ensures Occupied(ks) == |ks| <==> forall i :: 0 <= i < |ks| ==> ks[i].Some?
  {
    if ks != [] {
      var t := ks[..|ks| - 1];
      OccupiedBound(t);
      assert forall i :: 0 <= i < |t| ==> t[i] == ks[i];
    }
  }

  function Weight(k: Option<string>): nat { if k.Some? then 1 else 0 }

  lemma {:induction false} OccupiedUpdate(ks: Slots, i: nat, k: Option<string>)
    requires i < |ks|
    ensures Occupied(ks[i := k]) + Weight(ks[i]) == Occupied(ks) + Weight(k)
  {
    var t := ks[..|ks| - 1];
    if i < |t| {
      OccupiedUpdate(t, i, k);
      assert ks[i := k][..|ks| - 1] == t[i := k];
    } else {
      assert ks[i := k][..|ks| - 1] == t;
    }
  }

  lemma {:induction false} OccupiedPadding(ks: Slots, m: nat)
    ensures Occupied(ks + seq(m, _ => None)) == Occupied(ks)
  {
    if m == 0 {
      assert ks + seq(m, _ => None) == ks;
    } else {
      OccupiedPadding(ks, m - 1);
      var all := ks + seq(m, _ => None);
      assert all[..|all| - 1] == ks + seq(m - 1, _ => None);
    }
  }

  // ---------------------------------------------------------------- slots and maps

  /** No key twice, and every stored hash is that of its key. */
  ghost predicate Proper(ks: Slots, hs: seq<int>, hash: string -> int) {
    && |ks| == |hs|
    && (forall i, j :: 0 <= i < j < |ks| && ks[i].Some? ==> ks[i] != ks[j])
    && forall i :: 0 <= i < |ks| && ks[i].Some? ==> hs[i] == hash(ks[i].value)
  }

  /** The slots hold exactly the map `m`. */
  ghost predicate Holds(ks: Slots, vs: Slots, m: map<string, Option<string>>) {
    && |ks| == |vs|
    && (forall i :: 0 <= i < |ks| && ks[i].Some? ==> ks[i].value in m && m[ks[i].value] == vs[i])
    && forall k :: k in m ==> Some(k) in ks
  }

  ghost predicate Sound(ks: Slots, vs: Slots, hs: seq<int>, n: nat, m: map<string, Option<string>>, hash: string -> int) {
    Proper(ks, hs, hash) && Holds(ks, vs, m) && n == Occupied(ks) == |m|
  }

  lemma NotStored(ks: Slots, vs: Slots, m: map<string, Option<string>>, key: string)
    requires Holds(ks, vs, m) && Some(key) !in ks
    ensures key !in m
  {
  }

  /** A new value for the key in slot `i`. */
  lemma Replaced(ks: Slots, vs: Slots, hs: seq<int>, n: nat, m: map<string, Option<string>>, hash: string -> int,
                 i: nat, key: string, val: Option<string>)
    requires Sound(ks, vs, hs, n, m, hash) && i < |ks| && ks[i] == Some(key)
    ensures Sound(ks, vs[i := val], hs, n, m[key := val], hash)
  {
    hide Occupied;
    assert m[key := val].Keys == m.Keys;
    assert |m[key := val]| == |m[key := val].Keys| == |m|;
  }

  /** A new key in the empty slot `i`. */
  lemma Inserted(ks: Slots, vs: Slots, hs: seq<int>, n: nat, m: map<string, Option<string>>, hash: string -> int,
                 i: nat, key: string, val: Option<string>)
    requires Sound(ks, vs, hs, n, m, hash) && i < |ks| && ks[i] == None && Some(key) !in ks
    ensures Sound(ks[i := Some(key)], vs[i := val], hs[i := hash(key)], n + 1, m[key := val], hash)
  {
    hide Occupied, Proper, Holds;
    NotStored(ks, vs, m, key);
    OccupiedUpdate(ks, i, Some(key));
    InsertedProper(ks, hs, hash, i, key);
    InsertedHolds(ks, vs, m, i, key, val);
    assert m[key := val].Keys == m.Keys + {key};
    assert |m[key := val]| == |m[key := val].Keys| == |m| + 1;
  }

  lemma InsertedProper(ks: Slots, hs: seq<int>, hash: string -> int, i: nat, key: string)
    requires Proper(ks, hs, hash) && i < |ks| && Some(key) !in ks
    ensures Proper(ks[i := Some(key)], hs[i := hash(key)], hash)
  {
  }

  lemma InsertedHolds(ks: Slots, vs: Slots, m: map<string, Option<string>>, i: nat, key: string, val: Option<string>)
    requires Holds(ks, vs, m) && i < |ks| && ks[i] == None && Some(key) !in ks
    ensures Holds(ks[i := Some(key)], vs[i := val], m[key := val])
  {
    var m2, ks2 := m[key := val], ks[i := Some(key)];
    forall k | k in m2 ensures Some(k) in ks2 {
      if k == key {
        assert ks2[i] == Some(k);
      } else {
        StaysStored(ks, i, Some(key), k);
      }
    }
  }

  lemma StaysStored(ks: Slots, i: nat, x: Option<string>, k: string)
    requires i < |ks| && Some(k) in ks && ks[i] != Some(k)
    ensures Some(k) in ks[i := x]
  {
    var j :| 0 <= j < |ks| && ks[j] == Some(k);
    assert ks[i := x][j] == Some(k);
  }

  /** The key in slot `i` taken away. */
  lemma Removed(ks: Slots, vs: Slots, hs: seq<int>, n: nat, m: map<string, Option<string>>, hash: string -> int,
                i: nat, key: string)
    requires Sound(ks, vs, hs, n, m, hash) && i < |ks| && ks[i] == Some(key)
    ensures n > 0 && Sound(ks[i := None], vs[i := None], hs[i := 0], n - 1, m - {key}, hash)
  {
    hide Occupied, Proper, Holds;
    OccupiedUpdate(ks, i, None);
    RemovedProper(ks, hs, hash, i);
    RemovedHolds(ks, vs, hs, hash, m, i, key);
    assert (m - {key}).Keys == m.Keys - {key};
    assert |m - {key}| == |(m - {key}).Keys| == |m| - 1;
  }

  lemma RemovedProper(ks: Slots, hs: seq<int>, hash: string -> int, i: nat)
    requires Proper(ks, hs, hash) && i < |ks|
    ensures Proper(ks[i := None], hs[i := 0], hash)
  {
  }

  lemma RemovedHolds(ks: Slots, vs: Slots, hs: seq<int>, hash: string -> int, m: map<string, Option<string>>, i: nat, key: string)
    requires Proper(ks, hs, hash) && Holds(ks, vs, m) && i < |ks| && ks[i] == Some(key)
    ensures key in m && Holds(ks[i := None], vs[i := None], m - {key})
  {
    forall k | k in m - {key} ensures Some(k) in ks[i := None] {
      StaysStored(ks, i, None, k);
    }
  }

  /** Doubling adds empty slots only. */
  lemma Doubled(ks: Slots, vs: Slots, hs: seq<int>, n: nat, m: map<string, Option<string>>, hash: string -> int,
                ks2: Slots, vs2: Slots, hs2: seq<int>)
    requires Sound(ks, vs, hs, n, m, hash) && |ks2| == |vs2| == |hs2| == 2 * |ks|
    requires ks <= ks2 && vs <= vs2 && hs <= hs2 && forall i :: |ks| <= i < |ks2| ==> ks2[i] == None
    ensures Sound(ks2, vs2, hs2, n, m, hash) && (forall key :: Some(key) in ks2 <==> Some(key) in ks)
  {
    hide Occupied;
    OccupiedPadding(ks, |ks|);
    assert ks2 == ks + seq(|ks|, _ => None);
    assert forall i :: 0 <= i < |ks| ==> ks2[i] == ks[i];
    forall k | k in m ensures Some(k) in ks2 { var j :| 0 <= j < |ks| && ks[j] == Some(k); assert ks2[j] == Some(k); }
  }

  // ---------------------------------------------------------------- the class

  class Dict {
    const hashOf: string -> int
    var n: nat
    var size: nat
    var key: array<Option<string>>
    var val: array<Option<string>>
    var hash: array<int>
    ghost var contents: map<string, Option<string>>

    ghost predicate Shaped()
      reads this
    {
      size > 0 && key.Length == val.Length == hash.Length == size && key != val
    }

    ghost predicate Valid()
      reads this, key, val, hash
    {
      Shaped() && Sound(key[..], val[..], hash[..], n, contents, hashOf)
    }

    constructor (size: int, hashOf: string -> int)
      ensures Valid() && contents == map[] && n == 0 && this.hashOf == hashOf
      ensures this.size == if size < DICT_MIN_SIZE then DICT_MIN_SIZE else size
      ensures fresh(key) && fresh(val) && fresh(hash)
    {
      var m := if size < DICT_MIN_SIZE then DICT_MIN_SIZE else size;
      this.size, this.hashOf, n := m, hashOf, 0;
      key := new Option<string>[m](_ => None);
      val := new Option<string>[m](_ => None);
      hash := new int[m](_ => 0);
      contents := map[];
      new;
      OccupiedPadding([], m);
      assert key[..] == [] + seq(m, _ => None);
    }

    /** The slot of `k`, or `size`: string comparison only where the hash agrees. */
    method Find(k: string) returns (i: nat)
      requires Valid()
      ensures i <= size
      ensures i < size ==> key[i] == Some(k)
      ensures i == size ==> Some(k) !in key[..] && k !in contents
    {
      hide Occupied;
      var h := hashOf(k);
      i := 0;
      while i < size
        invariant i <= size
        invariant forall j :: 0 <= j < i ==> key[j] != Some(k)
      {
        if key[i].Some? && h == hash[i] {
          if key[i].value == k { return; }
        }
        i := i + 1;
      }
      NotStored(key[..], val[..], contents, k);
    }

    method Get(k: string, def: Option<string>) returns (r: Option<string>)
      requires Valid()
      ensures r == if k in contents then contents[k] else def
    {
      hide Occupied;
      var i := Find(k);
      if i < size { r := val[i]; } else { r := def; }
    }

    /** The first empty slot exists whenever the table is not full. */
    method FirstEmpty() returns (i: nat)
      requires Valid() && n < size
      ensures i < size && key[i] == None && forall j :: 0 <= j < i ==> key[j].Some?
    {
      hide Occupied, Sound;
      HasEmpty(key[..], val[..], hash[..], n, contents, hashOf);
      i := 0;
      while i < size && key[i].Some?
        invariant i <= size && forall j :: 0 <= j < i ==> key[j].Some?
      {
        i := i + 1;
      }
    }

    /** Twice the slots, the first half as before. */
    method Grow()
      requires Valid()
      modifies this
      ensures Valid() && size == 2 * old(size) && contents == old(contents) && n == old(n)
      ensures fresh(key) && fresh(val) && fresh(hash)
      ensures forall k :: Some(k) in key[..] <==> Some(k) in old(key[..])
    {
      hide Occupied, Sound;
      var m := size;
      var key2 := new Option<string>[2 * m](i requires 0 <= i reads this, key => if i < key.Length then key[i] else None);
      var val2 := new Option<string>[2 * m](i requires 0 <= i reads this, val => if i < val.Length then val[i] else None);
      var hash2 := new int[2 * m](i requires 0 <= i reads this, hash => if i < hash.Length then hash[i] else 0);
      assert key2[..m] == key[..] && val2[..m] == val[..] && hash2[..m] == hash[..];
      Doubled(key[..], val[..], hash[..], n, contents, hashOf, key2[..], val2[..], hash2[..]);
      key, val, hash, size := key2, val2, hash2, 2 * m;
    }

    /** Sets a value, growing the table when it is full; without a key nothing happens. */
    method Set(k: Option<string>, v: Option<string>) returns (ok: bool)
      requires Valid()
      modifies this, key, val, hash
      ensures Valid() && ok == k.Some?
      ensures contents == if k.Some? then old(contents)[k.value := v] else old(contents)
      ensures size == if k.Some? && k.value !in old(contents) && old(n) == old(size) then 2 * old(size) else old(size)
      ensures key == old(key) || fresh(key)
      ensures val == old(val) || fresh(val)
      ensures hash == old(hash) || fresh(hash)
    {
      hide Occupied, Sound;
      if k == None { return false; }
      var i := size;
      if n > 0 { i := Find(k.value); } else { Empty(key[..], val[..], hash[..], contents, hashOf, k.value); }
      if i < size {
        Stored(key[..], val[..], hash[..], n, contents, hashOf, i);
        Replaced(key[..], val[..], hash[..], n, contents, hashOf, i, k.value, v);
        val[i] := v;
        contents := contents[k.value := v];
        return true;
      }
      CountIs(key[..], val[..], hash[..], n, contents, hashOf);
      if n == size { Grow(); }
      Add(k.value, v);
      return true;
    }

    /** Puts a new key into the first empty slot. */
    method Add(k: string, v: Option<string>)
      requires Valid() && n < size && Some(k) !in key[..]
      modifies this`n, this`contents, key, val, hash
      ensures Valid() && contents == old(contents)[k := v] && n == old(n) + 1
    {
      hide Occupied, Sound;
      var i := FirstEmpty();
      Inserted(key[..], val[..], hash[..], n, contents, hashOf, i, k, v);
      ghost var ks, vs, hs := key[..], val[..], hash[..];
      key[i], val[i], hash[i] := Some(k), v, hashOf(k);
      assert key[..] == ks[i := Some(k)] && val[..] == vs[i := v] && hash[..] == hs[i := hashOf(k)];
      n := n + 1;
      contents := contents[k := v];
    }

    method Unset(k: Option<string>)
      requires Valid()
      modifies this`n, this`contents, key, val, hash
      ensures Valid()
      ensures contents == if k.Some? then old(contents) - {k.value} else old(contents)
    {
      hide Occupied, Sound;
      if k == None { return; }
      var i := Find(k.value);
      if i >= size { return; }
      Removed(key[..], val[..], hash[..], n, contents, hashOf, i, k.value);
      ghost var ks, vs, hs := key[..], val[..], hash[..];
      key[i], val[i], hash[i] := None, None, 0;
      assert key[..] == ks[i := None] && val[..] == vs[i := None] && hash[..] == hs[i := 0];
      n := n - 1;
      contents := contents - {k.value};
    }
  }

  lemma Empty(ks: Slots, vs: Slots, hs: seq<int>, m: map<string, Option<string>>, hash: string -> int, key: string)
    requires Sound(ks, vs, hs, 0, m, hash)
    ensures Some(key) !in ks && key !in m
  {
    hide Occupied, Proper;
    assert m == map[];
  }

  lemma HasEmpty(ks: Slots, vs: Slots, hs: seq<int>, n: nat, m: map<string, Option<string>>, hash: string -> int)
    requires Sound(ks, vs, hs, n, m, hash) && n < |ks|
    ensures exists i :: 0 <= i < |ks| && ks[i] == None
  {
    hide Occupied, Proper, Holds;
    OccupiedBound(ks);
  }

  lemma Stored(ks: Slots, vs: Slots, hs: seq<int>, n: nat, m: map<string, Option<string>>, hash: string -> int, i: nat)
    requires Sound(ks, vs, hs, n, m, hash) && i < |ks| && ks[i].Some?
    ensures ks[i].value in m && m[ks[i].value] == vs[i]
  {
    hide Occupied, Proper;
  }

  // ---------------------------------------------------------------- whole runs

  datatype Op = Set(key: Option<string>, val: Option<string>) | Unset(key: Option<string>) | Get(name: string, def: Option<string>)

  /** What an operation does to a plain map. */
  ghost function Applied(m: map<string, Option<string>>, op: Op): map<string, Option<string>> {
    match op
    case Set(k, v) => if k.Some? then m[k.value := v] else m
    case Unset(k) => if k.Some? then m - {k.value} else m
    case Get(_, _) => m
  }

  /** What an operation answers on a plain map. */
  ghost function Reply(m: map<string, Option<string>>, op: Op): Option<string> {
    match op
    case Get(k, def) => if k in m then m[k] else def
    case _ => None
  }

  ghost function After(ops: seq<Op>): map<string, Option<string>> {
    if ops == [] then map[] else Applied(After(ops[..|ops| - 1]), ops[|ops| - 1])
  }

  lemma AfterNothing()
    ensures After([]) == map[]
  {
  }

  lemma AfterStep(ops: seq<Op>, i: nat)
    requires i < |ops|
    ensures After(ops[..i + 1]) == Applied(After(ops[..i]), ops[i])
  {
    hide Applied;
    assert ops[..i + 1][..i] == ops[..i];
  }

  method Perform(d: Dict, op: Op) returns (r: Option<string>)
    requires d.Valid()
    modifies d, d.key, d.val, d.hash
    ensures d.Valid() && d.contents == Applied(old(d.contents), op) && r == Reply(old(d.contents), op)
    ensures d.key == old(d.key) || fresh(d.key)
    ensures d.val == old(d.val) || fresh(d.val)
    ensures d.hash == old(d.hash) || fresh(d.hash)
  {
    hide Sound, Occupied;
    r := None;
    match op {
      case Set(k, v) => var _ := d.Set(k, v);
      case Unset(k) => d.Unset(k);
      case Get(k, def) => r := d.Get(k, def);
    }
  }

  /** Any run of operations on a fresh dictionary answers as the plain map does. */
  method Replay(ops: seq<Op>, hashOf: string -> int) returns (d: Dict, answers: seq<Option<string>>)
    ensures fresh(d) && d.Valid() && d.contents == After(ops) && d.n == |After(ops)|
    ensures |answers| == |ops| && forall i :: 0 <= i < |ops| ==> answers[i] == Reply(After(ops[..i]), ops[i])
  {
    hide Sound, Occupied, Reply, Applied, After;
    AfterNothing();
    d := new Dict(0, hashOf);
    answers := [];
    for i := 0 to |ops|
      invariant d.Valid() && d.contents == After(ops[..i]) && |answers| == i
      invariant fresh(d) && fresh(d.key) && fresh(d.val) && fresh(d.hash)
      invariant forall j :: 0 <= j < i ==> answers[j] == Reply(After(ops[..j]), ops[j])
    {
      AfterStep(ops, i);
      var r := Perform(d, ops[i]);
      answers := answers + [r];
    }
    assert ops[..|ops|] == ops;
    CountIs(d.key[..], d.val[..], d.hash[..], d.n, d.contents, d.hashOf);
  }

  lemma CountIs(ks: Slots, vs: Slots, hs: seq<int>, n: nat, m: map<string, Option<string>>, hash: string -> int)
    requires Sound(ks, vs, hs, n, m, hash)
    ensures n == |m| && n <= |ks|
  {
    hide Occupied, Proper, Holds;
    OccupiedBound(ks);
  }
}
