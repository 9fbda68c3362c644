/** The chained hash table of src/utils/hash_table.c, proved to be a finite map. */
module HashTable {
  import opened Wrappers

  datatype Node<+V> = Node(key: nat, value: V)

  const INITIAL_BUCKETS: nat := 16

  /** A bucket has each key once. */
  ghost predicate DistinctKeys<V>(b: seq<Node<V>>) {
    forall i, j :: 0 <= i < j < |b| ==> b[i].key != b[j].key
  }

  /** All nodes of bucket i belong there. */
  ghost predicate Homed<V>(b: seq<Node<V>>, i: nat, n: nat)
    requires n > 0
  {
    forall j :: 0 <= j < |b| ==> b[j].key % n == i
  }

  /** Every bucket is sound. */
  ghost predicate Sound<V>(bs: seq<seq<Node<V>>>) {
    |bs| > 0 && forall i :: 0 <= i < |bs| ==> DistinctKeys(bs[i]) && Homed(bs[i], i, |bs|)
  }

  /** The node is in the bucket of its key. */
  ghost predicate Holds<V(!new)>(bs: seq<seq<Node<V>>>, x: Node<V>)
    requires |bs| > 0
  {
    x in bs[x.key % |bs|]
  }

  /** The buckets represent the map m. */
  ghost predicate Represents<V(!new)>(bs: seq<seq<Node<V>>>, m: map<nat, V>)
    requires |bs| > 0
  {
    forall x: Node<V> :: Holds(bs, x) <==> x.key in m && m[x.key] == x.value
  }

  lemma SameKey<V(!new)>(b: seq<Node<V>>, x: Node<V>, y: Node<V>)
    requires DistinctKeys(b) && x in b && y in b && x.key == y.key
    ensures x == y
  {
  }

  // ---------------------------------------------------------------- bucket operations

  /** hash_table_bucket_lookup: the node with the key, if any. */
  method Lookup<V>(b: seq<Node<V>>, key: nat) returns (j: nat)
    ensures j <= |b| && (j < |b| ==> b[j].key == key)
    ensures j == |b| ==> forall i :: 0 <= i < |b| ==> b[i].key != key
  {
    j := 0;
    while j < |b| && b[j].key != key
      invariant j <= |b| && forall i :: 0 <= i < j ==> b[i].key != key
    {
      j := j + 1;
    }
  }

  /** Replacing a node's value. */
  lemma Updated<V(!new)>(bs: seq<seq<Node<V>>>, m: map<nat, V>, key: nat, j: nat, v: V)
    requires Sound(bs) && Represents(bs, m) && j < |bs[key % |bs|]| && bs[key % |bs|][j].key == key
    ensures key in m && m[key] == bs[key % |bs|][j].value
    ensures var n := bs[key % |bs| := bs[key % |bs|][j := Node(key, v)]]; Sound(n) && Represents(n, m[key := v])
  {
    var i := key % |bs|;
    var b := bs[i];
    var c := b[j := Node(key, v)];
    var n := bs[i := c];
    assert Holds(bs, b[j]);
    forall x: Node<V> ensures Holds(n, x) <==> x.key in m[key := v] && m[key := v][x.key] == x.value {
      assert Holds(bs, x) <==> x.key in m && m[x.key] == x.value;
      if x.key % |bs| == i {
        UpdatedBucket(b, j, key, v, x);
      }
    }
  }

  lemma UpdatedBucket<V(!new)>(b: seq<Node<V>>, j: nat, key: nat, v: V, x: Node<V>)
    requires DistinctKeys(b) && j < |b| && b[j].key == key
    ensures x in b[j := Node(key, v)] <==> if x.key == key then x.value == v else x in b
  {
    var c := b[j := Node(key, v)];
    assert c[j] == Node(key, v);
    if x in c {
      var k :| 0 <= k < |c| && c[k] == x;
      assert k != j ==> b[k] == x && b[k].key != key;
    }
    if x in b && x.key != key {
      var k :| 0 <= k < |b| && b[k] == x;
      assert c[k] == x;
    }
  }

  lemma KeyPresent<V(!new)>(bs: seq<seq<Node<V>>>, m: map<nat, V>, key: nat)
    requires |bs| > 0 && Represents(bs, m) && key in m
    ensures exists j :: 0 <= j < |bs[key % |bs|]| && bs[key % |bs|][j] == Node(key, m[key])
  {
    assert Holds(bs, Node(key, m[key]));
  }

  /** Appending a node with a new key. */
  lemma Appended<V(!new)>(bs: seq<seq<Node<V>>>, m: map<nat, V>, key: nat, v: V)
    requires Sound(bs) && Represents(bs, m) && forall j :: 0 <= j < |bs[key % |bs|]| ==> bs[key % |bs|][j].key != key
    ensures key !in m
    ensures var n := bs[key % |bs| := bs[key % |bs|] + [Node(key, v)]]; Sound(n) && Represents(n, m[key := v])
  {
    var i := key % |bs|;
    var b := bs[i];
    var c := b + [Node(key, v)];
    var n := bs[i := c];
    if key in m {
      KeyPresent(bs, m, key);
    }
    forall x: Node<V> ensures Holds(n, x) <==> x.key in m[key := v] && m[key := v][x.key] == x.value {
      assert Holds(bs, x) <==> x.key in m && m[x.key] == x.value;
    }
  }

  /** Unlinking node j of a bucket. */
  lemma Unlinked<V(!new)>(bs: seq<seq<Node<V>>>, m: map<nat, V>, key: nat, j: nat)
    requires Sound(bs) && Represents(bs, m) && j < |bs[key % |bs|]| && bs[key % |bs|][j].key == key
    ensures key in m && m[key] == bs[key % |bs|][j].value
    ensures var b := bs[key % |bs|]; var n := bs[key % |bs| := b[..j] + b[j + 1..]]; Sound(n) && Represents(n, m - {key})
  {
    var i := key % |bs|;
    var b := bs[i];
    var c := b[..j] + b[j + 1..];
    var n := bs[i := c];
    assert Holds(bs, b[j]);
    assert forall k :: 0 <= k < |c| ==> c[k] == b[if k < j then k else k + 1];
    forall x: Node<V> ensures Holds(n, x) <==> x.key in m - {key} && (m - {key})[x.key] == x.value {
      assert Holds(bs, x) <==> x.key in m && m[x.key] == x.value;
      if x.key % |bs| == i {
        UnlinkedBucket(b, j, x);
      }
    }
  }

  lemma UnlinkedBucket<V(!new)>(b: seq<Node<V>>, j: nat, x: Node<V>)
    requires DistinctKeys(b) && j < |b|
    ensures x in b[..j] + b[j + 1..] <==> x in b && x.key != b[j].key
  {
    var c := b[..j] + b[j + 1..];
    if x in c {
      var k :| 0 <= k < |c| && c[k] == x;
      assert x == b[if k < j then k else k + 1];
    }
    if x in b && x.key != b[j].key {
      var k :| 0 <= k < |b| && b[k] == x;
      assert c[if k < j then k else k - 1] == x;
    }
  }

  lemma CardPut<V>(m: map<nat, V>, key: nat, v: V)
    ensures |m[key := v]| == if key in m then |m| else |m| + 1
  {
    assert m[key := v].Keys == m.Keys + {key};
    assert |m[key := v].Keys| == |m[key := v]| && |m.Keys| == |m|;
  }

  lemma CardRemove<V>(m: map<nat, V>, key: nat)
    ensures |m - {key}| == if key in m then |m| - 1 else |m|
  {
    assert (m - {key}).Keys == m.Keys - {key};
    assert |(m - {key}).Keys| == |m - {key}| && |m.Keys| == |m|;
  }

  // ---------------------------------------------------------------- expansion

  /** From old to new: what has left `old` of the original buckets is in `fresh`, and nothing else. */
  ghost predicate Moving<V(!new)>(orig: seq<seq<Node<V>>>, cur: seq<seq<Node<V>>>, fresh_: seq<seq<Node<V>>>) {
    && |cur| == |orig| > 0 && Sound(fresh_)
    && forall x: Node<V> :: Holds(fresh_, x) <==> Holds(orig, x) && !Holds(cur, x)
  }

  lemma MoveNode<V(!new)>(orig: seq<seq<Node<V>>>, cur: seq<seq<Node<V>>>, nb: seq<seq<Node<V>>>, i: nat)
    requires Sound(orig) && Sound(cur) && Moving(orig, cur, nb) && i < |cur| && cur[i] != [] && forall x: Node<V> :: Holds(cur, x) ==> Holds(orig, x)
    ensures var x := cur[i][0];
      var cur', nb' := cur[i := cur[i][1..]], nb[x.key % |nb| := nb[x.key % |nb|] + [x]];
      Sound(cur') && Moving(orig, cur', nb') && forall y: Node<V> :: Holds(cur', y) ==> Holds(orig, y)
  {
    var x := cur[i][0];
    var k := x.key % |nb|;
    var cur', nb' := cur[i := cur[i][1..]], nb[k := nb[k] + [x]];
    assert Homed(cur[i], i, |cur|) && Holds(cur, x) && Holds(orig, x);
    NoSameKey(orig, cur, nb, x);
    assert Sound(nb');
    assert forall j :: 0 <= j < |cur'[i]| ==> cur'[i][j] == cur[i][j + 1];
    assert Sound(cur');
    forall y: Node<V> ensures Holds(cur', y) <==> Holds(cur, y) && y != x {
      if y.key % |cur| == i {
        HeadOff(cur[i], y);
      }
    }
    forall y: Node<V> ensures Holds(nb', y) <==> Holds(nb, y) || y == x {
    }
  }

  lemma HeadOff<V(!new)>(b: seq<Node<V>>, y: Node<V>)
    requires DistinctKeys(b) && b != []
    ensures y in b[1..] <==> y in b && y != b[0]
  {
    assert b == [b[0]] + b[1..];
    assert forall j :: 0 <= j < |b[1..]| ==> b[1..][j] == b[j + 1];
  }

  lemma NoSameKey<V(!new)>(orig: seq<seq<Node<V>>>, cur: seq<seq<Node<V>>>, nb: seq<seq<Node<V>>>, x: Node<V>)
    requires Sound(orig) && Moving(orig, cur, nb) && Holds(cur, x) && Holds(orig, x)
    ensures forall j :: 0 <= j < |nb[x.key % |nb|]| ==> nb[x.key % |nb|][j].key != x.key
  {
    var b := nb[x.key % |nb|];
    forall j | 0 <= j < |b| ensures b[j].key != x.key {
      if b[j].key == x.key {
        assert Holds(nb, b[j]);
        SameKey(orig[x.key % |orig|], x, b[j]);
      }
    }
  }

  class Table<V(!new)> {
    var buckets: array<seq<Node<V>>>
    var size: nat
    ghost var contents: map<nat, V>

    /** The table is the map, each key once and in its bucket, at most three quarters full. */
    ghost predicate Valid()
      reads this, buckets
    {
      && Sound(buckets[..]) && Represents(buckets[..], contents)
      && size == |contents| && 4 * size <= 3 * buckets.Length
    }

    /** hash_table_init. */
    constructor ()
      ensures Valid() && fresh(buckets) && contents == map[]
    {
      buckets := new seq<Node<V>>[INITIAL_BUCKETS](_ => []);
      size := 0;
      contents := map[];
    }

    /** hash_table_get. */
    method Get(key: nat) returns (v: Option<V>)
      requires Valid()
      ensures v == if key in contents then Some(contents[key]) else None
    {
      var i := key % buckets.Length;
      var b := buckets[i];
      var j := Lookup(b, key);
      ghost var bs := buckets[..];
      assert bs[i] == b;
      if j < |b| {
        assert Holds(bs, b[j]);
        return Some(b[j].value);
      }
      if key in contents {
        KeyPresent(bs, contents, key);
      }
      v := None;
    }

    /** hash_table_put: the previous value of the key, if it had one. */
    method Put(key: nat, v: V) returns (was: Option<V>)
      requires Valid()
      modifies this, buckets
      ensures Valid() && (buckets == old(buckets) || fresh(buckets))
      ensures contents == old(contents)[key := v] && was == if key in old(contents) then Some(old(contents)[key]) else None
    {
      var i := key % buckets.Length;
      var b := buckets[i];
      var j := Lookup(b, key);
      ghost var bs := buckets[..];
      assert bs[i] == b;
      CardPut(contents, key, v);
      if j < |b| {
        Updated(bs, contents, key, j, v);
        was := Some(b[j].value);
        buckets[i] := b[j := Node(key, v)];
        contents := contents[key := v];
        assert buckets[..] == bs[i := b[j := Node(key, v)]];
        return;
      }
      Appended(bs, contents, key, v);
      buckets[i] := b + [Node(key, v)];
      size := size + 1;
      contents := contents[key := v];
      assert buckets[..] == bs[i := b + [Node(key, v)]];
      if 4 * size > 3 * buckets.Length {
        Expand();
      }
      was := None;
    }

    /** hash_table_expand: every node moves to its bucket in an array twice as large; the map is the same. */
    method Expand()
      requires Sound(buckets[..]) && Represents(buckets[..], contents) && size == |contents| && 4 * size <= 3 * buckets.Length + 4
      modifies this, buckets
      ensures Valid() && contents == old(contents) && fresh(buckets) && buckets.Length == 2 * old(buckets.Length)
    {
      ghost var orig := buckets[..];
      var fresh_ := new seq<Node<V>>[2 * buckets.Length](_ => []);
      for i := 0 to buckets.Length
        invariant fresh(fresh_) && fresh_ != buckets && buckets == old(buckets) && fresh_.Length == 2 * buckets.Length
        invariant Sound(buckets[..]) && Moving(orig, buckets[..], fresh_[..])
        invariant (forall j :: 0 <= j < i ==> buckets[j] == []) && forall x: Node<V> :: Holds(buckets[..], x) ==> Holds(orig, x)
        invariant size == old(size) && contents == old(contents)
      {
        while buckets[i] != []
          invariant fresh(fresh_) && fresh_ != buckets && buckets == old(buckets) && fresh_.Length == 2 * buckets.Length
          invariant Sound(buckets[..]) && Moving(orig, buckets[..], fresh_[..])
          invariant (forall j :: 0 <= j < i ==> buckets[j] == []) && forall x: Node<V> :: Holds(buckets[..], x) ==> Holds(orig, x)
          invariant size == old(size) && contents == old(contents)
          decreases |buckets[i]|
        {
          ghost var cur, nb := buckets[..], fresh_[..];
          MoveNode(orig, cur, nb, i);
          var x := buckets[i][0];
          buckets[i] := buckets[i][1..];
          var k := x.key % fresh_.Length;
          fresh_[k] := fresh_[k] + [x];
          assert buckets[..] == cur[i := cur[i][1..]] && fresh_[..] == nb[k := nb[k] + [x]];
        }
      }
      forall x: Node<V> ensures Holds(fresh_[..], x) <==> x.key in contents && contents[x.key] == x.value {
        assert !Holds(buckets[..], x);
        assert Holds(fresh_[..], x) <==> Holds(orig, x);
      }
      buckets := fresh_;
    }

    /** hash_table_remove. */
    method Remove(key: nat) returns (v: Option<V>)
      requires Valid()
      modifies this, buckets
      ensures Valid() && buckets == old(buckets)
      ensures contents == old(contents) - {key} && v == if key in old(contents) then Some(old(contents)[key]) else None
    {
      var i := key % buckets.Length;
      var b := buckets[i];
      var j := Lookup(b, key);
      ghost var bs := buckets[..];
      assert bs[i] == b;
      CardRemove(contents, key);
      if j < |b| {
        Unlinked(bs, contents, key, j);
        v := Some(b[j].value);
        buckets[i] := b[..j] + b[j + 1..];
        size := size - 1;
        contents := contents - {key};
        assert buckets[..] == bs[i := b[..j] + b[j + 1..]];
        return;
      }
      if key in contents {
        KeyPresent(bs, contents, key);
      }
      assert contents - {key} == contents;
      v := None;
    }

    /** hash_table_get_first: some entry, unless the table is empty. */
    method GetFirst() returns (v: Option<Node<V>>)
      requires Valid()
      ensures v.None? <==> contents == map[]
      ensures v.Some? ==> v.value.key in contents && contents[v.value.key] == v.value.value
    {
      if size == 0 {
        return None;
      }
      ghost var bs := buckets[..];
      for i := 0 to buckets.Length
        invariant forall j :: 0 <= j < i ==> buckets[j] == []
      {
        if buckets[i] != [] {
          assert bs[i] == buckets[i] && Homed(bs[i], i, |bs|);
          assert Holds(bs, buckets[i][0]);
          return Some(buckets[i][0]);
        }
      }
      ghost var key :| key in contents;
      KeyPresent(bs, contents, key);
      v := None;
    }
  }
}
