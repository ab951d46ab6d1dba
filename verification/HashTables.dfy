/** The self-expanding hash table and its iterator (lib/hash.cc).  A bucket is the item sequence of its list. */
module HashTables {
  import opened Base
  import opened Lists

  const INITIAL_BUCKETS: int := 4
  const RESIZE_RATIO: int := 3
  const INCREASE_SIZE_BY: int := 4

  // ----- the items of a bucket array -----

  function Flatten<T>(table: seq<seq<T>>): seq<T> {
    if table == [] then [] else table[0] + Flatten(table[1..])
  }

  ghost function Flat<T>(table: seq<seq<T>>): multiset<T> { multiset(Flatten(table)) }

  lemma {:induction false} FlattenSplit<T>(table: seq<seq<T>>, b: nat)
    requires b < |table|
    ensures Flatten(table) == Flatten(table[..b]) + table[b] + Flatten(table[b + 1..])
  {
    if b == 0 {
      assert table[..0] == [];
    } else {
      var rest := table[1..];
      FlattenSplit(rest, b - 1);
      assert rest[..b - 1] == table[..b][1..] && rest[b..] == table[b + 1..];
    }
  }

  /** Replacing one bucket's items. */
  lemma FlatUpdate<T>(table: seq<seq<T>>, b: nat, s: seq<T>)
    requires b < |table|
    ensures Flat(table[b := s]) + multiset(table[b]) == Flat(table) + multiset(s)
    ensures |Flatten(table[b := s])| + |table[b]| == |Flatten(table)| + |s|
  {
    FlattenSplit(table, b);
    FlattenSplit(table[b := s], b);
    assert table[b := s][..b] == table[..b] && table[b := s][b + 1..] == table[b + 1..];
  }

  lemma {:induction false} FlatMember<T>(table: seq<seq<T>>, x: T)
    ensures x in Flatten(table) <==> exists b :: 0 <= b < |table| && x in table[b]
  {
    if table == [] {
    } else {
      FlatMember(table[1..], x);
      if x in Flatten(table[1..]) {
        var b :| 0 <= b < |table| - 1 && x in table[1..][b];
        assert x in table[b + 1];
      }
      if b :| 0 <= b < |table| && x in table[b] {
        if b > 0 {
          assert x in table[1..][b - 1];
        }
      }
    }
  }

  lemma {:induction false} FlattenEmpty<T>(table: seq<seq<T>>)
    requires forall b :: 0 <= b < |table| ==> table[b] == []
    ensures Flatten(table) == []
  {
    if table == [] {
    } else {
      FlattenEmpty(table[1..]);
    }
  }

  // ----- the map it stands for -----

  /** HashValue. */
  function BucketOf<Key>(hash: Key -> nat, key: Key, n: nat): (b: nat)
    requires n > 0
    ensures b < n
  {
    hash(key) % n
  }

  /** Two keys share a bucket exactly when their hash values differ by a multiple of the number of buckets. */
  lemma SameBucket<Key>(hash: Key -> nat, j: Key, k: Key, n: nat)
    requires n > 0
    ensures BucketOf(hash, j, n) == BucketOf(hash, k, n) <==> exists m: int :: hash(j) - hash(k) == Times(m, n)
  {
    var (a, b) := (hash(j), hash(k));
    if a % n == b % n {
      assert a - b == Times(a / n - b / n, n);
    }
    forall m: int | a - b == Times(m, n) ensures a % n == b % n {
      Whole(b, m, n);
    }
  }

  function Times(m: int, n: int): int { m * n }

  lemma Whole(b: int, m: int, n: int)
    requires n > 0
    ensures (b + m * n) % n == b % n
  {
    var x := b + m * n;
    var k := x / n - b / n - m;
    assert x == (x / n) * n + x % n && b == (b / n) * n + b % n;
    assert k * n == (x / n) * n - (b / n) * n - m * n;
    Small(k, n, b % n - x % n);
  }

  /** The only multiple of n less than n away from 0 is 0. */
  lemma Small(k: int, n: int, d: int)
    requires k * n == d && -n < d < n
    ensures d == 0
  {
  }

  ghost predicate Placed<Key, T>(table: seq<seq<T>>, getKey: T -> Key, hash: Key -> nat) {
    forall b, i :: 0 <= b < |table| && 0 <= i < |table[b]| ==> BucketOf(hash, getKey(table[b][i]), |table|) == b
  }

  ghost predicate Maps<Key, T>(contents: map<Key, T>, getKey: T -> Key, x: T) {
    getKey(x) in contents && contents[getKey(x)] == x
  }

  /** Exactly the map's items, each once, under its own key. */
  ghost predicate Represents<Key(!new), T(!new)>(items: multiset<T>, contents: map<Key, T>, getKey: T -> Key) {
    && (forall x :: items[x] == if Maps(contents, getKey, x) then 1 else 0)
    && (forall k :: k in contents ==> getKey(contents[k]) == k)
  }

  lemma RepresentsAdd<Key(!new), T(!new)>(items: multiset<T>, contents: map<Key, T>, getKey: T -> Key, x: T)
    requires Represents(items, contents, getKey) && getKey(x) !in contents
    ensures Represents(items + multiset{x}, contents[getKey(x) := x], getKey)
  {
    var (more, larger) := (items + multiset{x}, contents[getKey(x) := x]);
    forall y ensures more[y] == if Maps(larger, getKey, y) then 1 else 0 {
      assert items[y] == if Maps(contents, getKey, y) then 1 else 0;
    }
  }

  lemma RepresentsDrop<Key(!new), T(!new)>(items: multiset<T>, less: multiset<T>, contents: map<Key, T>,
                                           getKey: T -> Key, x: T)
    requires Represents(items, contents, getKey) && Maps(contents, getKey, x) && less + multiset{x} == items
    ensures Represents(less, contents - {getKey(x)}, getKey)
  {
    var smaller := contents - {getKey(x)};
    forall y ensures less[y] == if Maps(smaller, getKey, y) then 1 else 0 {
      assert items[y] == if Maps(contents, getKey, y) then 1 else 0;
      assert items[y] == less[y] + multiset{x}[y];
    }
  }

  /** The hash bucket is the only place to look. */
  lemma InItsBucket<Key(!new), T(!new)>(table: seq<seq<T>>, contents: map<Key, T>, getKey: T -> Key,
      hash: Key -> nat, x: T)
    requires table != [] && Placed(table, getKey, hash) && Represents(Flat(table), contents, getKey)
    ensures Maps(contents, getKey, x) <==> x in table[BucketOf(hash, getKey(x), |table|)]
  {
    FlatMember(table, x);
    assert Flat(table)[x] == if Maps(contents, getKey, x) then 1 else 0;
    if Maps(contents, getKey, x) {
      assert x in Flatten(table);
      var b :| 0 <= b < |table| && x in table[b];
      var i :| 0 <= i < |table[b]| && table[b][i] == x;
    } else {
      assert x !in Flatten(table);
    }
  }

  lemma PlacedAppend<Key, T>(table: seq<seq<T>>, getKey: T -> Key, hash: Key -> nat, x: T)
    requires table != [] && Placed(table, getKey, hash)
    ensures Placed(Put(table, getKey, hash, x), getKey, hash)
  {
    hide BucketOf;
  }

  /** The bucket array after appending x to its bucket. */
  function Put<Key, T>(table: seq<seq<T>>, getKey: T -> Key, hash: Key -> nat, x: T): (t: seq<seq<T>>)
    requires table != []
    ensures |t| == |table|
  {
    var b := BucketOf(hash, getKey(x), |table|);
    table[b := table[b] + [x]]
  }

  lemma PutItems<Key, T>(table: seq<seq<T>>, getKey: T -> Key, hash: Key -> nat, x: T)
    requires table != []
    ensures Flat(Put(table, getKey, hash, x)) == Flat(table) + multiset{x}
    ensures |Flatten(Put(table, getKey, hash, x))| == |Flatten(table)| + 1
  {
    hide Flat, Flatten, BucketOf;
    var b := BucketOf(hash, getKey(x), |table|);
    FlatUpdate(table, b, table[b] + [x]);
    assert multiset(table[b] + [x]) == multiset(table[b]) + multiset{x};
    TakeAway(Flat(Put(table, getKey, hash, x)), multiset(table[b]), Flat(table), x);
  }

  lemma TakeAway<T>(a: multiset<T>, b: multiset<T>, c: multiset<T>, x: T)
    requires a + b == c + (b + multiset{x})
    ensures a == c + multiset{x}
  {
    forall y ensures a[y] == (c + multiset{x})[y] {
      assert (a + b)[y] == (c + (b + multiset{x}))[y];
    }
  }

  /** The array with the front item of bucket i gone. */
  function Pop<T>(table: seq<seq<T>>, i: nat): (t: seq<seq<T>>)
    requires i < |table| && table[i] != []
    ensures |t| == |table|
  {
    table[i := table[i][1..]]
  }

  lemma PopItems<T>(table: seq<seq<T>>, i: nat)
    requires i < |table| && table[i] != []
    ensures Flat(Pop(table, i)) + multiset{table[i][0]} == Flat(table)
    ensures |Flatten(Pop(table, i))| + 1 == |Flatten(table)|
  {
    hide Flat, Flatten;
    var (x, rest) := (table[i][0], table[i][1..]);
    assert table[i] == [x] + rest;
    FlatUpdate(table, i, rest);
    assert multiset(table[i]) == multiset(rest) + multiset{x};
    TakeOne(Flat(Pop(table, i)), multiset(rest), Flat(table), multiset(table[i]), x);
  }

  /** Moving one item from the old array to the new one: nothing is lost or doubled, and it stands where it hashes. */
  lemma MoveKeeps<Key, T>(table: seq<seq<T>>, from: seq<seq<T>>, getKey: T -> Key, hash: Key -> nat, i: nat)
    requires table != [] && Placed(table, getKey, hash) && i < |from| && from[i] != []
    ensures var t := Put(table, getKey, hash, from[i][0]);
      && Placed(t, getKey, hash) && Flat(t) + Flat(Pop(from, i)) == Flat(table) + Flat(from)
      && |Flatten(t)| + |Flatten(Pop(from, i))| == |Flatten(table)| + |Flatten(from)|
  {
    hide Flat, Flatten, Placed, Put, Pop;
    PlacedAppend(table, getKey, hash, from[i][0]);
    PutItems(table, getKey, hash, from[i][0]);
    PopItems(from, i);
  }

  lemma Resize(n: int, b: int)
    requires b > 0 && 0 <= n <= RESIZE_RATIO * b
    ensures n / b >= RESIZE_RATIO || n + 1 <= RESIZE_RATIO * b
    ensures n + 1 <= RESIZE_RATIO * (INCREASE_SIZE_BY * b)
  {
    assert n == (n / b) * b + n % b;
  }

  lemma PlacedLess<Key, T>(table: seq<seq<T>>, getKey: T -> Key, hash: Key -> nat, b: nat, s: seq<T>)
    requires b < |table| && Placed(table, getKey, hash) && forall x :: x in s ==> x in table[b]
    ensures Placed(table[b := s], getKey, hash)
  {
    forall i | 0 <= i < |s| ensures BucketOf(hash, getKey(s[i]), |table|) == b {
      assert s[i] in table[b];
      var j :| 0 <= j < |table[b]| && table[b][j] == s[i];
    }
  }

  lemma {:induction false} WithoutItems<T>(s: seq<T>, x: T)
    requires x in s
    ensures multiset(Without(s, x)) + multiset{x} == multiset(s) && |Without(s, x)| == |s| - 1
    ensures forall y :: y in Without(s, x) ==> y in s
  {
    assert s == [s[0]] + s[1..];
    if s[0] == x {
    } else {
      WithoutItems(s[1..], x);
    }
  }

  class HashTable<Key(==, !new), T(==, !new)> {
    const getKey: T -> Key
    const hash: Key -> nat
    var buckets: array<seq<T>>
    var numItems: int
    ghost var contents: map<Key, T>

    ghost predicate Valid()
      reads this, buckets
    {
      && buckets.Length > 0 && Placed(buckets[..], getKey, hash) && Represents(Flat(buckets[..]), contents, getKey)
      && numItems == |Flatten(buckets[..])| <= RESIZE_RATIO * buckets.Length
    }

    constructor (get: T -> Key, hFunc: Key -> nat)
      ensures Valid() && getKey == get && hash == hFunc && contents == map[] && fresh(buckets)
    {
      getKey, hash := get, hFunc;
      numItems := 0;
      buckets := new seq<T>[INITIAL_BUCKETS](i => []);
      contents := map[];
      new;
      FlattenEmpty(buckets[..]);
    }

    method FindInBucket(bucket: nat, key: Key) returns (r: Option<T>)
      requires bucket < buckets.Length
      ensures r.Some? ==> r.value in buckets[bucket] && getKey(r.value) == key
      ensures r.None? ==> forall x :: x in buckets[bucket] ==> getKey(x) != key
    {
      var s := buckets[bucket];
      for i := 0 to |s|
        invariant forall j :: 0 <= j < i ==> getKey(s[j]) != key
      {
        if key == getKey(s[i]) {
          return Some(s[i]);
        }
      }
      return None;
    }

    method FindNextFullBucket(start: nat) returns (bucket: nat)
      requires start <= buckets.Length
      ensures start <= bucket <= buckets.Length && forall b :: start <= b < bucket ==> buckets[b] == []
      ensures bucket < buckets.Length ==> buckets[bucket] != []
    {
      bucket := start;
      while bucket < buckets.Length && buckets[bucket] == []
        invariant start <= bucket <= buckets.Length && forall b :: start <= b < bucket ==> buckets[b] == []
      {
        bucket := bucket + 1;
      }
    }

    /** Find is lookup in the map. */
    method Find(key: Key) returns (r: Option<T>)
      requires Valid()
      ensures r == if key in contents then Some(contents[key]) else None
    {
      hide Placed, Flat;
      var bucket := BucketOf(hash, key, buckets.Length);
      r := FindInBucket(bucket, key);
      if r.Some? {
        InItsBucket(buckets[..], contents, getKey, hash, r.value);
      } else if key in contents {
        InItsBucket(buckets[..], contents, getKey, hash, contents[key]);
      }
    }

    /** A bucket list refuses an item it already has. */
    method AppendToBucket(item: T)
      requires buckets.Length > 0 && item !in buckets[BucketOf(hash, getKey(item), buckets.Length)]
      modifies buckets
      ensures buckets[..] == Put(old(buckets[..]), getKey, hash, item)
    {
      hide BucketOf;
      var b := BucketOf(hash, getKey(item), buckets.Length);
      buckets[b] := buckets[b] + [item];
    }

    /** Insert requires the key to be new, as the source asserts. */
    method Insert(item: T)
      requires Valid() && getKey(item) !in contents
      modifies this, buckets
      ensures Valid() && contents == old(contents)[getKey(item) := item]
      ensures numItems == old(numItems) + 1
      ensures if old(numItems) < RESIZE_RATIO * old(buckets.Length) then buckets == old(buckets)
              else fresh(buckets) && buckets.Length == INCREASE_SIZE_BY * old(buckets.Length)
    {
      hide Placed, Flat, Represents, Flatten, Put, BucketOf;
      Resize(numItems, buckets.Length);
      if numItems / buckets.Length >= RESIZE_RATIO {
        ReHash();
      }
      ghost var table := buckets[..];
      InItsBucket(table, contents, getKey, hash, item);
      assert !Maps(contents, getKey, item);
      RepresentsAdd(Flat(table), contents, getKey, item);
      PlacedAppend(table, getKey, hash, item);
      PutItems(table, getKey, hash, item);
      AppendToBucket(item);
      numItems := numItems + 1;
      contents := contents[getKey(item) := item];
    }

    /** Remove requires the key to be present, as the source asserts. */
    method Remove(key: Key) returns (item: T)
      requires Valid() && key in contents
      modifies this, buckets
      ensures Valid() && buckets == old(buckets)
      ensures item == old(contents)[key] && contents == old(contents) - {key}
    {
      var bucket := BucketOf(hash, key, buckets.Length);
      var found := Find(key);
      item := found.value;
      ghost var table := buckets[..];
      InItsBucket(table, contents, getKey, hash, item);
      WithoutItems(table[bucket], item);
      PlacedLess(table, getKey, hash, bucket, Without(table[bucket], item));
      FlatUpdate(table, bucket, Without(table[bucket], item));
      buckets[bucket] := Without(buckets[bucket], item);
      assert buckets[..] == table[bucket := Without(table[bucket], item)];
      hide Placed, Flat, Represents;
      TakeOne(Flat(buckets[..]), multiset(Without(table[bucket], item)), Flat(table), multiset(table[bucket]), item);
      RepresentsDrop(Flat(table), Flat(buckets[..]), contents, getKey, item);
      numItems := numItems - 1;
      contents := contents - {key};
    }

    /** ReHash moves every item to a four times larger array; none is lost or doubled. */
    method ReHash()
      requires Valid()
      modifies this, buckets
      ensures Valid() && contents == old(contents) && numItems == old(numItems)
      ensures fresh(buckets) && buckets.Length == INCREASE_SIZE_BY * old(buckets.Length)
    {
      var oldTable, oldSize := buckets, buckets.Length;
      ghost var items := Flat(buckets[..]);
      AtMostOnce(items, contents, getKey);
      hide Placed, Flat, Represents, Flatten;
      InitBuckets(oldSize * INCREASE_SIZE_BY);
      assert Moving(oldTable, items);
      hide Moving;
      for i := 0 to oldSize
        invariant Moving(oldTable, items) && forall b :: 0 <= b < i ==> oldTable[b] == []
        modifies oldTable, buckets
      {
        EmptyBucket(oldTable, i, items);
      }
      AllMoved(oldTable, items);
    }

    lemma AllMoved(oldTable: array<seq<T>>, items: multiset<T>)
      requires Moving(oldTable, items) && forall b :: 0 <= b < oldTable.Length ==> oldTable[b] == []
      ensures buckets.Length > 0 && Placed(buckets[..], getKey, hash) && Flat(buckets[..]) == items
      ensures numItems == |Flatten(buckets[..])|
    {
      hide Placed, Flat, Flatten;
      FlattenEmpty(oldTable[..]);
      NoItems(oldTable[..]);
    }

    method InitBuckets(sz: nat)
      requires sz > 0
      modifies this`buckets
      ensures fresh(buckets) && buckets.Length == sz && Placed(buckets[..], getKey, hash)
      ensures Flatten(buckets[..]) == [] && Flat(buckets[..]) == multiset{}
    {
      buckets := new seq<T>[sz](i => []);
      FlattenEmpty(buckets[..]);
    }

    /** The inner loop. */
    method EmptyBucket(oldTable: array<seq<T>>, i: nat, ghost items: multiset<T>)
      requires oldTable != buckets && i < oldTable.Length && Moving(oldTable, items) && forall x :: items[x] <= 1
      modifies oldTable, buckets
      ensures Moving(oldTable, items) && oldTable[i] == []
      ensures forall b :: 0 <= b < oldTable.Length && b != i ==> oldTable[b] == old(oldTable[b])
    {
      hide Moving;
      while oldTable[i] != []
        invariant Moving(oldTable, items)
        invariant forall b :: 0 <= b < oldTable.Length && b != i ==> oldTable[b] == old(oldTable[b])
        decreases |oldTable[i]|
      {
        ghost var from := oldTable[..];
        MoveOne(oldTable, i, items);
        forall b | 0 <= b < oldTable.Length ensures oldTable[b] == if b == i then from[i][1..] else from[b] {
          assert oldTable[..][b] == Pop(from, i)[b];
        }
      }
    }

    /** The items are spread over the old and the new array. */
    ghost predicate Moving(oldTable: array<seq<T>>, items: multiset<T>)
      reads this, buckets, oldTable
    {
      && buckets.Length > 0 && Placed(buckets[..], getKey, hash) && Flat(buckets[..]) + Flat(oldTable[..]) == items
      && |Flatten(buckets[..])| + |Flatten(oldTable[..])| == numItems
    }

    /** One turn of the inner loop. */
    method MoveOne(oldTable: array<seq<T>>, i: nat, ghost items: multiset<T>)
      requires oldTable != buckets && i < oldTable.Length && oldTable[i] != []
      requires Moving(oldTable, items) && forall x :: items[x] <= 1
      modifies oldTable, buckets
      ensures Moving(oldTable, items)
      ensures oldTable[..] == Pop(old(oldTable[..]), i)
    {
      hide Placed, Flat, Flatten, BucketOf, Put;
      ghost var from, table := oldTable[..], buckets[..];
      MoveKeeps(table, from, getKey, hash, i);
      var item := oldTable[i][0];
      NotYetMoved(table, from, item, BucketOf(hash, getKey(item), buckets.Length), i);
      oldTable[i] := oldTable[i][1..];
      assert oldTable[..] == Pop(from, i) && buckets[..] == table;
      AppendToBucket(item);
      assert oldTable[..] == Pop(from, i);
    }
  }

  lemma TakeOne<T>(a: multiset<T>, b: multiset<T>, c: multiset<T>, d: multiset<T>, x: T)
    requires a + d == c + b && b + multiset{x} == d
    ensures a + multiset{x} == c
  {
    assert a + (b + multiset{x}) == c + b;
    forall y ensures (a + multiset{x})[y] == c[y] {
      assert (a + (b + multiset{x}))[y] == (c + b)[y];
    }
  }

  lemma AtMostOnce<Key(!new), T(!new)>(items: multiset<T>, contents: map<Key, T>, getKey: T -> Key)
    requires Represents(items, contents, getKey)
    ensures forall x :: items[x] <= 1
  {
  }

  lemma NoItems<T>(table: seq<seq<T>>)
    requires Flatten(table) == []
    ensures Flat(table) == multiset{}
  {
  }

  /** An item still in the old array is not in the new one. */
  lemma NotYetMoved<T>(table: seq<seq<T>>, from: seq<seq<T>>, x: T, b: nat, i: nat)
    requires b < |table| && i < |from| && x in from[i] && (Flat(table) + Flat(from))[x] <= 1
    ensures x !in table[b]
  {
    FlatMember(from, x);
    FlatMember(table, x);
    assert x in Flat(from);
  }

  // ----- iteration -----

  lemma {:induction false} SkipEmpty<T>(table: seq<seq<T>>, a: nat, b: nat)
    requires a <= b <= |table| && forall i :: a <= i < b ==> table[i] == []
    ensures Flatten(table[a..]) == Flatten(table[b..])
    decreases b - a
  {
    if a == b {
    } else {
      SkipEmpty(table, a + 1, b);
      assert table[a..][0] == [] && table[a..][1..] == table[a + 1..];
    }
  }

  /** The items from the given place on, in the order of the buckets. */
  ghost function From<T>(table: seq<seq<T>>, bucket: nat, position: nat): seq<T>
    requires bucket < |table| ==> position <= |table[bucket]|
  {
    if bucket < |table| then table[bucket][position..] + Flatten(table[bucket + 1..]) else []
  }

  lemma FromStart<T>(table: seq<seq<T>>, a: nat, b: nat)
    requires a <= b <= |table| && forall i :: a <= i < b ==> table[i] == []
    ensures From(table, b, 0) == Flatten(table[a..])
  {
    SkipEmpty(table, a, b);
    if b < |table| {
      assert table[b..][0] == table[b] && table[b..][1..] == table[b + 1..];
    } else {
      assert table[b..] == [];
    }
  }

  class HashIterator<Key(==, !new), T(==, !new)> {
    const table: HashTable<Key, T>
    var bucket: nat
    var position: nat

    ghost predicate Valid()
      reads this, table, table.buckets
    {
      bucket <= table.buckets.Length && (bucket < table.buckets.Length ==> position < |table.buckets[bucket]|)
    }

    /** The items not yet passed; the current one is the first. */
    ghost function Remaining(): seq<T>
      requires Valid()
      reads this, table, table.buckets
    {
      From(table.buckets[..], bucket, position)
    }

    constructor (tbl: HashTable<Key, T>)
      ensures table == tbl && Valid() && Remaining() == Flatten(tbl.buckets[..])
    {
      table := tbl;
      var b := tbl.FindNextFullBucket(0);
      bucket, position := b, 0;
      new;
      FromStart(tbl.buckets[..], 0, b);
      assert tbl.buckets[..][0..] == tbl.buckets[..];
    }

    predicate IsDone()
      requires Valid()
      reads this, table, table.buckets
      ensures IsDone() <==> Remaining() == []
    {
      bucket == table.buckets.Length
    }

    method Item() returns (item: T)
      requires Valid() && !IsDone()
      ensures Remaining() != [] && item == Remaining()[0]
    {
      item := table.buckets[bucket][position];
    }

    method Next()
      requires Valid() && !IsDone()
      modifies this
      ensures Valid() && Remaining() == old(Remaining())[1..]
    {
      ghost var all := table.buckets[..];
      assert all[bucket][position..][1..] == all[bucket][position + 1..];
      position := position + 1;
      if position == |table.buckets[bucket]| {
        ghost var start := bucket + 1;
        var b := table.FindNextFullBucket(bucket + 1);
        bucket, position := b, 0;
        FromStart(all, start, b);
      }
    }
  }

  /** A full pass meets every item of the map exactly once. */
  method Visit<Key(==, !new), T(==, !new)>(table: HashTable<Key, T>) returns (visited: seq<T>)
    requires table.Valid()
    ensures visited == Flatten(table.buckets[..]) && Represents(multiset(visited), table.contents, table.getKey)
  {
    ghost var all := Flatten(table.buckets[..]);
    assert Represents(multiset(all), table.contents, table.getKey);
    hide Flatten, From, Represents, Placed, Flat, Covers;
    visited := [];
    var iter := new HashIterator(table);
    PassNone(all);
    while !iter.IsDone()
      invariant iter.table == table && iter.Valid() && Covers(visited, iter.Remaining(), all)
      decreases |iter.Remaining()|
      modifies iter
    {
      var item := iter.Item();
      PassOne(visited, iter.Remaining(), all);
      iter.Next();
      visited := visited + [item];
    }
    PassAll(visited, all);
  }

  /** What has been visited and what remains make up all items. */
  ghost predicate Covers<T>(visited: seq<T>, rest: seq<T>, all: seq<T>) { visited + rest == all }

  lemma PassNone<T>(all: seq<T>)
    ensures Covers([], all, all)
  {
    assert [] + all == all;
  }

  lemma PassOne<T>(visited: seq<T>, rest: seq<T>, all: seq<T>)
    requires Covers(visited, rest, all) && rest != []
    ensures Covers(visited + [rest[0]], rest[1..], all)
  {
    assert visited + [rest[0]] + rest[1..] == all;
  }

  lemma PassAll<T>(visited: seq<T>, all: seq<T>)
    requires Covers(visited, [], all)
    ensures visited == all
  {
    assert visited + [] == visited;
  }
}
