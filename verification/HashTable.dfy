/** The chained hash table: an array of lists of items, proved to be a finite map. */
module HashTable {
  import opened ByteStrings
  import opened LinkedList

  const U64: nat := 0x1_0000_0000_0000_0000

  // ---------------------------------------------------------------- djb2

  /** djb2_hash, one byte after another in 64-bit arithmetic. */
  function Djb2From(hash: nat, key: Bytes): nat
    decreases |key|
  {
    if key == [] then hash else Djb2From((hash * 33 + key[0]) % U64, key[1..])
  }

  function Djb2(key: Bytes): nat { Djb2From(5381, key) }

  /** The same sum without wrap-around. */
  function Poly(hash: nat, key: Bytes): nat
    decreases |key|
  {
    if key == [] then hash else Poly(hash * 33 + key[0], key[1..])
  }

  lemma {:induction false} ModStep(a: nat, b: nat, c: nat)
    requires a % U64 == b % U64
    ensures (a * 33 + c) % U64 == (b * 33 + c) % U64
  {
    var qa, qb := a / U64, b / U64;
    var r := b % U64;
    assert a == qa * U64 + r && b == qb * U64 + r;
    assert a * 33 + c == (qa * 33) * U64 + (r * 33 + c);
    assert b * 33 + c == (qb * 33) * U64 + (r * 33 + c);
    ModAdd(qa * 33, r * 33 + c);
    ModAdd(qb * 33, r * 33 + c);
  }

  lemma {:induction false} ModAdd(q: nat, r: nat)
    ensures (q * U64 + r) % U64 == r % U64
  {
    var k := r / U64;
    assert q * U64 + r == (q + k) * U64 + r % U64;
  }

  lemma {:induction false} PolyMod(a: nat, b: nat, key: Bytes)
    requires a % U64 == b % U64
    ensures Poly(a, key) % U64 == Poly(b, key) % U64
    decreases |key|
  {
    if key != [] {
      ModStep(a, b, key[0]);
      PolyMod(a * 33 + key[0], b * 33 + key[0], key[1..]);
    }
  }

  /** Wrapping at every byte gives the unbounded polynomial reduced once. */
  lemma {:induction false} Djb2IsPolyMod(hash: nat, key: Bytes)
    requires hash < U64
    ensures Djb2From(hash, key) == Poly(hash, key) % U64 && Djb2From(hash, key) < U64
    decreases |key|
  {
    if key != [] {
      var next := (hash * 33 + key[0]) % U64;
      Djb2IsPolyMod(next, key[1..]);
      PolyMod(next, hash * 33 + key[0], key[1..]);
    }
  }

  lemma {:induction false} ShiftAdd(hash: nat, c: nat)
    ensures ((hash * 32) % U64 + hash + c) % U64 == (hash * 33 + c) % U64
  {
    var q, r := (hash * 32) / U64, (hash * 32) % U64;
    assert hash * 33 + c == q * U64 + (r + hash + c);
    ModAdd(q, r + hash + c);
  }

  /** The accumulator loop, with its shift by five: (hash << 5) + hash + chr. */
  method Djb2Hash(key: Bytes) returns (hash: nat)
    ensures hash == Djb2(key) && hash < U64
  {
    hash := 5381;
    for i := 0 to |key|
      invariant hash < U64
      invariant Djb2From(hash, key[i..]) == Djb2(key)
    {
      ghost var before := hash;
      var shifted := (hash * 32) % U64;
      hash := (shifted + hash + key[i]) % U64;
      ShiftAdd(before, key[i]);
      assert key[i..][0] == key[i] && key[i..][1..] == key[i + 1..];
    }
  }

  // ---------------------------------------------------------------- items

  class Item {
    const hash: nat
    const key: Bytes
    var value: Bytes

    constructor (hash: nat, key: Bytes, value: Bytes)
      ensures this.hash == hash && this.key == key && this.value == value
    {
      this.hash := hash;
      this.key := key;
      this.value := value;
    }
  }

  /** item_compare: hashes, then key sizes, then the key bytes. */
  function ItemCompare(a: Item, b: Item): int {
    if a.hash != b.hash then (if a.hash > b.hash then 1 else -1)
    else if |a.key| != |b.key| then (if |a.key| > |b.key| then 1 else -1)
    else MemCmp(a.key, b.key, |a.key|)
  }

  /** Items whose hashes belong to their keys compare equal exactly when their keys are equal. */
  lemma ItemCompareZero(a: Item, b: Item)
    requires a.hash == Djb2(a.key) && b.hash == Djb2(b.key)
    ensures ItemCompare(a, b) == 0 <==> a.key == b.key
  {
    if |a.key| == |b.key| {
      MemCmpZero(a.key, b.key, |a.key|);
      assert a.key[..|a.key|] == a.key && b.key[..|b.key|] == b.key;
    }
  }

  // ---------------------------------------------------------------- chains

  /** A chain holds items of its own bucket only, with distinct keys. */
  ghost predicate ChainGood(chain: seq<Item>, bucket: nat, capacity: nat)
    requires capacity > 0
  {
    && (forall x :: x in chain ==> x.hash == Djb2(x.key) && x.hash % capacity == bucket)
    && (forall i, j :: 0 <= i < j < |chain| ==> chain[i].key != chain[j].key)
  }

  ghost predicate ChainsGood(chains: seq<seq<Item>>) {
    forall i :: 0 <= i < |chains| ==> ChainGood(chains[i], i, |chains|)
  }

  /** The number of buckets in use, which is what the len field counts. */
  ghost function Occupied(chains: seq<seq<Item>>): nat {
    if chains == [] then 0 else (if chains[0] == [] then 0 else 1) + Occupied(chains[1..])
  }

  lemma {:induction false} OccupiedUpdate(chains: seq<seq<Item>>, i: nat, chain: seq<Item>)
    requires i < |chains|
    ensures Occupied(chains[i := chain])
            == Occupied(chains) - (if chains[i] == [] then 0 else 1) + (if chain == [] then 0 else 1)
  {
    if i == 0 {
      assert chains[i := chain][1..] == chains[1..];
    } else {
      assert chains[i := chain][1..] == chains[1..][i - 1 := chain];
      OccupiedUpdate(chains[1..], i - 1, chain);
    }
  }

  lemma {:induction false} OccupiedEmpty(chains: seq<seq<Item>>)
    requires forall i :: 0 <= i < |chains| ==> chains[i] == []
    ensures Occupied(chains) == 0
  {
    if chains != [] {
      OccupiedEmpty(chains[1..]);
    }
  }

  /** Where a probe with this key stops in a chain: at the item of the key, or at the end. */
  lemma ChainFind(chain: seq<Item>, bucket: nat, capacity: nat, probe: Item)
    requires capacity > 0 && ChainGood(chain, bucket, capacity) && probe.hash == Djb2(probe.key)
    ensures var k := FirstMatch(chain, ItemCompare, probe);
            && (k < |chain| ==> chain[k].key == probe.key)
            && (k == |chain| ==> forall x :: x in chain ==> x.key != probe.key)
  {
    forall x | x in chain
      ensures ItemCompare(x, probe) == 0 <==> x.key == probe.key
    {
      ItemCompareZero(x, probe);
    }
  }

  lemma ChainHas(chain: seq<Item>, bucket: nat, capacity: nat, probe: Item)
    requires capacity > 0 && ChainGood(chain, bucket, capacity) && probe.hash == Djb2(probe.key)
    ensures var k := FirstMatch(chain, ItemCompare, probe);
            if HasKey(chain, probe.key) then k < |chain| && chain[k].key == probe.key else k == |chain|
  {
    ChainFind(chain, bucket, capacity, probe);
  }

  /** Every key of m has an item in its bucket. */
  ghost predicate KeysAgree(chains: seq<seq<Item>>, m: map<Bytes, Bytes>)
    requires |chains| > 0
  {
    forall k :: k in m ==> HasKey(chains[Djb2(k) % |chains|], k)
  }

  ghost predicate HasKey(chain: seq<Item>, key: Bytes) { exists i :: 0 <= i < |chain| && chain[i].key == key }

  lemma KeysAgreeStill(chains: seq<seq<Item>>, m: map<Bytes, Bytes>, key: Bytes, value: Bytes)
    requires |chains| > 0 && KeysAgree(chains, m) && key in m
    ensures KeysAgree(chains, m[key := value])
  {
    hide HasKey;
  }

  datatype SetStatus = ADDED | EXISTS

  class Ht {
    const capacity: nat
    const buckets: array<Sll?<Item>>
    var len: nat
    ghost var chains: seq<seq<Item>>
    ghost var m: map<Bytes, Bytes>
    ghost var repr: set<object>

    /** One list object per bucket. */
    ghost predicate Shape()
      reads `repr, repr
    {
      && this !in repr && buckets in repr && buckets.Length == capacity > 0
      && (forall i :: 0 <= i < capacity ==>
            buckets[i] != null && buckets[i] in repr && buckets[i].compare == ItemCompare)
      && (forall i, j :: 0 <= i < j < capacity ==> buckets[i] != buckets[j])
    }

    ghost predicate Sound(i: nat)
      requires Shape() && i < capacity
      reads `repr, repr
    {
      (forall k :: 0 <= k < |buckets[i].spine| ==> buckets[i].spine[k] in repr) && buckets[i].Valid()
    }

    /** Bucket i is a list that holds chain i. */
    ghost predicate Holds(i: nat)
      requires Shape() && i < capacity == |chains|
      reads `chains, `repr, repr
    {
      Sound(i) && buckets[i].Contents() == chains[i]
    }

    ghost predicate Linked()
      reads `chains, `repr, repr
    {
      Shape() && |chains| == capacity && forall i :: 0 <= i < capacity ==> Holds(i)
    }

    /** The items carry the values of m. */
    ghost predicate ValuesGood()
      reads this, repr
    {
      forall i, x: Item | 0 <= i < |chains| && x in chains[i] :: x in repr && x.key in m && m[x.key] == x.value
    }

    /** m is the map that the items spell out; len counts the buckets in use. */
    ghost predicate Valid()
      reads this, repr
    {
      && Linked()
      && ChainsGood(chains) && KeysAgree(chains, m) && ValuesGood()
      && len == Occupied(chains)
    }

    /** The body of ht_create for a positive capacity: one empty list per bucket. */
    constructor (capacity: nat)
      requires capacity > 0
      ensures Valid() && fresh(repr) && m == map[] && this.capacity == capacity && len == 0
    {
      this.capacity := capacity;
      var table := new Sll?<Item>[capacity](i => null);
      buckets := table;
      len, m := 0, map[];
      chains := seq(capacity, i => []);
      repr := {table};
      new;
      for i := 0 to capacity
        invariant fresh(repr) && this !in repr && buckets in repr && buckets == table && table.Length == capacity
        invariant len == 0 && m == map[] && chains == seq(capacity, i => [])
        invariant forall j :: 0 <= j < i ==>
                    table[j] != null && table[j] in repr && fresh(table[j]) && table[j].compare == ItemCompare
                    && table[j].Valid() && table[j].spine == []
        invariant forall j, k :: 0 <= j < k < i ==> table[j] != table[k]
      {
        var sll := new Sll<Item>(ItemCompare);
        buckets[i] := sll;
        repr := repr + {sll};
      }
      OccupiedEmpty(chains);
    }

    /** ht_create: no table for capacity 0. */
    static method Create(capacity: nat) returns (ht: Ht?)
      ensures ht == null <==> capacity == 0
      ensures ht != null ==> ht.Valid() && fresh(ht.repr) && ht.m == map[] && ht.capacity == capacity && ht.len == 0
    {
      ht := null;
      if capacity != 0 {
        ht := new Ht(capacity);
      }
    }

    /** The bucket of a key and the node at which a probe for it stops. */
    method Lookup(key: Bytes, value: Bytes) returns (i: nat, node: Node?<Item>, probe: Item)
      requires Valid()
      ensures i < capacity && i == Djb2(key) % capacity
      ensures fresh(probe) && probe.key == key && probe.hash == Djb2(key) && probe.value == value
      ensures node == null <==> key !in m
      ensures node != null ==> node.data in chains[i] && node.data.key == key && node.data.value == m[key]
    {
      var hash := Djb2Hash(key);
      probe := new Item(hash, key, value);
      i := hash % capacity;
      assert Holds(i);
      hide FirstMatch, ItemCompare, ChainGood;
      node := buckets[i].Get(probe);
      ChainFind(chains[i], i, capacity, probe);
      if node == null {
        assert !HasKey(chains[i], key);
      }
    }

    /** ht_get. */
    method Get(key: Bytes) returns (item: Item?)
      requires Valid()
      ensures item == null <==> key !in m
      ensures item != null ==> item.key == key && item.value == m[key]
    {
      var i, node, probe := Lookup(key, []);
      item := if node == null then null else node.data;
    }

    /** Give an item of the table a new value. */
    method Replace(i: nat, item: Item, value: Bytes)
      requires Valid() && i < capacity && item in chains[i]
      modifies `m, item
      ensures Valid() && m == old(m)[item.key := value]
    {
      SameKeySameItem(chains, i, item);
      KeysAgreeStill(chains, m, item.key, value);
      hide FirstMatch, ItemCompare, ChainGood, ChainsGood, KeysAgree, Occupied;
      item.value := value;
      m := m[item.key := value];
      forall j | 0 <= j < capacity
        ensures Holds(j)
      {
        assert old(Holds(j));
      }
    }

    /** sll_append of a new item in its bucket. */
    method AppendNode(i: nat, item: Item)
      requires Linked() && i < capacity && item !in repr
      modifies `chains, `repr, buckets[i], buckets[i].spine
      ensures Linked() && chains == old(chains)[i := old(chains)[i] + [item]]
      ensures fresh(repr - old(repr) - {item}) && old(repr) + {item} <= repr
      ensures buckets[i].len == |chains[i]|
    {
      assert Holds(i);
      hide FirstMatch, ItemCompare;
      var sll := buckets[i];
      ghost var nodes := sll.spine;
      assert forall n :: n in nodes ==> n.home == sll;
      var status := sll.Append(item);
      chains := chains[i := chains[i] + [item]];
      repr := repr + {item} + {sll.spine[|sll.spine| - 1]};
      forall j | 0 <= j < capacity
        ensures Holds(j)
      {
        if j != i {
          assert old(Holds(j));
          assert buckets[j] != sll;
          forall k | 0 <= k < |buckets[j].spine|
            ensures buckets[j].spine[k] !in nodes
          {
            assert buckets[j].spine[k].home == buckets[j];
          }
        }
      }
    }

    /** Put a new item into its bucket; the bucket counts once it is no longer empty. */
    method AppendTo(i: nat, item: Item)
      requires Valid() && i < capacity && item.hash == Djb2(item.key) && i == item.hash % capacity
      requires item.key !in m && item !in repr
      modifies this, buckets[i], buckets[i].spine
      ensures Valid() && m == old(m)[item.key := item.value] && fresh(repr - old(repr) - {item})
    {
      FreshKey(item.key);
      hide FirstMatch, ItemCompare, ChainGood, Shape, Holds, Sound, Occupied;
      AppendNode(i, item);
      CountNew(i, old(chains));
      AppendedChains(old(chains), i, item, old(m));
      Record(old(chains), i, item);
    }

    /** The map after an append: the items before it keep their values. */
    ghost method Record(before: seq<seq<Item>>, i: nat, item: Item)
      requires i < |before| && chains == before[i := before[i] + [item]] && item in repr
      requires forall j, x: Item | 0 <= j < |before| && x in before[j] ::
                 x in repr && x.key in m && m[x.key] == x.value && x.key != item.key
      modifies `m
      ensures m == old(m)[item.key := item.value] && ValuesGood()
    {
      m := m[item.key := item.value];
      forall j, x: Item | 0 <= j < |chains| && x in chains[j]
        ensures x in repr && x.key in m && m[x.key] == x.value
      {
        assert x in before[j] || x == item;
      }
    }

    /** The count after an append: one more when the list has just got its first item. */
    method CountNew(i: nat, ghost before: seq<seq<Item>>)
      requires Linked() && i < capacity && |before| == capacity && len == Occupied(before)
      requires |chains[i]| == |before[i]| + 1 && chains == before[i := chains[i]]
      modifies `len
      ensures len == Occupied(chains)
    {
      OccupiedUpdate(before, i, chains[i]);
      assert Holds(i);
      if buckets[i].len == 1 {
        len := len + 1;
      }
    }

    lemma FreshKey(key: Bytes)
      requires Valid() && key !in m
      ensures forall j, x | 0 <= j < |chains| && x in chains[j] :: x.key != key
    {
    }

    /** ht_set. */
    method Set(key: Bytes, value: Bytes) returns (status: SetStatus)
      requires Valid()
      modifies this, repr
      ensures Valid() && fresh(repr - old(repr))
      ensures m == old(m)[key := value]
      ensures status == EXISTS <==> key in old(m)
    {
      var i, node, item := Lookup(key, value);
      if node != null {
        Replace(i, node.data, item.value);
        status := EXISTS;
      } else {
        assert Holds(i);
        AppendTo(i, item);
        status := ADDED;
      }
    }

    /** sll_remove in a bucket. */
    method RemoveIn(i: nat, probe: Item) returns (status: Status)
      requires Linked() && i < capacity
      modifies buckets[i], buckets[i].spine
      ensures Shape() && Sound(i) && forall j :: 0 <= j < capacity && j != i ==> Holds(j)
      ensures var k := FirstMatch(chains[i], ItemCompare, probe);
              && status == (if k == |chains[i]| then NOT_EXISTS else SUCCESS)
              && buckets[i].Contents() == if k == |chains[i]| then chains[i] else WithoutAt(chains, i, k)[i]
    {
      assert Holds(i);
      var sll := buckets[i];
      ghost var nodes := sll.spine;
      status := sll.Remove(probe);
      assert Sound(i);
      forall j | 0 <= j < capacity && j != i
        ensures Holds(j)
      {
        assert old(Holds(j));
        assert buckets[j] != sll;
        forall n | 0 <= n < |buckets[j].spine|
          ensures buckets[j].spine[n] !in nodes
        {
          assert buckets[j].spine[n].home == buckets[j];
        }
      }
    }

    /** The item at which the probe stops, if there is one, leaves its chain. */
    method RemoveNode(i: nat, probe: Item) returns (status: Status)
      requires Linked() && i < capacity
      modifies `chains, buckets[i], buckets[i].spine
      ensures Linked() && buckets[i].len == |chains[i]|
      ensures var k := FirstMatch(old(chains)[i], ItemCompare, probe);
              if k == |old(chains)[i]| then status == NOT_EXISTS && chains == old(chains)
              else status == SUCCESS && chains == WithoutAt(old(chains), i, k)
    {
      hide FirstMatch, ItemCompare;
      ghost var k := FirstMatch(chains[i], ItemCompare, probe);
      status := RemoveIn(i, probe);
      if status == SUCCESS {
        TakeOut(i, k);
      } else {
        forall j | 0 <= j < capacity
          ensures Holds(j)
        {
        }
      }
    }

    /** The chain of a bucket from which an item has been removed follows suit. */
    ghost method TakeOut(i: nat, k: nat)
      requires Shape() && |chains| == capacity && i < capacity && k < |chains[i]|
      requires Sound(i) && forall j :: 0 <= j < capacity && j != i ==> Holds(j)
      requires buckets[i].Contents() == WithoutAt(chains, i, k)[i]
      modifies `chains
      ensures Linked() && chains == WithoutAt(old(chains), i, k) && buckets[i].len == |chains[i]|
    {
      chains := WithoutAt(chains, i, k);
      forall j | 0 <= j < capacity
        ensures Holds(j)
      {
        assert j == i || old(Holds(j));
      }
    }

    /** The count after a removal: one less when the list has just lost its last item. */
    method CountGone(i: nat, ghost before: seq<seq<Item>>)
      requires Linked() && i < capacity && |before| == capacity && len == Occupied(before)
      requires |chains[i]| == |before[i]| - 1 && chains == before[i := chains[i]]
      modifies `len
      ensures len == Occupied(chains)
    {
      OccupiedUpdate(before, i, chains[i]);
      assert Holds(i);
      if buckets[i].len == 0 {
        len := len - 1;
      }
    }

    /** ht_del. */
    method Del(key: Bytes) returns (status: Status)
      requires Valid()
      modifies this, repr
      ensures Valid() && repr == old(repr)
      ensures m == old(m) - {key}
      ensures status == if key in old(m) then SUCCESS else NOT_EXISTS
    {
      var hash := Djb2Hash(key);
      var probe := new Item(hash, key, []);
      var i := hash % capacity;
      assert Holds(i);
      status := DelFrom(i, probe);
    }

    method DelFrom(i: nat, probe: Item) returns (status: Status)
      requires Valid() && probe.hash == Djb2(probe.key) && i == probe.hash % capacity
      modifies `chains, `len, `m, buckets[i], buckets[i].spine
      ensures Valid() && m == old(m) - {probe.key}
      ensures status == if probe.key in old(m) then SUCCESS else NOT_EXISTS
    {
      KeyInBucket(i, probe.key);
      ghost var k := FirstMatch(chains[i], ItemCompare, probe);
      ChainHas(chains[i], i, capacity, probe);
      hide FirstMatch, ItemCompare, WithoutAt, KeysAgree, ChainGood, Shape, Holds, Sound;
      status := RemoveNode(i, probe);
      forall j, x: Item | 0 <= j < capacity && x in old(chains)[j]
        ensures x in repr && x.key in m && m[x.key] == x.value
      {
        assert old(x.value) == x.value;
      }
      if status == SUCCESS {
        Settle(i, old(chains), k, probe.key);
      } else {
        assert m - {probe.key} == m;
      }
    }

    /** The map after a removal: the items that stay keep their values. */
    ghost method Erase(before: seq<seq<Item>>, i: nat, k: nat, key: Bytes)
      requires Cut(before, i, k, key) && i == Djb2(key) % |before| && chains == WithoutAt(before, i, k)
      requires ChainsGood(before) && KeysAgree(before, m)
      requires forall j, x: Item | 0 <= j < |before| && x in before[j] :: x in repr && x.key in m && m[x.key] == x.value
      modifies `m
      ensures m == old(m) - {key} && ValuesGood() && ChainsGood(chains) && KeysAgree(chains, m)
    {
      hide *;
      RemovedChains(before, i, k, key, m, chains);
      StillSpelled(before, chains, key);
      m := m - {key};
      SpellsValues();
    }

    lemma SpellsValues()
      requires forall j, x: Item | 0 <= j < |chains| && x in chains[j] :: x in repr && x.key in m && m[x.key] == x.value
      ensures ValuesGood()
    {
    }

    /** Items that stay keep the value that m gives them, and none of them has the key that goes. */
    lemma StillSpelled(before: seq<seq<Item>>, after: seq<seq<Item>>, key: Bytes)
      requires Leftover(before, after, key)
      requires forall j, x: Item | 0 <= j < |before| && x in before[j] :: x in repr && x.key in m && m[x.key] == x.value
      ensures forall j, x: Item | 0 <= j < |after| && x in after[j] ::
                x in repr && x.key in m - {key} && (m - {key})[x.key] == x.value
    {
      forall j, x: Item | 0 <= j < |after| && x in after[j]
        ensures x in repr && x.key in m - {key} && (m - {key})[x.key] == x.value
      {
        assert x.key != key && x in before[j];
      }
    }

    /** What ht_del does to the table once the item is out of its list. */
    method Settle(i: nat, ghost before: seq<seq<Item>>, ghost k: nat, ghost key: Bytes)
      requires Linked() && len == Occupied(before) && i < capacity && |before| == capacity
      requires Cut(before, i, k, key) && i == Djb2(key) % |before| && chains == WithoutAt(before, i, k)
      requires ChainsGood(before) && KeysAgree(before, m)
      requires forall j, x: Item | 0 <= j < |before| && x in before[j] :: x in repr && x.key in m && m[x.key] == x.value
      modifies `len, `m
      ensures Valid() && m == old(m) - {key}
    {
      CountGone(i, before);
      Erase(before, i, k, key);
    }

    lemma KeyInBucket(i: nat, key: Bytes)
      requires Valid() && i == Djb2(key) % capacity
      ensures HasKey(chains[i], key) <==> key in m
    {
    }

    /** ht_foreach: bucket after bucket, each chain in its order, until the function answers with a failure. */
    method Foreach(f: Item -> nat) returns (status: nat, visited: seq<Item>)
      requires Valid()
      ensures visited <= Flatten(chains)
      ensures forall i :: 0 <= i < |visited| - 1 ==> f(visited[i]) == 0
      ensures status == 0 ==> visited == Flatten(chains) && forall i :: 0 <= i < |visited| ==> f(visited[i]) == 0
      ensures status != 0 ==> visited != [] && f(visited[|visited| - 1]) == status
    {
      status, visited := 0, [];
      for i := 0 to capacity
        invariant status == 0
        invariant visited == Flatten(chains[..i])
        invariant forall j :: 0 <= j < |visited| ==> f(visited[j]) == 0
      {
        assert Holds(i);
        var part;
        status, part := buckets[i].Foreach(f);
        FlattenStep(chains, i, part);
        visited := visited + part;
        if status != 0 {
          return;
        }
      }
      assert chains[..capacity] == chains;
    }
  }

  ghost function Flatten(chains: seq<seq<Item>>): seq<Item> {
    if chains == [] then [] else Flatten(chains[..|chains| - 1]) + chains[|chains| - 1]
  }

  lemma {:induction false} FlattenPrefix(chains: seq<seq<Item>>, i: nat)
    requires i <= |chains|
    ensures Flatten(chains[..i]) <= Flatten(chains)
  {
    if i == |chains| {
      assert chains[..i] == chains;
    } else {
      var front := chains[..|chains| - 1];
      assert front[..i] == chains[..i];
      FlattenPrefix(front, i);
    }
  }

  /** Adding a prefix of the next chain to what the earlier chains give stays a prefix of the whole. */
  lemma FlattenStep(chains: seq<seq<Item>>, i: nat, part: seq<Item>)
    requires i < |chains| && part <= chains[i]
    ensures Flatten(chains[..i]) + part <= Flatten(chains)
    ensures part == chains[i] ==> Flatten(chains[..i]) + part == Flatten(chains[..i + 1])
  {
    assert chains[..i + 1][..i] == chains[..i];
    FlattenPrefix(chains, i + 1);
  }

  /** Item k of chain i is the one of this key. */
  ghost predicate Cut(chains: seq<seq<Item>>, i: nat, k: nat, key: Bytes) {
    i < |chains| && k < |chains[i]| && chains[i][k].key == key
  }

  ghost function WithoutAt(chains: seq<seq<Item>>, i: nat, k: nat): (r: seq<seq<Item>>)
    requires i < |chains| && k < |chains[i]|
    ensures |r| == |chains|
  {
    chains[i := chains[i][..k] + chains[i][k + 1..]]
  }

  /** Everything in the second table was in the same chain of the first, and nothing has the key. */
  ghost predicate Leftover(before: seq<seq<Item>>, after: seq<seq<Item>>, key: Bytes) {
    |after| == |before| && forall j, x: Item | 0 <= j < |before| && x in after[j] :: x.key != key && x in before[j]
  }

  lemma CutChain(chain: seq<Item>, k: nat)
    requires k < |chain|
    ensures var cut := chain[..k] + chain[k + 1..];
            && |cut| == |chain| - 1
            && forall a :: 0 <= a < |cut| ==> cut[a] == chain[if a < k then a else a + 1]
  {
  }

  /** A cut chain is still good, and the key of the item that was cut is gone from it. */
  lemma CutChainGood(chain: seq<Item>, k: nat, bucket: nat, capacity: nat)
    requires k < |chain| && capacity > 0 && ChainGood(chain, bucket, capacity)
    ensures var cut := chain[..k] + chain[k + 1..];
            && ChainGood(cut, bucket, capacity)
            && forall x | x in cut :: x in chain && x.key != chain[k].key
  {
    CutChain(chain, k);
    var cut := chain[..k] + chain[k + 1..];
    forall x | x in cut
      ensures x in chain && x.key != chain[k].key
    {
      var a :| 0 <= a < |cut| && cut[a] == x;
      assert x == chain[if a < k then a else a + 1];
    }
  }

  lemma CutChainKeys(chain: seq<Item>, k: nat, key: Bytes)
    requires k < |chain| && HasKey(chain, key) && chain[k].key != key
    ensures HasKey(chain[..k] + chain[k + 1..], key)
  {
    CutChain(chain, k);
    var a :| 0 <= a < |chain| && chain[a].key == key;
    assert (chain[..k] + chain[k + 1..])[if a < k then a else a - 1].key == key;
  }

  /** Cutting the item of a key out of its chain takes that key, and no other, out of the table. */
  lemma RemovedChains(chains: seq<seq<Item>>, i: nat, k: nat, key: Bytes, m: map<Bytes, Bytes>, chains': seq<seq<Item>>)
    requires Cut(chains, i, k, key) && i == Djb2(key) % |chains| && chains' == WithoutAt(chains, i, k)
    requires ChainsGood(chains) && KeysAgree(chains, m)
    ensures |chains'| == |chains| && ChainsGood(chains') && KeysAgree(chains', m - {key})
    ensures Leftover(chains, chains', key)
  {
    CutChainGood(chains[i], k, i, |chains|);
    hide ChainGood, HasKey, Djb2;
    forall key' | key' in m - {key}
      ensures HasKey(chains'[Djb2(key') % |chains|], key')
    {
      if Djb2(key') % |chains| == i {
        CutChainKeys(chains[i], k, key');
      }
    }
    forall j, x: Item | 0 <= j < |chains| && x in chains'[j]
      ensures x.key != key && x in chains[j]
    {
      if j != i {
        OtherBucket(chains, j, x);
      }
    }
  }

  lemma OtherBucket(chains: seq<seq<Item>>, j: nat, x: Item)
    requires j < |chains| && ChainsGood(chains) && x in chains[j]
    ensures Djb2(x.key) % |chains| == j
  {
    assert ChainGood(chains[j], j, |chains|);
  }

  lemma AppendedChains(chains: seq<seq<Item>>, i: nat, item: Item, m: map<Bytes, Bytes>)
    requires i < |chains| && ChainsGood(chains) && KeysAgree(chains, m)
    requires item.hash == Djb2(item.key) && i == item.hash % |chains|
    requires forall j, x | 0 <= j < |chains| && x in chains[j] :: x.key != item.key
    ensures ChainsGood(chains[i := chains[i] + [item]])
    ensures KeysAgree(chains[i := chains[i] + [item]], m[item.key := item.value])
  {
    var chains' := chains[i := chains[i] + [item]];
    forall k | k in m[item.key := item.value]
      ensures HasKey(chains'[Djb2(k) % |chains|], k)
    {
      if k == item.key {
        assert chains'[i][|chains[i]|].key == k;
      } else {
        var c := chains[Djb2(k) % |chains|];
        assert HasKey(c, k);
        var a :| 0 <= a < |c| && c[a].key == k;
        assert chains'[Djb2(k) % |chains|][a].key == k;
      }
    }
  }

  /** Across the whole table a key belongs to one item. */
  lemma SameKeySameItem(chains: seq<seq<Item>>, i: nat, item: Item)
    requires |chains| > 0 && i < |chains| && item in chains[i]
    requires ChainsGood(chains)
    ensures forall j, x | 0 <= j < |chains| && x in chains[j] :: x.key == item.key ==> x == item
  {
    forall j, x | 0 <= j < |chains| && x in chains[j] && x.key == item.key
      ensures x == item
    {
      assert i == j;
      var a :| 0 <= a < |chains[i]| && chains[i][a] == item;
      var b :| 0 <= b < |chains[i]| && chains[i][b] == x;
    }
  }
}
