/**
 The FIFO-evicted map behind the lifecycle caches (commandlifecycle/bounded.go).

 `Bounded` is the value of one map and `Put`, `Delete` and `Evict` say what each
 operation makes of it; `BoundedMap` is the mutable object with the source's loops,
 proved to compute exactly those functions. The lemmas are about whole histories
 of operations.
 */
module BoundedMaps {

  const DEFAULT_CACHE_CAPACITY: int := 1024
  const COMPACT_STALE_THRESHOLD: int := 64

  datatype Bounded<T> = Bounded(entries: map<string, T>, order: seq<string>, stale: int, cap: int)

  datatype Op<T> = OpPut(key: string, val: T) | OpDelete(key: string)

  function Empty<T>(cap: int): Bounded<T> {
    Bounded(map[], [], 0, cap)
  }

  /** The slots of `order` that belong to a key in `live`, in order. */
  function Live(order: seq<string>, live: set<string>): seq<string> {
    if order == [] then []
    else if order[0] in live then [order[0]] + Live(order[1..], live)
    else Live(order[1..], live)
  }

  /** The keys of `live` by their last slot: oldest insertion first. */
  function Ages(order: seq<string>, live: set<string>): seq<string> {
    if order == [] then []
    else if order[0] in live && order[0] !in order[1..] then [order[0]] + Ages(order[1..], live)
    else Ages(order[1..], live)
  }

  function Without(s: seq<string>, k: string): seq<string> {
    if s == [] then []
    else if s[0] == k then Without(s[1..], k)
    else [s[0]] + Without(s[1..], k)
  }

  function Evict<T>(m: Bounded<T>): Bounded<T>
    decreases |m.order|
  {
    if m.order == [] then m
    else if m.order[0] in m.entries then
      m.(entries := m.entries - {m.order[0]}, order := m.order[1..])
    else
      Evict(m.(order := m.order[1..], stale := m.stale - 1))
  }

  predicate AtCapacity<T>(m: Bounded<T>) {
    m.cap > 0 && |m.entries| >= m.cap
  }

  /** The map into which `Put` of an absent key inserts. */
  function MakeRoom<T>(m: Bounded<T>): Bounded<T> {
    if AtCapacity(m) then Evict(m) else m
  }

  function Put<T>(m: Bounded<T>, key: string, val: T): Bounded<T> {
    if key in m.entries then m.(entries := m.entries[key := val])
    else
      var room := MakeRoom(m);
      room.(order := room.order + [key], entries := room.entries[key := val])
  }

  predicate StaleDominates<T>(m: Bounded<T>) {
    m.stale > COMPACT_STALE_THRESHOLD && m.stale > |m.entries|
  }

  function Compact<T>(m: Bounded<T>): Bounded<T> {
    if StaleDominates(m) then m.(order := Live(m.order, m.entries.Keys), stale := 0) else m
  }

  function Drop<T>(m: Bounded<T>, key: string): Bounded<T> {
    m.(entries := m.entries - {key}, stale := m.stale + 1)
  }

  function Delete<T>(m: Bounded<T>, key: string): Bounded<T> {
    if key in m.entries then Compact(Drop(m, key)) else m
  }

  function Apply<T>(m: Bounded<T>, op: Op<T>): Bounded<T> {
    match op
    case OpPut(k, v) => Put(m, k, v)
    case OpDelete(k) => Delete(m, k)
  }

  function Run<T>(m: Bounded<T>, ops: seq<Op<T>>): Bounded<T>
    decreases |ops|
  {
    if ops == [] then m else Run(Apply(m, ops[0]), ops[1..])
  }

  /** What an unbounded map would hold after the same operations. */
  function Ideal<T>(m: map<string, T>, ops: seq<Op<T>>): map<string, T>
    decreases |ops|
  {
    if ops == [] then m
    else match ops[0]
      case OpPut(k, v) => Ideal(m[k := v], ops[1..])
      case OpDelete(k) => Ideal(m - {k}, ops[1..])
  }

  ghost predicate SubMap<T(!new)>(a: map<string, T>, b: map<string, T>) {
    forall k :: k in a ==> k in b && a[k] == b[k]
  }

  /** Kept by every operation in every history. */
  ghost predicate Valid<T>(m: Bounded<T>) {
    && (forall k :: k in m.entries ==> k in m.order)
    && (m.cap > 0 ==> |m.entries| <= m.cap)
    && m.stale <= |m.order| - |m.entries|
  }

  ghost predicate NoDuplicates(s: seq<string>) {
    forall i, j :: 0 <= i < j < |s| ==> s[i] != s[j]
  }

  /** The stale counter counts exactly the dead slots. */
  ghost predicate Exact<T>(m: Bounded<T>) {
    m.stale == |m.order| - |m.entries|
  }

  /** No key owns two slots of `order`, and the counter is exact. */
  ghost predicate Tidy<T>(m: Bounded<T>) {
    Valid(m) && NoDuplicates(m.order) && Exact(m)
  }

  // ---- Slots and keys ----

  lemma {:induction false} LiveMembers(order: seq<string>, live: set<string>)
    ensures forall k :: k in Live(order, live) <==> k in order && k in live
  {
    if order != [] {
      LiveMembers(order[1..], live);
    }
  }

  lemma {:induction false} AgesMembers(order: seq<string>, live: set<string>)
    ensures forall k :: k in Ages(order, live) <==> k in order && k in live
  {
    if order != [] {
      AgesMembers(order[1..], live);
    }
  }

  lemma {:induction false} LiveNoDuplicates(order: seq<string>, live: set<string>)
    requires NoDuplicates(order)
    ensures NoDuplicates(Live(order, live)) && Live(order, live) == Ages(order, live)
  {
    if order != [] {
      LiveNoDuplicates(order[1..], live);
      LiveMembers(order[1..], live);
    }
  }

  /** A sequence that covers a set is at least as long, and exactly as long only without duplicates. */
  lemma {:induction false} CoverLength(s: seq<string>, keys: set<string>)
    requires forall k :: k in keys <==> k in s
    ensures |keys| <= |s|
    ensures |keys| == |s| <==> NoDuplicates(s)
  {
    if s == [] {
      assert keys == {};
    } else {
      var rest := set k | k in s[1..];
      CoverLength(s[1..], rest);
      if s[0] in s[1..] {
        assert keys == rest;
        var i :| 0 <= i < |s[1..]| && s[1..][i] == s[0];
        assert s[0] == s[i + 1];
      } else {
        assert keys == rest + {s[0]};
        if NoDuplicates(s[1..]) {
          forall i, j | 0 <= i < j < |s| ensures s[i] != s[j] {
            assert s[j] == s[1..][j - 1];
            if i > 0 { assert s[i] == s[1..][i - 1]; }
          }
        }
        if NoDuplicates(s) {
          forall i, j | 0 <= i < j < |s[1..]| ensures s[1..][i] != s[1..][j] {
            assert s[i + 1] != s[j + 1];
          }
        }
      }
    }
  }

  lemma {:induction false} LiveLength(order: seq<string>, live: set<string>)
    requires forall k :: k in live ==> k in order
    ensures |live| <= |Live(order, live)|
    ensures |live| == |Live(order, live)| <==> NoDuplicates(Live(order, live))
  {
    LiveMembers(order, live);
    CoverLength(Live(order, live), live);
  }

  // ---- Eviction ----

  /** The entry that eviction removes: the first live slot of `order`. */
  function Victim<T>(m: Bounded<T>): (k: string)
    requires exists k :: k in m.entries && k in m.order
    ensures k in m.entries
  {
    LiveMembers(m.order, m.entries.Keys);
    Live(m.order, m.entries.Keys)[0]
  }

  /** The n-th slot is the first live one. */
  predicate FirstLiveAt(order: seq<string>, live: set<string>, n: nat) {
    n < |order| && order[n] in live && forall i :: 0 <= i < n ==> order[i] !in live
  }

  lemma {:induction false} LiveStartsAt(order: seq<string>, live: set<string>, n: nat)
    requires FirstLiveAt(order, live, n)
    ensures Live(order, live) != [] && Live(order, live)[0] == order[n]
  {
    if n > 0 {
      LiveStartsAt(order[1..], live, n - 1);
    }
  }

  lemma {:induction false} FindFirstLive(order: seq<string>, live: set<string>) returns (n: nat)
    requires exists k :: k in live && k in order
    ensures FirstLiveAt(order, live, n)
  {
    var k :| k in live && k in order;
    if order[0] in live {
      n := 0;
    } else {
      assert k in order[1..];
      var n' := FindFirstLive(order[1..], live);
      n := n' + 1;
    }
  }

  lemma {:induction false} EvictAt<T>(m: Bounded<T>, n: nat)
    requires FirstLiveAt(m.order, m.entries.Keys, n)
    ensures Evict(m) == Bounded(m.entries - {m.order[n]}, m.order[n + 1..], m.stale - n, m.cap)
    decreases n
  {
    if n > 0 {
      var m' := m.(order := m.order[1..], stale := m.stale - 1);
      EvictAt(m', n - 1);
      assert m'.order[n..] == m.order[n + 1..];
    }
  }

  /** Eviction pops dead slots up to the first live one. */
  lemma {:induction false} EvictPops<T>(m: Bounded<T>) returns (n: nat)
    requires exists k :: k in m.entries && k in m.order
    ensures n <= |m.order| && Evict(m).order == m.order[n..]
    ensures Evict(m).entries == m.entries - {Victim(m)}
    ensures Evict(m).stale == m.stale - (n - 1) && n >= 1
    ensures Evict(m).cap == m.cap
    ensures forall k :: k in m.entries && k != Victim(m) && k in m.order ==> k in m.order[n..]
  {
    var at := FindFirstLive(m.order, m.entries.Keys);
    LiveStartsAt(m.order, m.entries.Keys, at);
    EvictAt(m, at);
    n := at + 1;
    forall k | k in m.entries && k != Victim(m) && k in m.order ensures k in m.order[n..] {
      var i :| 0 <= i < |m.order| && m.order[i] == k;
      assert m.order[n..][i - n] == k;
    }
  }

  /** At capacity eviction finds a live entry and removes exactly that one. */
  lemma {:induction false} EvictRemovesOne<T>(m: Bounded<T>)
    requires Valid(m) && |m.entries| > 0
    ensures exists k :: k in m.entries && k in m.order
    ensures Evict(m).entries == m.entries - {Victim(m)}
    ensures |Evict(m).entries| == |m.entries| - 1
    ensures Valid(Evict(m)) && Evict(m).cap == m.cap && Evict(m).stale <= m.stale
    ensures Exact(Evict(m)) <==> Exact(m)
  {
    var k :| k in m.entries;
    var n := EvictPops(m);
    assert Evict(m).entries.Keys == m.entries.Keys - {Victim(m)};
  }

  /** Making room only ever removes entries, and leaves one free place. */
  lemma {:induction false} MakeRoomKeeps<T(!new)>(m: Bounded<T>)
    requires Valid(m)
    ensures var room := MakeRoom(m);
            && Valid(room) && !AtCapacity(room) && room.cap == m.cap
            && SubMap(room.entries, m.entries)
            && (Exact(m) <==> Exact(room))
            && (NoDuplicates(m.order) ==> NoDuplicates(room.order))
  {
    if AtCapacity(m) {
      EvictRemovesOne(m);
      var n := EvictPops(m);
    }
  }

  // ---- Every operation of every history ----

  /** `Put` binds the key, and every other entry it keeps is unchanged. */
  lemma {:induction false} PutBinds<T(!new)>(m: Bounded<T>, key: string, val: T)
    requires Valid(m)
    ensures var p := Put(m, key, val);
            && Valid(p) && p.cap == m.cap
            && key in p.entries && p.entries[key] == val
            && SubMap(p.entries, m.entries[key := val])
            && (key in m.entries || !AtCapacity(m) ==> p.entries == m.entries[key := val])
            && (Exact(p) <==> Exact(m))
  {
    if key !in m.entries {
      MakeRoomKeeps(m);
      var room := MakeRoom(m);
      assert room.entries[key := val].Keys == room.entries.Keys + {key};
      forall k | k in Put(m, key, val).entries ensures k in Put(m, key, val).order {
        assert key in [key];
      }
    } else {
      assert m.entries[key := val].Keys == m.entries.Keys;
    }
  }

  /** `Delete` unbinds the key and nothing else; a compaction makes the counter
      exact again if and only if no live key owns two slots. */
  lemma {:induction false} DeleteUnbinds<T>(m: Bounded<T>, key: string)
    requires Valid(m)
    ensures var d := Delete(m, key);
            && Valid(d) && d.cap == m.cap
            && d.entries == m.entries - {key}
            && (key in m.entries && StaleDominates(Drop(m, key)) ==>
                  (Exact(d) <==> NoDuplicates(Live(m.order, d.entries.Keys))))
            && (key !in m.entries || !StaleDominates(Drop(m, key)) ==> (Exact(d) <==> Exact(m)))
            && (key in m.entries ==> d.stale <= COMPACT_STALE_THRESHOLD || d.stale <= |d.entries|)
  {
    if key in m.entries {
      var d := Drop(m, key);
      assert d.entries.Keys == m.entries.Keys - {key};
      if StaleDominates(d) {
        LiveLength(m.order, d.entries.Keys);
        LiveMembers(m.order, d.entries.Keys);
      }
    } else {
      assert m.entries - {key} == m.entries;
    }
  }

  /** An entry is evicted only to make room: by a new key, in a map with a capacity that it has reached. */
  lemma {:induction false} PutEvictsExactlyWhenFull<T(!new)>(m: Bounded<T>, key: string, val: T)
    requires Valid(m)
    ensures var p := Put(m, key, val);
            if key in m.entries || m.cap <= 0 || |m.entries| < m.cap
            then p.entries == m.entries[key := val] && p.order == m.order + (if key in m.entries then [] else [key])
            else |p.entries| == |m.entries| && exists k :: k in m.entries && p.entries == (m.entries - {k})[key := val]
  {
    if key !in m.entries && AtCapacity(m) {
      EvictRemovesOne(m);
      var k := Victim(m);
      assert Put(m, key, val).entries == (m.entries - {k})[key := val];
    }
  }

  /** A deletion compacts exactly when it leaves more than 64 stale slots and more stale slots than live
      entries; then it drops the slots that are not live, and otherwise it only counts one more. */
  lemma {:induction false} DeleteCompactsExactlyWhen<T>(m: Bounded<T>, key: string)
    requires key in m.entries
    ensures var d := Delete(m, key);
            var live := m.entries.Keys - {key};
            if m.stale + 1 > 64 && m.stale + 1 > |live|
            then d.stale == 0 && d.order == Live(m.order, live) && forall k :: k in d.order <==> k in m.order && k in live
            else d.stale == m.stale + 1 && d.order == m.order
  {
    assert Drop(m, key).entries.Keys == m.entries.Keys - {key};
    LiveMembers(m.order, m.entries.Keys - {key});
  }

  lemma {:induction false} ApplyKeepsValid<T(!new)>(m: Bounded<T>, op: Op<T>)
    requires Valid(m)
    ensures Valid(Apply(m, op)) && Apply(m, op).cap == m.cap
  {
    match op
    case OpPut(k, v) => PutBinds(m, k, v);
    case OpDelete(k) => DeleteUnbinds(m, k);
  }

  /** In every history the map is a sub-map of the ideal unbounded one and within its capacity. */
  lemma {:induction false} RunIsSubMapOfIdeal<T(!new)>(m: Bounded<T>, ideal: map<string, T>, ops: seq<Op<T>>)
    requires Valid(m) && SubMap(m.entries, ideal)
    ensures Valid(Run(m, ops)) && Run(m, ops).cap == m.cap
    ensures SubMap(Run(m, ops).entries, Ideal(ideal, ops))
    decreases |ops|
  {
    if ops != [] {
      ApplyKeepsValid(m, ops[0]);
      match ops[0]
      case OpPut(k, v) =>
        PutBinds(m, k, v);
        RunIsSubMapOfIdeal(Put(m, k, v), ideal[k := v], ops[1..]);
      case OpDelete(k) =>
        DeleteUnbinds(m, k);
        RunIsSubMapOfIdeal(Delete(m, k), ideal - {k}, ops[1..]);
    }
  }

  /** Capacity zero or less never evicts: the map is the ideal one. */
  lemma {:induction false} UnboundedIsIdeal<T(!new)>(m: Bounded<T>, ops: seq<Op<T>>)
    requires Valid(m) && m.cap <= 0
    ensures Run(m, ops).entries == Ideal(m.entries, ops)
    decreases |ops|
  {
    if ops != [] {
      ApplyKeepsValid(m, ops[0]);
      UnboundedIsIdeal(Apply(m, ops[0]), ops[1..]);
      match ops[0]
      case OpPut(k, v) => PutBinds(m, k, v);
      case OpDelete(k) => DeleteUnbinds(m, k);
    }
  }

  // ---- Age order: the reference queue ----

  lemma {:induction false} AgesAppend(order: seq<string>, live: set<string>, key: string)
    ensures Ages(order + [key], live + {key}) == Without(Ages(order, live), key) + [key]
  {
    if order == [] {
      assert order + [key] == [key];
      assert [key][1..] == [];
    } else {
      var o := order[1..];
      AgesAppend(o, live, key);
      assert (order + [key])[1..] == o + [key];
      if order[0] == key {
        assert order[0] in o + [key];
        WithoutHead(Ages(o, live), key, order[0]);
      }
    }
  }

  lemma {:induction false} WithoutHead(s: seq<string>, k: string, h: string)
    ensures Without([h] + s, k) == (if h == k then Without(s, k) else [h] + Without(s, k))
  {
    assert ([h] + s)[1..] == s;
  }

  lemma {:induction false} WithoutAbsent(s: seq<string>, k: string)
    requires k !in s
    ensures Without(s, k) == s
  {
    if s != [] {
      WithoutAbsent(s[1..], k);
    }
  }

  lemma {:induction false} AgesRemove(order: seq<string>, live: set<string>, key: string)
    ensures Ages(order, live - {key}) == Without(Ages(order, live), key)
  {
    if order != [] {
      AgesRemove(order[1..], live, key);
      WithoutHead(Ages(order[1..], live), key, order[0]);
    }
  }

  lemma {:induction false} AgesIgnoreDeadSlots(order: seq<string>, live: set<string>)
    ensures Ages(Live(order, live), live) == Ages(order, live)
  {
    if order != [] {
      AgesIgnoreDeadSlots(order[1..], live);
      LiveMembers(order[1..], live);
      var rest := Live(order[1..], live);
      assert ([order[0]] + rest)[1..] == rest;
    }
  }

  lemma {:induction false} AgesDropFront(order: seq<string>, live: set<string>, n: nat)
    requires n <= |order|
    requires forall k :: k in live ==> k in order[n..]
    ensures Ages(order[n..], live) == Ages(order, live)
  {
    if n > 0 {
      assert order[n..] == order[1..][n - 1..];
      AgesDropFront(order[1..], live, n - 1);
      assert forall k :: k in order[n..] ==> k in order[1..];
    } else {
      assert order[0..] == order;
    }
  }

  function AgeQueue<T>(m: Bounded<T>): seq<string> {
    Ages(m.order, m.entries.Keys)
  }

  lemma {:induction false} AgeQueueEvict<T>(m: Bounded<T>)
    requires Valid(m) && |m.entries| > 0
    ensures exists k :: k in m.entries && k in m.order
    ensures AgeQueue(Evict(m)) == Without(AgeQueue(m), Victim(m))
  {
    EvictRemovesOne(m);
    var n := EvictPops(m);
    var e := Evict(m);
    assert e.entries.Keys == m.entries.Keys - {Victim(m)};
    AgesDropFront(m.order, e.entries.Keys, n);
    AgesRemove(m.order, m.entries.Keys, Victim(m));
  }

  /** In every history the live keys queue up by insertion: a `Put` of an absent key goes
      to the back, after the evicted key, if any, has left. */
  lemma {:induction false} AgeQueuePut<T(!new)>(m: Bounded<T>, key: string, val: T)
    requires Valid(m)
    ensures AgeQueue(Put(m, key, val)) ==
            if key in m.entries then AgeQueue(m)
            else if AtCapacity(m) then EvictRemovesOne(m); Without(AgeQueue(m), Victim(m)) + [key]
            else AgeQueue(m) + [key]
  {
    if key in m.entries {
      assert m.entries[key := val].Keys == m.entries.Keys;
    } else {
      MakeRoomKeeps(m);
      var room := MakeRoom(m);
      assert room.entries[key := val].Keys == room.entries.Keys + {key};
      AgesAppend(room.order, room.entries.Keys, key);
      AgesMembers(room.order, room.entries.Keys);
      WithoutAbsent(AgeQueue(room), key);
      if AtCapacity(m) {
        AgeQueueEvict(m);
      }
    }
  }

  /** `Delete` takes its key out of the queue, with or without a compaction. */
  lemma {:induction false} AgeQueueDelete<T>(m: Bounded<T>, key: string)
    requires Valid(m)
    ensures AgeQueue(Delete(m, key)) == Without(AgeQueue(m), key)
  {
    if key in m.entries {
      var d := Drop(m, key);
      assert d.entries.Keys == m.entries.Keys - {key};
      AgesRemove(m.order, m.entries.Keys, key);
      AgesIgnoreDeadSlots(m.order, d.entries.Keys);
    } else {
      AgesMembers(m.order, m.entries.Keys);
      WithoutAbsent(AgeQueue(m), key);
    }
  }

  /** After every slot of `v` each other live key still has a slot. */
  ghost predicate OthersOutlast(order: seq<string>, live: set<string>, v: string) {
    forall i, k :: 0 <= i < |order| && order[i] == v && k in live && k != v ==> k in order[i + 1..]
  }

  /** `v` heads the age queue exactly when every other live key has a later slot than all of `v`. */
  lemma {:induction false} OldestExactlyWhen(order: seq<string>, live: set<string>, v: string)
    requires v in live && forall k :: k in live ==> k in order
    ensures Ages(order, live) != []
    ensures Ages(order, live)[0] == v <==> OthersOutlast(order, live, v)
  {
    AgesMembers(order, live);
    var rest, first := order[1..], order[0];
    if first in live && first !in rest {
      if v == first {
        forall i, k | 0 <= i < |order| && order[i] == v && k in live && k != v ensures k in order[i + 1..] {
          assert i == 0;
        }
      } else {
        var i :| 0 <= i < |order| && order[i] == v;
        assert first !in order[i + 1..];
      }
    } else {
      OldestExactlyWhen(rest, live, v);
      assert forall i :: 0 <= i < |rest| ==> rest[i + 1..] == order[i + 2..] && rest[i] == order[i + 1];
      if OthersOutlast(rest, live, v) {
        forall i, k | 0 <= i < |order| && order[i] == v && k in live && k != v ensures k in order[i + 1..] {
          if i > 0 { assert rest[i - 1] == v && rest[i - 1 + 1..] == order[i + 1..]; }
        }
      }
      if OthersOutlast(order, live, v) {
        forall i, k | 0 <= i < |rest| && rest[i] == v && k in live && k != v ensures k in rest[i + 1..] {
          assert order[i + 1] == v && order[i + 1 + 1..] == rest[i + 1..];
        }
      }
    }
  }

  /** Eviction removes the oldest inserted live entry if and only if, after every slot of its victim,
      each other live key still has a slot; so always while no key owns two slots. */
  lemma {:induction false} EvictsOldestExactlyWhen<T>(m: Bounded<T>)
    requires Valid(m) && |m.entries| > 0
    ensures exists k :: k in m.entries && k in m.order
    ensures AgeQueue(m) != []
    ensures Evict(m).entries == m.entries - {AgeQueue(m)[0]} <==>
            OthersOutlast(m.order, m.entries.Keys, Victim(m))
    ensures NoDuplicates(m.order) ==> OthersOutlast(m.order, m.entries.Keys, Victim(m))
  {
    EvictRemovesOne(m);
    AgesMembers(m.order, m.entries.Keys);
    OldestExactlyWhen(m.order, m.entries.Keys, Victim(m));
    var oldest := AgeQueue(m)[0];
    assert oldest in m.entries && Victim(m) in m.entries;
    if oldest != Victim(m) {
      assert oldest in m.entries - {Victim(m)} && oldest !in m.entries - {oldest};
    }
    if NoDuplicates(m.order) {
      LiveNoDuplicates(m.order, m.entries.Keys);
    }
  }

  /** A tidy map stays tidy exactly when an absent key is not put back while its dead slot
      still waits in `order`; deletion always keeps it tidy. */
  lemma {:induction false} TidyStep<T(!new)>(m: Bounded<T>, op: Op<T>)
    requires Tidy(m)
    ensures op.OpPut? ==>
              (Tidy(Apply(m, op)) <==> op.key in m.entries || op.key !in MakeRoom(m).order)
    ensures op.OpDelete? ==> Tidy(Apply(m, op))
  {
    ApplyKeepsValid(m, op);
    match op
    case OpPut(k, v) =>
      PutBinds(m, k, v);
      MakeRoomKeeps(m);
      if k !in m.entries {
        var order := MakeRoom(m).order;
        if k in order {
          var i :| 0 <= i < |order| && order[i] == k;
          assert (order + [k])[i] == (order + [k])[|order|];
        }
      }
    case OpDelete(k) =>
      DeleteUnbinds(m, k);
      LiveNoDuplicates(m.order, Delete(m, k).entries.Keys);
  }

  function Max(a: int, b: int): int {
    if a < b then b else a
  }

  ghost predicate StaleBounded<T>(m: Bounded<T>) {
    m.stale <= Max(COMPACT_STALE_THRESHOLD, |m.entries|)
  }

  lemma {:induction false} PutStaleBounded<T(!new)>(m: Bounded<T>, key: string, val: T)
    requires Valid(m) && StaleBounded(m)
    ensures StaleBounded(Put(m, key, val))
  {
    if key in m.entries {
      assert m.entries[key := val].Keys == m.entries.Keys;
    } else {
      MakeRoomKeeps(m);
      var room := MakeRoom(m);
      assert room.entries[key := val].Keys == room.entries.Keys + {key};
      if AtCapacity(m) {
        EvictRemovesOne(m);
      }
    }
  }

  lemma {:induction false} StaleBoundStep<T(!new)>(m: Bounded<T>, op: Op<T>)
    requires Valid(m) && StaleBounded(m)
    ensures StaleBounded(Apply(m, op))
  {
    match op
    case OpPut(k, v) => PutStaleBounded(m, k, v);
    case OpDelete(k) => DeleteUnbinds(m, k);
  }

  /** The operation rebuilds `order`. */
  predicate Compacts<T>(m: Bounded<T>, op: Op<T>) {
    op.OpDelete? && op.key in m.entries && StaleDominates(Drop(m, op.key))
  }

  /** The slots beyond one per live key that a compaction at this operation keeps. */
  function Surplus<T>(m: Bounded<T>, op: Op<T>): int {
    var live := m.entries.Keys - {op.key};
    |Live(m.order, live)| - |live|
  }

  /** The surplus of the last compaction of the history, or `surplus` if it has none. */
  function SurplusAfter<T>(m: Bounded<T>, ops: seq<Op<T>>, surplus: int): int
    decreases |ops|
  {
    if ops == [] then surplus
    else SurplusAfter(Apply(m, ops[0]), ops[1..], if Compacts(m, ops[0]) then Surplus(m, ops[0]) else surplus)
  }

  /** The slots of `order` that are neither live nor counted as stale. */
  function Uncounted<T>(m: Bounded<T>): int {
    |m.order| - |m.entries| - m.stale
  }

  lemma {:induction false} MakeRoomUncounted<T(!new)>(m: Bounded<T>)
    requires Valid(m)
    ensures Uncounted(MakeRoom(m)) == Uncounted(m)
  {
    if AtCapacity(m) {
      EvictRemovesOne(m);
      var n := EvictPops(m);
    }
  }

  lemma {:induction false} PutUncounted<T(!new)>(m: Bounded<T>, key: string, val: T)
    requires Valid(m)
    ensures Uncounted(Put(m, key, val)) == Uncounted(m)
  {
    if key in m.entries {
      assert m.entries[key := val].Keys == m.entries.Keys;
    } else {
      MakeRoomKeeps(m);
      MakeRoomUncounted(m);
      var room := MakeRoom(m);
      assert room.entries[key := val].Keys == room.entries.Keys + {key};
    }
  }

  /** Only a compaction changes how many slots go uncounted: to the surplus slots it keeps. */
  lemma {:induction false} UncountedStep<T(!new)>(m: Bounded<T>, op: Op<T>)
    requires Valid(m)
    ensures Uncounted(Apply(m, op)) == if Compacts(m, op) then Surplus(m, op) else Uncounted(m)
  {
    match op
    case OpPut(k, v) => PutUncounted(m, k, v);
    case OpDelete(k) =>
      if k in m.entries {
        assert Drop(m, k).entries.Keys == m.entries.Keys - {k};
      }
  }

  /** A compaction keeps no surplus slot if and only if it meets no live key with two slots. */
  lemma {:induction false} CleanCompaction<T>(m: Bounded<T>, op: Op<T>)
    requires Valid(m) && Compacts(m, op)
    ensures Surplus(m, op) >= 0
    ensures Surplus(m, op) == 0 <==> Clean(m, op)
  {
    LiveLength(m.order, m.entries.Keys - {op.key});
  }

  /** No key that stays live owns two slots. */
  ghost predicate Clean<T>(m: Bounded<T>, op: Op<T>) {
    NoDuplicates(Live(m.order, m.entries.Keys - {op.key}))
  }

  /** The last compaction of the history was clean; without one, `otherwise`. */
  ghost predicate LastCompactionClean<T>(m: Bounded<T>, ops: seq<Op<T>>, otherwise: bool)
    decreases |ops|
  {
    if ops == [] then otherwise
    else LastCompactionClean(Apply(m, ops[0]), ops[1..], if Compacts(m, ops[0]) then Clean(m, ops[0]) else otherwise)
  }

  /** After any history the slots missing from the counter are exactly the surplus slots that the
      last compaction kept; so the counter is exact if and only if that compaction met no live key
      with two slots, or, if there was none, if and only if it was exact before. */
  lemma {:induction false} CounterIsExactExactlyWhen<T(!new)>(m: Bounded<T>, ops: seq<Op<T>>)
    requires Valid(m)
    ensures Uncounted(Run(m, ops)) == SurplusAfter(m, ops, Uncounted(m))
    ensures Exact(Run(m, ops)) <==> LastCompactionClean(m, ops, Exact(m))
    decreases |ops|
  {
    if ops != [] {
      ApplyKeepsValid(m, ops[0]);
      UncountedStep(m, ops[0]);
      if Compacts(m, ops[0]) {
        CleanCompaction(m, ops[0]);
      }
      CounterIsExactExactlyWhen(Apply(m, ops[0]), ops[1..]);
    }
  }

  lemma {:induction false} StaleStaysBounded<T(!new)>(m: Bounded<T>, ops: seq<Op<T>>)
    requires Valid(m) && StaleBounded(m)
    ensures Valid(Run(m, ops)) && StaleBounded(Run(m, ops))
    decreases |ops|
  {
    if ops != [] {
      ApplyKeepsValid(m, ops[0]);
      StaleBoundStep(m, ops[0]);
      StaleStaysBounded(Apply(m, ops[0]), ops[1..]);
    }
  }

  /** In every history `order` is longer than the documented bound by at most the surplus of its
      last compaction; when that was clean, the counter is exact and not negative and the bound
      holds, however often keys were deleted and put back. */
  lemma {:induction false} OrderIsBounded<T(!new)>(m: Bounded<T>, ops: seq<Op<T>>)
    requires Valid(m) && StaleBounded(m)
    ensures var r, surplus := Run(m, ops), SurplusAfter(m, ops, Uncounted(m));
            && surplus >= 0
            && |r.order| <= |r.entries| + Max(COMPACT_STALE_THRESHOLD, |r.entries|) + surplus
            && (LastCompactionClean(m, ops, Exact(m)) ==> surplus == 0 && r.stale == |r.order| - |r.entries| >= 0)
  {
    CounterIsExactExactlyWhen(m, ops);
    StaleStaysBounded(m, ops);
    var r := Run(m, ops);
    LiveLength(r.order, r.entries.Keys);
    LiveNoLonger(r.order, r.entries.Keys);
  }

  lemma {:induction false} LiveNoLonger(order: seq<string>, live: set<string>)
    ensures |Live(order, live)| <= |order|
  {
    if order != [] {
      LiveNoLonger(order[1..], live);
    }
  }

  // ---- What re-insertion breaks ----

  lemma {:induction false} ReinsertionHistory() returns (m: Bounded<int>)
    ensures m == Run(Empty<int>(2), [OpPut("a", 1), OpPut("b", 2), OpDelete("a"), OpPut("a", 3)])
    ensures m.entries == map["b" := 2, "a" := 3] && m.order == ["a", "b", "a"]
  {
    var m1 := Put(Empty<int>(2), "a", 1);
    var m2 := Put(m1, "b", 2);
    assert m2.order == ["a", "b"];
    var m3 := Delete(m2, "a");
    assert m3.entries == map["b" := 2];
    m := Put(m3, "a", 3);
    var ops := [OpPut("a", 1), OpPut("b", 2), OpDelete("a"), OpPut("a", 3)];
    assert Run(m3, ops[3..]) == m;
    assert ops[1..][1..] == ops[2..] && ops[2..][1..] == ops[3..];
    assert Run(m2, ops[2..]) == m;
    assert Run(m1, ops[1..]) == m;
  }

  /** With a re-inserted key the newest entry can be evicted instead of the oldest. */
  lemma {:induction false} ReinsertedKeyIsEvictedFirst()
    ensures var m := Run(Empty<int>(2), [OpPut("a", 1), OpPut("b", 2), OpDelete("a"), OpPut("a", 3)]);
            && m.entries == map["b" := 2, "a" := 3]
            && AgeQueue(m) == ["b", "a"]
            && Evict(m).entries == map["b" := 2]
  {
    var m := ReinsertionHistory();
    assert m.order[1..] == ["b", "a"];
    assert m.order[1..][1..] == ["a"];
    assert Ages(["a"], {"a", "b"}) == ["a"];
    assert Ages(["b", "a"], {"a", "b"}) == ["b"] + ["a"];
    assert m.entries.Keys == {"a", "b"};
  }

  function Repeat(k: string, n: nat): (s: seq<string>)
    ensures |s| == n && forall i :: 0 <= i < n ==> s[i] == k
  {
    seq(n, _ => k)
  }

  function Touches(n: nat): seq<Op<int>> {
    if n == 0 then [] else [OpDelete("a"), OpPut("a", 0)] + Touches(n - 1)
  }

  /** `n` rounds of 64 touches of one key, each closed by a put and delete of another. */
  function Rounds(n: nat, touches: nat): seq<Op<int>> {
    if n == 0 then [] else Touches(touches) + [OpPut("b", 0), OpDelete("b")] + Rounds(n - 1, touches)
  }

  lemma {:induction false} RunConcat<T>(m: Bounded<T>, a: seq<Op<T>>, b: seq<Op<T>>)
    ensures Run(m, a + b) == Run(Run(m, a), b)
    decreases |a|
  {
    if a == [] {
      assert a + b == b;
    } else {
      assert (a + b)[1..] == a[1..] + b;
      RunConcat(Apply(m, a[0]), a[1..], b);
    }
  }

  function OnlyA(slots: nat, stale: int): Bounded<int> {
    Bounded(map["a" := 0], Repeat("a", slots), stale, 0)
  }

  lemma {:induction false} TouchesGrow(slots: nat, stale: nat, n: nat)
    requires stale + n <= 64
    ensures Run(OnlyA(slots, stale), Touches(n)) == OnlyA(slots + n, stale + n)
    decreases n
  {
    if n > 0 {
      var m := OnlyA(slots, stale);
      var step := [OpDelete("a"), OpPut("a", 0)];
      RunConcat(m, step, Touches(n - 1));
      var d := Delete(m, "a");
      assert d == Bounded(map[], Repeat("a", slots), stale + 1, 0);
      assert step[1..] == [OpPut("a", 0)];
      assert Repeat("a", slots) + ["a"] == Repeat("a", slots + 1);
      assert Run(m, step) == OnlyA(slots + 1, stale + 1);
      TouchesGrow(slots + 1, stale + 1, n - 1);
    }
  }

  lemma {:induction false} LiveOfRepeat(n: nat)
    ensures Live(Repeat("a", n) + ["b"], {"a"}) == Repeat("a", n)
  {
    if n == 0 {
      assert Repeat("a", 0) + ["b"] == ["b"];
    } else {
      LiveOfRepeat(n - 1);
      assert (Repeat("a", n) + ["b"])[1..] == Repeat("a", n - 1) + ["b"];
      assert ["a"] + Repeat("a", n - 1) == Repeat("a", n);
    }
  }

  lemma {:induction false} RoundGrows(slots: nat, touches: nat)
    requires touches == 64
    ensures Run(OnlyA(slots, 0), Touches(touches) + [OpPut("b", 0), OpDelete("b")]) == OnlyA(slots + 64, 0)
  {
    var close := [OpPut("b", 0), OpDelete("b")];
    RunConcat(OnlyA(slots, 0), Touches(touches), close);
    TouchesGrow(slots, 0, touches);
    var m := OnlyA(slots + 64, 64);
    var p := Put(m, "b", 0);
    assert p.order == Repeat("a", slots + 64) + ["b"];
    var d := Drop(p, "b");
    assert d.entries == map["a" := 0];
    assert d.entries.Keys == {"a"};
    LiveOfRepeat(slots + 64);
    assert Run(p, [OpDelete("b")]) == Delete(p, "b");
    assert close[1..] == [OpDelete("b")];
  }

  lemma {:induction false} RoundsGrow(slots: nat, n: nat, touches: nat)
    requires touches == 64
    ensures Run(OnlyA(slots, 0), Rounds(n, touches)) == OnlyA(slots + 64 * n, 0)
    decreases n
  {
    if n > 0 {
      RoundGrows(slots, touches);
      RunConcat(OnlyA(slots, 0), Touches(touches) + [OpPut("b", 0), OpDelete("b")], Rounds(n - 1, touches));
      RoundsGrow(slots + 64, n - 1, touches);
    }
  }

  /** Compaction keeps every slot of a live key, so a delete-heavy history over two keys
      grows `order` past any bound while one entry is live. */
  lemma {:induction false} OrderGrowsWithoutBound(n: nat) returns (ops: seq<Op<int>>)
    ensures var r := Run(Empty<int>(0), ops);
            |r.entries| == 1 && r.stale == 0 && |r.order| > n
  {
    var rounds := Rounds(n, 64);
    RoundsGrow(1, n, 64);
    ops := [OpPut("a", 0)] + rounds;
    var first := Put(Empty<int>(0), "a", 0);
    assert [] + ["a"] == Repeat("a", 1);
    assert first == OnlyA(1, 0);
    assert ops[1..] == rounds;
    assert Run(Empty<int>(0), ops) == Run(first, rounds);
  }
}

/** The mutable object, with the eviction and compaction loops of the source. */
module BoundedMapObjects {
  import opened BoundedMaps

  class BoundedMap<T> {
    var entries: map<string, T>
    var order: seq<string>
    var stale: int
    const cap: int

    ghost function View(): Bounded<T>
      reads this
    {
      Bounded(entries, order, stale, cap)
    }

    constructor (capacity: int)
      ensures View() == Empty(capacity) && cap == capacity
    {
      entries := map[];
      order := [];
      stale := 0;
      cap := capacity;
    }

    method Get(key: string, zero: T) returns (v: T, ok: bool)
      ensures ok == (key in entries)
      ensures v == if ok then entries[key] else zero
    {
      ok := key in entries;
      v := if ok then entries[key] else zero;
    }

    method Put(key: string, val: T)
      modifies this
      ensures View() == BoundedMaps.Put(old(View()), key, val)
    {
      if key !in entries {
        if cap > 0 && |entries| >= cap {
          EvictOldest();
        }
        order := order + [key];
      }
      entries := entries[key := val];
    }

    method Delete(key: string)
      modifies this
      ensures View() == BoundedMaps.Delete(old(View()), key)
    {
      if key !in entries {
        return;
      }
      entries := entries - {key};
      stale := stale + 1;
      MaybeCompact();
    }

    method EvictOldest()
      modifies this
      ensures View() == Evict(old(View()))
    {
      while |order| > 0
        invariant Evict(View()) == Evict(old(View()))
        decreases |order|
      {
        var oldest := order[0];
        ghost var before := View();
        order := order[1..];
        if oldest in entries {
          entries := entries - {oldest};
          assert View() == Evict(before);
          return;
        }
        stale := stale - 1;
      }
    }

    method MaybeCompact()
      modifies this
      ensures View() == Compact(old(View()))
    {
      if stale <= COMPACT_STALE_THRESHOLD || stale <= |entries| {
        return;
      }
      var compacted := [];
      var i := 0;
      while i < |order|
        invariant 0 <= i <= |order|
        invariant compacted + Live(order[i..], entries.Keys) == Live(order, entries.Keys)
      {
        var key := order[i];
        assert order[i..][1..] == order[i + 1..];
        if key in entries {
          compacted := compacted + [key];
        }
        i := i + 1;
      }
      order := compacted;
      stale := 0;
    }
  }
}
