/**
 Claimable rows and what a claim means (claiming/spec.go, claiming/rich.go): due-gated,
 lease-fenced, optionally filtered to one keyspace, ordered and limited.
 */
module ClaimTables {
  import opened Basics

  /** A row's identity: the keyspace named by the filter column, and the id column. */
  datatype Key = Key(space: string, id: string)

  /** `rank` is the value of a custom ORDER BY expression on the row. */
  datatype Row = Row(due: Option<int>, lease: Option<int>, owner: Option<string>, rank: int)

  type Table = map<Key, Row>

  datatype Spec = Spec(table: string, idColumn: string, dueColumn: string, leaseColumn: string,
                       returning: seq<string>, orderBy: string, ownerColumn: string, filterColumn: string)

  datatype Params = Params(now: int, leaseUntil: int, owner: Option<string>, filter: Option<string>, limit: int)

  predicate Owned(s: Spec, p: Params) {
    s.ownerColumn != "" && p.owner.Some?
  }

  predicate Filtered(s: Spec, p: Params) {
    s.filterColumn != "" && p.filter.Some?
  }

  predicate Due(now: int, row: Row) {
    row.due.Some? && row.due.value <= now
  }

  predicate LeaseFree(now: int, row: Row) {
    row.lease.None? || row.lease.value <= now
  }

  predicate Candidate(s: Spec, p: Params, key: Key, row: Row) {
    Due(p.now, row) && LeaseFree(p.now, row) && (Filtered(s, p) ==> key.space == p.filter.value)
  }

  function Candidates(s: Spec, p: Params, t: Table): set<Key> {
    set k | k in t && Candidate(s, p, k, t[k])
  }

  /** The ORDER BY value: the named expression, or the due column. */
  function OrderKey(s: Spec, row: Row): int {
    if s.orderBy != "" then row.rank else if row.due.Some? then row.due.value else 0
  }

  function Cap(limit: int, n: nat): nat {
    if limit > 0 && limit < n then limit else n
  }

  /** `picked` is a possible answer of ORDER BY .. LIMIT over `available`, whatever the ties. */
  ghost predicate Picks(s: Spec, t: Table, available: set<Key>, limit: int, picked: set<Key>) {
    && available <= t.Keys && picked <= available
    && |picked| == Cap(limit, |available|)
    && forall a, b :: a in picked && b in available && b !in picked ==> OrderKey(s, t[a]) <= OrderKey(s, t[b])
  }

  function Stamped(s: Spec, p: Params, row: Row): Row {
    row.(lease := Some(p.leaseUntil), owner := if Owned(s, p) then p.owner else row.owner)
  }

  function Stamp(s: Spec, p: Params, t: Table, keys: set<Key>): Table {
    map k | k in t :: if k in keys then Stamped(s, p, t[k]) else t[k]
  }

  /** The relational claim: pick the first candidates in claim order, stamp exactly those. */
  ghost predicate Claims(s: Spec, p: Params, t: Table, picked: set<Key>, t': Table) {
    Picks(s, t, Candidates(s, p, t), p.limit, picked) && t' == Stamp(s, p, t, picked)
  }

  /** Ids are unique table-wide, or the claim is confined to one keyspace. */
  ghost predicate IdsIdentify(s: Spec, p: Params, t: Table) {
    Filtered(s, p) || forall j, k :: j in t && k in t && j.id == k.id ==> j == k
  }

  // ---- A claim is always possible ----

  lemma {:induction false} FirstOf(s: Spec, t: Table, keys: set<Key>) returns (first: Key)
    requires keys <= t.Keys && keys != {}
    ensures first in keys && forall k :: k in keys ==> OrderKey(s, t[first]) <= OrderKey(s, t[k])
    decreases |keys|
  {
    first :| first in keys;
    if keys != {first} {
      var other := FirstOf(s, t, keys - {first});
      if OrderKey(s, t[other]) < OrderKey(s, t[first]) {
        first := other;
      }
    }
  }

  lemma {:induction false} FirstN(s: Spec, t: Table, available: set<Key>, n: nat) returns (picked: set<Key>)
    requires available <= t.Keys && n <= |available|
    ensures picked <= available && |picked| == n
    ensures forall a, b :: a in picked && b in available && b !in picked ==> OrderKey(s, t[a]) <= OrderKey(s, t[b])
    decreases n
  {
    if n == 0 {
      picked := {};
    } else {
      var first := FirstOf(s, t, available);
      var rest := FirstN(s, t, available - {first}, n - 1);
      picked := rest + {first};
    }
  }

  lemma {:induction false} ClaimAlwaysPossible(s: Spec, p: Params, t: Table) returns (picked: set<Key>, t': Table)
    ensures Claims(s, p, t, picked, t')
  {
    var candidates := Candidates(s, p, t);
    picked := FirstN(s, t, candidates, Cap(p.limit, |candidates|));
    t' := Stamp(s, p, t, picked);
  }

  // ---- What a claim does ----

  /** A claim takes min(limit, candidates) due rows without a live lease, all in its keyspace and
      none after a candidate it leaves, and changes nothing else. */
  lemma {:induction false} ClaimTakesTheFirstCandidates(s: Spec, p: Params, t: Table, picked: set<Key>, t': Table)
    requires Claims(s, p, t, picked, t')
    ensures |picked| == Cap(p.limit, |Candidates(s, p, t)|)
    ensures forall k :: k in picked ==> k in t && Due(p.now, t[k]) && LeaseFree(p.now, t[k])
    ensures forall j, k :: j in picked && k in Candidates(s, p, t) && k !in picked ==>
              j in t && OrderKey(s, t[j]) <= OrderKey(s, t[k])
    ensures forall k :: k in t && k !in picked ==> k in t' && t'[k] == t[k]
    ensures Filtered(s, p) ==> forall k :: k in t && k.space != p.filter.value ==> k in t' && t'[k] == t[k]
    ensures t'.Keys == t.Keys
  {
    assert forall k :: k in picked ==> k in Candidates(s, p, t);
  }

  /** In terms of the columns alone: of the rows of the claim's keyspace that are due, have no lease running
      and are not locked, these are the first by due time, or by the order expression if there is one, as
      many as the limit allows. */
  ghost predicate TakesEarliest(s: Spec, p: Params, t: Table, locked: set<Key>, picked: set<Key>) {
    var free := set k | k in t && t[k].due.Some? && t[k].due.value <= p.now &&
                        (t[k].lease.None? || t[k].lease.value <= p.now) &&
                        (s.filterColumn == "" || p.filter.None? || k.space == p.filter.value) && k !in locked;
    && picked <= free && |picked| == (if 0 < p.limit < |free| then p.limit else |free|)
    && forall j, k :: j in picked && k in free - picked ==>
         if s.orderBy == "" then t[j].due.value <= t[k].due.value else t[j].rank <= t[k].rank
  }

  lemma {:induction false} PicksTakeEarliest(s: Spec, p: Params, t: Table, locked: set<Key>, picked: set<Key>)
    requires Picks(s, t, Candidates(s, p, t) - locked, p.limit, picked)
    ensures TakesEarliest(s, p, t, locked, picked)
  {
    var free := set k | k in t && t[k].due.Some? && t[k].due.value <= p.now &&
                        (t[k].lease.None? || t[k].lease.value <= p.now) &&
                        (s.filterColumn == "" || p.filter.None? || k.space == p.filter.value) && k !in locked;
    assert free == Candidates(s, p, t) - locked;
  }

  /** A claim takes the earliest free rows, gives them the new lease and owner, and changes no other row. */
  lemma {:induction false} ClaimInColumns(s: Spec, p: Params, t: Table, picked: set<Key>, t': Table)
    requires Claims(s, p, t, picked, t')
    ensures TakesEarliest(s, p, t, {}, picked)
    ensures t'.Keys == t.Keys
    ensures forall k :: k in t && k !in picked ==> t'[k] == t[k]
    ensures forall k :: k in picked ==>
              && k in t
              && t'[k].due == t[k].due && t'[k].rank == t[k].rank && t'[k].lease == Some(p.leaseUntil)
              && t'[k].owner == if s.ownerColumn != "" && p.owner.Some? then p.owner else t[k].owner
  {
    assert Candidates(s, p, t) - {} == Candidates(s, p, t);
    PicksTakeEarliest(s, p, t, {}, picked);
    assert forall k :: k in picked ==> k in Candidates(s, p, t);
  }

  /** Stamping takes the claimed rows out of the candidates if and only if the lease outlives now. */
  lemma {:induction false} StampedRowsLeaveExactlyWhenLeaseIsLive(s: Spec, p: Params, t: Table, picked: set<Key>)
    requires picked <= Candidates(s, p, t)
    ensures p.leaseUntil > p.now ==> Candidates(s, p, Stamp(s, p, t, picked)) == Candidates(s, p, t) - picked
    ensures p.leaseUntil <= p.now ==> Candidates(s, p, Stamp(s, p, t, picked)) == Candidates(s, p, t)
  {
    var t' := Stamp(s, p, t, picked);
    forall k ensures k in Candidates(s, p, t') <==>
                     k in Candidates(s, p, t) && (k in picked ==> p.leaseUntil <= p.now)
    {
      if k in picked {
        assert k in Candidates(s, p, t);
      }
    }
  }

  // ---- Draining ----

  /** `batches` are successive claims at one moment, each on the table the previous one left. */
  ghost predicate Drains(s: Spec, p: Params, t: Table, batches: seq<set<Key>>)
    decreases |batches|
  {
    batches == [] ||
    (&& Picks(s, t, Candidates(s, p, t), p.limit, batches[0])
     && Drains(s, p, Stamp(s, p, t, batches[0]), batches[1..]))
  }

  function Union(batches: seq<set<Key>>): set<Key> {
    if batches == [] then {} else batches[0] + Union(batches[1..])
  }

  function TableAfter(s: Spec, p: Params, t: Table, batches: seq<set<Key>>): Table
    decreases |batches|
  {
    if batches == [] then t else TableAfter(s, p, Stamp(s, p, t, batches[0]), batches[1..])
  }

  /** How many of n candidates are left after m claims of limit k. */
  function Leftover(n: nat, k: nat, m: nat): nat {
    if m * k >= n then 0 else n - m * k
  }

  lemma {:induction false} LeftoverStep(n: nat, k: nat, m: nat)
    requires m >= 1 && k >= 1
    ensures Leftover(n - Cap(k, n), k, m - 1) == Leftover(n, k, m)
  {
    assert m * k == (m - 1) * k + k;
    assert (m - 1) * k >= 0;
  }

  /** What one claim of a drain leaves. */
  lemma {:induction false} FirstBatch(s: Spec, p: Params, t: Table, first: set<Key>)
    requires p.leaseUntil > p.now && p.limit >= 1 && Picks(s, t, Candidates(s, p, t), p.limit, first)
    ensures first <= Candidates(s, p, t) && Candidates(s, p, Stamp(s, p, t, first)) == Candidates(s, p, t) - first
    ensures var n := |Candidates(s, p, t)|; |Candidates(s, p, t) - first| == n - Cap(p.limit, n)
  {
    StampedRowsLeaveExactlyWhenLeaseIsLive(s, p, t, first);
    assert |Candidates(s, p, t) - first| == |Candidates(s, p, t)| - |first|;
  }

  lemma {:induction false} TakenInTwo(all: set<Key>, first: set<Key>, rest: set<Key>)
    requires first <= all && rest <= all - first
    ensures first + rest <= all && all - first - rest == all - (first + rest)
  {
  }

  /** The claims of a drain take rows out of the candidates and put none back. */
  lemma {:induction false} DrainLeaves(s: Spec, p: Params, t: Table, batches: seq<set<Key>>)
    requires p.leaseUntil > p.now && p.limit >= 1 && Drains(s, p, t, batches)
    ensures Union(batches) <= Candidates(s, p, t)
    ensures Candidates(s, p, TableAfter(s, p, t, batches)) == Candidates(s, p, t) - Union(batches)
    ensures |Candidates(s, p, t) - Union(batches)| == Leftover(|Candidates(s, p, t)|, p.limit, |batches|)
    decreases |batches|
  {
    var all := Candidates(s, p, t);
    if batches == [] {
      assert all - {} == all;
    } else {
      FirstBatch(s, p, t, batches[0]);
      DrainLeaves(s, p, Stamp(s, p, t, batches[0]), batches[1..]);
      LeftoverStep(|all|, p.limit, |batches|);
      TakenInTwo(all, batches[0], Union(batches[1..]));
    }
  }

  /** The i-th claim takes a full batch, or what is left. */
  lemma {:induction false} BatchSize(s: Spec, p: Params, t: Table, batches: seq<set<Key>>, i: nat)
    requires p.leaseUntil > p.now && p.limit >= 1 && Drains(s, p, t, batches) && i < |batches|
    ensures |batches[i]| == Cap(p.limit, Leftover(|Candidates(s, p, t)|, p.limit, i))
    decreases i
  {
    if i > 0 {
      FirstBatch(s, p, t, batches[0]);
      BatchSize(s, p, Stamp(s, p, t, batches[0]), batches[1..], i - 1);
      LeftoverStep(|Candidates(s, p, t)|, p.limit, i);
    }
  }

  lemma {:induction false} BatchIsCandidates(s: Spec, p: Params, t: Table, batches: seq<set<Key>>, j: nat)
    requires p.leaseUntil > p.now && Drains(s, p, t, batches) && j < |batches|
    ensures batches[j] <= Candidates(s, p, t)
    decreases j
  {
    if j > 0 {
      StampedRowsLeaveExactlyWhenLeaseIsLive(s, p, t, batches[0]);
      BatchIsCandidates(s, p, Stamp(s, p, t, batches[0]), batches[1..], j - 1);
    }
  }

  /** No row of `a` comes after a row of `b` in claim order. */
  ghost predicate Precede(s: Spec, t: Table, a: set<Key>, b: set<Key>) {
    forall j, k :: j in a && k in b ==> j in t && k in t && OrderKey(s, t[j]) <= OrderKey(s, t[k])
  }

  lemma {:induction false} PickedPrecede(s: Spec, p: Params, t: Table, picked: set<Key>, later: set<Key>)
    requires Picks(s, t, Candidates(s, p, t), p.limit, picked) && later <= Candidates(s, p, t) - picked
    ensures picked !! later && Precede(s, t, picked, later)
  {
  }

  /** Stamping moves no row in claim order. */
  lemma {:induction false} StampKeepsOrder(s: Spec, p: Params, t: Table, picked: set<Key>, a: set<Key>, b: set<Key>)
    requires Precede(s, Stamp(s, p, t, picked), a, b)
    ensures Precede(s, t, a, b)
  {
    var t' := Stamp(s, p, t, picked);
    forall j, k | j in a && k in b ensures j in t && k in t && OrderKey(s, t[j]) <= OrderKey(s, t[k]) {
      assert OrderKey(s, t'[j]) == OrderKey(s, t[j]) && OrderKey(s, t'[k]) == OrderKey(s, t[k]);
    }
  }

  lemma {:induction false} LaterBatch(s: Spec, p: Params, t: Table, batches: seq<set<Key>>, j: nat)
    requires p.leaseUntil > p.now && Drains(s, p, t, batches) && 0 < j < |batches|
    ensures batches[j] <= Candidates(s, p, t) - batches[0]
  {
    StampedRowsLeaveExactlyWhenLeaseIsLive(s, p, t, batches[0]);
    BatchIsCandidates(s, p, Stamp(s, p, t, batches[0]), batches[1..], j - 1);
  }

  /** Two claims of a drain share no row, and the earlier one's rows do not follow the later one's. */
  lemma {:induction false} BatchesFollowClaimOrder(s: Spec, p: Params, t: Table, batches: seq<set<Key>>, i: nat, j: nat)
    requires p.leaseUntil > p.now && Drains(s, p, t, batches) && i < j < |batches|
    ensures batches[i] !! batches[j] && Precede(s, t, batches[i], batches[j])
    ensures forall a, b :: a in batches[i] && b in batches[j] ==>
              && a in t && b in t && t[a].due.Some? && t[b].due.Some?
              && if s.orderBy == "" then t[a].due.value <= t[b].due.value else t[a].rank <= t[b].rank
    decreases i
  {
    if i == 0 {
      LaterBatch(s, p, t, batches, j);
      PickedPrecede(s, p, t, batches[0], batches[j]);
    } else {
      BatchesFollowClaimOrder(s, p, Stamp(s, p, t, batches[0]), batches[1..], i - 1, j - 1);
      StampKeepsOrder(s, p, t, batches[0], batches[i], batches[j]);
    }
    BatchIsCandidates(s, p, t, batches, i);
    BatchIsCandidates(s, p, t, batches, j);
    PrecedeInColumns(s, p, t, batches[i], batches[j]);
  }

  lemma {:induction false} PrecedeInColumns(s: Spec, p: Params, t: Table, a: set<Key>, b: set<Key>)
    requires Precede(s, t, a, b) && a <= Candidates(s, p, t) && b <= Candidates(s, p, t)
    ensures forall j, k :: j in a && k in b ==>
              && j in t && k in t && t[j].due.Some? && t[k].due.Some?
              && if s.orderBy == "" then t[j].due.value <= t[k].due.value else t[j].rank <= t[k].rank
  {
    forall j, k | j in a && k in b
      ensures j in t && k in t && t[j].due.Some? && t[k].due.Some?
      ensures if s.orderBy == "" then t[j].due.value <= t[k].due.value else t[j].rank <= t[k].rank
    {
      assert j in Candidates(s, p, t) && k in Candidates(s, p, t);
    }
  }

  /** A drain is complete exactly after ceil(n / k) claims, and every claim before that takes rows. */
  lemma {:induction false} DrainTakesCeilingManyClaims(s: Spec, p: Params, t: Table, batches: seq<set<Key>>)
    requires p.leaseUntil > p.now && p.limit >= 1 && Drains(s, p, t, batches)
    ensures var n, k := |Candidates(s, p, t)|, p.limit;
            && (Union(batches) == Candidates(s, p, t) <==> |batches| >= (n + k - 1) / k)
            && forall i :: 0 <= i < |batches| ==> (batches[i] != {} <==> i < (n + k - 1) / k)
  {
    var all := Candidates(s, p, t);
    var n, k := |all|, p.limit;
    DrainLeaves(s, p, t, batches);
    CeilingIsLeast(n, k, |batches|);
    assert Leftover(n, k, |batches|) == 0 <==> |batches| * k >= n;
    if all - Union(batches) == {} {
      assert Union(batches) == all;
    }
    forall i | 0 <= i < |batches| ensures batches[i] != {} <==> i < (n + k - 1) / k {
      BatchSize(s, p, t, batches, i);
      CeilingIsLeast(n, k, i);
      assert Leftover(n, k, i) == 0 <==> i * k >= n;
    }
  }

  lemma {:induction false} CeilingIsLeast(n: nat, k: nat, m: nat)
    requires k >= 1
    ensures m * k >= n <==> m >= (n + k - 1) / k
  {
    var q := (n + k - 1) / k;
    assert q * k <= n + k - 1 < q * k + k by { QuotientTimes(n + k - 1, k); }
    if m >= q {
      MulOrder(q, m, k);
    } else {
      MulOrder(m + 1, q, k);
      assert (m + 1) * k == m * k + k;
    }
  }

  /** A lease that does not outlive the claim's own clock claims the same rows for ever. */
  lemma {:induction false} ExpiredLeaseNeverDrains(s: Spec, p: Params, t: Table, batches: seq<set<Key>>)
    requires p.leaseUntil <= p.now && Drains(s, p, t, batches)
    ensures Candidates(s, p, TableAfter(s, p, t, batches)) == Candidates(s, p, t)
    decreases |batches|
  {
    if batches != [] {
      StampedRowsLeaveExactlyWhenLeaseIsLive(s, p, t, batches[0]);
      ExpiredLeaseNeverDrains(s, p, Stamp(s, p, t, batches[0]), batches[1..]);
    }
  }
}
