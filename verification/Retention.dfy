/** Checkpoint retention: `enforceLimits` of pkg/checkpoint/checkpoint.go over the checkpoints stored
    for one session. */
module Retention {

  datatype Summary = Summary(id: string, createdAt: int, size: int)

  type Store = map<string, Summary>

  /** Each checkpoint is filed under its own identifier. */
  predicate Filed(store: Store) {
    forall k | k in store :: store[k].id == k
  }

  /** `list` holds every stored checkpoint once, in some order. */
  ghost predicate Lists(list: seq<Summary>, store: Store) {
    && (forall x | x in multiset(list) :: x.id in store && store[x.id] == x && multiset(list)[x] == 1)
    && forall k | k in store :: store[k] in multiset(list)
  }

  predicate OldestFirst(list: seq<Summary>) {
    forall i, j | 0 <= i < j < |list| :: list[i].createdAt <= list[j].createdAt
  }

  function TotalSize(list: seq<Summary>): int {
    if list == [] then 0 else list[0].size + TotalSize(list[1..])
  }

  /** The store that holds just the entries of `order` from position `k` on. */
  function Keep(order: seq<Summary>, k: nat): Store
    decreases |order| - k
  {
    if k >= |order| then map[] else Keep(order, k + 1)[order[k].id := order[k]]
  }

  predicate DistinctIds(list: seq<Summary>) {
    forall i, j | 0 <= i < j < |list| :: list[i].id != list[j].id
  }

  // ---- What the two phases delete ----

  /** Entries the count phase deletes. */
  function CountCut(n: nat, maxCheckpoints: int): (r: nat)
    ensures r <= n
  {
    if maxCheckpoints > 0 && n > maxCheckpoints then n - maxCheckpoints else 0
  }

  /** Where the size loop stops, from position `k` with the running total `total`. */
  function SizeCut(order: seq<Summary>, k: nat, total: int, maxTotalSize: int): (r: nat)
    requires k <= |order|
    ensures k <= r <= |order|
    decreases |order| - k
  {
    if total > maxTotalSize && k < |order| then SizeCut(order, k + 1, total - order[k].size, maxTotalSize) else k
  }

  /** The size loop starts over from the oldest entry, although the count phase has already deleted
      some of them and the measured total no longer contains those. */
  function SizePhase(order: seq<Summary>, deleted: nat, maxTotalSize: int): (r: nat)
    requires deleted <= |order|
    ensures r <= |order|
  {
    if maxTotalSize > 0 then SizeCut(order, 0, TotalSize(order[deleted..]), maxTotalSize) else 0
  }

  function Later(d: nat, k: nat): nat {
    if d < k then k else d
  }

  function Cut(order: seq<Summary>, maxCheckpoints: int, maxTotalSize: int): (r: nat)
    ensures r <= |order|
  {
    var d := CountCut(|order|, maxCheckpoints);
    var k := SizePhase(order, d, maxTotalSize);
    Later(d, k)
  }

  lemma SizeCutStep(order: seq<Summary>, k: nat, total: int, maxTotalSize: int)
    requires k <= |order|
    ensures SizeCut(order, k, total, maxTotalSize) ==
            if total > maxTotalSize && k < |order| then SizeCut(order, k + 1, total - order[k].size, maxTotalSize) else k
  {
  }

  lemma {:induction false} TotalSplit(list: seq<Summary>, k: nat)
    requires k <= |list|
    ensures TotalSize(list) == TotalSize(list[..k]) + TotalSize(list[k..])
  {
    if k == 0 {
      assert list[0..] == list;
    } else {
      TotalSplit(list[1..], k - 1);
      assert list[..k][1..] == list[1..][..k - 1];
      assert list[k..] == list[1..][k - 1..];
    }
  }

  lemma SuffixStep(order: seq<Summary>, k: nat)
    requires k < |order|
    ensures TotalSize(order[k..]) == order[k].size + TotalSize(order[k + 1..])
  {
    assert order[k..][1..] == order[k + 1..];
  }

  /** The size loop stops at the first position from which the running total fits, where the total
      is short of the true suffix size by the constant `phantom`. */
  lemma {:induction false} SizeCutFirst(order: seq<Summary>, k: nat, phantom: int, maxTotalSize: int)
    requires k <= |order|
    ensures var r := SizeCut(order, k, TotalSize(order[k..]) - phantom, maxTotalSize);
            && (r < |order| ==> TotalSize(order[r..]) <= maxTotalSize + phantom)
            && forall j | k <= j < r :: TotalSize(order[j..]) > maxTotalSize + phantom
    decreases |order| - k
  {
    hide TotalSize;
    if TotalSize(order[k..]) - phantom > maxTotalSize && k < |order| {
      SuffixStep(order, k);
      SizeCutFirst(order, k + 1, phantom, maxTotalSize);
    }
  }

  predicate SizesNonNegative(order: seq<Summary>) {
    forall i | 0 <= i < |order| :: order[i].size >= 0
  }

  lemma {:induction false} TotalNonNegative(list: seq<Summary>)
    requires SizesNonNegative(list)
    ensures TotalSize(list) >= 0
  {
    if list != [] {
      TotalNonNegative(list[1..]);
    }
  }

  lemma SuffixShrinks(order: seq<Summary>, j: nat, k: nat)
    requires SizesNonNegative(order) && j <= k <= |order|
    ensures TotalSize(order[k..]) <= TotalSize(order[j..])
  {
    TotalSplit(order[j..], k - j);
    assert order[j..][k - j..] == order[k..];
    TotalNonNegative(order[j..][..k - j]);
  }

  /** When the count phase deletes nothing, the survivors fit the size limit and no shorter
      oldest-first deletion would have sufficed. */
  lemma SizeLimitMinimal(order: seq<Summary>, maxCheckpoints: int, maxTotalSize: int)
    requires maxTotalSize > 0 && CountCut(|order|, maxCheckpoints) == 0
    ensures var cut := Cut(order, maxCheckpoints, maxTotalSize);
            && TotalSize(order[cut..]) <= maxTotalSize
            && forall j | 0 <= j < cut :: TotalSize(order[j..]) > maxTotalSize
  {
    assert TotalSize([]) == 0;
    hide TotalSize; hide SizeCut;
    SizeCutFirst(order, 0, 0, maxTotalSize);
    assert order[0..] == order;
    assert order[|order|..] == [];
  }

  lemma FirstFitting(order: seq<Summary>, d: nat, k: nat, bound: int)
    requires SizesNonNegative(order) && d <= |order| && k <= |order| && bound >= 0
    requires k < |order| ==> TotalSize(order[k..]) <= bound
    requires forall j | 0 <= j < k :: TotalSize(order[j..]) > bound
    ensures TotalSize(order[Later(d, k)..]) <= bound
    ensures forall j | d <= j < Later(d, k) :: TotalSize(order[j..]) > bound
  {
    assert TotalSize([]) == 0 && order[|order|..] == [];
    hide TotalSize; hide SizesNonNegative;
    SuffixShrinks(order, k, Later(d, k));
  }

  /** Where the cut is, exactly: the first position from the excess over `maxCheckpoints` on from which
      the sizes fit the limit plus the size of that excess. Without a size limit it is the excess itself. */
  lemma CutExact(order: seq<Summary>, maxCheckpoints: int, maxTotalSize: int)
    requires SizesNonNegative(order)
    ensures var excess := if 0 < maxCheckpoints < |order| then |order| - maxCheckpoints else 0;
            var cut := Cut(order, maxCheckpoints, maxTotalSize);
            && excess <= cut <= |order|
            && (maxTotalSize <= 0 ==> cut == excess)
            && (maxTotalSize > 0 ==>
                  && TotalSize(order[cut..]) <= maxTotalSize + TotalSize(order[..excess])
                  && forall j | excess <= j < cut :: TotalSize(order[j..]) > maxTotalSize + TotalSize(order[..excess]))
  {
    hide TotalSize; hide SizeCut;
    var d := CountCut(|order|, maxCheckpoints);
    assert d == if 0 < maxCheckpoints < |order| then |order| - maxCheckpoints else 0;
    hide CountCut;
    if maxTotalSize > 0 {
      var k := SizePhase(order, d, maxTotalSize);
      var phantom := TotalSize(order[..d]);
      TotalSplit(order, d);
      assert order[0..] == order;
      SizeCutFirst(order, 0, phantom, maxTotalSize);
      TotalNonNegative(order[..d]);
      FirstFitting(order, d, k, maxTotalSize + phantom);
    }
  }

  lemma CutWhenFits(order: seq<Summary>, maxCheckpoints: int, maxTotalSize: int, excess: nat)
    requires excess == CountCut(|order|, maxCheckpoints)
    requires maxTotalSize <= 0 || TotalSize(order[excess..]) <= maxTotalSize
    ensures Cut(order, maxCheckpoints, maxTotalSize) == excess
  {
    hide TotalSize; hide CountCut; hide SizeCut;
    SizeCutStep(order, 0, TotalSize(order[excess..]), maxTotalSize);
  }

  /** When the entries within the count limit fit the size limit, exactly as many remain as the count
      limit allows: the newest ones, or all of them. */
  lemma CountExact(order: seq<Summary>, maxCheckpoints: int, maxTotalSize: int, remaining: nat)
    requires DistinctIds(order)
    requires remaining == if 0 < maxCheckpoints < |order| then maxCheckpoints else |order|
    requires maxTotalSize <= 0 || TotalSize(order[|order| - remaining..]) <= maxTotalSize
    ensures Keep(order, Cut(order, maxCheckpoints, maxTotalSize)) == Keep(order, |order| - remaining)
    ensures |Keep(order, |order| - remaining)| == remaining
  {
    hide TotalSize; hide Keep; hide DistinctIds;
    assert CountCut(|order|, maxCheckpoints) == |order| - remaining;
    CutWhenFits(order, maxCheckpoints, maxTotalSize, |order| - remaining);
    KeepSize(order, |order| - remaining);
  }

  /** In general the size limit is met exactly when no suffix of the entries left by the count phase
      has a size above the limit by at most the size of the entries the count phase deleted. */
  lemma SizeLimitMetIff(order: seq<Summary>, maxCheckpoints: int, maxTotalSize: int)
    requires maxTotalSize > 0 && SizesNonNegative(order)
    ensures var d := CountCut(|order|, maxCheckpoints);
            TotalSize(order[Cut(order, maxCheckpoints, maxTotalSize)..]) <= maxTotalSize <==>
            forall j | d <= j <= |order| ::
              !(maxTotalSize < TotalSize(order[j..]) <= maxTotalSize + TotalSize(order[..d]))
  {
    hide TotalSize; hide SizeCut;
    var d := CountCut(|order|, maxCheckpoints);
    var cut := Cut(order, maxCheckpoints, maxTotalSize);
    var phantom := TotalSize(order[..d]);
    var k := SizePhase(order, d, maxTotalSize);
    TotalSplit(order, d);
    assert order[0..] == order;
    SizeCutFirst(order, 0, phantom, maxTotalSize);
    TotalNonNegative(order[..d]);
    CutMeetsIff(order, d, k, cut, phantom, maxTotalSize);
  }

  lemma CutMeetsIff(order: seq<Summary>, d: nat, k: nat, cut: nat, phantom: int, limit: int)
    requires SizesNonNegative(order) && d <= |order| && k <= |order| && cut == Later(d, k)
    requires limit > 0 && phantom >= 0
    requires k < |order| ==> TotalSize(order[k..]) <= limit + phantom
    requires forall j | 0 <= j < k :: TotalSize(order[j..]) > limit + phantom
    ensures TotalSize(order[cut..]) <= limit <==>
            forall j | d <= j <= |order| :: !(limit < TotalSize(order[j..]) <= limit + phantom)
  {
    assert TotalSize([]) == 0;
    hide TotalSize; hide SizesNonNegative;
    assert order[|order|..] == [];
    if TotalSize(order[cut..]) <= limit {
      forall j | d <= j <= |order| ensures !(limit < TotalSize(order[j..]) <= limit + phantom) {
        if cut <= j {
          SuffixShrinks(order, cut, j);
        }
      }
    } else {
      SuffixShrinks(order, k, cut);
      assert limit < TotalSize(order[cut..]) <= limit + phantom;
    }
  }

  /** With both limits tripping, three checkpoints of ten bytes are cut to two although only one fits. */
  lemma SizeLimitCanFail()
    ensures var order := [Summary("a", 1, 10), Summary("b", 2, 10), Summary("c", 3, 10)];
            var cut := Cut(order, 2, 15);
            cut == 1 && TotalSize(order[cut..]) == 20 > 15
  {
    var order := [Summary("a", 1, 10), Summary("b", 2, 10), Summary("c", 3, 10)];
    SuffixStep(order, 1);
    SuffixStep(order, 2);
    assert order[3..] == [];
    assert TotalSize(order[1..]) == 20;
    assert SizeCut(order, 1, 10, 15) == 1;
    assert SizeCut(order, 0, 20, 15) == SizeCut(order, 1, 10, 15);
  }

  /** Retention keeps a newest suffix: nothing deleted is newer than a survivor, and at most
      `maxCheckpoints` remain. */
  lemma KeepsNewest(order: seq<Summary>, maxCheckpoints: int, maxTotalSize: int)
    requires OldestFirst(order) && DistinctIds(order)
    ensures var kept := Keep(order, Cut(order, maxCheckpoints, maxTotalSize));
            && (maxCheckpoints > 0 ==> |kept| <= maxCheckpoints)
            && forall x, y | x in order && y in order && x.id !in kept && y.id in kept :: x.createdAt <= y.createdAt
  {
    var cut := Cut(order, maxCheckpoints, maxTotalSize);
    var kept := Keep(order, cut);
    KeepSize(order, cut);
    forall x, y | x in order && y in order && x.id !in kept && y.id in kept ensures x.createdAt <= y.createdAt {
      var i :| 0 <= i < |order| && order[i] == x;
      var j :| 0 <= j < |order| && order[j] == y;
      KeepMember(order, cut, i);
      KeepMember(order, cut, j);
    }
  }

  lemma SurvivorsNewer(order: seq<Summary>, store: Store, cut: nat)
    requires Lists(order, store) && Filed(store) && DistinctIds(order) && cut <= |order|
    requires var kept := Keep(order, cut);
             forall x, y | x in order && y in order && x.id !in kept && y.id in kept :: x.createdAt <= y.createdAt
    ensures var kept := Keep(order, cut);
            forall a, b | a in store && a !in kept && b in kept :: store[a].createdAt <= kept[b].createdAt
  {
    var kept := Keep(order, cut);
    forall a, b | a in store && a !in kept && b in kept ensures store[a].createdAt <= kept[b].createdAt {
      assert store[a] in order && store[a].id == a;
      var i := KeepOnly(order, cut, b);
      assert order[i] in order;
    }
  }

  lemma {:induction false} KeepFrom(order: seq<Summary>, k: nat, i: nat)
    requires DistinctIds(order) && k <= i < |order|
    ensures order[i].id in Keep(order, k) && Keep(order, k)[order[i].id] == order[i]
    decreases i - k
  {
    if k < i {
      KeepFrom(order, k + 1, i);
    }
  }

  lemma {:induction false} KeepOnly(order: seq<Summary>, k: nat, id: string) returns (i: nat)
    requires id in Keep(order, k)
    ensures k <= i < |order| && order[i].id == id && Keep(order, k)[id] == order[i]
    decreases |order| - k
  {
    if id == order[k].id {
      i := k;
    } else {
      i := KeepOnly(order, k + 1, id);
    }
  }

  lemma KeepMember(order: seq<Summary>, k: nat, i: nat)
    requires DistinctIds(order) && k <= |order| && i < |order|
    ensures order[i].id in Keep(order, k) <==> k <= i
    ensures k <= i ==> Keep(order, k)[order[i].id] == order[i]
  {
    hide Keep;
    if k <= i {
      KeepFrom(order, k, i);
    }
    if order[i].id in Keep(order, k) {
      var j := KeepOnly(order, k, order[i].id);
    }
  }

  lemma {:induction false} KeepSize(order: seq<Summary>, k: nat)
    requires DistinctIds(order) && k <= |order|
    ensures |Keep(order, k)| == |order| - k
    decreases |order| - k
  {
    if k < |order| {
      KeepMember(order, k + 1, k);
      KeepSize(order, k + 1);
    }
  }

  /** Deleting the oldest kept entry moves the cut by one. */
  lemma KeepDrop(order: seq<Summary>, k: nat)
    requires DistinctIds(order) && k < |order|
    ensures Keep(order, k) - {order[k].id} == Keep(order, k + 1)
  {
    KeepMember(order, k + 1, k);
  }

  // ---- Listings ----

  lemma ListsDistinct(list: seq<Summary>, store: Store)
    requires Lists(list, store)
    ensures DistinctIds(list)
  {
    forall i, j | 0 <= i < j < |list| ensures list[i].id != list[j].id {
      assert list == list[..j] + list[j..];
      assert list[..j][i] == list[i] && list[j..][0] == list[j];
      assert list[i] in multiset(list) && list[j] in multiset(list);
      assert list[i] in multiset(list[..j]) && list[j] in multiset(list[j..]);
    }
  }

  lemma ListsKeep(list: seq<Summary>, store: Store)
    requires Lists(list, store) && DistinctIds(list) && Filed(store)
    ensures Keep(list, 0) == store
  {
    hide Keep;
    forall k | k in store ensures k in Keep(list, 0) && Keep(list, 0)[k] == store[k] {
      assert store[k] in list;
      var i :| 0 <= i < |list| && list[i] == store[k];
      KeepFrom(list, 0, i);
    }
    forall k | k in Keep(list, 0) ensures k in store {
      var i := KeepOnly(list, 0, k);
      assert list[i] in multiset(list);
    }
  }

  /** A distinct list is a listing of the store it makes up. */
  lemma KeepLists(order: seq<Summary>, k: nat)
    requires DistinctIds(order) && k <= |order|
    ensures Lists(order[k..], Keep(order, k)) && Filed(Keep(order, k))
  {
    hide Keep;
    var rest := order[k..];
    forall id | id in Keep(order, k) ensures Keep(order, k)[id] in multiset(rest) && Keep(order, k)[id].id == id {
      var i := KeepOnly(order, k, id);
      assert rest[i - k] == order[i];
    }
    forall x: Summary | x in multiset(rest)
      ensures x.id in Keep(order, k) && Keep(order, k)[x.id] == x && multiset(rest)[x] == 1
    {
      var i :| 0 <= i < |rest| && rest[i] == x;
      KeepMember(order, k, k + i);
      DistinctOnce(rest, i);
    }
  }

  lemma DistinctOnce(list: seq<Summary>, i: nat)
    requires DistinctIds(list) && i < |list|
    ensures multiset(list)[list[i]] == 1
  {
    var x := list[i];
    assert list == list[..i] + [x] + list[i + 1..];
    assert x !in list[..i] && x !in list[i + 1..];
    assert multiset(list) == multiset(list[..i]) + multiset{x} + multiset(list[i + 1..]);
  }

  /** The list without its entry `i`. */
  function Without(list: seq<Summary>, i: nat): (r: seq<Summary>)
    requires i < |list|
    ensures |r| == |list| - 1
  {
    list[..i] + list[i + 1..]
  }

  lemma WithoutTail(list: seq<Summary>, i: nat)
    requires 0 < i < |list|
    ensures Without(list, i)[0] == list[0] && Without(list, i)[1..] == Without(list[1..], i - 1)
  {
    var tail := list[1..];
    assert list[..i] == [list[0]] + tail[..i - 1];
    assert list[i + 1..] == tail[i..];
  }

  lemma {:induction false} TotalRemove(list: seq<Summary>, i: nat)
    requires i < |list|
    ensures TotalSize(list) == TotalSize(Without(list, i)) + list[i].size
  {
    if i == 0 {
      assert Without(list, 0) == list[1..];
    } else {
      var tail := list[1..];
      TotalRemove(tail, i - 1);
      WithoutTail(list, i);
      hide Without;
      assert TotalSize(list) == list[0].size + TotalSize(tail);
    }
  }

  lemma WithoutOne(list: seq<Summary>, i: nat)
    requires i < |list|
    ensures multiset(Without(list, i)) == multiset(list) - multiset{list[i]}
  {
    assert list == list[..i] + [list[i]] + list[i + 1..];
  }

  lemma SameLength(a: seq<Summary>, b: seq<Summary>)
    requires multiset(a) == multiset(b)
    ensures |a| == |b|
  {
    assert |multiset(a)| == |a| && |multiset(b)| == |b|;
  }

  lemma PositionOf(list: seq<Summary>, x: Summary) returns (i: nat)
    requires x in multiset(list)
    ensures i < |list| && list[i] == x
  {
    i :| i < |list| && list[i] == x;
  }

  /** The total does not depend on the order of the listing. */
  lemma {:induction false} TotalOfPermutation(a: seq<Summary>, b: seq<Summary>)
    requires multiset(a) == multiset(b)
    ensures TotalSize(a) == TotalSize(b)
    decreases |a|
  {
    SameLength(a, b);
    hide TotalSize; hide Without;
    if a == [] {
      assert b == [];
    } else {
      assert a[0] in multiset(a);
      var i := PositionOf(b, a[0]);
      WithoutOne(a, 0);
      WithoutOne(b, i);
      TotalRemove(a, 0);
      TotalRemove(b, i);
      TotalOfPermutation(Without(a, 0), Without(b, i));
    }
  }

  lemma SameListing(a: seq<Summary>, b: seq<Summary>, store: Store)
    requires Lists(a, store) && Lists(b, store)
    ensures TotalSize(a) == TotalSize(b)
  {
    forall x: Summary ensures multiset(a)[x] == multiset(b)[x] {
      if x in multiset(a) {
        assert store[x.id] in multiset(b);
      } else if x in multiset(b) {
        assert store[x.id] in multiset(a);
      }
    }
    assert multiset(a) == multiset(b);
    TotalOfPermutation(a, b);
  }

  /** The list with `x` put in at position `k`. */
  function With(list: seq<Summary>, k: nat, x: Summary): seq<Summary>
    requires k <= |list|
  {
    list[..k] + [x] + list[k..]
  }

  lemma WithKeepsOrder(list: seq<Summary>, k: nat, x: Summary)
    requires OldestFirst(list) && k <= |list|
    requires k > 0 ==> list[k - 1].createdAt <= x.createdAt
    requires forall j | k <= j < |list| :: x.createdAt <= list[j].createdAt
    ensures OldestFirst(With(list, k, x))
  {
    var longer := With(list, k, x);
    forall i, j | 0 <= i < j < |longer| ensures longer[i].createdAt <= longer[j].createdAt {
      assert i < k ==> longer[i] == list[i];
      assert i > k ==> longer[i] == list[i - 1];
      assert j < k ==> longer[j] == list[j];
      assert j > k ==> longer[j] == list[j - 1];
    }
  }

  lemma WithOne(list: seq<Summary>, k: nat, x: Summary)
    requires k <= |list|
    ensures multiset(With(list, k, x)) == multiset(list) + multiset{x}
  {
    assert list == list[..k] + list[k..];
  }

  lemma PrefixOne(list: seq<Summary>, i: nat)
    requires i < |list|
    ensures multiset(list[..i + 1]) == multiset(list[..i]) + multiset{list[i]}
  {
    assert list[..i + 1] == list[..i] + [list[i]];
  }

  /** Where to insert: behind everything that is not newer. */
  method Position(sorted: seq<Summary>, x: Summary) returns (k: nat)
    ensures k <= |sorted|
    ensures k > 0 ==> sorted[k - 1].createdAt <= x.createdAt
    ensures forall j | k <= j < |sorted| :: x.createdAt < sorted[j].createdAt
  {
    k := |sorted|;
    while k > 0 && x.createdAt < sorted[k - 1].createdAt
      invariant k <= |sorted|
      invariant forall j | k <= j < |sorted| :: x.createdAt < sorted[j].createdAt
    {
      k := k - 1;
    }
  }

  /** Ascending by creation time; entries created at the same time may come in any order. */
  method SortByCreation(list: seq<Summary>) returns (sorted: seq<Summary>)
    ensures OldestFirst(sorted) && multiset(sorted) == multiset(list)
  {
    sorted := [];
    for i := 0 to |list|
      invariant OldestFirst(sorted) && multiset(sorted) == multiset(list[..i])
    {
      hide OldestFirst;
      var k := Position(sorted, list[i]);
      WithKeepsOrder(sorted, k, list[i]);
      WithOne(sorted, k, list[i]);
      PrefixOne(list, i);
      sorted := sorted[..k] + [list[i]] + sorted[k..];
    }
    assert list[..|list|] == list;
  }

  // ---- The manager object ----

  class Manager {
    var store: Store
    const maxCheckpoints: int
    const maxTotalSize: int

    constructor (store: Store, maxCheckpoints: int, maxTotalSize: int)
      ensures this.store == store && this.maxCheckpoints == maxCheckpoints && this.maxTotalSize == maxTotalSize
    {
      this.store, this.maxCheckpoints, this.maxTotalSize := store, maxCheckpoints, maxTotalSize;
    }

    method List() returns (summaries: seq<Summary>)
      requires Filed(store)
      ensures Lists(summaries, store)
    {
      summaries := [];
      var keys := store.Keys;
      while keys != {}
        invariant keys <= store.Keys
        invariant forall x | x in multiset(summaries) ::
                    x.id in store && x.id !in keys && store[x.id] == x && multiset(summaries)[x] == 1
        invariant forall k | k in store && k !in keys :: store[k] in multiset(summaries)
        decreases keys
      {
        var k :| k in keys;
        assert store[k] !in multiset(summaries);
        summaries := summaries + [store[k]];
        keys := keys - {k};
      }
    }

    /** The same for every order in which the store may be listed. */
    method GetSize() returns (total: int)
      requires Filed(store)
      ensures forall list | Lists(list, store) :: total == TotalSize(list)
    {
      var summaries := List();
      total := 0;
      for i := 0 to |summaries|
        invariant total == TotalSize(summaries[..i])
      {
        TotalSplit(summaries[..i + 1], i);
        assert summaries[..i + 1][..i] == summaries[..i] && summaries[..i + 1][i..] == [summaries[i]];
        assert [summaries[i]][1..] == [];
        total := total + summaries[i].size;
      }
      assert summaries[..|summaries|] == summaries;
      forall list | Lists(list, store) ensures total == TotalSize(list) {
        SameListing(list, summaries, store);
      }
    }

    /** Deletes the oldest entries until the count fits. */
    method EnforceCount(summaries: seq<Summary>)
      requires DistinctIds(summaries) && store == Keep(summaries, 0)
      modifies this
      ensures store == Keep(summaries, CountCut(|summaries|, maxCheckpoints))
    {
      hide Keep; hide DistinctIds;
      if maxCheckpoints > 0 && |summaries| > maxCheckpoints {
        var toDelete := |summaries| - maxCheckpoints;
        for i := 0 to toDelete
          invariant store == Keep(summaries, i)
        {
          KeepDrop(summaries, i);
          store := store - {summaries[i].id};
        }
      }
    }

    /** The loop of the size phase: deletes from the oldest entry on until the running total fits;
        `d` entries are already gone. */
    method ShrinkTo(order: seq<Summary>, measured: int, ghost d: nat)
      requires DistinctIds(order) && d <= |order| && store == Keep(order, d)
      modifies this
      ensures store == Keep(order, Later(d, SizeCut(order, 0, measured, maxTotalSize)))
    {
      ghost var target := SizeCut(order, 0, measured, maxTotalSize);
      assert Later(d, 0) == d;
      hide *;
      var summaries, totalSize := order, measured;
      ghost var k := 0;
      while totalSize > maxTotalSize && |summaries| > 0
        invariant k <= |order| && summaries == order[k..]
        invariant SizeCut(order, k, totalSize, maxTotalSize) == target
        invariant store == Keep(order, Later(d, k))
        decreases |summaries|
      {
        DropSuffix(order, d, k);
        SizeCutStep(order, k, totalSize, maxTotalSize);
        store := store - {summaries[0].id};
        totalSize := totalSize - summaries[0].size;
        summaries := summaries[1..];
        k := k + 1;
      }
      SizeCutStep(order, k, totalSize, maxTotalSize);
    }

    method EnforceSize(order: seq<Summary>, ghost d: nat)
      requires DistinctIds(order) && d <= |order| && store == Keep(order, d)
      modifies this
      ensures store == Keep(order, Later(d, SizePhase(order, d, maxTotalSize)))
    {
      if maxTotalSize > 0 {
        KeepLists(order, d);
        hide Keep; hide SizeCut; hide Lists; hide TotalSize; hide DistinctIds;
        var totalSize := GetSize();
        ShrinkTo(order, totalSize, d);
      }
    }

    /** `order` is the oldest-first listing the call worked from. */
    method EnforceLimits() returns (ghost order: seq<Summary>)
      requires Filed(store)
      modifies this
      ensures Lists(order, old(store)) && OldestFirst(order) && DistinctIds(order)
      ensures store == Keep(order, Cut(order, maxCheckpoints, maxTotalSize))
      ensures maxCheckpoints > 0 ==> |store| <= maxCheckpoints
      ensures forall a, b | a in old(store) && a !in store && b in store :: old(store)[a].createdAt <= store[b].createdAt
    {
      var listed := List();
      var summaries := SortByCreation(listed);
      order := summaries;
      assert Lists(order, store);
      ListsDistinct(order, store);
      ListsKeep(order, store);
      hide Lists; hide OldestFirst; hide DistinctIds; hide Keep; hide TotalSize; hide Filed; hide SizeCut;
      EnforceCount(summaries);
      EnforceSize(summaries, CountCut(|summaries|, maxCheckpoints));
      KeepsNewest(order, maxCheckpoints, maxTotalSize);
      SurvivorsNewer(order, old(store), Cut(order, maxCheckpoints, maxTotalSize));
    }
  }

  /** Deleting entry `k` matters only once the size loop has passed the entries already gone. */
  lemma DropSuffix(order: seq<Summary>, d: nat, k: nat)
    requires DistinctIds(order) && d <= |order| && k < |order|
    ensures Keep(order, Later(d, k)) - {order[k].id} == Keep(order, Later(d, k + 1))
  {
    if d <= k {
      KeepDrop(order, k);
    } else {
      KeepMember(order, d, k);
    }
  }
}
