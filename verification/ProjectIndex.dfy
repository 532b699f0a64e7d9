/**
 The project ID index: buckets of at most 100 IDs, and beside them the flat
 list that older deployments wrote. The reference view of the index is one
 sequence: the bucketed IDs in order, then the flat ones not seen yet. Every ID
 created from then on joins it at the end.
 */
module ProjectIndex {
  import opened Arithmetic
  import opened Options
  import opened SplitTypes

  datatype Index = Index(buckets: map<nat, seq<Symbol>>, bucketCount: nat, flat: Option<seq<Symbol>>)

  function Bucket(ix: Index, i: nat): seq<Symbol> {
    if i in ix.buckets then ix.buckets[i] else []
  }

  function FlattenTo(ix: Index, n: nat): seq<Symbol> {
    if n == 0 then [] else FlattenTo(ix, n - 1) + Bucket(ix, n - 1)
  }

  /** `get_bucketed_project_ids`. */
  function BucketedIds(ix: Index): seq<Symbol> {
    FlattenTo(ix, ix.bucketCount)
  }

  function Merge(ids: seq<Symbol>, flat: seq<Symbol>): seq<Symbol>
    decreases |flat|
  {
    if flat == [] then ids
    else Merge(if flat[0] in ids then ids else ids + [flat[0]], flat[1..])
  }

  function FlatIds(ix: Index): seq<Symbol> {
    if ix.flat.Some? then ix.flat.value else []
  }

  /** `get_all_project_ids`: bucketed IDs, then the flat ones not seen yet. */
  function AllIds(ix: Index): seq<Symbol> {
    Merge(BucketedIds(ix), FlatIds(ix))
  }

  ghost predicate Distinct<T>(s: seq<T>) {
    forall i, j :: 0 <= i < j < |s| ==> s[i] != s[j]
  }

  /** Every bucket but the last is full, and the last is not empty. */
  ghost predicate Dense(ix: Index) {
    forall i: nat :: i < ix.bucketCount ==>
      0 < |Bucket(ix, i)| <= BUCKET_SIZE
      && (i < ix.bucketCount - 1 ==> |Bucket(ix, i)| == BUCKET_SIZE)
  }

  /** `append_project_id_to_buckets`. */
  function Append(ix: Index, id: Symbol): Index {
    var n := ix.bucketCount;
    if n > 0 && |Bucket(ix, n - 1)| < BUCKET_SIZE then
      ix.(buckets := ix.buckets[n - 1 := Bucket(ix, n - 1) + [id]])
    else
      ix.(buckets := ix.buckets[n := [id]], bucketCount := n + 1)
  }

  /** The append that `create_project` writes out, placed by the new project count. */
  function AppendByCount(ix: Index, newCount: int, id: Symbol): Index
    requires newCount > 0
  {
    var target := (newCount - 1) / BUCKET_SIZE;
    if target >= ix.bucketCount then
      ix.(buckets := ix.buckets[target := [id]], bucketCount := ix.bucketCount + 1)
    else
      ix.(buckets := ix.buckets[target := Bucket(ix, target) + [id]])
  }

  /** The loop of `migrate_flat_project_index`. */
  function Fold(ix: Index, seen: seq<Symbol>, flat: seq<Symbol>): Index
    decreases |flat|
  {
    if flat == [] then ix
    else if flat[0] in seen then Fold(ix, seen, flat[1..])
    else Fold(Append(ix, flat[0]), seen + [flat[0]], flat[1..])
  }

  /** `migrate_flat_project_index`. */
  function Migrate(ix: Index): Index {
    if ix.flat.None? then ix
    else Fold(ix, BucketedIds(ix), ix.flat.value).(flat := None)
  }

  // ---------- merging ----------

  lemma {:induction false} MergeFacts(ids: seq<Symbol>, flat: seq<Symbol>)
    ensures ids <= Merge(ids, flat)
    ensures forall x :: x in Merge(ids, flat) <==> x in ids || x in flat
    ensures Distinct(ids) ==> Distinct(Merge(ids, flat))
    decreases |flat|
  {
    if flat != [] {
      var next := if flat[0] in ids then ids else ids + [flat[0]];
      MergeFacts(next, flat[1..]);
      assert forall x :: x in flat <==> x == flat[0] || x in flat[1..];
    }
  }

  /** The entries of `flat` that are new when they come up: neither in `ids` nor earlier in `flat`. */
  function NewOnes(ids: seq<Symbol>, flat: seq<Symbol>): seq<Symbol> {
    if flat == [] then []
    else
      var init, last := flat[..|flat| - 1], flat[|flat| - 1];
      NewOnes(ids, init) + if last in ids || last in init then [] else [last]
  }

  lemma {:induction false} NewOnesAfter(ids: seq<Symbol>, x: Symbol, flat: seq<Symbol>)
    ensures NewOnes(ids, [x] + flat) == if x in ids then NewOnes(ids, flat) else [x] + NewOnes(ids + [x], flat)
    decreases |flat|
  {
    if flat == [] {
      assert ([x] + flat)[..0] == [];
    } else {
      var init := flat[..|flat| - 1];
      NewOnesAfter(ids, x, init);
      assert ([x] + flat)[..|flat|] == [x] + init;
    }
  }

  /** Merging keeps the bucketed IDs in front and adds the new flat ones in their order. */
  lemma {:induction false} MergeKeepsOrder(ids: seq<Symbol>, flat: seq<Symbol>)
    ensures Merge(ids, flat) == ids + NewOnes(ids, flat)
    decreases |flat|
  {
    hide NewOnes;
    if flat == [] {
      NoNewOnes(ids);
    } else {
      assert flat == [flat[0]] + flat[1..];
      NewOnesAfter(ids, flat[0], flat[1..]);
      MergeKeepsOrder(if flat[0] in ids then ids else ids + [flat[0]], flat[1..]);
      assert ids + ([flat[0]] + NewOnes(ids + [flat[0]], flat[1..])) == ids + [flat[0]] + NewOnes(ids + [flat[0]], flat[1..]);
    }
  }

  lemma NoNewOnes(ids: seq<Symbol>)
    ensures NewOnes(ids, []) == [] && ids + [] == ids
  {
  }

  // ---------- flattening ----------

  lemma {:induction false} FlattenFrame(a: Index, b: Index, n: nat)
    requires forall i: nat :: i < n ==> Bucket(a, i) == Bucket(b, i)
    ensures FlattenTo(a, n) == FlattenTo(b, n)
  {
    if n > 0 {
      FlattenFrame(a, b, n - 1);
    }
  }

  /** In a dense index position `k` lives at offset `k % 100` of bucket `k / 100`. */
  lemma {:induction false} FlattenAt(ix: Index, n: nat)
    requires n <= ix.bucketCount && Dense(ix)
    ensures n > 0 ==> |FlattenTo(ix, n)| == (n - 1) * BUCKET_SIZE + |Bucket(ix, n - 1)|
    ensures n == 0 ==> |FlattenTo(ix, n)| == 0
    ensures forall k: nat :: k < |FlattenTo(ix, n)| ==>
      k / BUCKET_SIZE < n && k % BUCKET_SIZE < |Bucket(ix, k / BUCKET_SIZE)|
      && FlattenTo(ix, n)[k] == Bucket(ix, k / BUCKET_SIZE)[k % BUCKET_SIZE]
  {
    if n > 0 {
      FlattenAt(ix, n - 1);
      var base := (n - 1) * BUCKET_SIZE;
      assert |FlattenTo(ix, n - 1)| == base;
      forall k: nat | base <= k < base + |Bucket(ix, n - 1)|
        ensures k / BUCKET_SIZE == n - 1 && k % BUCKET_SIZE == k - base
      {
      }
    }
  }

  /** The bucket count is fixed by the number of IDs. */
  lemma DenseLength(ix: Index)
    requires Dense(ix)
    ensures ix.bucketCount == (|BucketedIds(ix)| + BUCKET_SIZE - 1) / BUCKET_SIZE
  {
    FlattenAt(ix, ix.bucketCount);
  }

  // ---------- appending ----------

  lemma AppendExtends(ix: Index, id: Symbol)
    requires Dense(ix)
    ensures Dense(Append(ix, id))
    ensures BucketedIds(Append(ix, id)) == BucketedIds(ix) + [id]
    ensures Append(ix, id).flat == ix.flat
  {
    var n, after := ix.bucketCount, Append(ix, id);
    if n > 0 && |Bucket(ix, n - 1)| < BUCKET_SIZE {
      assert Bucket(after, n - 1) == Bucket(ix, n - 1) + [id];
      FlattenFrame(ix, after, n - 1);
      assert forall i: nat :: i < n - 1 ==> Bucket(after, i) == Bucket(ix, i);
    } else {
      assert Bucket(after, n) == [id];
      FlattenFrame(ix, after, n);
      assert forall i: nat :: i < n ==> Bucket(after, i) == Bucket(ix, i);
    }
  }

  /** The two append paths choose the same bucket and write the same index. */
  lemma AppendPathsAgree(ix: Index, newCount: int, id: Symbol)
    requires Dense(ix)
    requires newCount == |BucketedIds(ix)| + 1
    ensures AppendByCount(ix, newCount, id) == Append(ix, id)
  {
    FlattenAt(ix, ix.bucketCount);
  }

  // ---------- migration ----------

  lemma {:induction false} FoldMerges(ix: Index, flat: seq<Symbol>)
    requires Dense(ix)
    ensures var after := Fold(ix, BucketedIds(ix), flat);
            Dense(after) && BucketedIds(after) == Merge(BucketedIds(ix), flat) && after.flat == ix.flat
    decreases |flat|
  {
    if flat != [] {
      if flat[0] in BucketedIds(ix) {
        FoldMerges(ix, flat[1..]);
      } else {
        AppendExtends(ix, flat[0]);
        FoldMerges(Append(ix, flat[0]), flat[1..]);
      }
    }
  }

  /** Migration turns the merged sequence into the bucketed one, losing nothing. */
  lemma MigrationPreservesIndex(ix: Index)
    requires Dense(ix)
    ensures Dense(Migrate(ix))
    ensures BucketedIds(Migrate(ix)) == AllIds(ix)
    ensures AllIds(Migrate(ix)) == AllIds(ix)
    ensures Migrate(ix).flat.None?
    ensures Migrate(Migrate(ix)) == Migrate(ix)
  {
    if ix.flat.Some? {
      FoldMerges(ix, ix.flat.value);
      var folded := Fold(ix, BucketedIds(ix), ix.flat.value);
      FlattenFrame(folded, Migrate(ix), folded.bucketCount);
      assert forall i: nat :: Bucket(folded, i) == Bucket(Migrate(ix), i);
    }
  }

  /** What `create_project` leaves behind is the old sequence with one ID added at the end. */
  lemma CreateGrowsAtEnd(ix: Index, newCount: int, id: Symbol)
    requires Dense(ix)
    requires newCount == |AllIds(ix)| + 1
    ensures var after := AppendByCount(Migrate(ix), newCount, id);
            Dense(after) && after.flat.None? && BucketedIds(after) == AllIds(after) == AllIds(ix) + [id]
  {
    MigrationPreservesIndex(ix);
    AppendPathsAgree(Migrate(ix), newCount, id);
    AppendExtends(Migrate(ix), id);
  }

  // ---------- pagination ----------

  /** Saturating `start + limit`. */
  function PageEnd(start: int, limit: int): int {
    Min(start + limit, U32_MAX)
  }

  /** Two answers read one after the other. */
  function Joined(a: Option<seq<Symbol>>, b: Option<seq<Symbol>>): Option<seq<Symbol>> {
    if a.Some? && b.Some? then Some(a.value + b.value) else None
  }

  /** The bucket walk of a page from position `idx` on; `None` is a host trap. */
  function PageFrom(ix: Index, idx: nat, end: nat): Option<seq<Symbol>>
    decreases end - idx
  {
    var bucket, offset := idx / BUCKET_SIZE, idx % BUCKET_SIZE;
    if idx >= end || bucket >= ix.bucketCount then Some([])
    else if |Bucket(ix, bucket)| <= offset then
      var next := (bucket + 1) * BUCKET_SIZE;
      if next > U32_MAX then None else PageFrom(ix, next, end)
    else
      var take := Min(|Bucket(ix, bucket)| - offset, end - idx);
      Joined(Some(Bucket(ix, bucket)[offset..offset + take]), PageFrom(ix, idx + take, end))
  }

  /** `get_project_ids`: without buckets it answers the whole flat list, whatever page is asked for. */
  function PageOf(ix: Index, start: nat, limit: nat): Option<seq<Symbol>> {
    if ix.bucketCount == 0 then Some(FlatIds(ix)) else PageFrom(ix, start, PageEnd(start, limit))
  }

  /** The plain slice that a page stands for. */
  function Window(ids: seq<Symbol>, start: nat, end: nat): seq<Symbol> {
    if start >= |ids| || end <= start then [] else ids[start..Min(end, |ids|)]
  }

  /** From this many IDs on the last bucket ends beyond 2^32 - 1, where the walk cannot step past it. */
  const WALK_LIMIT: int := 4_294_967_200

  /** A page from `start` up to `end` reaches past the end of an index of `n` IDs, and `n` is above the limit. */
  predicate StepsOff(n: nat, start: int, end: int) {
    start < end && WALK_LIMIT < n < end
  }

  /** What a page of a dense index with these IDs comes to. */
  function Answer(ids: seq<Symbol>, start: nat, end: nat): Option<seq<Symbol>> {
    if StepsOff(|ids|, start, end) then None else Some(Window(ids, start, end))
  }

  lemma AnswersJoin(ids: seq<Symbol>, start: nat, middle: nat, end: nat)
    requires start <= middle <= end
    ensures Joined(Answer(ids, start, middle), Answer(ids, middle, end)) == Answer(ids, start, end)
  {
    assert Window(ids, start, middle) + Window(ids, middle, end) == Window(ids, start, end);
  }

  /** Inside the index a page is the slice. */
  lemma AnswerInside(ids: seq<Symbol>, start: nat, end: nat)
    requires start <= end <= |ids|
    ensures Answer(ids, start, end) == Some(ids[start..end])
  {
    assert Window(ids, start, end) == ids[start..end];
  }

  lemma {:induction false} FullBuckets(ix: Index, n: nat)
    requires Dense(ix) && n < ix.bucketCount
    ensures |FlattenTo(ix, n)| == n * BUCKET_SIZE
  {
    if n > 0 {
      FullBuckets(ix, n - 1);
    }
  }

  lemma {:induction false} BucketAt(ix: Index, n: nat, b: nat)
    requires Dense(ix) && b < n <= ix.bucketCount
    ensures var at := b * BUCKET_SIZE;
            at + |Bucket(ix, b)| <= |FlattenTo(ix, n)| && FlattenTo(ix, n)[at..at + |Bucket(ix, b)|] == Bucket(ix, b)
  {
    if b == n - 1 {
      FullBuckets(ix, b);
    } else {
      BucketAt(ix, n - 1, b);
    }
  }

  /** Positions `offset` onward of bucket `b` are positions `b * 100 + offset` onward of the whole sequence. */
  lemma BucketSlice(ix: Index, b: nat, offset: nat, take: nat)
    requires Dense(ix) && b < ix.bucketCount && offset + take <= |Bucket(ix, b)|
    ensures b * BUCKET_SIZE + |Bucket(ix, b)| <= |BucketedIds(ix)|
    ensures var at := b * BUCKET_SIZE + offset;
            BucketedIds(ix)[at..at + take] == Bucket(ix, b)[offset..offset + take]
  {
    hide Dense, FlattenTo;
    BucketAt(ix, ix.bucketCount, b);
    var ids, at, n := BucketedIds(ix), b * BUCKET_SIZE, |Bucket(ix, b)|;
    assert ids[at + offset..at + offset + take] == ids[at..at + n][offset..offset + take];
  }

  /** Past the end of its bucket a position is past the end of the sequence. */
  lemma PastTheEnd(ix: Index, idx: nat)
    requires Dense(ix)
    requires idx / BUCKET_SIZE >= ix.bucketCount || idx % BUCKET_SIZE >= |Bucket(ix, idx / BUCKET_SIZE)|
    ensures |BucketedIds(ix)| <= idx
    ensures idx / BUCKET_SIZE < ix.bucketCount ==> idx / BUCKET_SIZE == ix.bucketCount - 1
  {
    FlattenAt(ix, ix.bucketCount);
  }

  /** On a dense index the bucket walk is the plain window, or steps off. */
  lemma {:induction false} WalkIsWindow(ix: Index, idx: nat, end: nat)
    requires Dense(ix) && end <= U32_MAX
    ensures PageFrom(ix, idx, end) == Answer(BucketedIds(ix), idx, end)
    decreases end - idx
  {
    hide Dense, BucketedIds;
    var ids := BucketedIds(ix);
    var bucket, offset := idx / BUCKET_SIZE, idx % BUCKET_SIZE;
    DenseLength(ix);
    if idx < end {
      if bucket >= ix.bucketCount || |Bucket(ix, bucket)| <= offset {
        PastTheEnd(ix, idx);
        if bucket < ix.bucketCount && (bucket + 1) * BUCKET_SIZE <= U32_MAX {
          WalkIsWindow(ix, (bucket + 1) * BUCKET_SIZE, end);
        }
      } else {
        var take := Min(|Bucket(ix, bucket)| - offset, end - idx);
        BucketSlice(ix, bucket, offset, take);
        AnswerInside(ids, idx, idx + take);
        AnswersJoin(ids, idx, idx + take, end);
        WalkIsWindow(ix, idx + take, end);
      }
    }
  }

  /**
   A page read traps exactly on a page that reaches past the end of an index of
   more than 4,294,967,200 projects; every other page is the plain window.
   */
  lemma PageTrapsIff(ix: Index, start: nat, limit: nat)
    requires Dense(ix) && ix.bucketCount > 0
    ensures var ids, end := BucketedIds(ix), PageEnd(start, limit);
            PageOf(ix, start, limit) == if start < end && WALK_LIMIT < |ids| < end then None else Some(Window(ids, start, end))
    ensures PageOf(ix, start, limit) == Answer(BucketedIds(ix), start, PageEnd(start, limit))
  {
    WalkIsWindow(ix, start, PageEnd(start, limit));
  }

  // ---------- what a mixed index hides from pages ----------

  /** Every page that does not trap is the window of the merged sequence. */
  ghost predicate PagesShowAll(ix: Index) {
    forall start: nat, limit: nat :: start <= U32_MAX && limit <= U32_MAX && PageOf(ix, start, limit).Some? ==>
      PageOf(ix, start, limit).value == Window(AllIds(ix), start, PageEnd(start, limit))
  }

  /** Nothing in the flat list is missing from the buckets. */
  ghost predicate FlatListed(ix: Index) {
    forall id :: id in FlatIds(ix) ==> id in BucketedIds(ix)
  }

  lemma {:induction false} MergeListed(ids: seq<Symbol>, flat: seq<Symbol>)
    ensures Merge(ids, flat) == ids <==> forall x :: x in flat ==> x in ids
    decreases |flat|
  {
    MergeFacts(ids, flat);
    if flat != [] && flat[0] in ids {
      MergeListed(ids, flat[1..]);
      assert forall x :: x in flat <==> x == flat[0] || x in flat[1..];
    }
  }

  /**
   Pages are windows of the merged sequence exactly when each flat ID is
   already bucketed (or when every page past the buckets traps anyway); with
   no buckets at all, exactly when there is no flat ID either.
   */
  lemma PagesShowAllIff(ix: Index)
    requires Dense(ix)
    ensures PagesShowAll(ix) <==>
            if ix.bucketCount == 0 then FlatIds(ix) == [] else FlatListed(ix) || |BucketedIds(ix)| > WALK_LIMIT
  {
    hide Dense, BucketedIds, PageOf, Merge;
    var ids, all := BucketedIds(ix), AllIds(ix);
    MergeListed(ids, FlatIds(ix));
    MergeFacts(ids, FlatIds(ix));
    if ix.bucketCount == 0 {
      FlatPages(ix);
    } else {
      forall start: nat, limit: nat ensures PageOf(ix, start, limit) == Answer(ids, start, PageEnd(start, limit)) {
        PageTrapsIff(ix, start, limit);
      }
      if |ids| <= WALK_LIMIT && !FlatListed(ix) {
        assert PageOf(ix, 0, |ids| + 1).value == ids;
        assert Window(all, 0, |ids| + 1) == all[..|ids| + 1];
      }
    }
  }

  /** Without buckets a page of no entries answers the flat list too. */
  lemma FlatPages(ix: Index)
    requires ix.bucketCount == 0
    ensures PagesShowAll(ix) <==> FlatIds(ix) == []
  {
    assert PageOf(ix, 0, 0) == Some(FlatIds(ix));
    assert Window(AllIds(ix), 0, 0) == [];
    assert BucketedIds(ix) == [];
  }

  // ---------- walking the index page by page ----------

  /** Consecutive pages of the given sizes, joined. */
  function Pages(ix: Index, start: nat, limits: seq<nat>): Option<seq<Symbol>> {
    if limits == [] then Some([])
    else
      var init, last := limits[..|limits| - 1], limits[|limits| - 1];
      Joined(Pages(ix, start, init), PageOf(ix, start + SumOf(init), last))
  }

  function SumOf(limits: seq<nat>): nat {
    if limits == [] then 0 else SumOf(limits[..|limits| - 1]) + limits[|limits| - 1]
  }

  lemma AnswerEmpty(ids: seq<Symbol>, start: nat)
    ensures Answer(ids, start, start) == Some([])
  {
  }

  /** However a stretch of the index is cut into pages, they join into the one page of that stretch, trap or no trap. */
  lemma {:induction false} PagesConcatenate(ix: Index, start: nat, limits: seq<nat>)
    requires Dense(ix) && ix.bucketCount > 0 && start + SumOf(limits) <= U32_MAX
    ensures Pages(ix, start, limits) == PageOf(ix, start, SumOf(limits))
  {
    hide Dense, BucketedIds, PageOf, Answer, Joined, Window;
    PageTrapsIff(ix, start, SumOf(limits));
    if limits == [] {
      AnswerEmpty(BucketedIds(ix), start);
    } else {
      var init, last := limits[..|limits| - 1], limits[|limits| - 1];
      PagesConcatenate(ix, start, init);
      PageTrapsIff(ix, start, SumOf(init));
      PageTrapsIff(ix, start + SumOf(init), last);
      AnswersJoin(BucketedIds(ix), start, start + SumOf(init), start + SumOf(limits));
    }
  }

  /** The first `k` pages of `size` entries each, joined. */
  function FirstPages(ix: Index, size: nat, k: nat): Option<seq<Symbol>> {
    if k == 0 then Some([]) else Joined(FirstPages(ix, size, k - 1), PageOf(ix, (k - 1) * size, size))
  }

  lemma {:induction false} FullPages(ix: Index, size: nat, k: nat)
    requires Dense(ix) && ix.bucketCount > 0 && k * size <= U32_MAX
    ensures FirstPages(ix, size, k) == Answer(BucketedIds(ix), 0, k * size)
  {
    hide Dense, BucketedIds, PageOf, Answer, Joined, Window;
    if k == 0 {
      AnswerEmpty(BucketedIds(ix), 0);
    } else {
      assert k * size == (k - 1) * size + size;
      FullPages(ix, size, k - 1);
      PageTrapsIff(ix, (k - 1) * size, size);
      AnswersJoin(BucketedIds(ix), 0, (k - 1) * size, k * size);
    }
  }

  lemma FullRest(n: nat, size: nat)
    requires size > 0
    ensures n / size * size + n % size == n && n / size * size <= n && n % size < size
  {
  }

  lemma WholeAnswer(ids: seq<Symbol>, end: nat)
    requires |ids| <= end
    ensures Answer(ids, 0, end) == if WALK_LIMIT < |ids| < end then None else Some(ids)
  {
    assert Window(ids, 0, end) == ids;
  }

  /** The number of pages of `size` entries that cover `n` entries. */
  function PageCount(n: nat, size: nat): nat
    requires size > 0
  {
    if n % size == 0 then n / size else n / size + 1
  }

  /**
   Reading an index page by page, in pages of any one size, returns the whole
   index. It fails exactly when the last page is short and its end lies between
   the walk limit and 2^32 - 1.
   */
  lemma PageWalkReadsAll(ix: Index, size: nat)
    requires Dense(ix) && ix.bucketCount > 0 && size > 0 && |BucketedIds(ix)| <= U32_MAX
    ensures var n := |BucketedIds(ix)|;
            FirstPages(ix, size, PageCount(n, size)) ==
            if n % size != 0 && WALK_LIMIT < n < U32_MAX then None else Some(BucketedIds(ix))
  {
    hide Dense, BucketedIds, PageOf, Answer, Joined, Window;
    var ids, n := BucketedIds(ix), |BucketedIds(ix)|;
    var full, rest := n / size, n % size;
    FullRest(n, size);
    FullPages(ix, size, full);
    var end := PageEnd(full * size, size);
    PageTrapsIff(ix, full * size, size);
    AnswersJoin(ids, 0, full * size, end);
    WholeAnswer(ids, if rest == 0 then n else end);
  }
}
