/** Deleting cached music, oldest first, until the cache is small enough. */
module CacheEviction {

  /** `gat_t`, as far as eviction goes. */
  datatype CachedFile = CachedFile(path: string, size: nat, lastAccess: int)

  function TotalSize(files: seq<CachedFile>): nat {
    if files == [] then 0 else TotalSize(files[..|files| - 1]) + files[|files| - 1].size
  }

  /** The files left once the first `k` have been tried; `deleted[j]` tells whether
      unlinking file `j` succeeds. */
  function LeftAfter(order: seq<CachedFile>, deleted: seq<bool>, k: nat): seq<CachedFile>
    requires k <= |order| == |deleted|
  {
    Spared(order, deleted, k) + order[k..]
  }

  /** The files that could not be unlinked among the first `k`. */
  function Spared(order: seq<CachedFile>, deleted: seq<bool>, k: nat): seq<CachedFile>
    requires k <= |order| == |deleted|
  {
    if k == 0 then [] else Spared(order, deleted, k - 1) + if deleted[k - 1] then [] else [order[k - 1]]
  }

  /** Their size. */
  function LeftSize(order: seq<CachedFile>, deleted: seq<bool>, k: nat): nat
    requires k <= |order| == |deleted|
  {
    TotalSize(LeftAfter(order, deleted, k))
  }

  predicate OldestFirst(order: seq<CachedFile>) {
    forall i, j | 0 <= i < j < |order| :: order[i].lastAccess <= order[j].lastAccess
  }

  lemma {:induction false} TotalSizeAppend(a: seq<CachedFile>, b: seq<CachedFile>)
    ensures TotalSize(a + b) == TotalSize(a) + TotalSize(b)
    decreases |b|
  {
    if b == [] {
      assert a + b == a;
    } else {
      var n := |b| - 1;
      assert (a + b)[..|a + b| - 1] == a + b[..n];
      TotalSizeAppend(a, b[..n]);
    }
  }

  /** Trying file `k` takes its size off if it is deleted. */
  lemma TryNext(order: seq<CachedFile>, deleted: seq<bool>, k: nat)
    requires k < |order| == |deleted|
    ensures LeftSize(order, deleted, k + 1) == LeftSize(order, deleted, k) - if deleted[k] then order[k].size else 0
  {
    var spared := Spared(order, deleted, k);
    TotalSizeAppend(spared, order[k..]);
    TotalSizeAppend(spared + [order[k]], order[k + 1..]);
    TotalSizeAppend(spared, order[k + 1..]);
    TotalSizeAppend(spared, [order[k]]);
    assert order[k..] == [order[k]] + order[k + 1..];
    TotalSizeAppend([order[k]], order[k + 1..]);
    assert [order[k]][..0] == [];
    assert spared + [] == spared;
  }

  lemma TakeOne(b: seq<CachedFile>, j: nat)
    requires j < |b|
    ensures var rest := b[..j] + b[j + 1..];
            TotalSize(b) == TotalSize(rest) + b[j].size && multiset(rest) == multiset(b) - multiset{b[j]}
  {
    assert b == b[..j] + [b[j]] + b[j + 1..];
    TotalSizeAppend(b[..j], b[j + 1..]);
    TotalSizeAppend(b[..j] + [b[j]], b[j + 1..]);
    TotalSizeAppend(b[..j], [b[j]]);
    assert [b[j]][..0] == [];
  }

  lemma FindLast(a: seq<CachedFile>, b: seq<CachedFile>) returns (j: nat)
    requires multiset(a) == multiset(b) && a != []
    ensures j < |b| && b[j] == a[|a| - 1]
    ensures multiset(a[..|a| - 1]) == multiset(a) - multiset{a[|a| - 1]}
  {
    var n := |a| - 1;
    assert a == a[..n] + [a[n]];
    assert a[n] in multiset(a);
    assert a[n] in b;
    j :| j < |b| && b[j] == a[n];
  }

  lemma {:induction false} SizeOfPermutation(a: seq<CachedFile>, b: seq<CachedFile>)
    requires multiset(a) == multiset(b)
    ensures TotalSize(a) == TotalSize(b)
    decreases |a|
  {
    if a == [] {
      assert |multiset(b)| == 0;
    } else {
      var j := FindLast(a, b);
      TakeOne(b, j);
      SizeOfPermutation(a[..|a| - 1], b[..j] + b[j + 1..]);
    }
  }

  /** The loop that sums the sizes. */
  method SumSizes(files: seq<CachedFile>) returns (size: nat)
    ensures size == TotalSize(files)
  {
    size := 0;
    for i := 0 to |files|
      invariant size == TotalSize(files[..i])
    {
      assert files[..i + 1][..i] == files[..i];
      size := size + files[i].size;
    }
    assert files[..|files|] == files;
  }

  /** `control_music_cache`: `order` is how `std::sort` leaves the files, any order
      by access time.  It tries the first `tried` files; the size it tracks is that
      of the files left. */
  method ControlMusicCache(files: seq<CachedFile>, sizeLimit: nat, order: seq<CachedFile>, deleted: seq<bool>)
    returns (tried: nat, curCacheSize: nat)
    requires multiset(order) == multiset(files) && OldestFirst(order) && |deleted| == |order|
    ensures tried <= |order|
    ensures sizeLimit > 0 ==> curCacheSize == LeftSize(order, deleted, tried)
    ensures sizeLimit == 0 || TotalSize(files) <= sizeLimit ==> tried == 0
    ensures sizeLimit > 0 && TotalSize(files) > sizeLimit ==>
              && (curCacheSize < sizeLimit || tried == |order|)
              && (forall j | 0 <= j < tried :: LeftSize(order, deleted, j) >= sizeLimit)
  {
    tried, curCacheSize := 0, 0;
    if sizeLimit == 0 {
      return;
    }
    curCacheSize := SumSizes(files);
    StartsWhole(files, order, deleted);
    if curCacheSize <= sizeLimit {
      return;
    }
    tried, curCacheSize := Evict(order, deleted, sizeLimit, curCacheSize);
  }

  lemma StartsWhole(files: seq<CachedFile>, order: seq<CachedFile>, deleted: seq<bool>)
    requires multiset(order) == multiset(files) && |deleted| == |order|
    ensures LeftSize(order, deleted, 0) == TotalSize(files)
  {
    SizeOfPermutation(files, order);
    assert LeftAfter(order, deleted, 0) == order;
  }

  /** The loop that deletes. */
  method Evict(order: seq<CachedFile>, deleted: seq<bool>, sizeLimit: nat, size: nat)
    returns (tried: nat, curCacheSize: nat)
    requires |deleted| == |order| && size == LeftSize(order, deleted, 0)
    ensures tried <= |order| && curCacheSize == LeftSize(order, deleted, tried)
    ensures curCacheSize < sizeLimit || tried == |order|
    ensures forall j | 0 <= j < tried :: LeftSize(order, deleted, j) >= sizeLimit
  {
    tried, curCacheSize := 0, size;
    while tried < |order|
      invariant tried <= |order| && curCacheSize == LeftSize(order, deleted, tried)
      invariant forall j | 0 <= j < tried :: LeftSize(order, deleted, j) >= sizeLimit
    {
      if curCacheSize < sizeLimit {
        break;
      }
      TryNext(order, deleted, tried);
      if deleted[tried] {
        curCacheSize := curCacheSize - order[tried].size;
      }
      tried := tried + 1;
    }
  }

  /** The files that were unlinked among the first `k`. */
  function Gone(order: seq<CachedFile>, deleted: seq<bool>, k: nat): seq<CachedFile>
    requires k <= |order| == |deleted|
  {
    if k == 0 then [] else Gone(order, deleted, k - 1) + if deleted[k - 1] then [order[k - 1]] else []
  }

  /** How many of the first `k` were unlinked. */
  function Deletions(deleted: seq<bool>, k: nat): (n: nat)
    requires k <= |deleted|
    ensures n <= k
  {
    if k == 0 then 0 else Deletions(deleted, k - 1) + if deleted[k - 1] then 1 else 0
  }

  /** Every file tried is in one of the two, each in order. */
  lemma {:induction false} TriedPlaces(order: seq<CachedFile>, deleted: seq<bool>, k: nat, j: nat)
    requires k <= |order| == |deleted|
    ensures |Gone(order, deleted, k)| == Deletions(deleted, k)
    ensures |Spared(order, deleted, k)| == k - Deletions(deleted, k)
    ensures j < k && deleted[j] ==>
              var p := Deletions(deleted, j);
              p < Deletions(deleted, k) && Gone(order, deleted, k)[p] == order[j]
    ensures j < k && !deleted[j] ==>
              var p := j - Deletions(deleted, j);
              p < k - Deletions(deleted, k) && Spared(order, deleted, k)[p] == order[j]
    decreases k
  {
    if k > 0 {
      TriedPlaces(order, deleted, k - 1, j);
    }
  }

  /** The bytes that unlinking the first `k` has freed. */
  function Freed(order: seq<CachedFile>, deleted: seq<bool>, k: nat): nat
    requires k <= |order| == |deleted|
  {
    if k == 0 then 0 else Freed(order, deleted, k - 1) + if deleted[k - 1] then order[k - 1].size else 0
  }

  /** What is left and what is freed make up the size of the cache. */
  lemma {:induction false} LeftAndFreed(order: seq<CachedFile>, deleted: seq<bool>, k: nat)
    requires k <= |order| == |deleted|
    ensures LeftSize(order, deleted, k) + Freed(order, deleted, k) == TotalSize(order)
    decreases k
  {
    if k == 0 {
      StartsWhole(order, order, deleted);
    } else {
      LeftAndFreed(order, deleted, k - 1);
      TryNext(order, deleted, k - 1);
    }
  }

  /** A file is gone exactly when it was tried and unlinking it succeeded. */
  lemma {:induction false} GoneExactly(order: seq<CachedFile>, deleted: seq<bool>, k: nat, f: CachedFile)
    requires k <= |order| == |deleted|
    ensures f in Gone(order, deleted, k) <==> exists j :: 0 <= j < k && deleted[j] && order[j] == f
    decreases k
  {
    if k > 0 {
      GoneExactly(order, deleted, k - 1, f);
    }
  }

  /** Every file that is deleted was accessed no later than every file never
      tried. */
  lemma {:induction false} OldestGoFirst(order: seq<CachedFile>, deleted: seq<bool>, tried: nat, i: nat, j: nat)
    requires OldestFirst(order) && i < tried <= j < |order| == |deleted|
    ensures order[i].lastAccess <= order[j].lastAccess
    ensures order[j] in LeftAfter(order, deleted, tried)
  {
    assert LeftAfter(order, deleted, tried)[|Spared(order, deleted, tried)| + j - tried] == order[j];
  }
}
