/** `process_chunk` and `ParallelProcessor.process_files` of
    fastdeps/parallel.py. The process pool is abstracted: the order in which
    chunks complete and the set of chunks whose future raises (a crash or
    the 30-second timeout) are parameters. Import extraction is a parameter
    too: `None` where `extract_imports` raises. */
module Parallel {
  import opened Wrappers
  import opened Paths
  import opened Dicts
  import opened Imports
  import opened Seqs

  /** What `extract_imports` does on each file. */
  type Extractor = Path -> Option<seq<Import>>

  /** The imports recorded for `f`: none when extraction raises. */
  function Outcome(extract: Extractor, f: Path): seq<Import> {
    extract(f).GetOr([])
  }

  /** `process_chunk(file_paths)`: every file gets an entry, in order. */
  function ProcessChunk(files: seq<Path>, extract: Extractor): (r: Dict<Path, seq<Import>>)
    ensures r.Valid()
    ensures r.entries.Keys == set f | f in files
    ensures forall f :: f in r.entries ==> r.entries[f] == Outcome(extract, f)
    ensures Distinct(files) ==> r.keys == files
  {
    if |files| == 0 then Empty()
    else
      var f := files[|files| - 1];
      var front := ProcessChunk(files[..|files| - 1], extract);
      assert files == files[..|files| - 1] + [f];
      assert Distinct(files) ==> Distinct(files[..|files| - 1]) && f !in files[..|files| - 1];
      front.Put(f, Outcome(extract, f))
  }

  /** Python's `a // b`, which rounds toward negative infinity; Dafny's `/`
      agrees with it only for a positive divisor. */
  function FloorDiv(a: int, b: int): (q: int)
    requires b != 0
    ensures b > 0 ==> b * q <= a < b * q + b
    ensures b < 0 ==> b * q + b < a <= b * q
  {
    if b > 0 then a / b else (-a) / (-b)
  }

  /** `chunk_size = max(1, len(file_paths) // (num_workers * 4))`. A
      negative worker count makes the quotient non-positive, so the chunks
      hold one file each. */
  function ChunkSize(n: nat, workers: int): (size: nat)
    requires workers != 0
    ensures 1 <= size
    ensures n >= 1 ==> size <= n
    ensures workers < 0 ==> size == 1
  {
    var m := workers * 4;
    assert m > 0 <==> workers > 0;
    var q := FloorDiv(n, m);
    FloorDivOfNat(n, m);
    if q < 1 then 1 else q
  }

  /** The floor quotient of a count is at most the count, and not positive
      for a negative divisor. */
  lemma FloorDivOfNat(a: nat, b: int)
    requires b != 0
    ensures b > 0 ==> FloorDiv(a, b) <= a
    ensures b < 0 ==> FloorDiv(a, b) <= 0
  {
    var q := FloorDiv(a, b);
    if b > 0 && q > 0 {
      assert b * q - q == (b - 1) * q;
      assert (b - 1) * q >= 0;
    }
  }

  /** The number of slices `range(0, n, size)` produces: `n / size` rounded
      up. */
  function NumChunks(n: nat, size: nat): nat
    requires size >= 1
    decreases n
  {
    if n == 0 then 0 else if n <= size then 1 else 1 + NumChunks(n - size, size)
  }

  /** `k * size`, the index where slice `k` starts. */
  function Start(k: nat, size: nat): nat {
    if k == 0 then 0 else Start(k - 1, size) + size
  }

  /** `file_paths[i:i + size]` for `i = k * size`. */
  function ChunkAt(files: seq<Path>, size: nat, k: nat): seq<Path>
    requires Start(k, size) <= |files|
  {
    var i := Start(k, size);
    files[i..if i + size <= |files| then i + size else |files|]
  }

  /** The slicing loop: non-empty slices of at most `size` files, every one
      but the last exactly `size` long, that put back together give the
      input. */
  method MakeChunks(files: seq<Path>, size: nat) returns (chunks: seq<seq<Path>>)
    requires size >= 1
    ensures Flatten(chunks) == files
    ensures forall k :: 0 <= k < |chunks| ==> 0 < |chunks[k]| <= size
    ensures forall k :: 0 <= k < |chunks| - 1 ==> |chunks[k]| == size
    ensures |chunks| == NumChunks(|files|, size)
    ensures forall k :: 0 <= k < |chunks| ==> Start(k, size) < |files| && chunks[k] == ChunkAt(files, size, k)
  {
    chunks := [];
    var i := 0;
    while i < |files|
      invariant i <= |files|
      invariant i < |files| ==> i == Start(|chunks|, size)
      invariant |chunks| + NumChunks(|files| - i, size) == NumChunks(|files|, size)
      invariant Flatten(chunks) == files[..i]
      invariant forall k :: 0 <= k < |chunks| ==> Start(k, size) < |files| && chunks[k] == ChunkAt(files, size, k)
      decreases |files| - i
    {
      var end := if i + size <= |files| then i + size else |files|;
      SliceStep(files, size, chunks, i);
      CountStep(|files|, i, size);
      chunks := chunks + [files[i..end]];
      i := end;
    }
    assert files[..|files|] == files;
    ChunkLengths(files, size, chunks);
  }

  /** One pass of the slicing loop keeps its invariant. */
  lemma SliceStep(files: seq<Path>, size: nat, chunks: seq<seq<Path>>, i: nat)
    requires size >= 1 && i < |files| && i == Start(|chunks|, size)
    requires Flatten(chunks) == files[..i]
    requires forall k :: 0 <= k < |chunks| ==> Start(k, size) < |files| && chunks[k] == ChunkAt(files, size, k)
    ensures var end := if i + size <= |files| then i + size else |files|;
      var chunks' := chunks + [files[i..end]];
      && (end < |files| ==> end == Start(|chunks'|, size))
      && Flatten(chunks') == files[..end]
      && (forall k :: 0 <= k < |chunks'| ==> Start(k, size) < |files| && chunks'[k] == ChunkAt(files, size, k))
  {
    var end := if i + size <= |files| then i + size else |files|;
    var chunks' := chunks + [files[i..end]];
    assert chunks'[..|chunks|] == chunks;
    assert files[..end] == files[..i] + files[i..end];
    assert forall k :: 0 <= k < |chunks| ==> chunks'[k] == chunks[k];
  }

  /** Each slice takes one off the count still to come. */
  lemma CountStep(n: nat, i: nat, size: nat)
    requires size >= 1 && i < n
    ensures NumChunks(n - i, size) == 1 + NumChunks(n - (if i + size <= n then i + size else n), size)
  {
  }

  /** The slices of the loop are non-empty, at most `size` long, and all
      but the last exactly `size` long. */
  lemma ChunkLengths(files: seq<Path>, size: nat, chunks: seq<seq<Path>>)
    requires size >= 1
    requires forall k :: 0 <= k < |chunks| ==> Start(k, size) < |files| && chunks[k] == ChunkAt(files, size, k)
    ensures forall k :: 0 <= k < |chunks| ==> 0 < |chunks[k]| <= size
    ensures forall k :: 0 <= k < |chunks| - 1 ==> |chunks[k]| == size
  {
    forall k | 0 <= k < |chunks| - 1 ensures |chunks[k]| == size {
      assert Start(k + 1, size) < |files|;
    }
  }

  /** The chunk indices in completion order: `as_completed` yields every
      future exactly once. */
  ghost predicate CompletionOrder(order: seq<nat>, count: nat) {
    && |order| == count
    && (forall m :: 0 <= m < |order| ==> order[m] < count)
    && (forall k :: 0 <= k < count ==> k in order)
  }

  /** The entry a chunk gives a file: none when the chunk's future raised. */
  function ChunkValue(failed: set<nat>, extract: Extractor, k: nat, f: Path): seq<Import> {
    if k in failed then [] else Outcome(extract, f)
  }

  /** `for file_path in chunk: all_results[file_path] = []`. */
  function MarkFailed(all: Dict<Path, seq<Import>>, chunk: seq<Path>): (r: Dict<Path, seq<Import>>)
    requires all.Valid()
    ensures r.Valid()
    ensures r.entries.Keys == all.entries.Keys + set f | f in chunk
    ensures forall f :: f in chunk ==> r.entries[f] == []
    ensures forall f :: f in all.entries && f !in chunk ==> r.entries[f] == all.entries[f]
  {
    if |chunk| == 0 then all
    else
      var front := MarkFailed(all, chunk[..|chunk| - 1]);
      assert forall x :: x in chunk <==> x in chunk[..|chunk| - 1] || x == chunk[|chunk| - 1];
      front.Put(chunk[|chunk| - 1], [])
  }

  /** The results merged after the first `j` completed chunks: a file has an
      entry exactly when one of those chunks holds it, and its entry is what
      one of them gives it. */
  ghost predicate MergedUpTo(chunks: seq<seq<Path>>, order: seq<nat>, failed: set<nat>, extract: Extractor,
                             j: nat, all: Dict<Path, seq<Import>>)
    requires j <= |order| && forall m :: 0 <= m < |order| ==> order[m] < |chunks|
  {
    && all.Valid()
    && (forall f :: f in all.entries <==> exists m :: 0 <= m < j && f in chunks[order[m]])
    && (forall f :: f in all.entries ==>
          exists m :: 0 <= m < j && f in chunks[order[m]] && all.entries[f] == ChunkValue(failed, extract, order[m], f))
  }

  /** One pass of `for future in as_completed(futures)`. */
  function MergeChunk(all: Dict<Path, seq<Import>>, chunk: seq<Path>, k: nat, failed: set<nat>, extract: Extractor)
    : (r: Dict<Path, seq<Import>>)
    requires all.Valid()
    ensures r.Valid()
    ensures r.entries.Keys == all.entries.Keys + set f | f in chunk
    ensures forall f :: f in chunk ==> r.entries[f] == ChunkValue(failed, extract, k, f)
    ensures forall f :: f in all.entries && f !in chunk ==> r.entries[f] == all.entries[f]
  {
    if k in failed then MarkFailed(all, chunk)
    else all.Update(ProcessChunk(chunk, extract))
  }

  lemma MergeStep(chunks: seq<seq<Path>>, order: seq<nat>, failed: set<nat>, extract: Extractor,
                  j: nat, all: Dict<Path, seq<Import>>)
    requires j < |order| && forall m :: 0 <= m < |order| ==> order[m] < |chunks|
    requires MergedUpTo(chunks, order, failed, extract, j, all)
    ensures MergedUpTo(chunks, order, failed, extract, j + 1,
                       MergeChunk(all, chunks[order[j]], order[j], failed, extract))
  {
    var r := MergeChunk(all, chunks[order[j]], order[j], failed, extract);
    forall f | f in r.entries
      ensures exists m :: 0 <= m < j + 1 && f in chunks[order[m]] && r.entries[f] == ChunkValue(failed, extract, order[m], f)
    {
      if f !in chunks[order[j]] {
        var m :| 0 <= m < j && f in chunks[order[m]] && all.entries[f] == ChunkValue(failed, extract, order[m], f);
      }
    }
  }

  /** `process_files`. `None` where `ProcessPoolExecutor(max_workers=...)`
      raises `ValueError` (fastdeps/parallel.py:63): more than three files
      and a worker count below 1. */
  method ProcessFiles(files: seq<Path>, workers: int, extract: Extractor, failed: set<nat>, order: seq<nat>)
    returns (r: Option<Dict<Path, seq<Import>>>)
    requires workers != 0
    requires |files| > 3 ==> CompletionOrder(order, NumChunks(|files|, ChunkSize(|files|, workers)))
    ensures r.None? <==> |files| > 3 && workers < 1
    ensures files == [] ==> r == Some(Empty())
    ensures 0 < |files| <= 3 ==> r == Some(ProcessChunk(files, extract))
    ensures r.Some? ==> r.value.Valid() && r.value.entries.Keys == set f | f in files
    ensures r.Some? ==> forall f :: f in r.value.entries ==> r.value.entries[f] == Outcome(extract, f) || r.value.entries[f] == []
    ensures r.Some? && failed == {} ==> r.value.entries == ProcessChunk(files, extract).entries
    ensures r.Some? && |files| > 3 && Distinct(files) ==>
      var size := ChunkSize(|files|, workers);
      forall k, f :: 0 <= k < NumChunks(|files|, size) && Start(k, size) <= |files| && f in ChunkAt(files, size, k) ==>
        f in r.value.entries && r.value.entries[f] == ChunkValue(failed, extract, k, f)
  {
    if files == [] {
      return Some(Empty());
    }
    if |files| <= 3 {
      return Some(ProcessChunk(files, extract));
    }
    if workers < 1 {
      return None;
    }
    var merged := ProcessInChunks(files, ChunkSize(|files|, workers), extract, failed, order);
    r := Some(merged);
  }

  /** More than three files: slice them, run the chunks, merge what they
      give in completion order. */
  method ProcessInChunks(files: seq<Path>, size: nat, extract: Extractor, failed: set<nat>, order: seq<nat>)
    returns (r: Dict<Path, seq<Import>>)
    requires size >= 1 && CompletionOrder(order, NumChunks(|files|, size))
    ensures r.Valid()
    ensures r.entries.Keys == set f | f in files
    ensures forall f :: f in r.entries ==> r.entries[f] == Outcome(extract, f) || r.entries[f] == []
    ensures failed == {} ==> r.entries == ProcessChunk(files, extract).entries
    ensures Distinct(files) ==>
      forall k, f :: 0 <= k < NumChunks(|files|, size) && Start(k, size) <= |files| && f in ChunkAt(files, size, k) ==>
        f in r.entries && r.entries[f] == ChunkValue(failed, extract, k, f)
  {
    var chunks := MakeChunks(files, size);
    r := MergeAll(chunks, order, failed, extract);
    MergedKeys(files, chunks, order, failed, extract, r);
    ValuesEither(chunks, order, failed, extract, r);
    if failed == {} {
      NoFailureSequential(files, chunks, order, failed, extract, r);
    }
    if Distinct(files) {
      ValuesByChunk(files, size, chunks, order, failed, extract, r);
    }
  }

  /** The `as_completed` loop: each completed chunk's entries, or empty
      entries for a chunk whose future raised, go into the result. */
  method MergeAll(chunks: seq<seq<Path>>, order: seq<nat>, failed: set<nat>, extract: Extractor)
    returns (r: Dict<Path, seq<Import>>)
    requires forall m :: 0 <= m < |order| ==> order[m] < |chunks|
    ensures MergedUpTo(chunks, order, failed, extract, |order|, r)
  {
    r := Empty();
    for j := 0 to |order|
      invariant MergedUpTo(chunks, order, failed, extract, j, r)
    {
      MergeStep(chunks, order, failed, extract, j, r);
      r := MergeChunk(r, chunks[order[j]], order[j], failed, extract);
    }
  }

  lemma MergedKeys(files: seq<Path>, chunks: seq<seq<Path>>, order: seq<nat>, failed: set<nat>, extract: Extractor,
                   r: Dict<Path, seq<Import>>)
    requires Flatten(chunks) == files && CompletionOrder(order, |chunks|)
    requires MergedUpTo(chunks, order, failed, extract, |order|, r)
    ensures r.entries.Keys == set f | f in files
  {
    forall f ensures f in r.entries <==> f in files {
      InFlatten(chunks, f);
      if f in files {
        var k :| 0 <= k < |chunks| && f in chunks[k];
        CompletedOnce(chunks, order, k, f);
      }
    }
  }

  /** Every chunk is among the completed ones. */
  lemma CompletedOnce(chunks: seq<seq<Path>>, order: seq<nat>, k: nat, f: Path)
    requires CompletionOrder(order, |chunks|) && k < |chunks| && f in chunks[k]
    ensures exists m :: 0 <= m < |order| && f in chunks[order[m]]
  {
    assert k in order;
    var m :| 0 <= m < |order| && order[m] == k;
  }

  /** Without failures the merged result has the entries of one sequential
      `process_chunk` over all the files. */
  lemma NoFailureSequential(files: seq<Path>, chunks: seq<seq<Path>>, order: seq<nat>, failed: set<nat>,
                            extract: Extractor, r: Dict<Path, seq<Import>>)
    requires Flatten(chunks) == files && CompletionOrder(order, |chunks|) && failed == {}
    requires MergedUpTo(chunks, order, failed, extract, |order|, r)
    ensures r.entries == ProcessChunk(files, extract).entries
  {
    MergedKeys(files, chunks, order, failed, extract, r);
    ValuesEither(chunks, order, failed, extract, r);
  }

  lemma ValuesEither(chunks: seq<seq<Path>>, order: seq<nat>, failed: set<nat>, extract: Extractor,
                     r: Dict<Path, seq<Import>>)
    requires forall m :: 0 <= m < |order| ==> order[m] < |chunks|
    requires MergedUpTo(chunks, order, failed, extract, |order|, r)
    ensures forall f :: f in r.entries ==> r.entries[f] == Outcome(extract, f) || r.entries[f] == []
    ensures failed == {} ==> forall f :: f in r.entries ==> r.entries[f] == Outcome(extract, f)
  {
  }

  lemma ValuesByChunk(files: seq<Path>, size: nat, chunks: seq<seq<Path>>, order: seq<nat>, failed: set<nat>,
                      extract: Extractor, r: Dict<Path, seq<Import>>)
    requires size >= 1 && Flatten(chunks) == files && CompletionOrder(order, |chunks|) && Distinct(files)
    requires forall k :: 0 <= k < |chunks| ==> Start(k, size) < |files| && chunks[k] == ChunkAt(files, size, k)
    requires MergedUpTo(chunks, order, failed, extract, |order|, r)
    ensures forall k, f :: 0 <= k < |chunks| && Start(k, size) <= |files| && f in ChunkAt(files, size, k) ==>
        f in r.entries && r.entries[f] == ChunkValue(failed, extract, k, f)
  {
    forall k, f | 0 <= k < |chunks| && Start(k, size) <= |files| && f in ChunkAt(files, size, k)
      ensures f in r.entries && r.entries[f] == ChunkValue(failed, extract, k, f)
    {
      assert f in chunks[k];
      CompletedOnce(chunks, order, k, f);
      var m :| 0 <= m < |order| && f in chunks[order[m]] && r.entries[f] == ChunkValue(failed, extract, order[m], f);
      OneChunk(files, size, order[m], k, f);
    }
  }

  /** In a list without repeats, a file lies in one chunk only. */
  lemma OneChunk(files: seq<Path>, size: nat, k1: nat, k2: nat, f: Path)
    requires size >= 1 && Distinct(files)
    requires Start(k1, size) <= |files| && f in ChunkAt(files, size, k1)
    requires Start(k2, size) <= |files| && f in ChunkAt(files, size, k2)
    ensures k1 == k2
  {
    var p1 := SliceIndex(files, size, k1, f);
    var p2 := SliceIndex(files, size, k2, f);
    assert p1 == p2;
    StartGrows(k1, k2, size);
    StartGrows(k2, k1, size);
  }

  /** Slice `k1` ends where a later slice `k2` can start at the earliest. */
  lemma {:induction false} StartGrows(k1: nat, k2: nat, size: nat)
    ensures k1 < k2 ==> Start(k1 + 1, size) <= Start(k2, size)
    decreases k2
  {
    if k1 + 1 < k2 {
      StartGrows(k1, k2 - 1, size);
    }
  }

  lemma SliceIndex(files: seq<Path>, size: nat, k: nat, f: Path) returns (p: nat)
    requires Start(k, size) <= |files| && f in ChunkAt(files, size, k)
    ensures Start(k, size) <= p < Start(k + 1, size) && p < |files| && files[p] == f
  {
    var c := ChunkAt(files, size, k);
    var i :| 0 <= i < |c| && c[i] == f;
    p := Start(k, size) + i;
  }
}
