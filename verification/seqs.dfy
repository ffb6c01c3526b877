/** Lists of lists: their concatenation, the shape of a list that a loop
    builds block by block. */
module Seqs {

  /** The blocks one after the other. */
  function Flatten<T>(blocks: seq<seq<T>>): seq<T> {
    if |blocks| == 0 then [] else Flatten(blocks[..|blocks| - 1]) + blocks[|blocks| - 1]
  }

  /** Appending a block appends its items. */
  lemma FlattenSnoc<T>(blocks: seq<seq<T>>, b: seq<T>)
    ensures Flatten(blocks + [b]) == Flatten(blocks) + b
  {
    assert (blocks + [b])[..|blocks|] == blocks;
  }

  /** An item is in the concatenation exactly when some block holds it. */
  lemma {:induction false} InFlatten<T>(blocks: seq<seq<T>>, x: T)
    ensures x in Flatten(blocks) <==> exists k :: 0 <= k < |blocks| && x in blocks[k]
    decreases |blocks|
  {
    if |blocks| > 0 {
      var front := blocks[..|blocks| - 1];
      InFlatten(front, x);
      assert forall k :: 0 <= k < |front| ==> front[k] == blocks[k];
    }
  }

  /** `xs` is `n` blocks one after the other, block `j` being one that
      `ok(j, ·)` accepts: what a loop over `n` items writes when item `j`
      appends its own block. */
  ghost predicate Grouped<T(!new)>(n: nat, ok: (nat, seq<T>) -> bool, xs: seq<T>) {
    exists blocks: seq<seq<T>> :: |blocks| == n && Flatten(blocks) == xs && forall j :: 0 <= j < n ==> ok(j, blocks[j])
  }

  /** Nothing is written before the first item. */
  lemma GroupedStart<T(!new)>(ok: (nat, seq<T>) -> bool)
    ensures Grouped(0, ok, [])
  {
    var blocks: seq<seq<T>> := [];
    assert Flatten(blocks) == [];
  }

  /** Item `n` appending a block it accepts extends the grouping. */
  lemma GroupedStep<T(!new)>(n: nat, ok: (nat, seq<T>) -> bool, xs: seq<T>, ys: seq<T>)
    requires Grouped(n, ok, xs) && xs <= ys && ok(n, ys[|xs|..])
    ensures Grouped(n + 1, ok, ys)
  {
    var blocks: seq<seq<T>> :| |blocks| == n && Flatten(blocks) == xs && forall j :: 0 <= j < n ==> ok(j, blocks[j]);
    var b := ys[|xs|..];
    FlattenSnoc(blocks, b);
    assert ys == xs + b;
    var blocks' := blocks + [b];
    assert forall j :: 0 <= j < n ==> blocks'[j] == blocks[j];
    assert Flatten(blocks') == ys && blocks'[n] == b;
  }
}
