/** Merging before a commit, whichever loaded nodes are picked in whatever order: the tree stays
    fit for writing and the pages held stay the blocks of its nodes. */
module Merging {
  import opened BTree
  import opened Overlay
  import opened Traversal
  import opened Rebalance
  import opened Committed
  import opened Spill
  import opened Handover
  import F = Freelist
  import L = Lifecycle
  import LP = LedgerProof

  /** A bucket's tree between merges: ordered, balanced, every loaded node under the separator
      it was loaded with.  The pages held are the blocks of its nodes and `others`. */
  ghost predicate Standing(b: Base, sizes: map<PageId, nat>, ps: set<PageId>, t: Tree, h: nat, others: set<PageId>,
                           held: set<PageId>)
  {
    && Balanced(t, h) && Staged(t) && Unshared(t) && Tracked(b, sizes, ps, t)
    && others !! Blocks(sizes, ps) && held == others + Blocks(sizes, Pages(t))
    && b.keep == Blocks(sizes, Pages(t) - b.counts.Keys)
  }

  /** The blocks of tracked nodes overlap nowhere. */
  lemma BlocksLess(b: Base, sizes: map<PageId, nat>, ps: set<PageId>, qs: set<PageId>, p: PageId)
    requires Tracks(b, sizes, ps) && qs <= ps && p in qs
    ensures p in sizes && F.Block(p, sizes[p]) <= Blocks(sizes, qs)
    ensures Blocks(sizes, qs - {p}) == Blocks(sizes, qs) - F.Block(p, sizes[p])
  {
    hide F.Block;
    forall q | q in Blocks(sizes, qs - {p}) ensures q !in F.Block(p, sizes[p]) {
      var r :| r in qs - {p} && r in sizes && q in F.Block(r, sizes[r]);
    }
  }

  lemma BlocksMore(sizes: map<PageId, nat>, ps: set<PageId>, qs: set<PageId>)
    requires ps <= qs
    ensures Blocks(sizes, ps) <= Blocks(sizes, qs)
  {
    hide F.Block;
  }

  /** A merge of a loaded node retires that node's block and nothing else. */
  lemma MergeStep(b: Base, sizes: map<PageId, nat>, ps: set<PageId>, t: Tree, h: nat, others: set<PageId>,
                  held: set<PageId>,
                  path: seq<nat>, i: nat)
    requires Standing(b, sizes, ps, t, h, others, held)
    requires Applies(t, path, i) && Removed(t, path, i).page in b.counts
    ensures var gone, t' := Removed(t, path, i).page, MergeAt(t, path, i, h);
            && Standing(MergedAt(b, sizes, t, path, i), sizes, ps, t', h, others, held - F.Block(gone, b.counts[gone]))
            && F.Block(gone, b.counts[gone]) <= held && Flatten(t') == Flatten(t) && t'.page == t.page
            && ((gone == 0 && b.counts[gone] == 0) || (gone > 1 && b.counts[gone] > 0))
  {
    hide Tracks, BlocksOk, Staged, Unshared, Ready, Flatten, Pages, Removed, MergedAt, MergeAt, Blocks, F.Block,
         Balanced;
    var gone, b', t' := Removed(t, path, i).page, MergedAt(b, sizes, t, path, i), MergeAt(t, path, i, h);
    MergeKeeps(t, path, i, h);
    MergeAtReady(b, sizes, ps, t, path, i, h);
    LoadedBlock(b, sizes, ps, gone);
    BlocksLess(b, sizes, ps, Pages(t), gone);
    BlocksMore(sizes, Pages(t), ps);
    MergedKeep(b, sizes, ps, t, path, i);
    assert Pages(t') - b'.counts.Keys == Pages(t) - b'.counts.Keys;
  }

  lemma LoadedBlock(b: Base, sizes: map<PageId, nat>, ps: set<PageId>, p: PageId)
    requires Tracks(b, sizes, ps) && BlocksOk(b) && p in ps && p in b.counts
    ensures p in sizes && b.counts[p] == sizes[p] && ((p == 0 && b.counts[p] == 0) || (p > 1 && b.counts[p] > 0))
  {
  }

  /** A merge may load a sibling: its block leaves the kept ones. */
  lemma MergedKeep(b: Base, sizes: map<PageId, nat>, ps: set<PageId>, t: Tree, path: seq<nat>, i: nat)
    requires Tracks(b, sizes, ps) && Pages(t) <= ps && Applies(t, path, i) && Removed(t, path, i).page in b.counts
    requires b.keep == Blocks(sizes, Pages(t) - b.counts.Keys)
    ensures var b' := MergedAt(b, sizes, t, path, i);
            && b'.keep == Blocks(sizes, Pages(t) - b'.counts.Keys) && Removed(t, path, i).page in b'.counts
  {
    hide Tracks, Pages, Removed, MergedAt, Blocks, F.Block, NodeKey, Keyed;
    MergedLoads(b, sizes, t, path, i);
    var s, b' := SiblingAt(t, path, i), MergedAt(b, sizes, t, path, i);
    if b' != b {
      BlocksLess(b, sizes, ps, Pages(t) - b.counts.Keys, s.page);
      assert Pages(t) - b'.counts.Keys == Pages(t) - b.counts.Keys - {s.page};
    }
  }

  /** Promoting a root's only child retires the root's block. */
  lemma PromoteStep(b: Base, sizes: map<PageId, nat>, ps: set<PageId>, t: Tree, h: nat, others: set<PageId>,
                    held: set<PageId>)
    requires Standing(b, sizes, ps, t, h, others, held) && t.Branch? && |t.kids| == 1
    ensures t.page in b.counts && F.Block(t.page, b.counts[t.page]) <= held && Flatten(t.kids[0]) == Flatten(t)
    ensures (t.page == 0 && b.counts[t.page] == 0) || (t.page > 1 && b.counts[t.page] > 0)
    ensures t.kids[0].page in b.counts ==>
              h > 0 && Standing(b, sizes, ps, t.kids[0], h - 1, others, held - F.Block(t.page, b.counts[t.page]))
  {
    hide Tracks, BlocksOk, Flatten, Pages, Blocks, F.Block;
    var kid := t.kids[0];
    FlattenBranch(t);
    FlattenOne(kid);
    assert t.kids == [kid];
    PagesOfNode(t);
    PagesOne(kid);
    OwnPage(t);
    LoadedBlock(b, sizes, ps, t.page);
    BlocksLess(b, sizes, ps, Pages(t), t.page);
    BlocksMore(sizes, Pages(t), ps);
    assert Pages(kid) == Pages(t) - {t.page};
    assert Pages(kid) - b.counts.Keys == Pages(t) - b.counts.Keys;
  }

  /** What merging the picked nodes, where they can be merged, and promoting a root's only
      child leave. */
  ghost function Pass(b: Base, sizes: map<PageId, nat>, ps: set<PageId>, t: Tree, h: nat, others: set<PageId>,
                      held: set<PageId>,
                      picks: seq<Merge>): (Base, Tree)
    requires Standing(b, sizes, ps, t, h, others, held)
    decreases |picks|
  {
    if picks == [] then (b, if t.Branch? && |t.kids| == 1 then t.kids[0] else t)
    else
      var path, i := picks[0].path, picks[0].i;
      if Applies(t, path, i) && Removed(t, path, i).page in b.counts then
        MergeStep(b, sizes, ps, t, h, others, held, path, i);
        var gone := Removed(t, path, i).page;
        Pass(MergedAt(b, sizes, t, path, i), sizes, ps, MergeAt(t, path, i, h), h, others,
             held - F.Block(gone, b.counts[gone]), picks[1..])
      else Pass(b, sizes, ps, t, h, others, held, picks[1..])
  }

  /** `free_page`, with the pages still held. */
  method RetireBlock(fl: F.TxFreelist, page: PageId, count: nat, ghost held: set<PageId>)
    requires fl.Valid() && L.Ledger(fl.inner.State(), fl.numPages, held, fl.txId)
    requires F.Block(page, count) <= held && ((page == 0 && count == 0) || (page > 1 && count > 0))
    modifies fl.inner
    ensures fl.Valid() && L.Ledger(fl.inner.State(), fl.numPages, held - F.Block(page, count), fl.txId)
  {
    hide L.Ledger;
    if page != 0 {
      fl.Free(page, count);
      LP.LedgerRetire(old(fl.inner.State()), fl.txId, page, count, fl.numPages, held);
    } else {
      EmptyBlock();
      assert held - F.Block(page, count) == held;
    }
  }

  /** `merge_nodes`, for any picks in any order: contents and order stay, every removed node's
      block is retired, and the tree is fit for writing if its root is loaded. */
  method MergeNodes(fl: F.TxFreelist, b: Base, sizes: map<PageId, nat>, t: Tree, picks: seq<Merge>,
                    ghost ps: set<PageId>,
                    ghost h: nat, ghost others: set<PageId>, ghost held: set<PageId>)
    returns (b': Base, t': Tree, ghost h': nat, ghost held': set<PageId>)
    requires Standing(b, sizes, ps, t, h, others, held)
    requires fl.Valid() && L.Ledger(fl.inner.State(), fl.numPages, held, fl.txId)
    modifies fl.inner
    ensures fl.Valid() && L.Ledger(fl.inner.State(), fl.numPages, held', fl.txId)
    ensures (b', t') == Pass(b, sizes, ps, t, h, others, held, picks) && Flatten(t') == Flatten(t)
    ensures t'.page in b'.counts ==> Standing(b', sizes, ps, t', h', others, held')
  {
    hide L.Ledger, Standing, MergedAt, MergeAt, F.Block, Flatten;
    b', t', held' := b, t, held;
    for k := 0 to |picks|
      invariant Standing(b', sizes, ps, t', h, others, held') && Flatten(t') == Flatten(t)
      invariant fl.Valid() && L.Ledger(fl.inner.State(), fl.numPages, held', fl.txId)
      invariant Pass(b', sizes, ps, t', h, others, held', picks[k..]) == Pass(b, sizes, ps, t, h, others, held, picks)
    {
      var path, i := picks[k].path, picks[k].i;
      assert picks[k..][0] == picks[k] && picks[k..][1..] == picks[k + 1..];
      StandingShape(b', sizes, ps, t', h, others, held');
      if Applies(t', path, i) && Removed(t', path, i).page in b'.counts {
        MergeStep(b', sizes, ps, t', h, others, held', path, i);
        var gone := Removed(t', path, i).page;
        RetireBlock(fl, gone, b'.counts[gone], held');
        held' := held' - F.Block(gone, b'.counts[gone]);
        b', t' := MergedAt(b', sizes, t', path, i), MergeAt(t', path, i, h);
      }
    }
    assert picks[|picks|..] == [];
    h' := h;
    if t'.Branch? && |t'.kids| == 1 {
      PromoteStep(b', sizes, ps, t', h, others, held');
      RetireBlock(fl, t'.page, b'.counts[t'.page], held');
      held' := held' - F.Block(t'.page, b'.counts[t'.page]);
      t', h' := t'.kids[0], if h > 0 then h - 1 else 0;
    }
  }

  lemma StandingShape(b: Base, sizes: map<PageId, nat>, ps: set<PageId>, t: Tree, h: nat, others: set<PageId>,
                      held: set<PageId>)
    requires Standing(b, sizes, ps, t, h, others, held)
    ensures Balanced(t, h)
  {
  }

  /** `first_key` of an empty node and the lookup of a root never loaded both fail. */
  predicate Writable(b: Base, t: Tree) {
    t.page in b.counts && (t == Leaf(t.page, []) || Full(t))
  }
}
