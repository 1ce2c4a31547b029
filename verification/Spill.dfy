/** Writing a bucket out: loaded nodes are split and written to fresh pages, bottom up,
    their old pages retired once each, until one root is left. */
module Spill {
  import opened Wrappers
  import opened Bytes
  import opened BTree
  import opened Overlay
  import opened Traversal
  import opened Rebalance
  import opened Committed
  import F = Freelist
  import L = Lifecycle
  import LP = LedgerProof
  import S = Split

  // ---------- pages written, pages kept ----------

  ghost predicate SameAt(v: map<PageId, PageData>, w: map<PageId, PageData>, p: PageId) {
    (p in v <==> p in w) && (p in v ==> v[p] == w[p])
  }

  /** Pages the next snapshot may use, what each page reads, every page held at some time
      of the pass, and how long the blocks written in it are. */
  datatype Memory = Memory(held: set<PageId>, view: map<PageId, PageData>, used: set<PageId>,
                           lengths: map<PageId, nat>)

  /** The blocks of the nodes at `ps`. */
  function Blocks(lengths: map<PageId, nat>, ps: set<PageId>): set<PageId> {
    set p, q | p in ps && p in lengths && q in F.Block(p, lengths[p]) :: q
  }

  /** Between two moments the pages held lose exactly `gone` and gain exactly the blocks of
      the new nodes at `ps`, none of them used before; whatever stays held reads the same. */
  ghost predicate Kept(m: Memory, m': Memory, gone: set<PageId>, ps: set<PageId>) {
    && m.used <= m'.used && m'.held == m.held - gone + Blocks(m'.lengths, ps)
    && Blocks(m'.lengths, ps) !! m.used && ps !! m.used && ps <= m'.lengths.Keys
    && (forall p :: p in m.lengths ==> p in m'.lengths && m'.lengths[p] == m.lengths[p])
    && forall p: PageId :: p in m.held && p !in gone ==> SameAt(m.view, m'.view, p)
  }

  lemma BlocksUnion(lengths: map<PageId, nat>, lengths': map<PageId, nat>, ps: set<PageId>, qs: set<PageId>)
    requires ps <= lengths.Keys && forall p :: p in lengths ==> p in lengths' && lengths'[p] == lengths[p]
    ensures Blocks(lengths', ps + qs) == Blocks(lengths, ps) + Blocks(lengths', qs)
  {
    hide F.Block;
  }

  lemma {:induction false} RepAgree(v: map<PageId, PageData>, w: map<PageId, PageData>, t: Tree)
    requires Rep(v, t) && forall p: PageId :: p in Pages(t) ==> SameAt(v, w, p)
    ensures Rep(w, t)
    decreases t
  {
    hide Pages;
    PagesOfNode(t);
    assert SameAt(v, w, t.page);
    if t.Branch? {
      forall i | 0 <= i < |t.kids| ensures Rep(w, t.kids[i]) {
        KidPages(t, i);
        RepAgree(v, w, t.kids[i]);
      }
    }
  }

  /** A finished subtree: tight, on held pages of its own, as the view spells it. */
  ghost predicate Sound(m: Memory, t: Tree, h: nat) {
    Tight(t) && Balanced(t, h) && Unshared(t) && Pages(t) <= m.held && Rep(m.view, t)
  }

  ghost predicate Apart(ts: seq<Tree>) {
    forall i, j :: 0 <= i < j < |ts| ==> Pages(ts[i]) !! Pages(ts[j])
  }

  ghost predicate SoundAll(m: Memory, ts: seq<Tree>, h: nat) {
    (forall i :: 0 <= i < |ts| ==> Sound(m, ts[i], h)) && Apart(ts)
  }

  lemma SoundKept(m: Memory, m': Memory, gone: set<PageId>, ps: set<PageId>, t: Tree, h: nat)
    requires Sound(m, t, h) && Kept(m, m', gone, ps) && Pages(t) !! gone
    ensures Sound(m', t, h)
  {
    hide Pages, Rep, Tight, Balanced, Unshared, Blocks;
    RepAgree(m.view, m'.view, t);
  }

  lemma SoundAllKept(m: Memory, m': Memory, gone: set<PageId>, ps: set<PageId>, ts: seq<Tree>, h: nat)
    requires SoundAll(m, ts, h) && Kept(m, m', gone, ps)
    requires forall i :: 0 <= i < |ts| ==> Pages(ts[i]) !! gone
    ensures SoundAll(m', ts, h)
  {
    hide Sound, Kept, Pages;
    forall i | 0 <= i < |ts| ensures Sound(m', ts[i], h) {
      SoundKept(m, m', gone, ps, ts[i], h);
    }
  }

  lemma SoundAllAppend(m: Memory, a: seq<Tree>, b: seq<Tree>, h: nat)
    requires SoundAll(m, a, h) && SoundAll(m, b, h)
    requires forall i, j :: 0 <= i < |a| && 0 <= j < |b| ==> Pages(a[i]) !! Pages(b[j])
    ensures SoundAll(m, a + b, h)
  {
    hide Sound, Pages;
    var ts := a + b;
    forall i, j | 0 <= i < j < |ts| ensures Pages(ts[i]) !! Pages(ts[j]) {
      if i < |a| <= j {
        assert Pages(a[i]) !! Pages(b[j - |a|]);
      }
    }
  }

  // ---------- what a cut leaves ----------

  /** The written pieces of a node over finished children are finished. */
  lemma CutSound(m: Memory, t: Tree, h: nat, cuts: seq<nat>, pages: seq<PageId>,
                 out: seq<Tree>)
    requires IsCut(t, cuts, pages, out) && Tight(t) && Balanced(t, h)
    requires forall k :: 0 <= k < |out| ==> pages[k] in m.held && pages[k] in m.view
                                            && m.view[pages[k]] == DataOf(out[k])
    requires forall j, k :: 0 <= j < k < |out| ==> pages[j] != pages[k]
    requires t.Branch? ==> h > 0 && SoundAll(m, t.kids, h - 1)
    requires t.Branch? ==> forall i, k :: 0 <= i < |t.kids| && 0 <= k < |out| ==> pages[k] !in Pages(t.kids[i])
    ensures SoundAll(m, out, h) && FlattenAll(out) == Flatten(t)
  {
    hide Rep, Pages, Tight, Flatten, FlattenAll, Slice;
    CutFlatten(t, cuts, pages, out);
    CutTight(t, cuts, pages, out);
    forall k | 0 <= k < |out| ensures Sound(m, out[k], h) {
      SliceSound(m, t, h, pages[k], S.Start(cuts, k), S.End(cuts, Len(t), k));
    }
    forall j, k | 0 <= j < k < |out| ensures Pages(out[j]) !! Pages(out[k]) {
      CutOrder(t, cuts, j, k);
      SlicesApart(t, pages[j], S.Start(cuts, j), S.End(cuts, Len(t), j), pages[k], S.Start(cuts, k),
          S.End(cuts, Len(t), k));
    }
  }

  lemma {:induction false} CutOrder(t: Tree, cuts: seq<nat>, j: nat, k: nat)
    requires j < k <= |cuts| && S.Cuts(cuts, Len(t))
    ensures S.End(cuts, Len(t), j) <= S.Start(cuts, k)
  {
    if j + 1 < k {
      CutOrder(t, cuts, j, k - 1);
      assert S.Start(cuts, k - 1) + S.MIN_KEYS <= S.End(cuts, Len(t), k - 1);
    }
  }

  lemma SlicePages(t: Tree, page: PageId, a: nat, b: nat, q: PageId) returns (i: nat)
    requires (t.Branch? ==> |t.seps| == |t.kids|) && a <= b <= Len(t) && q in Pages(Slice(t, page, a, b))
    ensures q != page ==> t.Branch? && a <= i < b && q in Pages(t.kids[i])
  {
    var s := Slice(t, page, a, b);
    PagesOfNode(s);
    if q != page {
      InPagesAll(s.kids, q);
      var m :| 0 <= m < |s.kids| && q in Pages(s.kids[m]);
      i := a + m;
    } else {
      i := 0;
    }
  }

  lemma SlicesApart(t: Tree, p: PageId, a: nat, b: nat, q: PageId, c: nat, d: nat)
    requires (t.Branch? ==> |t.seps| == |t.kids| && Apart(t.kids)) && a <= b <= c <= d <= Len(t) && p != q
    requires t.Branch? ==> forall i :: 0 <= i < |t.kids| ==> p !in Pages(t.kids[i]) && q !in Pages(t.kids[i])
    ensures Pages(Slice(t, p, a, b)) !! Pages(Slice(t, q, c, d))
  {
    hide Pages, Slice;
    if x :| x in Pages(Slice(t, p, a, b)) && x in Pages(Slice(t, q, c, d)) {
      var i := SlicePages(t, p, a, b, x);
      var j := SlicePages(t, q, c, d, x);
      assert false;
    }
  }

  lemma SliceSound(m: Memory, t: Tree, h: nat, page: PageId, a: nat, b: nat)
    requires Tight(t) && Balanced(t, h) && a <= b <= Len(t) && page in m.held
    requires var s := Slice(t, page, a, b); Tight(s) && page in m.view && m.view[page] == DataOf(s)
    requires t.Branch? ==> h > 0 && SoundAll(m, t.kids, h - 1)
    requires t.Branch? ==> forall i :: 0 <= i < |t.kids| ==> page !in Pages(t.kids[i])
    ensures Sound(m, Slice(t, page, a, b), h)
  {
    hide Pages;
    var s := Slice(t, page, a, b);
    assert forall q :: q in Pages(s) ==> q in m.held by {
      forall q | q in Pages(s) ensures q in m.held {
        var i := SlicePages(t, page, a, b, q);
        if q != page {
          assert Sound(m, t.kids[i], h - 1);
        }
      }
    }
    if t.Branch? {
      forall i | 0 <= i < |s.kids|
        ensures Unshared(s.kids[i]) && page !in Pages(s.kids[i]) && Rep(m.view, s.kids[i]) && Balanced(s.kids[i], h - 1)
      {
        assert s.kids[i] == t.kids[a + i];
        assert Sound(m, t.kids[a + i], h - 1);
      }
      forall i, j | 0 <= i < j < |s.kids| ensures Pages(s.kids[i]) !! Pages(s.kids[j]) {
        assert Pages(t.kids[a + i]) !! Pages(t.kids[a + j]);
      }
    }
  }

  // ---------- telling the parent ----------

  /** `insert_branch`: found by its original key an element is replaced, a new one goes
      where its own key belongs.  The source asserts that the search agrees. */
  method InsertBranch(seps: seq<Key>, kids: seq<Tree>, original: Option<Key>, kid: Tree)
    returns (seps': seq<Key>, kids': seq<Tree>)
    requires |seps| == |kids| && Keyed(kid)
    requires Hit(seps, if original.Some? then original.value else NodeKey(kid)) <==> original.Some?
    ensures var i := Lower(seps, if original.Some? then original.value else NodeKey(kid));
            var j := if original.Some? then i + 1 else i;
            && seps' == seps[..i] + [NodeKey(kid)] + seps[j..]
            && kids' == kids[..i] + [kid] + kids[j..]
  {
    var search := if original.Some? then original.value else NodeKey(kid);
    var i := Lower(seps, search);
    if Hit(seps, search) {
      seps', kids' := seps[i := NodeKey(kid)], kids[i := kid];
    } else {
      seps', kids' := seps[..i] + [NodeKey(kid)] + seps[i..], kids[..i] + [kid] + kids[i..];
    }
  }

  lemma SearchHits(x: seq<Key>, k: Key, y: seq<Key>)
    requires SortedKeys(x + [k] + y)
    ensures Lower(x + [k] + y, k) == |x| && Hit(x + [k] + y, k)
  {
    var ks := x + [k] + y;
    assert ks[|x|] == k;
    LowerAt(ks, k, |x|);
  }

  lemma SearchMisses(x: seq<Key>, k: Key, y: seq<Key>)
    requires SortedKeys(x + [k] + y)
    ensures Lower(x + y, k) == |x| && !Hit(x + y, k)
  {
    var ks := x + [k] + y;
    assert ks[|x|] == k;
    forall i | 0 <= i < |x| ensures Less((x + y)[i], k) {
      assert ks[i] == x[i];
    }
    if y != [] {
      assert ks[|x| + 1] == (x + y)[|x|];
    }
    LowerAt(x + y, k, |x|);
  }

  lemma SortedPart(a: seq<Key>, b: seq<Key>, c: seq<Key>)
    requires SortedKeys(a + b + c)
    ensures SortedKeys(a + c)
  {
    var ks := a + b + c;
    forall i, j | 0 <= i < j < |a + c| ensures Less((a + c)[i], (a + c)[j]) {
      var m := if i < |a| then i else i + |b|;
      var n := if j < |a| then j else j + |b|;
      assert ks[m] == (a + c)[i] && ks[n] == (a + c)[j];
    }
  }

  /** A spilled child and its new siblings take the place of the child's old element. */
  method InsertBranches(seps: seq<Key>, kids: seq<Tree>, ghost i: nat, original: Key, out: seq<Tree>)
    returns (seps': seq<Key>, kids': seq<Tree>)
    requires |seps| == |kids| && i < |seps| && seps[i] == original && SortedKeys(seps)
    requires out != [] && forall k :: 0 <= k < |out| ==> Keyed(out[k])
    requires SortedKeys(seps[..i] + NodeKeys(out) + seps[i + 1..])
    ensures seps' == seps[..i] + NodeKeys(out) + seps[i + 1..]
    ensures kids' == kids[..i] + out + kids[i + 1..]
  {
    hide Lower, Hit, SortedKeys, NodeKey, Keyed;
    ghost var a, b, ks := seps[..i], seps[i + 1..], NodeKeys(out);
    assert seps == a + [original] + b;
    SearchHits(a, original, b);
    seps', kids' := InsertBranch(seps, kids, Some(original), out[0]);
    for m := 1 to |out|
      invariant seps' == a + ks[..m] + b
      invariant kids' == kids[..i] + out[..m] + kids[i + 1..]
    {
      assert a + ks + b == (a + ks[..m]) + [ks[m]] + (ks[m + 1..] + b);
      SortedHead(a + ks[..m], [ks[m]], ks[m + 1..], b);
      SearchMisses(a + ks[..m], ks[m], b);
      seps', kids' := InsertBranch(seps', kids', None, out[m]);
      assert ks[..m + 1] == ks[..m] + [ks[m]] && out[..m + 1] == out[..m] + [out[m]];
    }
    assert ks[..|out|] == ks && out[..|out|] == out;
  }

  lemma SortedHead(a: seq<Key>, k: seq<Key>, b: seq<Key>, c: seq<Key>)
    requires SortedKeys(a + k + (b + c))
    ensures SortedKeys(a + k + c)
  {
    assert a + k + (b + c) == (a + k) + b + c;
    SortedPart(a + k, b, c);
  }

  // ---------- a bucket ready to be written ----------

  /** What a transaction knows when it writes a bucket: the committed pages, the loaded
      nodes' page counts and original keys, and the pages of subtrees never loaded. */
  datatype Base = Base(store: map<PageId, PageData>, counts: map<PageId, nat>, orig: map<PageId, Key>,
                       keep: set<PageId>)

  /** Loaded nodes own disjoint blocks; page 0 stands for a node never written. */
  ghost predicate BlocksOk(b: Base) {
    && (forall p :: p in b.counts ==> (p == 0 && b.counts[p] == 0) || (p > 1 && b.counts[p] > 0))
    && (forall p, q :: p in b.counts && q in b.counts && p != q ==> F.Block(p, b.counts[p]) !! F.Block(q, b.counts[q]))
    && (forall p :: p in b.counts ==> F.Block(p, b.counts[p]) !! b.keep)
  }

  /** A subtree that was never loaded, under its separator. */
  ghost predicate Settled(b: Base, sep: Key, t: Tree) {
    Tight(t) && Keyed(t) && sep == NodeKey(t) && Pages(t) <= b.keep && Rep(b.store, t)
  }

  /** Loaded nodes sit under the separator they were loaded with. */
  ghost predicate Ready(b: Base, t: Tree) {
    && t.page in b.counts
    && (t.Branch? ==> |t.seps| == |t.kids| && forall i :: 0 <= i < |t.kids| ==>
          if t.kids[i].page in b.counts
          then t.kids[i].page in b.orig && b.orig[t.kids[i].page] == t.seps[i] && Ready(b, t.kids[i])
          else Settled(b, t.seps[i], t.kids[i]))
  }

  /** The old blocks of the loaded nodes among `ps`. */
  ghost function Old(b: Base, ps: set<PageId>): set<PageId> {
    Blocks(b.counts, ps)
  }

  lemma OldFacts(b: Base, ps: set<PageId>, qs: set<PageId>)
    requires BlocksOk(b)
    ensures Old(b, ps) !! b.keep
    ensures ps <= qs ==> Old(b, ps) <= Old(b, qs)
    ensures ps !! qs ==> Old(b, ps) !! Old(b, qs)
  {
    if ps !! qs {
      forall q | q in Old(b, ps) ensures q !in Old(b, qs) {
        var p :| p in ps && p in b.counts && q in F.Block(p, b.counts[p]);
        assert forall r :: r in qs && r in b.counts ==> F.Block(p, b.counts[p]) !! F.Block(r, b.counts[r]);
      }
    }
  }

  // ---------- one child after another ----------

  /** The pages of finished trees that are not new: all the pages never loaded. */
  ghost predicate Carried(b: Base, from: set<PageId>, ps: set<PageId>) {
    ps * b.keep == from * b.keep
  }

  /** The first i children of t are written as `done`. */
  ghost predicate Progress(b: Base, t: Tree, h: nat, i: nat, done: seq<Tree>, m: Memory, m': Memory)
    requires t.Branch? && i <= |t.kids|
  {
    && SoundAll(m', done, h)
    && FlattenAll(done) == FlattenAll(t.kids[..i])
    && Kept(m, m', Old(b, PagesAll(t.kids[..i])), PagesAll(done) - b.keep)
    && Carried(b, PagesAll(t.kids[..i]), PagesAll(done))
  }

  lemma PrefixPages(t: Tree, i: nat)
    requires t.Branch? && i < |t.kids| && Unshared(t)
    ensures PagesAll(t.kids[..i + 1]) == PagesAll(t.kids[..i]) + Pages(t.kids[i])
    ensures PagesAll(t.kids[..i]) !! Pages(t.kids[i])
    ensures PagesAll(t.kids[..i + 1]) <= Pages(t)
  {
    hide Pages, PagesAll;
    assert t.kids[..i + 1] == t.kids[..i] + [t.kids[i]];
    PagesAppend(t.kids[..i], [t.kids[i]]);
    PagesOne(t.kids[i]);
    PagesOfNode(t);
    forall p | p in PagesAll(t.kids[..i]) ensures p !in Pages(t.kids[i]) {
      InPagesAll(t.kids[..i], p);
      var j :| 0 <= j < i && p in Pages(t.kids[..i][j]);
      assert Pages(t.kids[j]) !! Pages(t.kids[i]);
    }
    forall p | p in PagesAll(t.kids[..i + 1]) ensures p in Pages(t) {
      InPagesAll(t.kids[..i + 1], p);
      var j :| 0 <= j < i + 1 && p in Pages(t.kids[..i + 1][j]);
      KidPages(t, j);
    }
  }

  lemma PrefixFlatten(t: Tree, i: nat, done: seq<Tree>, out: seq<Tree>)
    requires t.Branch? && i < |t.kids| && FlattenAll(done) == FlattenAll(t.kids[..i])
             && FlattenAll(out) == Flatten(t.kids[i])
    ensures FlattenAll(done + out) == FlattenAll(t.kids[..i + 1])
  {
    hide Flatten, FlattenAll;
    assert t.kids[..i + 1] == t.kids[..i] + [t.kids[i]];
    FlattenAppend(t.kids[..i], [t.kids[i]]);
    FlattenOne(t.kids[i]);
    FlattenAppend(done, out);
  }

  lemma KeptTwice(m: Memory, m': Memory, m'': Memory, a: set<PageId>, b: set<PageId>, ps: set<PageId>, qs: set<PageId>)
    requires Kept(m, m', a, ps) && Kept(m', m'', b, qs) && b <= m.used
    ensures Kept(m, m'', a + b, ps + qs)
  {
    hide Blocks;
    BlocksUnion(m'.lengths, m''.lengths, ps, qs);
  }

  /** The pieces of child i and the finished trees before it share no page. */
  lemma NewApart(b: Base, before: set<PageId>, now: set<PageId>, done: set<PageId>, out: set<PageId>, m: Memory,
                 m': Memory,
                 m'': Memory, gone: set<PageId>, lost: set<PageId>)
    requires before !! now && b.keep <= m.used && done <= m'.held <= m'.used
    requires Kept(m, m', gone, done - b.keep) && Carried(b, before, done)
    requires Kept(m', m'', lost, out - b.keep) && Carried(b, now, out)
    requires lost <= m.used && lost !! b.keep
    ensures done !! out && done !! lost
    ensures done + out - b.keep == (done - b.keep) + (out - b.keep) && Carried(b, before + now, done + out)
  {
    hide Blocks;
    forall p | p in done ensures p !in out {
      if p in b.keep {
        assert p in before * b.keep && p !in now * b.keep;
      }
    }
    assert (before + now) * b.keep == before * b.keep + now * b.keep;
    assert (done + out) * b.keep == done * b.keep + out * b.keep;
  }

  /** Writing child i keeps the finished ones finished and adds its own pieces. */
  lemma ProgressStep(b: Base, t: Tree, h: nat, i: nat, done: seq<Tree>, out: seq<Tree>, m: Memory, m': Memory,
                     m'': Memory)
    requires t.Branch? && i < |t.kids| && Unshared(t) && BlocksOk(b) && b.keep <= m.used && m'.held <= m'.used
    requires Old(b, Pages(t)) <= m.used
    requires Progress(b, t, h, i, done, m, m')
    requires SoundAll(m'', out, h) && FlattenAll(out) == Flatten(t.kids[i])
    requires Kept(m', m'', Old(b, Pages(t.kids[i])), PagesAll(out) - b.keep)
    requires Carried(b, Pages(t.kids[i]), PagesAll(out))
    ensures Progress(b, t, h, i + 1, done + out, m, m'')
  {
    hide Sound, Pages, PagesAll, Flatten, FlattenAll, Old, Kept, BlocksOk, Unshared, Apart, Carried;
    PrefixPages(t, i);
    PrefixFlatten(t, i, done, out);
    var before, now, all := PagesAll(t.kids[..i]), Pages(t.kids[i]), PagesAll(t.kids[..i + 1]);
    OldUnion(b, before, now);
    OldFacts(b, now, all);
    OldFacts(b, all, Pages(t));
    SoundAllHeld(m', done, h);
    PagesAppend(done, out);
    NewApart(b, before, now, PagesAll(done), PagesAll(out), m, m', m'', Old(b, before), Old(b, now));
    KeptTwice(m, m', m'', Old(b, before), Old(b, now), PagesAll(done) - b.keep, PagesAll(out) - b.keep);
    forall k | 0 <= k < |done| ensures Pages(done[k]) <= PagesAll(done) {
      InOne(done, k);
    }
    forall k | 0 <= k < |out| ensures Pages(out[k]) <= PagesAll(out) {
      InOne(out, k);
    }
    SoundAllKept(m', m'', Old(b, now), PagesAll(out) - b.keep, done, h);
    SoundAllAppend(m'', done, out, h);
  }

  lemma InOne(ts: seq<Tree>, k: nat)
    requires k < |ts|
    ensures Pages(ts[k]) <= PagesAll(ts)
  {
    hide Pages, PagesAll;
    forall p | p in Pages(ts[k]) ensures p in PagesAll(ts) {
      InPagesAll(ts, p);
    }
  }

  lemma KeptUsed(m: Memory, m': Memory, gone: set<PageId>, ps: set<PageId>)
    requires Kept(m, m', gone, ps)
    ensures m.used <= m'.used && ps !! m.used
  {
  }

  lemma OldUnion(b: Base, ps: set<PageId>, qs: set<PageId>)
    requires BlocksOk(b)
    ensures Old(b, ps + qs) == Old(b, ps) + Old(b, qs)
    ensures Old(b, ps) !! b.keep
  {
    OldFacts(b, ps, ps + qs);
    OldFacts(b, qs, ps + qs);
  }

  lemma SoundAllHeld(m: Memory, ts: seq<Tree>, h: nat)
    requires SoundAll(m, ts, h)
    ensures PagesAll(ts) <= m.held
  {
    hide Pages, PagesAll;
    forall p | p in PagesAll(ts) ensures p in m.held {
      InPagesAll(ts, p);
      var i :| 0 <= i < |ts| && p in Pages(ts[i]);
      assert Sound(m, ts[i], h);
    }
  }

  lemma SettledSound(b: Base, sep: Key, t: Tree, h: nat, written: map<PageId, PageData>, m: Memory)
    requires Settled(b, sep, t) && Balanced(t, h) && Unshared(t) && b.keep <= m.held && written.Keys !! b.keep
    requires m.view == b.store + written
    ensures Sound(m, t, h)
  {
    hide Pages, Rep, Tight, Balanced, Unshared, Keyed, NodeKey;
    RepAgree(b.store, b.store + written, t);
  }

  lemma SoundAllOne(m: Memory, t: Tree, h: nat)
    requires Sound(m, t, h)
    ensures SoundAll(m, [t], h) && FlattenAll([t]) == Flatten(t)
  {
    hide Sound, Pages;
    FlattenOne(t);
  }

  lemma SoundAllTight(m: Memory, ts: seq<Tree>, h: nat)
    requires SoundAll(m, ts, h)
    ensures AllTight(ts)
  {
    forall i | 0 <= i < |ts| ensures Tight(ts[i]) && Keyed(ts[i]) {
      assert Sound(m, ts[i], h);
    }
  }

  /** Between two children the branch's elements stay in key order. */
  lemma ElementsSorted(t: Tree, i: nat, done: seq<Tree>)
    requires Staged(t) && t.Branch? && i <= |t.kids| && AllTight(done) && FlattenAll(done) == FlattenAll(t.kids[..i])
    ensures SortedKeys(NodeKeys(done) + t.seps[i..])
  {
    hide Rank, Flatten, FlattenAll, Tight, NodeKey, Keyed, KeySet;
    StagedSortedAll(t, i);
    FirstKeysSorted(done);
    var ks := NodeKeys(done) + t.seps[i..];
    forall m, n | 0 <= m < n < |ks| ensures Less(ks[m], ks[n]) {
      if m < |done| <= n {
        TightFirst(done[m]);
        DoneBelow(t, i, done, m, Flatten(done[m])[0], i + n - |done|);
      }
    }
  }

  lemma DoneBelow(t: Tree, i: nat, done: seq<Tree>, m: nat, e: Entry, j: nat)
    requires Staged(t) && t.Branch? && i <= j < |t.kids| && m < |done| && FlattenAll(done) == FlattenAll(t.kids[..i])
    requires e in Flatten(done[m])
    ensures Less(e.key, t.seps[j])
  {
    hide Rank, Flatten, FlattenAll, KeySet;
    InFlatten(done, e);
    InFlatten(t.kids[..i], e);
    var k :| 0 <= k < i && e in Flatten(t.kids[..i][k]);
    FlattenKeys(t.kids[k], e);
    assert AllBelow(KeySet(t.kids[k]), t.seps[j]);
  }

  // ---------- the writing pass ----------

  /** Since the start of the pass exactly the pages given up were retired, all of them under
      this transaction. */
  ghost predicate RetiredSince(start: F.FreeState, now: F.FreeState, tx: F.TxId, held: set<PageId>, used: set<PageId>) {
    forall t: F.TxId, p: PageId :: F.InPending(now, t, p) <==>
                                   F.InPending(start, t, p) || (t == tx && p in used && p !in held)
  }


  /** The blocks written in the pass overlap nowhere. */
  ghost predicate LengthsOk(lengths: map<PageId, nat>, used: set<PageId>) {
    && (forall p :: p in lengths ==> p > 1 && lengths[p] > 0 && F.Block(p, lengths[p]) <= used)
    && forall p, q :: p in lengths && q in lengths && p != q ==> F.Block(p, lengths[p]) !! F.Block(q, lengths[q])
  }

  lemma LengthsMore(lengths: map<PageId, nat>, used: set<PageId>, p: PageId, n: nat)
    requires LengthsOk(lengths, used) && p > 1 && n > 0 && F.Block(p, n) !! used
    ensures LengthsOk(lengths, used + F.Block(p, n)) && LengthsOk(lengths[p := n], used + F.Block(p, n))
  {
    hide F.Block;
  }

  class Spiller {
    const store: map<PageId, PageData>
    /** Loaded nodes, by page, with the length of the block each was read from. */
    const counts: map<PageId, nat>
    const orig: map<PageId, Key>
    const threshold: nat
    const fl: F.TxFreelist
    var written: map<PageId, PageData>
    /** How long the block of each page in `written` is. */
    var lengths: map<PageId, nat>
    ghost const keep: set<PageId>
    ghost const start: F.FreeState
    ghost var held: set<PageId>
    ghost var used: set<PageId>

    ghost function Known(): Base {
      Base(store, counts, orig, keep)
    }

    ghost function View(): map<PageId, PageData>
      reads `written
    {
      store + written
    }

    ghost function Now(): Memory
      reads `written, `held, `used, `lengths
    {
      Memory(held, View(), used, lengths)
    }

    ghost predicate Valid()
      reads this, fl, fl.inner
    {
      && BlocksOk(Known()) && fl.Valid() && L.Ledger(fl.inner.State(), fl.numPages, held, fl.txId)
      && keep <= held <= used && lengths.Keys == written.Keys <= used - keep && LengthsOk(lengths, used)
      && RetiredSince(start, fl.inner.State(), fl.txId, held, used)
      && forall p :: p in used ==> p !in fl.inner.freePages && p < fl.numPages
    }

    constructor (fl: F.TxFreelist, store: map<PageId, PageData>, counts: map<PageId, nat>, orig: map<PageId, Key>,
                 threshold: nat, ghost keep: set<PageId>, ghost held: set<PageId>)
      requires BlocksOk(Base(store, counts, orig, keep)) && fl.Valid() && keep <= held
      requires L.Ledger(fl.inner.State(), fl.numPages, held, fl.txId)
      ensures Valid() && Known() == Base(store, counts, orig, keep) && this.fl == fl && this.threshold == threshold
      ensures written == map[] && lengths == map[] && this.held == held && used == held && start == fl.inner.State()
    {
      this.fl, this.store, this.counts, this.orig, this.threshold := fl, store, counts, orig, threshold;
      this.keep, this.held, this.used, start := keep, held, held, fl.inner.State();
      written, lengths := map[], map[];
    }

    /** `free_page`: a node that has a page gives its block back. */
    method Retire(page: PageId, count: nat)
      requires Valid() && ((page == 0 && count == 0) || (page > 1 && count > 0))
      requires F.Block(page, count) <= held && F.Block(page, count) !! keep
      modifies `held, fl.inner
      ensures Valid() && held == old(held) - F.Block(page, count)
    {
      hide L.Ledger, RetiredSince, LengthsOk;
      if page != 0 {
        fl.Free(page, count);
        LP.LedgerRetire(old(fl.inner.State()), fl.txId, page, count, fl.numPages, held);
        F.FreedBlockContents(old(fl.inner.State()), fl.txId, page, count);
        RetiredMore(start, old(fl.inner.State()), fl.txId, page, count, held, used);
        held := held - F.Block(page, count);
      }
    }

    method Take(size: nat) returns (page: PageId, count: nat)
      requires Valid() && size >= F.HEADER_SIZE
      modifies `held, `used, fl, fl.inner
      ensures Valid() && page > 1 && count > 0
      ensures F.Block(page, count) !! old(used) && used == old(used) + F.Block(page, count)
      ensures held == old(held) + F.Block(page, count) && count == F.PagesFor(size, fl.pagesize)
    {
      hide L.Ledger, RetiredSince, LengthsOk, BlocksOk, F.PagesFor;
      ghost var s, n := fl.inner.State(), fl.numPages;
      page, count := fl.Allocate(size);
      LP.LedgerAllocate(s, n, page, count, held, fl.txId);
      assert fl.inner.State() == s.(free := s.free - F.Block(page, count));
      assert forall p :: p in F.Block(page, count) ==> p in s.free || n <= p;
      RetiredSame(start, s, fl.inner.State(), fl.txId, held, used, F.Block(page, count));
      LengthsMore(lengths, used, page, count);
      held, used := held + F.Block(page, count), used + F.Block(page, count);
    }

    /** `write`: the node's old block is retired, one for its size taken and filled. */
    method WriteNode(node: Tree, oldPage: PageId, oldCount: nat) returns (page: PageId, count: nat)
      requires Valid() && (node.Branch? ==> |node.seps| == |node.kids|)
      requires (oldPage == 0 && oldCount == 0) || (oldPage > 1 && oldCount > 0)
      requires F.Block(oldPage, oldCount) <= held && F.Block(oldPage, oldCount) !! keep
      modifies this, fl, fl.inner
      ensures Valid() && page > 1 && count > 0 && count == F.PagesFor(F.HEADER_SIZE + S.Sum(Sizes(node)), fl.pagesize)
      ensures F.Block(page, count) !! old(used) && used == old(used) + F.Block(page, count)
      ensures held == old(held) - F.Block(oldPage, oldCount) + F.Block(page, count)
      ensures written == old(written)[page := DataOf(node)] && lengths == old(lengths)[page := count]
    {
      hide L.Ledger, RetiredSince, LengthsOk, BlocksOk;
      Retire(oldPage, oldCount);
      ghost var u := used;
      page, count := Take(F.HEADER_SIZE + S.Sum(Sizes(node)));
      assert page in F.Block(page, count);
      LengthsMore(lengths, u, page, count);
      written, lengths := written[page := DataOf(node)], lengths[page := count];
    }

    /** A node that is split is written twice: its first, short-lived block is retired too. */
    method WriteFirst(node: Tree, oldPage: PageId, again: bool) returns (page: PageId, ghost spent: set<PageId>)
      requires Valid() && Shaped(node)
      requires oldPage == 0 || (oldPage in counts && F.Block(oldPage, counts[oldPage]) <= held)
      modifies this, fl, fl.inner
      ensures Valid() && old(used) <= used
      ensures Kept(old(Now()), Now(), Old(Known(), {oldPage}), {page})
      ensures page in held && page !in old(used) && page in written && written[page] == DataOf(node)
      ensures used == old(used) + spent + F.Block(page, lengths[page]) && spent !! old(used) && spent !! held
      ensures spent != {} <==> again
    {
      hide L.Ledger, RetiredSince, LengthsOk, BlocksOk, F.Block, Old, F.PagesFor, S.Sum, Sizes, Kept;
      spent := {};
      var oldCount := if oldPage == 0 then 0 else counts[oldPage];
      OldOne(Known(), oldPage);
      ghost var m0, gone := Now(), F.Block(oldPage, oldCount);
      var count;
      ghost var w := written;
      page, count := WriteNode(node, oldPage, oldCount);
      FirstPage(page, count);
      KeptFirst(m0, Now(), gone, store, w, page, count, DataOf(node));
      if again {
        ghost var m1, first, n := Now(), page, count;
        spent := F.Block(page, count);
        w := written;
        page, count := WriteNode(node, page, count);
        FirstPage(page, count);
        KeptAgain(m0, m1, Now(), gone, first, n, store, w, page, count, DataOf(node));
      }
    }

    /** One more piece, on a block of its own. */
    method AddPiece(piece: Tree, ghost pieces: seq<Tree>, ghost pages: seq<PageId>, ghost m: Memory,
                    ghost gone: set<PageId>)
      returns (page: PageId)
      requires Valid() && Shaped(piece) && m.used <= used
      requires Kept(m, Now(), gone, Elems(pages)) && Stored(pieces, pages, written, held, m.used)
      modifies this, fl, fl.inner
      ensures Valid() && m.used <= used
      ensures Kept(m, Now(), gone, Elems(pages + [page]))
      ensures Stored(pieces + [piece], pages + [page], written, held, m.used)
    {
      hide L.Ledger, RetiredSince, LengthsOk, BlocksOk, F.Block, Old, Kept, Stored, F.PagesFor, S.Sum, Sizes, Elems;
      ghost var m', w := Now(), written;
      EmptyBlock();
      var count;
      page, count := WriteNode(piece, 0, 0);
      FirstPage(page, count);
      KeptFirst(m', Now(), {}, store, w, page, count, DataOf(piece));
      KeptTwice(m, m', Now(), gone, {}, Elems(pages), {page});
      assert gone + {} == gone;
      StoredMore(pieces, pages, w, m'.held, m.used, piece, page, held);
      ElemsMore(pages, page);
    }

    /** The pieces of a node go to pages of their own, and nothing else is taken. */
    method WriteNodes(pieces: seq<Tree>, oldPage: PageId) returns (pages: seq<PageId>)
      requires Valid() && pieces != [] && forall k :: 0 <= k < |pieces| ==> Shaped(pieces[k])
      requires oldPage == 0 || (oldPage in counts && F.Block(oldPage, counts[oldPage]) <= held)
      modifies this, fl, fl.inner
      ensures Valid() && old(used) <= used && |pages| == |pieces|
      ensures Kept(old(Now()), Now(), Old(Known(), {oldPage}), Elems(pages))
      ensures Stored(pieces, pages, written, held, old(used))
    {
      hide L.Ledger, RetiredSince, LengthsOk, BlocksOk, F.Block, Old, Kept, Stored, F.PagesFor, S.Sum, Sizes, Elems;
      ghost var gone := Old(Known(), {oldPage});
      OldOne(Known(), oldPage);
      var p;
      ghost var spent;
      p, spent := WriteFirst(pieces[0], oldPage, |pieces| > 1);
      pages := [p];
      StoredOne(pieces[0], p, written, held, old(used));
      assert pieces[..1] == [pieces[0]];
      ElemsOne(p);
      for k := 1 to |pieces|
        invariant Valid() && old(used) <= used && |pages| == k
        invariant Kept(old(Now()), Now(), gone, Elems(pages))
        invariant Stored(pieces[..k], pages, written, held, old(used))
      {
        var q := AddPiece(pieces[k], pieces[..k], pages, old(Now()), gone);
        assert pieces[..k] + [pieces[k]] == pieces[..k + 1];
        pages := pages + [q];
      }
      assert pieces[..|pieces|] == pieces;
    }

    /** Splits a node and writes the pieces. */
    method WriteOut(node: Tree, oldPage: PageId) returns (out: seq<Tree>, ghost cuts: seq<nat>,
                    ghost pages: seq<PageId>)
      requires Valid() && Shaped(node)
      requires oldPage == 0 || (oldPage in counts && F.Block(oldPage, counts[oldPage]) <= held)
      modifies this, fl, fl.inner
      ensures Valid() && old(used) <= used
      ensures Kept(old(Now()), Now(), Old(Known(), {oldPage}), Elems(pages))
      ensures IsCut(node, cuts, pages, out) && Stored(out, pages, written, held, old(used))
      ensures out != [] && (|out| == 1 || 2 * |out| <= Len(node))
    {
      hide L.Ledger, RetiredSince, LengthsOk, BlocksOk, F.Block, Old, Kept, Stored, Slice, S.Cuts, Valid, Elems;
      var cs := S.SplitPoints(Sizes(node), fl.pagesize, threshold);
      if cs != [] {
        S.RootShrinks(cs, Len(node));
      }
      var pieces := CutNode(node, cs);
      var ps := WriteNodes(pieces, oldPage);
      out := seq(|pieces|, k requires 0 <= k < |pieces| && |ps| == |pieces| => pieces[k].(page := ps[k]));
      cuts, pages := cs, ps;
      Paged(node, cuts, pieces, pages, out);
      StoredPaged(pieces, pages, out, written, held, old(used));
    }

    /** Writes a node whose children are finished: exactly the pieces' blocks are new. */
    method Finish(node: Tree, oldPage: PageId, ghost h: nat) returns (out: seq<Tree>, ghost added: set<PageId>)
      requires Valid() && Tight(node) && Balanced(node, h)
      requires oldPage == 0 || (oldPage in counts && F.Block(oldPage, counts[oldPage]) <= held)
      requires node.Branch? ==> SoundAll(Now(), node.kids, h - 1)
      requires Below(node) !! Old(Known(), {oldPage})
      modifies this, fl, fl.inner
      ensures Valid() && old(used) <= used
      ensures Kept(old(Now()), Now(), Old(Known(), {oldPage}), added) && PagesAll(out) == Below(node) + added
      ensures SoundAll(Now(), out, h) && FlattenAll(out) == Flatten(node)
      ensures out != [] && (|out| == 1 || 2 * |out| <= Len(node))
    {
      hide L.Ledger, RetiredSince, LengthsOk, BlocksOk, F.Block, Old, Kept, Slice, Pages, PagesAll, Flatten,
           FlattenAll, Rep, Elems;
      ghost var m0 := Now();
      ghost var cuts, pages;
      out, cuts, pages := WriteOut(node, oldPage);
      added := Elems(pages);
      if node.Branch? {
        SoundAllHeld(m0, node.kids, h - 1);
        forall i | 0 <= i < |node.kids| ensures Pages(node.kids[i]) <= Below(node) {
          InOne(node.kids, i);
        }
        SoundAllKept(m0, Now(), Old(Known(), {oldPage}), added, node.kids, h - 1);
      }
      CutSound(Now(), node, h, cuts, pages, out);
      CutPages(node, cuts, pages, out);
    }

    ghost predicate Spillable(t: Tree, h: nat)
      reads `held
    {
      Spills(Known(), t, h) && Old(Known(), Pages(t)) <= held
    }

    /** Writes a loaded node and everything loaded below it. */
    method SpillNode(t: Tree, ghost h: nat) returns (out: seq<Tree>)
      requires Valid() && Spillable(t, h)
      modifies this, fl, fl.inner
      ensures Valid() && old(used) <= used
      ensures Kept(old(Now()), Now(), Old(Known(), Pages(t)), PagesAll(out) - keep)
      ensures Carried(Known(), Pages(t), PagesAll(out))
      ensures SoundAll(Now(), out, h) && FlattenAll(out) == Flatten(t) && out != []
      decreases t, 1
    {
      hide L.Ledger, RetiredSince, LengthsOk, BlocksOk, F.Block, Old, Kept, Pages, PagesAll, Flatten, FlattenAll,
           SoundAll, Progress, Carried;
      ghost var b, m0 := Known(), Now();
      PagesOfNode(t);
      NodeOld(b, t);
      NoZero(fl.inner.State(), fl.numPages, held, fl.txId);
      if t.Leaf? {
        ghost var added;
        out, added := Finish(t, t.page, h);
        assert Pages(t) == {t.page};
        LeafCarried(b, t, m0, Now(), Old(b, {t.page}), added, out);
      } else {
        var seps, kids := SpillKids(t, h);
        ghost var m1 := Now();
        SpilledNode(b, t, h, seps, kids, m0, m1);
        ghost var added;
        out, added := Finish(Branch(t.page, seps, kids), t.page, h);
        FlattenBranch(t);
        FlattenBranch(Branch(t.page, seps, kids));
        OldUnion(b, Below(t), {t.page});
        assert Pages(t) == Below(t) + {t.page};
        KeptTwice(m0, m1, Now(), Old(b, Below(t)), Old(b, {t.page}), PagesAll(kids) - keep, added);
        NodeCarried(b, t, kids, m0, m1, Now(), Old(b, Below(t)), Old(b, {t.page}), added, out);
      }
    }

    /** The children, in key order. */
    method SpillKids(t: Tree, ghost h: nat) returns (seps: seq<Key>, kids: seq<Tree>)
      requires Valid() && Spillable(t, h) && t.Branch?
      modifies this, fl, fl.inner
      ensures Valid() && old(used) <= used && h > 0
      ensures Progress(Known(), t, h - 1, |t.kids|, kids, old(Now()), Now())
      ensures AllTight(kids) && seps == NodeKeys(kids)
      decreases t, 0, 1
    {
      hide L.Ledger, RetiredSince, LengthsOk, BlocksOk, F.Block, Old, Kept, Pages, PagesAll, FlattenAll, Progress,
           Tight, NodeKey, Keyed, Spills;
      SpillsShape(Known(), t, h);
      ghost var m0 := Now();
      seps, kids := t.seps, t.kids;
      ghost var done: seq<Tree> := [];
      NoProgress(Known(), t, h - 1, m0);
      for i := 0 to |t.kids|
        invariant Valid()
        invariant Progress(Known(), t, h - 1, i, done, m0, Now()) && AllTight(done)
        invariant seps == NodeKeys(done) + t.seps[i..] && kids == done + t.kids[i..]
      {
        seps, kids, done := SpillKid(t, h, i, seps, kids, done, m0);
      }
      assert t.seps[|t.kids|..] == [] && t.kids[|t.kids|..] == [];
      assert seps == NodeKeys(done) && kids == done;
      ProgressUsed(Known(), t, h - 1, |t.kids|, kids, m0, Now());
    }

    /** One child: if it is loaded it is written, and its elements replace the old one. */
    method SpillKid(t: Tree, ghost h: nat, i: nat, seps: seq<Key>, kids: seq<Tree>, ghost done: seq<Tree>,
                    ghost m0: Memory)
      returns (seps': seq<Key>, kids': seq<Tree>, ghost done': seq<Tree>)
      requires Valid() && Spills(Known(), t, h) && t.Branch? && h > 0 && i < |t.kids| == |t.seps|
      requires Old(Known(), Pages(t)) <= m0.held <= m0.used && keep <= m0.held
      requires Progress(Known(), t, h - 1, i, done, m0, Now()) && AllTight(done)
      requires seps == NodeKeys(done) + t.seps[i..] && kids == done + t.kids[i..]
      modifies this, fl, fl.inner
      ensures Valid() && old(used) <= used
      ensures Progress(Known(), t, h - 1, i + 1, done', m0, Now()) && AllTight(done')
      ensures seps' == NodeKeys(done') + t.seps[i + 1..] && kids' == done' + t.kids[i + 1..]
      decreases t, 0, 0
    {
      hide L.Ledger, RetiredSince, LengthsOk, BlocksOk, F.Block, Old, Kept, Pages, PagesAll, FlattenAll, SoundAll,
           Progress;
      hide Staged, SortedKeys, Tight, NodeKey, Keyed, Balanced, Full, Unshared, Ready, Carried, Settled;
      ghost var m1 := Now();
      var kid := t.kids[i];
      KidReady(Known(), t, h, i, done, m0, m1);
      if kid.page in counts {
        var out := SpillNode(kid, h - 1);
        done' := done + out;
        ProgressStep(Known(), t, h - 1, i, done, out, m0, m1, Now());
        SoundAllTight(Now(), out, h - 1);
        KidOrder(Known(), t, h - 1, i, done, out, m0, m1, Now());
        assert seps[..|done|] == NodeKeys(done) && seps[|done| + 1..] == t.seps[i + 1..];
        assert kids[..|done|] == done && kids[|done| + 1..] == t.kids[i + 1..];
        seps', kids' := InsertBranches(seps, kids, |done|, orig[kid.page], out);
      } else {
        done' := done + [kid];
        SettledStep(Known(), t, h - 1, i, done, m0, m1, written);
        KeysAppend(done, [kid]);
        seps', kids' := seps, kids;
        assert t.seps[i..] == [t.seps[i]] + t.seps[i + 1..] && t.kids[i..] == [t.kids[i]] + t.kids[i + 1..];
      }
    }

    /** An emptied bucket keeps one empty leaf. */
    method SpillEmpty(t: Tree) returns (root: Tree)
      requires Valid() && t.Leaf? && t.entries == [] && t.page in counts && Old(Known(), Pages(t)) <= held
      modifies this, fl, fl.inner
      ensures Valid() && Kept(old(Now()), Now(), Old(Known(), Pages(t)), {root.page})
      ensures Written(root, Now()) && root.Leaf? && root.entries == []
    {
      hide L.Ledger, RetiredSince, LengthsOk, BlocksOk, F.Block, Old, Kept, Elems;
      ghost var cuts, pages;
      OldOne(Known(), t.page);
      var out;
      out, cuts, pages := WriteOut(t, t.page);
      root := out[0];
      assert Stored(out, pages, written, held, old(used)) && root.page == pages[0];
      assert View()[root.page] == written[root.page];
      assert pages == [root.page];
      ElemsOne(root.page);
    }

    /** New roots are added until one node holds everything. */
    method GrowRoot(nodes: seq<Tree>, ghost h: nat) returns (root: Tree, ghost height: nat, ghost added: set<PageId>)
      requires Valid() && nodes != [] && SoundAll(Now(), nodes, h)
      modifies this, fl, fl.inner
      ensures Valid() && Kept(old(Now()), Now(), {}, added) && Pages(root) == PagesAll(nodes) + added
      ensures Flatten(root) == FlattenAll(nodes) && Tight(root) && Written(root, Now()) && Balanced(root, height)
      decreases |nodes|
    {
      hide L.Ledger, RetiredSince, LengthsOk, BlocksOk, F.Block, Old, Kept, Pages, PagesAll, Flatten, FlattenAll, Rep;
      if |nodes| == 1 {
        root, height, added := nodes[0], h, {};
        assert nodes == [root];
        assert Sound(Now(), root, h);
        FlattenOne(root);
        PagesOne(root);
        KeptSame(Now());
      } else {
        ghost var m0 := Now();
        SoundAllTight(m0, nodes, h);
        NewRoot(m0, nodes, h);
        OldNone(Known());
        var out;
        out, added := Finish(Branch(0, NodeKeys(nodes), nodes), 0, h + 1);
        ghost var m1, more := Now(), {};
        root, height, more := GrowRoot(out, h + 1);
        KeptTwice(m0, m1, Now(), {}, {}, added, more);
        NoneTwice();
        added := added + more;
      }
    }

    /** Writes a bucket.  The new tree holds exactly the entries, routes every key, is what
        its pages spell, and shares pages exactly with the subtrees that were never loaded.
        The pages held lose the old blocks and gain the new tree's blocks, and no others. */
    method SpillRoot(t: Tree, ghost h: nat) returns (root: Tree, ghost height: nat)
      requires Valid() && ((t == Leaf(t.page, []) && t.page in counts) || Spills(Known(), t, h))
      requires Old(Known(), Pages(t)) <= held
      modifies this, fl, fl.inner
      ensures Valid() && Kept(old(Now()), Now(), Old(Known(), Pages(t)), Pages(root) - keep)
      ensures held == old(held) - Old(Known(), Pages(t)) + Blocks(lengths, Pages(root) - keep)
      ensures Pages(root) * keep == Pages(t) * keep
      ensures Flatten(root) == Flatten(t) && Routable(root) && Written(root, Now())
      ensures Balanced(root, height) && (root == Leaf(root.page, []) || Tight(root))
    {
      hide L.Ledger, RetiredSince, LengthsOk, BlocksOk, F.Block, Old, Kept, Pages, PagesAll, FlattenAll, Rep, SoundAll,
           Spills;
      assert t.page in counts by {
        if Spills(Known(), t, h) {
          SpillsPage(Known(), t, h);
        }
      }
      if t == Leaf(t.page, []) {
        ghost var m0 := Now();
        root := SpillEmpty(t);
        height := 0;
        PagesOfNode(t);
        PagesOfNode(root);
        assert Pages(t) == {t.page} && Pages(root) == {root.page};
        NoZero(fl.inner.State(), fl.numPages, held, fl.txId);
        EmptyCarried(Known(), t, m0, Now(), root);
      } else {
        ghost var m0 := Now();
        var out := SpillNode(t, h);
        ghost var m1 := Now();
        ghost var more;
        root, height, more := GrowRoot(out, h);
        KeptTwice(m0, m1, Now(), Old(Known(), Pages(t)), {}, PagesAll(out) - keep, more);
        assert Old(Known(), Pages(t)) + {} == Old(Known(), Pages(t));
        SpillsSorted(Known(), t, h);
        TightRoutable(root);
        KeptUsed(m1, Now(), {}, more);
        assert Pages(root) - keep == (PagesAll(out) - keep) + more;
        assert Pages(root) * keep == PagesAll(out) * keep;
      }
      KeptHeld(old(Now()), Now(), Old(Known(), Pages(t)), Pages(root) - keep);
    }
  }

  /** What `spill` relies on: rebalanced, and every loaded node under the separator it was
      loaded with. */
  ghost predicate Spills(b: Base, t: Tree, h: nat) {
    Ready(b, t) && Staged(t) && Full(t) && Balanced(t, h) && Unshared(t)
  }

  lemma SpillsShape(b: Base, t: Tree, h: nat)
    requires Spills(b, t, h) && t.Branch?
    ensures h > 0 && |t.seps| == |t.kids|
  {
  }

  lemma KidReady(b: Base, t: Tree, h: nat, i: nat, done: seq<Tree>, m: Memory, m': Memory)
    requires BlocksOk(b) && Spills(b, t, h) && t.Branch? && h > 0 && i < |t.kids| && Old(b, Pages(t)) <= m.held
    requires Progress(b, t, h - 1, i, done, m, m')
    ensures var kid := t.kids[i];
            && Balanced(kid, h - 1) && Unshared(kid)
            && if kid.page in b.counts
               then Spills(b, kid, h - 1) && kid.page in b.orig && b.orig[kid.page] == t.seps[i]
                   && Old(b, Pages(kid)) <= m'.held
               else Settled(b, t.seps[i], kid)
  {
    hide Pages, PagesAll, BlocksOk, Old, SoundAll, FlattenAll, Settled;
    PrefixPages(t, i);
    OldFacts(b, Pages(t.kids[i]), Pages(t));
    OldFacts(b, PagesAll(t.kids[..i]), Pages(t.kids[i]));
  }

  /** Before and after a child is written, the branch's elements are in key order. */
  lemma KidOrder(b: Base, t: Tree, h: nat, i: nat, done: seq<Tree>, out: seq<Tree>, m0: Memory, m1: Memory, m2: Memory)
    requires Staged(t) && t.Branch? && i < |t.kids| == |t.seps| && AllTight(done) && AllTight(out)
    requires Progress(b, t, h, i, done, m0, m1)
    requires Progress(b, t, h, i + 1, done + out, m0, m2)
    ensures SortedKeys(NodeKeys(done) + t.seps[i..])
    ensures AllTight(done + out) && NodeKeys(done + out) == NodeKeys(done) + NodeKeys(out)
    ensures SortedKeys(NodeKeys(done) + NodeKeys(out) + t.seps[i + 1..])
  {
    hide Staged, Tight, NodeKey, Keyed, Sound, Kept, Carried, Pages, FlattenAll;
    KeysAppend(done, out);
    ElementsSorted(t, i, done);
    ElementsSorted(t, i + 1, done + out);
  }

  lemma KeysAppend(a: seq<Tree>, b: seq<Tree>)
    requires AllTight(a) && AllTight(b)
    ensures AllTight(a + b) && NodeKeys(a + b) == NodeKeys(a) + NodeKeys(b)
  {
  }

  lemma OldSettled(b: Base, ps: set<PageId>)
    requires BlocksOk(b) && ps <= b.keep
    ensures Old(b, ps) == {}
  {
    forall p | p in ps && p in b.counts ensures F.Block(p, b.counts[p]) == {} {
      assert b.counts[p] > 0 ==> p in F.Block(p, b.counts[p]);
    }
  }

  /** A child never loaded stays as it is. */
  lemma SettledStep(b: Base, t: Tree, h: nat, i: nat, done: seq<Tree>, m: Memory, m': Memory,
                    written: map<PageId, PageData>)
    requires t.Branch? && i < |t.kids| && Unshared(t) && BlocksOk(b) && b.keep <= m.used && m'.held <= m'.used
    requires Old(b, Pages(t)) <= m.used && b.keep <= m'.held && written.Keys !! b.keep && m'.view == b.store + written
    requires Progress(b, t, h, i, done, m, m')
    requires |t.seps| == |t.kids| && Settled(b, t.seps[i], t.kids[i]) && Balanced(t.kids[i], h) && Unshared(t.kids[i])
    ensures Progress(b, t, h, i + 1, done + [t.kids[i]], m, m')
    ensures AllTight([t.kids[i]]) && NodeKeys([t.kids[i]]) == [t.seps[i]]
  {
    hide Pages, PagesAll, Flatten, FlattenAll, BlocksOk, Old, Rep, Tight, Balanced, Unshared, NodeKey, Keyed, Progress,
         SoundAll;
    var kid := t.kids[i];
    SettledSound(b, t.seps[i], kid, h, written, m');
    SoundAllOne(m', kid, h);
    KeptSame(m');
    OldSettled(b, Pages(kid));
    PagesOne(kid);
    assert PagesAll([kid]) - b.keep == {};
    ProgressStep(b, t, h, i, done, [kid], m, m', m');
  }

  /** With all children written the node itself is tight, and its old block still held. */
  lemma SpilledNode(b: Base, t: Tree, h: nat, seps: seq<Key>, kids: seq<Tree>, m: Memory, m': Memory)
    requires BlocksOk(b) && t.Branch? && h > 0 && Full(t) && Balanced(t, h) && Unshared(t) && t.page in b.counts
    requires Old(b, Pages(t)) <= m.held <= m.used
    requires Progress(b, t, h - 1, |t.kids|, kids, m, m')
    requires AllTight(kids) && seps == NodeKeys(kids)
    ensures var node := Branch(t.page, seps, kids);
            Tight(node) && Balanced(node, h) && FlattenAll(kids) == FlattenAll(t.kids)
    ensures SoundAll(m', kids, h - 1) && Carried(b, Below(t), PagesAll(kids))
    ensures PagesAll(kids) !! Old(b, {t.page})
    ensures F.Block(t.page, b.counts[t.page]) <= m'.held
    ensures Kept(m, m', Old(b, Below(t)), PagesAll(kids) - b.keep)
  {
    hide Pages, PagesAll, Flatten, FlattenAll, BlocksOk, Old, Rep, NodeKey, Keyed;
    assert t.kids[..|t.kids|] == t.kids;
    NodeOld(b, t);
    FullNonempty(t);
    FlattenBranch(t);
    FlattenEmpty();
    forall i | 0 <= i < |kids| ensures Balanced(kids[i], h - 1) {
      assert Sound(m', kids[i], h - 1);
    }
  }

  lemma {:induction false} FullNonempty(t: Tree)
    requires Full(t)
    ensures Flatten(t) != []
    decreases t
  {
    if t.Branch? {
      FullNonempty(t.kids[0]);
      FlattenSplit(t.kids, 0);
    }
  }

  /** A whole tree on held pages of its own, as the view spells it. */
  ghost predicate Written(t: Tree, m: Memory) {
    Unshared(t) && Pages(t) <= m.held && Rep(m.view, t)
  }

  lemma KeptSame(m: Memory)
    ensures Kept(m, m, {}, {})
  {
  }

  lemma OldNone(b: Base)
    requires BlocksOk(b)
    ensures Old(b, {0}) == {}
  {
    if 0 in b.counts {
      OldOne(b, 0);
    }
  }

  lemma NewRoot(m: Memory, nodes: seq<Tree>, h: nat)
    requires nodes != [] && SoundAll(m, nodes, h) && AllTight(nodes)
    ensures var t := Branch(0, NodeKeys(nodes), nodes);
            Tight(t) && Balanced(t, h + 1) && Flatten(t) == FlattenAll(nodes)
  {
    forall i | 0 <= i < |nodes| ensures Balanced(nodes[i], h) {
      assert Sound(m, nodes[i], h);
    }
  }

  lemma SpillsPage(b: Base, t: Tree, h: nat)
    requires Spills(b, t, h)
    ensures t.page in b.counts
  {
  }

  lemma SpillsSorted(b: Base, t: Tree, h: nat)
    requires Spills(b, t, h)
    ensures Sorted(Flatten(t))
  {
    StagedSorted(t);
  }

  lemma KeptHeld(m: Memory, m': Memory, gone: set<PageId>, ps: set<PageId>)
    requires Kept(m, m', gone, ps)
    ensures m'.held == m.held - gone + Blocks(m'.lengths, ps)
  {
  }

  lemma LoadedApart(b: Base, p: PageId)
    requires BlocksOk(b) && p in b.counts && 0 !in b.keep
    ensures p !in b.keep
  {
    if b.counts[p] > 0 {
      FirstPage(p, b.counts[p]);
    }
  }

  lemma NoZero(s: F.FreeState, numPages: nat, held: set<PageId>, tx: F.TxId)
    requires L.Ledger(s, numPages, held, tx)
    ensures 0 !in held
  {
  }

  lemma EmptyCarried(b: Base, t: Tree, m: Memory, m': Memory, root: Tree)
    requires BlocksOk(b) && t.page in b.counts && 0 !in b.keep && b.keep <= m.used
    requires Kept(m, m', Old(b, {t.page}), {root.page})
    ensures {root.page} - b.keep == {root.page} && {root.page} * b.keep == {t.page} * b.keep
  {
    LoadedApart(b, t.page);
  }

  lemma LeafCarried(b: Base, t: Tree, m: Memory, m': Memory, gone: set<PageId>, added: set<PageId>, out: seq<Tree>)
    requires BlocksOk(b) && t.Leaf? && t.page in b.counts && 0 !in b.keep && b.keep <= m.used
    requires Kept(m, m', gone, added) && PagesAll(out) == Below(t) + added
    ensures PagesAll(out) - b.keep == added && Carried(b, {t.page}, PagesAll(out))
  {
    hide PagesAll, BlocksOk;
    LoadedApart(b, t.page);
  }

  lemma NodeCarried(b: Base, t: Tree, kids: seq<Tree>, m: Memory, m': Memory, m'': Memory, gone: set<PageId>,
                    lost: set<PageId>, added: set<PageId>, out: seq<Tree>)
    requires BlocksOk(b) && t.Branch? && t.page in b.counts && 0 !in b.keep && b.keep <= m.used
    requires Kept(m, m', gone, PagesAll(kids) - b.keep) && Carried(b, Below(t), PagesAll(kids))
    requires Kept(m', m'', lost, added) && PagesAll(out) == PagesAll(kids) + added
    ensures PagesAll(out) - b.keep == (PagesAll(kids) - b.keep) + added && Carried(b, Pages(t), PagesAll(out))
  {
    hide Pages, PagesAll, BlocksOk, Blocks, Below;
    PagesOfNode(t);
    LoadedApart(b, t.page);
    assert Pages(t) * b.keep == Below(t) * b.keep;
    assert PagesAll(out) * b.keep == PagesAll(kids) * b.keep;
  }

  lemma ProgressUsed(b: Base, t: Tree, h: nat, i: nat, done: seq<Tree>, m: Memory, m': Memory)
    requires t.Branch? && i <= |t.kids| && Progress(b, t, h, i, done, m, m')
    ensures m.used <= m'.used
  {
  }

  lemma NoProgress(b: Base, t: Tree, h: nat, m: Memory)
    requires t.Branch?
    ensures Progress(b, t, h, 0, [], m, m)
  {
    assert t.kids[..0] == [];
  }

  lemma NodeOld(b: Base, t: Tree)
    requires BlocksOk(b) && Unshared(t) && t.page in b.counts
    ensures Old(b, {t.page}) <= Old(b, Pages(t)) && Old(b, Below(t)) <= Old(b, Pages(t))
    ensures Old(b, {t.page}) !! Old(b, Below(t)) && Old(b, {t.page}) !! b.keep
    ensures F.Block(t.page, b.counts[t.page]) == Old(b, {t.page})
  {
    PagesOfNode(t);
    OwnPage(t);
    OldFacts(b, {t.page}, Pages(t));
    OldFacts(b, Below(t), Pages(t));
    OldFacts(b, {t.page}, Below(t));
    OldOne(b, t.page);
  }

  /** The pieces' pages are the new ones and every page below the node. */
  lemma CutPages(node: Tree, cuts: seq<nat>, pages: seq<PageId>, out: seq<Tree>)
    requires IsCut(node, cuts, pages, out)
    ensures PagesAll(out) == Below(node) + Elems(pages)
  {
    hide Pages, PagesAll, Slice, IsCut;
    forall p | p in PagesAll(out) ensures p in Below(node) + Elems(pages) {
      InPagesAll(out, p);
      var k :| 0 <= k < |out| && p in Pages(out[k]);
      CutBelow(node, cuts, pages, out, k, p);
    }
    forall p | p in Below(node) + Elems(pages) ensures p in PagesAll(out) {
      var k := CutHolds(node, cuts, pages, out, p);
      InPagesAll(out, p);
    }
  }

  lemma CutBelow(node: Tree, cuts: seq<nat>, pages: seq<PageId>, out: seq<Tree>, k: nat, p: PageId)
    requires IsCut(node, cuts, pages, out) && k < |out| && p in Pages(out[k])
    ensures |pages| == |out| && (p == pages[k] || p in Below(node))
  {
    hide Pages, Slice;
    var i := SlicePages(node, pages[k], S.Start(cuts, k), S.End(cuts, Len(node), k), p);
    if p != pages[k] {
      KidPages(node, i);
    }
  }

  lemma CutHolds(node: Tree, cuts: seq<nat>, pages: seq<PageId>, out: seq<Tree>, p: PageId) returns (k: nat)
    requires IsCut(node, cuts, pages, out) && p in Below(node) + Elems(pages)
    ensures k < |out| && p in Pages(out[k])
  {
    hide Pages, PagesAll, Slice, S.Cuts;
    if p in pages {
      k :| 0 <= k < |pages| && pages[k] == p;
      SliceOwn(node, p, S.Start(cuts, k), S.End(cuts, Len(node), k));
    } else {
      InPagesAll(node.kids, p);
      var i :| 0 <= i < |node.kids| && p in Pages(node.kids[i]);
      k := PieceOf(cuts, Len(node), i, |cuts|);
      SliceHolds(node, pages[k], S.Start(cuts, k), S.End(cuts, Len(node), k), i, p);
    }
  }

  lemma SliceOwn(t: Tree, page: PageId, a: nat, b: nat)
    requires (t.Branch? ==> |t.seps| == |t.kids|) && a <= b <= Len(t)
    ensures page in Pages(Slice(t, page, a, b))
  {
    hide PagesAll;
  }

  lemma SliceHolds(t: Tree, page: PageId, a: nat, b: nat, i: nat, p: PageId)
    requires t.Branch? && |t.seps| == |t.kids| && a <= i < b <= Len(t) && p in Pages(t.kids[i])
    ensures p in Pages(Slice(t, page, a, b))
  {
    hide Pages, PagesAll;
    var s := Slice(t, page, a, b);
    PagesOfNode(s);
    InPagesAll(s.kids, p);
    assert s.kids[i - a] == t.kids[i];
  }

  lemma {:induction false} PieceOf(cuts: seq<nat>, n: nat, i: nat, m: nat) returns (k: nat)
    requires m <= |cuts| && i < S.End(cuts, n, m)
    ensures k <= m && S.Start(cuts, k) <= i < S.End(cuts, n, k)
  {
    if S.Start(cuts, m) <= i {
      k := m;
    } else {
      k := PieceOf(cuts, n, i, m - 1);
    }
  }

  lemma Paged(t: Tree, cuts: seq<nat>, pieces: seq<Tree>, pages: seq<PageId>, out: seq<Tree>)
    requires |pieces| == |cuts| + 1 && IsCut(t, cuts, seq(|pieces|, _ => 0), pieces)
    requires |pages| == |pieces| == |out| && forall k :: 0 <= k < |out| ==> out[k] == pieces[k].(page := pages[k])
    ensures IsCut(t, cuts, pages, out)
  {
  }

  lemma StoredPaged(pieces: seq<Tree>, pages: seq<PageId>, out: seq<Tree>, written: map<PageId, PageData>,
                    held: set<PageId>, used: set<PageId>)
    requires Stored(pieces, pages, written, held, used)
    requires |out| == |pieces| && forall k :: 0 <= k < |out| ==> out[k] == pieces[k].(page := pages[k])
    ensures Stored(out, pages, written, held, used)
  {
    forall k | 0 <= k < |out| ensures DataOf(out[k]) == DataOf(pieces[k]) {
    }
  }

  /** A node is written: `lost` is given up, its block taken. */
  ghost predicate Wrote(m: Memory, m': Memory, lost: set<PageId>, store: map<PageId, PageData>,
                        written: map<PageId, PageData>, p: PageId, n: nat, d: PageData)
  {
    && m.view == store + written && m'.view == store + written[p := d] && p in F.Block(p, n)
    && m'.held == m.held - lost + F.Block(p, n) && m'.used == m.used + F.Block(p, n) && F.Block(p, n) !! m.used
    && m.lengths.Keys <= m.used && m'.lengths == m.lengths[p := n]
  }

  lemma BlocksOne(lengths: map<PageId, nat>, p: PageId)
    requires p in lengths
    ensures Blocks(lengths, {p}) == F.Block(p, lengths[p])
  {
  }

  lemma KeptFirst(m: Memory, m': Memory, lost: set<PageId>, store: map<PageId, PageData>,
                  written: map<PageId, PageData>, p: PageId, n: nat, d: PageData)
    requires Wrote(m, m', lost, store, written, p, n, d) && lost <= m.held <= m.used
    ensures Kept(m, m', lost, {p})
  {
    hide F.Block, Blocks;
    BlocksOne(m'.lengths, p);
  }

  /** A second write gives the first block up. */
  lemma KeptAgain(m: Memory, m': Memory, m'': Memory, gone: set<PageId>, q: PageId, k: nat,
                  store: map<PageId, PageData>,
                  written: map<PageId, PageData>, p: PageId, n: nat, d: PageData)
    requires Kept(m, m', gone, {q}) && q in m'.lengths && m'.lengths[q] == k && m.held <= m.used
    requires Wrote(m', m'', F.Block(q, k), store, written, p, n, d)
    ensures Kept(m, m'', gone, {p})
  {
    hide F.Block, Blocks;
    BlocksOne(m'.lengths, q);
    BlocksOne(m''.lengths, p);
  }

  lemma NoneTwice()
    ensures var none: set<PageId> := {}; none + none == none
  {
  }

  ghost function Elems(pages: seq<PageId>): set<PageId> {
    set p | p in pages
  }

  lemma ElemsOne(p: PageId)
    ensures Elems([p]) == {p}
  {
  }

  lemma ElemsMore(pages: seq<PageId>, p: PageId)
    ensures Elems(pages + [p]) == Elems(pages) + {p}
  {
  }

  lemma StoredOne(piece: Tree, page: PageId, written: map<PageId, PageData>, held: set<PageId>, used: set<PageId>)
    requires page in held && page !in used && page in written && written[page] == DataOf(piece)
    ensures Stored([piece], [page], written, held, used)
  {
  }

  lemma StoredMore(pieces: seq<Tree>, pages: seq<PageId>, written: map<PageId, PageData>, held: set<PageId>,
                   used: set<PageId>, piece: Tree, page: PageId, held': set<PageId>)
    requires Stored(pieces, pages, written, held, used) && page !in held && page !in used && page in held'
             && held <= held'
    ensures Stored(pieces + [piece], pages + [page], written[page := DataOf(piece)], held', used)
  {
  }

  lemma RetiredMore(start: F.FreeState, now: F.FreeState, tx: F.TxId, page: PageId, count: nat, held: set<PageId>,
                    used: set<PageId>)
    requires RetiredSince(start, now, tx, held, used) && F.Block(page, count) <= held <= used
    ensures RetiredSince(start, F.FreedBlock(now, tx, page, count), tx, held - F.Block(page, count), used)
  {
    F.FreedBlockContents(now, tx, page, count);
  }

  lemma RetiredSame(start: F.FreeState, now: F.FreeState, now': F.FreeState, tx: F.TxId, held: set<PageId>,
                    used: set<PageId>,
                    block: set<PageId>)
    requires RetiredSince(start, now, tx, held, used) && now'.pending == now.pending && block !! used
    ensures RetiredSince(start, now', tx, held + block, used + block)
  {
    forall t: F.TxId, p: PageId ensures F.InPending(now', t, p) <==> F.InPending(now, t, p) {
    }
  }

  predicate Shaped(t: Tree) {
    t.Branch? ==> |t.seps| == |t.kids|
  }

  /** Each piece is on a page of its own that was never used before. */
  ghost predicate Stored(pieces: seq<Tree>, pages: seq<PageId>, written: map<PageId, PageData>, held: set<PageId>,
                         used: set<PageId>)
  {
    && |pages| == |pieces|
    && (forall k :: 0 <= k < |pages| ==>
          pages[k] in held && pages[k] !in used && pages[k] in written && written[pages[k]] == DataOf(pieces[k]))
    && forall j, k :: 0 <= j < k < |pages| ==> pages[j] != pages[k]
  }

  lemma FirstPage(p: PageId, n: nat)
    requires n > 0
    ensures p in F.Block(p, n)
  {
  }

  lemma EmptyBlock()
    ensures F.Block(0, 0) == {}
  {
  }

  lemma OldOne(b: Base, p: PageId)
    requires BlocksOk(b) && (p == 0 || p in b.counts)
    ensures Old(b, {p}) == F.Block(p, if p == 0 then 0 else b.counts[p])
    ensures p != 0 ==> p > 1 && b.counts[p] > 0
    ensures Old(b, {p}) !! b.keep
  {
    OldFacts(b, {p}, {});
  }
}
