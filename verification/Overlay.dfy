/** One bucket inside a transaction: committed pages shadowed by the nodes loaded for
    editing.  Every run of reads and writes answers as a sorted map would. */
module Overlay {
  import opened Wrappers
  import opened Bytes
  import opened BTree
  import opened LeafEdit

  // ---------- a tree spread over pages ----------

  function Pages(t: Tree): set<PageId>
    decreases t, 1
  {
    match t
    case Leaf(p, _) => {p}
    case Branch(p, _, kids) => {p} + PagesAll(kids)
  }

  function PagesAll(ts: seq<Tree>): set<PageId>
    decreases ts, 0
  {
    if ts == [] then {} else Pages(ts[0]) + PagesAll(ts[1..])
  }

  lemma {:induction false} InPagesAll(ts: seq<Tree>, p: PageId)
    ensures p in PagesAll(ts) <==> exists i :: 0 <= i < |ts| && p in Pages(ts[i])
  {
    if ts != [] {
      InPagesAll(ts[1..], p);
      if i :| 0 <= i < |ts| && p in Pages(ts[i]) {
        assert i > 0 ==> ts[1..][i - 1] == ts[i];
      }
      if p in PagesAll(ts[1..]) {
        var i :| 0 <= i < |ts[1..]| && p in Pages(ts[1..][i]);
        assert ts[i + 1] == ts[1..][i];
      }
    }
  }

  /** No page occurs twice. */
  ghost predicate Unshared(t: Tree) {
    match t
    case Leaf(_, _) => true
    case Branch(p, _, kids) =>
      && (forall i :: 0 <= i < |kids| ==> Unshared(kids[i]) && p !in Pages(kids[i]))
      && forall i, j :: 0 <= i < j < |kids| ==> Pages(kids[i]) !! Pages(kids[j])
  }

  function RootPages(ts: seq<Tree>): (ps: seq<PageId>)
    ensures |ps| == |ts| && forall i :: 0 <= i < |ts| ==> ps[i] == ts[i].page
  {
    seq(|ts|, i requires 0 <= i < |ts| => ts[i].page)
  }

  /** The contents of a node's page. */
  function DataOf(t: Tree): PageData {
    match t
    case Leaf(_, es) => Leaves(es)
    case Branch(_, seps, kids) => Branches(seps, RootPages(kids))
  }

  /** The tree `t` is what the pages in `view` spell. */
  ghost predicate Rep(view: map<PageId, PageData>, t: Tree) {
    && t.page in view
    && match t
       case Leaf(p, es) => view[p] == Leaves(es)
       case Branch(p, seps, kids) =>
         view[p] == Branches(seps, RootPages(kids)) && forall i :: 0 <= i < |kids| ==> Rep(view, kids[i])
  }

  lemma RepHasPage(view: map<PageId, PageData>, t: Tree)
    requires Rep(view, t)
    ensures t.page in view
  {
  }

  lemma {:induction false} RepFrame(view: map<PageId, PageData>, t: Tree, p: PageId, d: PageData)
    requires Rep(view, t) && p !in Pages(t)
    ensures Rep(view[p := d], t)
    decreases t
  {
    if t.Branch? {
      forall i | 0 <= i < |t.kids| ensures Rep(view[p := d], t.kids[i]) {
        InPagesAll(t.kids, p);
        RepFrame(view, t.kids[i], p, d);
      }
    }
  }

  lemma {:induction false} RoutePage(t: Tree, key: Key)
    requires Routable(t)
    ensures Route(t, key).page in Pages(t)
    decreases t
  {
    if t.Branch? {
      var i := Index(t.seps, key);
      RoutePage(t.kids[i], key);
      InPagesAll(t.kids, Route(t, key).page);
    }
  }

  /** Rewriting the routed leaf's page rewrites exactly that leaf. */
  lemma {:induction false} RepSetLeaf(view: map<PageId, PageData>, t: Tree, key: Key, es: seq<Entry>)
    requires Rep(view, t) && Routable(t) && Unshared(t)
    ensures Rep(view[Route(t, key).page := Leaves(es)], SetLeaf(t, key, es))
    decreases t
  {
    if t.Branch? {
      var i := Index(t.seps, key);
      var p := Route(t, key).page;
      var view' := view[p := Leaves(es)];
      RepSetLeaf(view, t.kids[i], key, es);
      RoutePage(t.kids[i], key);
      var kids' := t.kids[i := SetLeaf(t.kids[i], key, es)];
      SetLeafPage(t.kids[i], key, es);
      assert RootPages(kids') == RootPages(t.kids);
      forall j | 0 <= j < |kids'| ensures Rep(view', kids'[j]) {
        if j != i {
          RepFrame(view, t.kids[j], p, Leaves(es));
        }
      }
    }
  }

  lemma SetLeafPage(t: Tree, key: Key, es: seq<Entry>)
    ensures SetLeaf(t, key, es).page == t.page
  {
  }

  lemma {:induction false} SetLeafUnshared(t: Tree, key: Key, es: seq<Entry>)
    requires Routable(t)
    ensures Pages(SetLeaf(t, key, es)) == Pages(t)
    ensures Unshared(t) ==> Unshared(SetLeaf(t, key, es))
    decreases t
  {
    if t.Branch? {
      var i := Index(t.seps, key);
      SetLeafUnshared(t.kids[i], key, es);
      SamePagesAll(t.kids, i, SetLeaf(t.kids[i], key, es));
    }
  }

  /** The tree without its entries: what edits leave alone. */
  ghost function Shape(t: Tree): Tree {
    match t
    case Leaf(p, _) => Leaf(p, [])
    case Branch(p, seps, kids) => Branch(p, seps, seq(|kids|, i requires 0 <= i < |kids| => Shape(kids[i])))
  }

  lemma {:induction false} SetLeafShape(t: Tree, key: Key, es: seq<Entry>)
    requires Routable(t)
    ensures Shape(SetLeaf(t, key, es)) == Shape(t)
    decreases t
  {
    if t.Branch? {
      SetLeafShape(t.kids[Index(t.seps, key)], key, es);
    }
  }

  lemma SamePagesAll(ts: seq<Tree>, i: nat, t: Tree)
    requires i < |ts| && Pages(t) == Pages(ts[i])
    ensures PagesAll(ts[i := t]) == PagesAll(ts)
  {
    forall p ensures p in PagesAll(ts[i := t]) <==> p in PagesAll(ts) {
      InPagesAll(ts, p);
      InPagesAll(ts[i := t], p);
      var us := ts[i := t];
      if j :| 0 <= j < |ts| && p in Pages(ts[j]) {
        assert p in Pages(us[j]);
      }
      if j :| 0 <= j < |us| && p in Pages(us[j]) {
        assert p in Pages(ts[j]);
      }
    }
  }

  lemma {:induction false} RepRoute(view: map<PageId, PageData>, t: Tree, key: Key)
    requires Rep(view, t) && Routable(t)
    ensures Rep(view, Route(t, key))
    decreases t
  {
    if t.Branch? {
      RepRoute(view, t.kids[Index(t.seps, key)], key);
    }
  }

  lemma InsertReplaces(es: seq<Entry>, e: Entry)
    requires Sorted(es)
    ensures MayReplace(es, e.key, InsertData(es, e))
  {
    InsertSorted(es, e);
  }

  lemma RemoveReplaces(es: seq<Entry>, key: Key, i: nat)
    requires Sorted(es) && i < |es|
    ensures MayReplace(es, key, RemoveAt(es, i))
  {
    RemoveSorted(es, i);
  }

  // ---------- parent links ----------

  /** Page q has a branch element pointing to page p. */
  ghost predicate Edge(t: Tree, q: PageId, p: PageId) {
    match t
    case Leaf(_, _) => false
    case Branch(page, _, kids) =>
      exists i :: 0 <= i < |kids| && ((q == page && p == kids[i].page) || Edge(kids[i], q, p))
  }

  lemma {:induction false} SetLeafEdges(t: Tree, key: Key, es: seq<Entry>, q: PageId, p: PageId)
    requires Routable(t)
    ensures Edge(SetLeaf(t, key, es), q, p) <==> Edge(t, q, p)
    decreases t
  {
    if t.Branch? {
      var i := Index(t.seps, key);
      SetLeafEdges(t.kids[i], key, es, q, p);
      SetLeafPage(t.kids[i], key, es);
      var t' := SetLeaf(t, key, es);
      assert t'.kids == t.kids[i := SetLeaf(t.kids[i], key, es)];
      if j :| 0 <= j < |t.kids| && ((q == t.page && p == t.kids[j].page) || Edge(t.kids[j], q, p)) {
        assert (q == t'.page && p == t'.kids[j].page) || Edge(t'.kids[j], q, p);
      }
      if j :| 0 <= j < |t'.kids| && ((q == t'.page && p == t'.kids[j].page) || Edge(t'.kids[j], q, p)) {
        assert (q == t.page && p == t.kids[j].page) || Edge(t.kids[j], q, p);
      }
    }
  }

  /** s is t or one of its subtrees. */
  ghost predicate Within(t: Tree, s: Tree) {
    s == t || (t.Branch? && exists i :: 0 <= i < |t.kids| && Within(t.kids[i], s))
  }

  lemma WithinSelf(t: Tree)
    ensures Within(t, t)
  {
  }

  lemma {:induction false} WithinStep(t: Tree, s: Tree, i: nat)
    requires Within(t, s) && s.Branch? && i < |s.kids|
    ensures Within(t, s.kids[i]) && Edge(t, s.page, s.kids[i].page)
    decreases t
  {
    if s == t {
      assert Within(t.kids[i], s.kids[i]);
    } else {
      var j :| 0 <= j < |t.kids| && Within(t.kids[j], s);
      WithinStep(t.kids[j], s, i);
      assert Within(t.kids[j], s.kids[i]);
      assert Edge(t.kids[j], s.page, s.kids[i].page);
    }
  }

  lemma {:induction false} RootIsNoChild(t: Tree, q: PageId, p: PageId)
    requires Unshared(t) && Edge(t, q, p)
    ensures p != t.page && p in Pages(t)
    decreases t
  {
    var i :| 0 <= i < |t.kids| && ((q == t.page && p == t.kids[i].page) || Edge(t.kids[i], q, p));
    InPagesAll(t.kids, p);
    if !(q == t.page && p == t.kids[i].page) {
      RootIsNoChild(t.kids[i], q, p);
    }
  }

  lemma {:induction false} EdgeUnique(t: Tree, q: PageId, r: PageId, p: PageId)
    requires Unshared(t) && Edge(t, q, p) && Edge(t, r, p)
    ensures q == r
    decreases t
  {
    var i :| 0 <= i < |t.kids| && ((q == t.page && p == t.kids[i].page) || Edge(t.kids[i], q, p));
    var j :| 0 <= j < |t.kids| && ((r == t.page && p == t.kids[j].page) || Edge(t.kids[j], r, p));
    EdgeBelow(t, q, p, i);
    EdgeBelow(t, r, p, j);
    assert i == j;
    if Edge(t.kids[i], q, p) && Edge(t.kids[i], r, p) {
      EdgeUnique(t.kids[i], q, r, p);
    } else if Edge(t.kids[i], q, p) {
      RootIsNoChild(t.kids[i], q, p);
    } else if Edge(t.kids[i], r, p) {
      RootIsNoChild(t.kids[i], r, p);
    }
  }

  lemma EdgeBelow(t: Tree, q: PageId, p: PageId, i: nat)
    requires Unshared(t) && t.Branch? && i < |t.kids|
    requires (q == t.page && p == t.kids[i].page) || Edge(t.kids[i], q, p)
    ensures p in Pages(t.kids[i])
  {
    if Edge(t.kids[i], q, p) {
      RootIsNoChild(t.kids[i], q, p);
    }
  }

  lemma {:induction false} EdgeInView(view: map<PageId, PageData>, t: Tree, q: PageId, p: PageId)
    requires Rep(view, t) && Edge(t, q, p)
    ensures q in view && p in view
    decreases t
  {
    var i :| 0 <= i < |t.kids| && ((q == t.page && p == t.kids[i].page) || Edge(t.kids[i], q, p));
    if Edge(t.kids[i], q, p) {
      EdgeInView(view, t.kids[i], q, p);
    }
  }

  lemma {:induction false} EdgeIrreflexive(t: Tree, q: PageId, p: PageId)
    requires Unshared(t) && Edge(t, q, p)
    ensures q != p
    decreases t
  {
    var i :| 0 <= i < |t.kids| && ((q == t.page && p == t.kids[i].page) || Edge(t.kids[i], q, p));
    if Edge(t.kids[i], q, p) {
      EdgeIrreflexive(t.kids[i], q, p);
    }
  }

  // ---------- the bucket ----------

  datatype Error = IncompatibleValue | KeyValueMissing | InvalidDB
  datatype Result<T> = Ok(value: T) | Err(error: Error)

  datatype PageNodeID = OfPage(page: PageId) | OfNode(node: nat)
  datatype SearchPath = SearchPath(index: nat, id: PageNodeID)

  /** A loaded node. */
  datatype Node = Node(pageId: PageId, data: PageData, children: seq<nat>, originalKey: Option<Key>,
                       parent: Option<nat>)

  function KeysIn(d: PageData): seq<Key> {
    match d
    case Leaves(es) => KeysOf(es)
    case Branches(seps, _) => seps
  }

  function FirstKeyOf(d: PageData): Option<Key> {
    if KeysIn(d) == [] then None else Some(KeysIn(d)[0])
  }

  /** Loaded nodes shadow committed pages and remember their first key; only leaves are
      edited. */
  ghost predicate ShadowsBy(store: map<PageId, PageData>, nodes: seq<Node>, ids: map<PageId, nat>,
                            view: map<PageId, PageData>)
  {
    && (forall p :: p in ids ==>
                      && ids[p] < |nodes| && nodes[ids[p]].pageId == p
                      && p in view && view[p] == nodes[ids[p]].data
                      && (p in store ==> nodes[ids[p]].originalKey == FirstKeyOf(store[p])))
    && (forall p :: p in view && p !in ids ==> p in store && view[p] == store[p])
    && (forall p :: p in view && view[p].Branches? ==> p in store && view[p] == store[p])
  }

  /** A loaded node hangs in its loaded parent. */
  ghost predicate HangsIn(nodes: seq<Node>, ids: map<PageId, nat>, parents: map<PageId, PageId>, p: PageId) {
    && p in ids && p in parents && parents[p] in ids && ids[p] < |nodes| && ids[parents[p]] < |nodes|
    && nodes[ids[p]].parent == Some(ids[parents[p]]) && ids[p] in nodes[ids[parents[p]]].children
  }

  lemma PushShadows(store: map<PageId, PageData>, nodes: seq<Node>, ids: map<PageId, nat>, view: map<PageId, PageData>,
                    p: PageId)
    requires ShadowsBy(store, nodes, ids, view) && p in view && p !in ids
    ensures p in store
    ensures ShadowsBy(store, nodes + [Node(p, store[p], [], FirstKeyOf(store[p]), None)], ids[p := |nodes|], view)
  {
    hide FirstKeyOf;
  }

  lemma PushHangs(nodes: seq<Node>, node: Node, ids: map<PageId, nat>, parents: map<PageId, PageId>, p: PageId,
                  q: PageId)
    requires HangsIn(nodes, ids, parents, q) && p !in ids
    ensures HangsIn(nodes + [node], ids[p := |nodes|], parents, q)
  {
  }

  /** A node's links change, its page, data and key do not. */
  lemma LinkShadows(store: map<PageId, PageData>, nodes: seq<Node>, ids: map<PageId, nat>, view: map<PageId, PageData>,
                    id: nat, node: Node)
    requires ShadowsBy(store, nodes, ids, view) && id < |nodes|
    requires node.pageId == nodes[id].pageId && node.data == nodes[id].data && node.originalKey == nodes[id].originalKey
    ensures ShadowsBy(store, nodes[id := node], ids, view)
  {
    hide FirstKeyOf;
  }

  /** Replacing a node by one with the same parent and no fewer children. */
  lemma SameHangs(nodes: seq<Node>, ids: map<PageId, nat>, parents: map<PageId, PageId>, id: nat, node: Node, p: PageId)
    requires HangsIn(nodes, ids, parents, p) && id < |nodes|
    requires node.parent == nodes[id].parent || ids[p] != id
    requires forall c :: c in nodes[id].children ==> c in node.children
    ensures HangsIn(nodes[id := node], ids, parents, p)
  {
  }

  lemma ParentHangs(nodes: seq<Node>, ids: map<PageId, nat>, parents: map<PageId, PageId>, page: PageId,
                    parent: PageId, p: PageId)
    requires HangsIn(nodes, ids, parents, p) && (page in parents ==> parents[page] == parent)
    ensures HangsIn(nodes, ids, parents[page := parent], p)
  {
  }

  lemma DataShadows(store: map<PageId, PageData>, nodes: seq<Node>, ids: map<PageId, nat>, view: map<PageId, PageData>,
                    p: PageId, d: PageData)
    requires ShadowsBy(store, nodes, ids, view) && p in ids && d.Leaves?
    ensures ids[p] < |nodes| && ShadowsBy(store, nodes[ids[p] := nodes[ids[p]].(data := d)], ids, view[p := d])
  {
    hide FirstKeyOf;
  }

  lemma PushStep(stack: seq<SearchPath>, step: SearchPath, rest: seq<SearchPath>)
    ensures (stack + [step]) + rest == stack + ([step] + rest)
  {
  }

  class InnerBucket {
    const store: map<PageId, PageData>
    var rootPage: PageId
    var nextInt: nat
    var dirty: bool
    var nodes: seq<Node>
    var pageNodeIds: map<PageId, nat>
    var pageParents: map<PageId, PageId>
    ghost var tree: Tree
    ghost var view: map<PageId, PageData>

    ghost predicate Shadows()
      reads `nodes, `pageNodeIds, `view
    {
      ShadowsBy(store, nodes, pageNodeIds, view)
    }

    ghost predicate ParentsKnown()
      reads `pageParents, `rootPage, `tree
    {
      forall p :: p in pageParents ==>
                    && Edge(tree, pageParents[p], p)
                    && (pageParents[p] == rootPage || pageParents[p] in pageParents)
    }

    ghost predicate Attached(p: PageId)
      reads `nodes, `pageNodeIds, `pageParents
    {
      HangsIn(nodes, pageNodeIds, pageParents, p)
    }

    ghost predicate AllAttached(except: set<PageId>)
      reads `nodes, `pageNodeIds, `pageParents, `rootPage
    {
      forall p :: p in pageNodeIds && p != rootPage && p !in except ==> Attached(p)
    }

    ghost predicate TreeOk()
      reads `tree, `rootPage, `view
    {
      tree.page == rootPage && Routable(tree) && Unshared(tree) && Rep(view, tree)
    }

    ghost predicate Valid()
      reads this
    {
      TreeOk() && Shadows() && ParentsKnown() && AllAttached({})
    }

    constructor FromMeta(store: map<PageId, PageData>, rootPage: PageId, nextInt: nat, ghost tree: Tree)
      requires tree.page == rootPage && Routable(tree) && Unshared(tree) && Rep(store, tree)
      ensures Valid() && this.store == store && this.tree == tree && this.nextInt == nextInt
      ensures !dirty && nodes == [] && pageNodeIds == map[]
    {
      this.store, this.rootPage, this.nextInt, this.tree := store, rootPage, nextInt, tree;
      dirty, nodes, pageNodeIds, pageParents := false, [], map[], map[];
      view := store;
    }

    /** A bucket created in this transaction: one loaded, empty root node, no page yet. */
    constructor NewChild(store: map<PageId, PageData>)
      requires 0 !in store
      ensures Valid() && this.store == store && Map() == map[] && dirty && nextInt == 0
    {
      this.store, rootPage, nextInt, tree := store, 0, 0, Leaf(0, []);
      dirty, nodes, pageNodeIds, pageParents := true, [Node(0, Leaves([]), [], None, None)], map[0 := 0], map[];
      view := map[0 := Leaves([])];
    }

    /** The search step for page p at the given index. */
    function StepAt(p: PageId, index: nat): SearchPath
      reads `pageNodeIds
    {
      SearchPath(index, if p in pageNodeIds then OfNode(pageNodeIds[p]) else OfPage(p))
    }

    function PageOf(id: PageNodeID): PageId
      reads `nodes
    {
      match id
      case OfPage(p) => p
      case OfNode(n) => if n < |nodes| then nodes[n].pageId else 0
    }

    /** `page_node`: the loaded node if there is one, the committed page otherwise. */
    method PageNode(id: PageNodeID) returns (d: PageData)
      requires Shadows() && PageOf(id) in view
      requires id.OfNode? ==> id.node < |nodes| && PageOf(id) in pageNodeIds && pageNodeIds[PageOf(id)] == id.node
      ensures d == view[PageOf(id)]
    {
      match id
      case OfPage(p) => d := if p in pageNodeIds then nodes[pageNodeIds[p]].data else store[p];
      case OfNode(n) => d := nodes[n].data;
    }

    ghost function LeafStep(key: Key): SearchPath
      reads `tree, `pageNodeIds
    {
      var leaf := Route(tree, key);
      StepAt(leaf.page, if leaf.Leaf? then Index(KeysOf(leaf.entries), key) else 0)
    }

    ghost predicate Present(key: Key)
      reads `tree
    {
      Route(tree, key).Leaf? && Hit(KeysOf(Route(tree, key).entries), key)
    }

    /** Descends to the leaf that may hold the key, keeping no path. */
    method SearchLeaf(key: Key) returns (exact: bool, last: SearchPath)
      requires Valid()
      ensures exact == Present(key) && last == LeafStep(key)
    {
      ghost var cur := tree;
      var page := rootPage;
      while true
        invariant cur.page == page && Rep(view, cur) && Routable(cur)
        invariant Route(cur, key) == Route(tree, key)
        decreases cur
      {
        var d := PageNode(OfPage(page));
        var index := Index(KeysIn(d), key);
        if d.Leaves? {
          return Hit(KeysIn(d), key), StepAt(page, index);
        }
        page := d.pages[index];
        cur := cur.kids[index];
      }
    }

    /** The path of a search, from the root down. */
    ghost function Steps(t: Tree, key: Key): seq<SearchPath>
      reads `pageNodeIds
    {
      match t
      case Leaf(p, es) => [StepAt(p, Index(KeysOf(es), key))]
      case Branch(p, seps, kids) =>
        var i := Index(seps, key);
        [StepAt(p, i)] + if i < |kids| then Steps(kids[i], key) else []
    }

    /** One level of a descent. */
    lemma Descend(cur: Tree, key: Key)
      requires Rep(view, cur) && Routable(cur)
      ensures var d := view[cur.page];
              var i := Index(KeysIn(d), key);
              if d.Leaves? then
                && Route(cur, key) == cur && cur.Leaf? && KeysIn(d) == KeysOf(cur.entries)
                && Steps(cur, key) == [StepAt(cur.page, i)]
              else
                && cur.Branch? && i < |cur.kids| == |d.pages| && d.pages[i] == cur.kids[i].page
                && Rep(view, cur.kids[i]) && Routable(cur.kids[i])
                && Route(cur.kids[i], key) == Route(cur, key)
                && Steps(cur, key) == [StepAt(cur.page, i)] + Steps(cur.kids[i], key)
    {
    }

    /** The same descent, recording the path and every parent on it. */
    method Search(key: Key) returns (exact: bool, stack: seq<SearchPath>)
      requires Valid()
      modifies this`pageParents
      ensures Valid()
      ensures exact == Present(key) && stack == Steps(tree, key)
      ensures |stack| > 0 && stack[|stack| - 1] == LeafStep(key)
      ensures Route(tree, key).page == rootPage || Route(tree, key).page in pageParents
    {
      hide Unshared, Edge, Within, Routable, Rep, Route, Steps, Index, Hit, ShadowsBy, HangsIn, KeysIn;
      ghost var cur := tree;
      var page := rootPage;
      stack := [];
      WithinSelf(tree);
      RepHasPage(view, tree);
      while true
        invariant Valid()
        invariant cur.page == page && Rep(view, cur) && Routable(cur) && Within(tree, cur)
        invariant page in view && Route(cur, key) == Route(tree, key)
        invariant stack + Steps(cur, key) == Steps(tree, key)
        invariant page == rootPage || page in pageParents
        decreases cur
      {
        Descend(cur, key);
        var d := PageNode(OfPage(page));
        var index := Index(KeysIn(d), key);
        if d.Leaves? {
          stack := stack + [StepAt(page, index)];
          exact := Hit(KeysIn(d), key);
          return;
        }
        var nextPage := d.pages[index];
        WithinStep(tree, cur, index);
        PushStep(stack, StepAt(page, index), Steps(cur.kids[index], key));
        stack := stack + [StepAt(page, index)];
        AddPageParent(nextPage, page);
        page := nextPage;
        cur := cur.kids[index];
        RepHasPage(view, cur);
      }
    }

    method AddPageParent(page: PageId, parent: PageId)
      requires Valid() && Edge(tree, parent, page)
      requires parent == rootPage || parent in pageParents
      modifies this`pageParents
      ensures Valid() && pageParents == old(pageParents)[page := parent]
    {
      hide Routable, Rep, Edge, Unshared, Shadows, HangsIn;
      if page in pageParents {
        EdgeUnique(tree, parent, pageParents[page], page);
      }
      pageParents := pageParents[page := parent];
      forall p | p in pageNodeIds && p != rootPage ensures Attached(p) {
        assert old(Attached(p));
        ParentHangs(nodes, pageNodeIds, old(pageParents), page, parent, p);
      }
    }

    /** Loaded pages stay loaded, under the same node. */
    twostate predicate StillLoaded()
      reads `pageNodeIds
    {
      forall p :: p in old(pageNodeIds) ==> p in pageNodeIds && pageNodeIds[p] == old(pageNodeIds)[p]
    }

    lemma Unloaded(p: PageId)
      requires Shadows() && p in view && p !in pageNodeIds
      ensures p in store
    {
    }

    lemma RootExempt(except: set<PageId>)
      requires AllAttached(except + {rootPage})
      ensures AllAttached(except)
    {
    }

    lemma ParentKnown(p: PageId)
      requires TreeOk() && ParentsKnown() && p in pageParents
      ensures pageParents[p] in view && pageParents[p] != p
      ensures pageParents[p] == rootPage || pageParents[p] in pageParents
    {
      EdgeInView(view, tree, pageParents[p], p);
      EdgeIrreflexive(tree, pageParents[p], p);
    }

    method PushNode(p: PageId, ghost except: set<PageId>) returns (id: nat)
      requires Shadows() && AllAttached(except) && p in view && p !in pageNodeIds
      modifies this`nodes, this`pageNodeIds
      ensures Shadows() && AllAttached(except + {p}) && StillLoaded()
      ensures id == |old(nodes)| && pageNodeIds == old(pageNodeIds)[p := id]
    {
      hide ShadowsBy, HangsIn, FirstKeyOf;
      PushShadows(store, nodes, pageNodeIds, view, p);
      id := |nodes|;
      var node := Node(p, store[p], [], FirstKeyOf(store[p]), None);
      pageNodeIds := pageNodeIds[p := id];
      nodes := nodes + [node];
      forall q | q in pageNodeIds && q != rootPage && q !in except + {p} ensures Attached(q) {
        assert old(Attached(q));
        PushHangs(old(nodes), node, old(pageNodeIds), pageParents, p, q);
      }
    }

    lemma Owners(p: PageId, q: PageId)
      requires Shadows() && p in pageNodeIds && q in pageNodeIds && p != q
      ensures pageNodeIds[p] < |nodes| && pageNodeIds[q] < |nodes| && pageNodeIds[p] != pageNodeIds[q]
    {
    }

    lemma OtherNode(ns: seq<Node>, ids: map<PageId, nat>, v: map<PageId, PageData>, r: PageId, p: PageId)
      requires ShadowsBy(store, ns, ids, v) && r in ids && p in ids && r != p
      ensures ids[r] != ids[p]
    {
    }

    lemma Linked(ns: seq<Node>, ids: map<PageId, nat>, parents: map<PageId, PageId>, p: PageId)
      requires p in ids && p in parents && parents[p] in ids && ids[p] < |ns| && ids[parents[p]] < |ns|
      requires ns[ids[p]].parent == Some(ids[parents[p]]) && ids[p] in ns[ids[parents[p]]].children
      ensures HangsIn(ns, ids, parents, p)
    {
    }

    /** `insert_child` and the parent link of a freshly loaded node. */
    method Link(p: PageId, q: PageId, ghost except: set<PageId>)
      requires Shadows() && AllAttached(except + {p}) && p != q
      requires p in pageNodeIds && q in pageNodeIds && p in pageParents && pageParents[p] == q
      modifies this`nodes
      ensures Shadows() && AllAttached(except)
    {
      Owners(p, q);
      hide ShadowsBy, HangsIn;
      var id, parent := pageNodeIds[p], pageNodeIds[q];
      var child := nodes[id].(parent := Some(parent));
      LinkShadows(store, nodes, pageNodeIds, view, id, child);
      nodes := nodes[id := child];
      ghost var middle := nodes;
      var holder := nodes[parent].(children := nodes[parent].children + [id]);
      LinkShadows(store, nodes, pageNodeIds, view, parent, holder);
      nodes := nodes[parent := holder];
      Linked(nodes, pageNodeIds, pageParents, p);
      forall r | r in pageNodeIds && r != rootPage && r !in except && r != p ensures Attached(r) {
        assert old(Attached(r));
        OtherNode(old(nodes), pageNodeIds, view, r, p);
        SameHangs(old(nodes), pageNodeIds, pageParents, id, child, r);
        SameHangs(middle, pageNodeIds, pageParents, parent, holder, r);
      }
    }

    /** `node` for a page: loads it, then its ancestors up to the first loaded one. */
    method LoadPage(p: PageId, ghost except: set<PageId>) returns (id: nat)
      requires TreeOk() && Shadows() && ParentsKnown() && AllAttached(except)
      requires except <= pageNodeIds.Keys
      requires p in view && (p == rootPage || p in pageParents)
      modifies this`nodes, this`pageNodeIds
      ensures Shadows() && AllAttached(except) && StillLoaded()
      ensures p in pageNodeIds && pageNodeIds[p] == id
      decreases store.Keys - pageNodeIds.Keys
    {
      hide TreeOk, Routable, Rep, Edge, Unshared, AllAttached, Shadows;
      if p in pageNodeIds {
        return pageNodeIds[p];
      }
      Unloaded(p);
      assert p in store.Keys - pageNodeIds.Keys;
      id := PushNode(p, except);
      if p == rootPage {
        RootExempt(except);
        return;
      }
      var q := pageParents[p];
      ParentKnown(p);
      var parent := LoadPage(q, except + {p});
      Link(p, q, except);
    }

    /** `node`: an unknown page that is not the root is an error. */
    method NodeOf(id: PageNodeID) returns (r: Result<nat>)
      requires Valid() && PageOf(id) in view
      requires id.OfNode? ==> id.node < |nodes| && PageOf(id) in pageNodeIds && pageNodeIds[PageOf(id)] == id.node
      modifies this`nodes, this`pageNodeIds
      ensures Valid() && StillLoaded()
      ensures r.Err? <==> old(PageOf(id)) !in old(pageNodeIds) && old(PageOf(id)) != rootPage
                          && old(PageOf(id)) !in pageParents
      ensures r.Ok? ==> old(PageOf(id)) in pageNodeIds && pageNodeIds[old(PageOf(id))] == r.value
    {
      match id
      case OfNode(n) => r := Ok(n);
      case OfPage(p) =>
        if p !in pageNodeIds && p != rootPage && p !in pageParents {
          return Err(InvalidDB);
        }
        if p in pageNodeIds {
          return Ok(pageNodeIds[p]);
        }
        var n := LoadPage(p, {});
        r := Ok(n);
    }

    ghost function Map(): map<Key, Datum>
      reads `tree
    {
      Contents(tree)
    }

    method SetData(p: PageId, d: PageData)
      requires Shadows() && AllAttached({}) && p in pageNodeIds && d.Leaves?
      modifies this`nodes, this`view
      ensures Shadows() && AllAttached({}) && view == old(view)[p := d]
    {
      hide ShadowsBy, HangsIn;
      DataShadows(store, nodes, pageNodeIds, view, p, d);
      var id := pageNodeIds[p];
      var node := nodes[id].(data := d);
      nodes := nodes[id := node];
      view := view[p := d];
      forall q | q in pageNodeIds && q != rootPage ensures Attached(q) {
        assert old(Attached(q));
        SameHangs(old(nodes), pageNodeIds, pageParents, id, node, q);
      }
    }

    /** Replaces the entries of the routed leaf's loaded node. */
    method EditLeaf(ghost key: Key, p: PageId, es: seq<Entry>)
      requires Valid() && Route(tree, key).Leaf?
      requires p == Route(tree, key).page && p in pageNodeIds
      requires MayReplace(Route(tree, key).entries, key, es)
      modifies this`nodes, this`tree, this`view
      ensures Valid() && tree == SetLeaf(old(tree), key, es) && Shape(tree) == old(Shape(tree))
    {
      hide Routable, Rep, Edge, Unshared, MayReplace, SetLeaf, Shadows, AllAttached, Shape;
      RepSetLeaf(view, tree, key, es);
      SetLeafUnshared(tree, key, es);
      SetLeafShape(tree, key, es);
      SetLeafRoutable(tree, key, es);
      SetLeafPage(tree, key, es);
      SetData(p, Leaves(es));
      tree := SetLeaf(tree, key, es);
      forall q | q in pageParents ensures Edge(tree, pageParents[q], q) {
        SetLeafEdges(old(tree), key, es, pageParents[q], q);
      }
    }

    /** Loads the leaf a search ended in. */
    method LoadLeaf(key: Key, last: SearchPath) returns (p: PageId, es: seq<Entry>)
      requires Valid() && last == LeafStep(key)
      requires Route(tree, key).page == rootPage || Route(tree, key).page in pageParents
      modifies this`nodes, this`pageNodeIds
      ensures Valid() && Route(tree, key).Leaf? && p == Route(tree, key).page && p in pageNodeIds
      ensures StillLoaded()
      ensures es == Route(tree, key).entries
    {
      hide Routable, Rep, Edge, Unshared, Attached, Route;
      LeafInView(key);
      var id := NodeOf(last.id);
      p, es := nodes[id.value].pageId, nodes[id.value].data.entries;
    }

    /** The datum a successful search found. */
    method DatumAt(key: Key, last: SearchPath) returns (d: Datum)
      requires Valid() && last == LeafStep(key) && Present(key)
      ensures key in Map() && d == Map()[key]
      ensures last.index == Lower(KeysOf(Route(tree, key).entries), key) < |Route(tree, key).entries|
    {
      hide Routable, Rep, Edge, Unshared, Attached, Route, Contents;
      LeafInView(key);
      RouteFinds(tree, key);
      var data := PageNode(last.id);
      d := data.entries[last.index].datum;
    }

    /** The datum at a search result. */
    lemma LeafInView(key: Key)
      requires Valid()
      ensures var leaf := Route(tree, key);
              && leaf.Leaf? && leaf.page in view && view[leaf.page] == Leaves(leaf.entries)
              && PageOf(LeafStep(key).id) == leaf.page
              && (LeafStep(key).id.OfNode? ==>
                    && LeafStep(key).id.node < |nodes| && leaf.page in pageNodeIds
                    && pageNodeIds[leaf.page] == LeafStep(key).id.node)
              && LeafStep(key).index == Index(KeysOf(leaf.entries), key)
    {
      RouteLeafSorted(tree, key);
      RepRoute(view, tree, key);
    }

    method Get(key: Key) returns (r: Option<Datum>)
      requires Valid()
      ensures r == if key in Map() then Some(Map()[key]) else None
    {
      hide Routable, Rep, Edge, Unshared, Route, Contents;
      LeafInView(key);
      RouteFinds(tree, key);
      var exact, last := SearchLeaf(key);
      if !exact {
        return None;
      }
      var d := PageNode(last.id);
      r := Some(d.entries[last.index].datum);
    }

    /** `put_leaf`: a value may not replace a bucket nor a bucket a value. */
    method PutLeaf(e: Entry) returns (r: Result<Option<Datum>>)
      requires Valid()
      modifies this
      ensures Valid() && rootPage == old(rootPage) && Shape(tree) == old(Shape(tree))
      ensures (old(dirty) ==> dirty) && (!dirty ==> tree == old(tree)) && old(pageNodeIds).Keys <= pageNodeIds.Keys
      ensures var m := old(Map());
              if e.key in m && m[e.key].Kv? != e.datum.Kv?
              then r == Err(IncompatibleValue) && Map() == m && nextInt == old(nextInt) && dirty == old(dirty)
              else && r == Ok(if e.key in m then Some(m[e.key]) else None)
                   && Map() == m[e.key := e.datum] && dirty
                   && nextInt == old(nextInt) + if e.key in m then 0 else 1
    {
      hide TreeOk, Shadows, ParentsKnown, AllAttached, Contents, MayReplace, Route, Shape;
      PutFacts(e);
      var exact, stack := Search(e.key);
      var last := stack[|stack| - 1];
      var current := None;
      if exact {
        var datum := DatumAt(e.key, last);
        if datum.Kv? != e.datum.Kv? {
          return Err(IncompatibleValue);
        }
        current := Some(datum);
      } else {
        nextInt := nextInt + 1;
      }
      var p, es := LoadLeaf(e.key, last);
      PutFacts(e);
      EditLeaf(e.key, p, InsertData(es, e));
      dirty := true;
      r := Ok(current);
    }

    lemma PutFacts(e: Entry)
      requires TreeOk()
      ensures Route(tree, e.key).Leaf?
      ensures var es := Route(tree, e.key).entries;
              && MayReplace(es, e.key, InsertData(es, e))
              && Contents(SetLeaf(tree, e.key, InsertData(es, e))) == Map()[e.key := e.datum]
              && (Present(e.key) <==> e.key in Map())
    {
      hide Routable, Rep, Unshared, MayReplace, InsertData;
      RouteFinds(tree, e.key);
      PutContents(tree, e.key, e.datum);
      RouteLeafSorted(tree, e.key);
      InsertReplaces(Route(tree, e.key).entries, e);
    }

    lemma DeleteFacts(key: Key)
      requires TreeOk()
      ensures Route(tree, key).Leaf?
      ensures Present(key) <==> key in Map()
      ensures Present(key) ==>
                var es := Route(tree, key).entries;
                var i := Lower(KeysOf(es), key);
                && i < |es| && MayReplace(es, key, RemoveAt(es, i))
                && Contents(SetLeaf(tree, key, RemoveAt(es, i))) == Map() - {key}
    {
      hide Routable, Rep, Unshared, MayReplace;
      RouteFinds(tree, key);
      RouteLeafSorted(tree, key);
      if Present(key) {
        DeleteContents(tree, key);
        RemoveReplaces(Route(tree, key).entries, key, Lower(KeysOf(Route(tree, key).entries), key));
      }
    }

    method Put(key: Key, value: Bytes) returns (r: Result<Option<Datum>>)
      requires Valid()
      modifies this
      ensures Valid() && rootPage == old(rootPage) && Shape(tree) == old(Shape(tree))
      ensures (old(dirty) ==> dirty) && (!dirty ==> tree == old(tree)) && old(pageNodeIds).Keys <= pageNodeIds.Keys
      ensures var m := old(Map());
              if key in m && m[key].Sub? then r == Err(IncompatibleValue) && Map() == m
              else r == Ok(if key in m then Some(m[key]) else None) && Map() == m[key := Kv(value)]
    {
      r := PutLeaf(Entry(key, Kv(value)));
    }

    method Delete(key: Key) returns (r: Result<Option<Datum>>)
      requires Valid()
      modifies this
      ensures Valid() && rootPage == old(rootPage) && Shape(tree) == old(Shape(tree))
      ensures (old(dirty) ==> dirty) && (!dirty ==> tree == old(tree)) && old(pageNodeIds).Keys <= pageNodeIds.Keys
      ensures var m := old(Map());
              if key !in m then r == Err(KeyValueMissing) && Map() == m
              else if m[key].Sub? then r == Err(IncompatibleValue) && Map() == m
              else r == Ok(Some(m[key])) && Map() == m - {key}
    {
      hide TreeOk, Shadows, ParentsKnown, AllAttached, Contents, MayReplace, Route, Shape;
      DeleteFacts(key);
      var exact, stack := Search(key);
      var last := stack[|stack| - 1];
      if !exact {
        return Err(KeyValueMissing);
      }
      var datum := DatumAt(key, last);
      if datum.Sub? {
        return Err(IncompatibleValue);
      }
      dirty := true;
      var p, es := LoadLeaf(key, last);
      EditLeaf(key, p, RemoveAt(es, last.index));
      r := Ok(Some(datum));
    }

    /** Any run of operations answers as the sorted map does. */
    method Run(ops: seq<Op>) returns (outs: seq<Result<Option<Datum>>>)
      requires Valid()
      modifies this
      ensures Valid() && |outs| == |ops| && rootPage == old(rootPage) && Shape(tree) == old(Shape(tree))
      ensures (old(dirty) ==> dirty) && (!dirty ==> tree == old(tree)) && old(pageNodeIds).Keys <= pageNodeIds.Keys
      ensures (Map(), outs) == RunOnMap(old(Map()), ops)
    {
      hide Valid, Map, Shape;
      outs := [];
      for i := 0 to |ops|
        invariant Valid() && |outs| == i && (Map(), outs) == RunOnMap(old(Map()), ops[..i])
        invariant rootPage == old(rootPage) && Shape(tree) == old(Shape(tree))
        invariant (old(dirty) ==> dirty) && (!dirty ==> tree == old(tree)) && old(pageNodeIds).Keys <= pageNodeIds.Keys
      {
        assert ops[..i + 1][..i] == ops[..i];
        var out;
        match ops[i] {
          case GetOp(key) =>
            var found := Get(key);
            out := Ok(found);
          case PutOp(key, value) => out := Put(key, value);
          case DeleteOp(key) => out := Delete(key);
        }
        outs := outs + [out];
      }
      assert ops[..|ops|] == ops;
    }
  }

  // ---------- the specification ----------

  datatype Op = GetOp(key: Key) | PutOp(key: Key, value: Bytes) | DeleteOp(key: Key)

  ghost function StepOnMap(m: map<Key, Datum>, op: Op): (map<Key, Datum>, Result<Option<Datum>>) {
    match op
    case GetOp(k) => (m, Ok(if k in m then Some(m[k]) else None))
    case PutOp(k, v) =>
      if k in m && m[k].Sub? then (m, Err(IncompatibleValue))
      else (m[k := Kv(v)], Ok(if k in m then Some(m[k]) else None))
    case DeleteOp(k) =>
      if k !in m then (m, Err(KeyValueMissing))
      else if m[k].Sub? then (m, Err(IncompatibleValue))
      else (m - {k}, Ok(Some(m[k])))
  }

  ghost function RunOnMap(m: map<Key, Datum>, ops: seq<Op>): (map<Key, Datum>, seq<Result<Option<Datum>>>) {
    if ops == [] then (m, [])
    else
      var (m', outs) := RunOnMap(m, ops[..|ops| - 1]);
      var (m'', out) := StepOnMap(m', ops[|ops| - 1]);
      (m'', outs + [out])
  }
}
