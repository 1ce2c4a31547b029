/** Cursors over a committed tree: forward and backward iteration and ranges yield the
    flattened leaves, whatever the depth. */
module Traversal {
  import opened Wrappers
  import opened Bytes
  import opened BTree
  import opened LeafEdit
  import opened Overlay

  /** Every leaf holds an entry. */
  predicate Full(t: Tree) {
    match t
    case Leaf(_, es) => es != []
    case Branch(_, _, kids) => kids != [] && forall i :: 0 <= i < |kids| ==> Full(kids[i])
  }

  /** One level of a cursor's stack. */
  datatype Frame = Frame(index: nat, page: PageId)

  function Len(t: Tree): nat {
    match t
    case Leaf(_, es) => |es|
    case Branch(_, _, kids) => |kids|
  }

  // ---------- paths ----------

  /** The stack names a node of the tree and one of its elements. */
  ghost predicate OnPath(t: Tree, s: seq<Frame>)
    decreases t
  {
    && s != [] && s[0].page == t.page && s[0].index < Len(t)
    && (|s| > 1 ==> t.Branch? && OnPath(t.kids[s[0].index], s[1..]))
  }

  /** The node the stack's last frame is in. */
  ghost function Last(t: Tree, s: seq<Frame>): (n: Tree)
    requires OnPath(t, s)
    ensures n.page == s[|s| - 1].page && s[|s| - 1].index < Len(n)
    decreases t
  {
    if |s| == 1 then t else Last(t.kids[s[0].index], s[1..])
  }

  ghost predicate Complete(t: Tree, s: seq<Frame>) {
    OnPath(t, s) && Last(t, s).Leaf?
  }

  ghost function SizeTo(t: Tree, i: nat): nat
    requires i <= Len(t)
  {
    match t
    case Leaf(_, _) => i
    case Branch(_, _, kids) => |FlattenAll(kids[..i])|
  }

  /** Entries before the element the stack points to. */
  ghost function StartOff(t: Tree, s: seq<Frame>): nat
    requires OnPath(t, s)
    decreases t
  {
    SizeTo(t, s[0].index) + if |s| == 1 then 0 else StartOff(t.kids[s[0].index], s[1..])
  }

  /** Entries up to and including that element. */
  ghost function EndOff(t: Tree, s: seq<Frame>): nat
    requires OnPath(t, s)
    decreases t
  {
    if |s| == 1 then SizeTo(t, s[0].index + 1)
    else SizeTo(t, s[0].index) + EndOff(t.kids[s[0].index], s[1..])
  }

  function WithIndex(s: seq<Frame>, i: nat): seq<Frame>
    requires s != []
  {
    s[|s| - 1 := s[|s| - 1].(index := i)]
  }

  lemma SizeStep(t: Tree, i: nat)
    requires i < Len(t)
    ensures t.Branch? ==> SizeTo(t, i + 1) == SizeTo(t, i) + |Flatten(t.kids[i])|
    ensures SizeTo(t, Len(t)) == |Flatten(t)| && SizeTo(t, 0) == 0
  {
    if t.Branch? {
      FlattenSplit(t.kids[..i + 1], i);
      assert t.kids[..i + 1][..i] == t.kids[..i] && t.kids[..i + 1][i + 1..] == [];
      assert t.kids[..|t.kids|] == t.kids;
    }
  }

  /** Moving inside the last node. */
  lemma {:induction false} MoveIndex(t: Tree, s: seq<Frame>, i: nat)
    requires OnPath(t, s) && i < Len(Last(t, s))
    ensures OnPath(t, WithIndex(s, i)) && Last(t, WithIndex(s, i)) == Last(t, s)
    ensures i == s[|s| - 1].index + 1 ==> StartOff(t, WithIndex(s, i)) == EndOff(t, s)
    ensures i + 1 == s[|s| - 1].index ==> EndOff(t, WithIndex(s, i)) == StartOff(t, s)
    decreases t
  {
    if |s| > 1 {
      MoveIndex(t.kids[s[0].index], s[1..], i);
      assert WithIndex(s, i)[1..] == WithIndex(s[1..], i);
    }
  }

  /** Leaving a node at its last or first element. */
  lemma {:induction false} PopFrame(t: Tree, s: seq<Frame>)
    requires OnPath(t, s) && |s| > 1
    ensures OnPath(t, s[..|s| - 1])
    ensures s[|s| - 1].index + 1 == Len(Last(t, s)) ==> EndOff(t, s[..|s| - 1]) == EndOff(t, s)
    ensures s[|s| - 1].index == 0 ==> StartOff(t, s[..|s| - 1]) == StartOff(t, s)
    decreases t
  {
    var i := s[0].index;
    SizeStep(t, i);
    if |s| == 2 {
      SizeStep(t.kids[i], s[1].index);
      assert Last(t, s) == t.kids[i];
      assert s[..1] == [s[0]] && s[1..] == [s[1]];
      assert EndOff(t, s) == SizeTo(t, i) + SizeTo(t.kids[i], s[1].index + 1);
      assert StartOff(t, s) == SizeTo(t, i) + SizeTo(t.kids[i], s[1].index);
    } else {
      PopFrame(t.kids[i], s[1..]);
      assert s[..|s| - 1][1..] == s[1..][..|s[1..]| - 1];
    }
  }

  /** Entering a child at its first or last element. */
  lemma {:induction false} PushFrame(t: Tree, s: seq<Frame>, j: nat)
    requires OnPath(t, s) && Last(t, s).Branch?
    requires j < Len(Last(t, s).kids[s[|s| - 1].index])
    ensures var kid := Last(t, s).kids[s[|s| - 1].index];
            var s' := s + [Frame(j, kid.page)];
            && OnPath(t, s') && Last(t, s') == kid
            && (j == 0 ==> StartOff(t, s') == StartOff(t, s))
            && (j + 1 == Len(kid) ==> EndOff(t, s') == EndOff(t, s))
    decreases t
  {
    var i := s[0].index;
    SizeStep(t, i);
    var kid := Last(t, s).kids[s[|s| - 1].index];
    var s' := s + [Frame(j, kid.page)];
    assert s'[1..] == s[1..] + [Frame(j, kid.page)];
    if |s| == 1 {
      SizeStep(kid, j);
    } else {
      PushFrame(t.kids[i], s[1..], j);
    }
  }

  lemma {:induction false} LastFacts(view: map<PageId, PageData>, t: Tree, s: seq<Frame>)
    requires OnPath(t, s) && Rep(view, t)
    ensures s != [] && Rep(view, Last(t, s)) && Last(t, s).page == s[|s| - 1].page
    ensures s[|s| - 1].index < Len(Last(t, s))
    ensures Full(t) ==> Full(Last(t, s))
    decreases t
  {
    if |s| > 1 {
      LastFacts(view, t.kids[s[0].index], s[1..]);
    }
  }

  /** The entry under a complete path. */
  lemma {:induction false} EntryAt(t: Tree, s: seq<Frame>)
    requires Complete(t, s)
    ensures StartOff(t, s) < |Flatten(t)| && EndOff(t, s) == StartOff(t, s) + 1
    ensures Flatten(t)[StartOff(t, s)] == Last(t, s).entries[s[|s| - 1].index]
    decreases t
  {
    var i := s[0].index;
    if |s| > 1 {
      EntryAt(t.kids[i], s[1..]);
      FlattenSplit(t.kids, i);
    }
  }

  lemma {:induction false} OffsetBound(t: Tree, s: seq<Frame>)
    requires OnPath(t, s)
    ensures EndOff(t, s) <= |Flatten(t)| && StartOff(t, s) <= EndOff(t, s)
    ensures |s| == 1 && s[0].index + 1 == Len(t) ==> EndOff(t, s) == |Flatten(t)|
    ensures |s| == 1 && s[0].index == 0 ==> StartOff(t, s) == 0
    decreases t
  {
    var i := s[0].index;
    SizeStep(t, i);
    if t.Branch? {
      FlattenSplit(t.kids, i);
      if |s| > 1 {
        OffsetBound(t.kids[i], s[1..]);
      }
    }
  }

  /** `PageNode::len` */
  function Count(d: PageData): nat {
    match d
    case Leaves(es) => |es|
    case Branches(_, pages) => |pages|
  }

  lemma CountIsLen(view: map<PageId, PageData>, t: Tree)
    requires Rep(view, t)
    ensures t.page in view && Count(view[t.page]) == Len(t)
    ensures t.Branch? ==> view[t.page].Branches? && |view[t.page].pages| == |t.kids|
  {
  }

  lemma FullLen(t: Tree)
    requires Full(t)
    ensures Len(t) > 0
  {
  }

  /** The stack a search for `key` leaves. */
  ghost function SeekPath(t: Tree, key: Key): seq<Frame> {
    match t
    case Leaf(p, es) => [Frame(Index(KeysOf(es), key), p)]
    case Branch(p, seps, kids) =>
      [Frame(Index(seps, key), p)] + if Index(seps, key) < |kids| then SeekPath(kids[Index(seps, key)], key) else []
  }

  lemma SeekLevel(view: map<PageId, PageData>, cur: Tree, key: Key)
    requires Rep(view, cur) && Routable(cur)
    ensures cur.page in view
    ensures var d := view[cur.page];
            var i := Index(KeysIn(d), key);
            if d.Leaves? then
              && Route(cur, key) == cur && cur.Leaf? && KeysIn(d) == KeysOf(cur.entries)
              && SeekPath(cur, key) == [Frame(i, cur.page)]
            else
              && cur.Branch? && i < |cur.kids| == |d.pages| && d.pages[i] == cur.kids[i].page
              && Rep(view, cur.kids[i]) && Routable(cur.kids[i])
              && Route(cur.kids[i], key) == Route(cur, key)
              && SeekPath(cur, key) == [Frame(i, cur.page)] + SeekPath(cur.kids[i], key)
  {
  }

  lemma EmptySeek(t: Tree, key: Key)
    ensures t.Leaf? && t.entries == [] ==> SeekPath(t, key) == [Frame(0, t.page)]
  {
  }

  /** Where a search lands in the flattened order. */
  lemma {:induction false} SeekLands(t: Tree, key: Key)
    requires Routable(t) && Full(t)
    ensures Route(t, key).Leaf? && Route(t, key).entries != [] && Complete(t, SeekPath(t, key))
    ensures StartOff(t, SeekPath(t, key)) == |Before(t, key)| + Index(KeysOf(Route(t, key).entries), key)
    decreases t
  {
    var s := SeekPath(t, key);
    if t.Branch? {
      var i := Index(t.seps, key);
      SeekLands(t.kids[i], key);
      assert s[1..] == SeekPath(t.kids[i], key);
    }
  }

  lemma SingleFrame(t: Tree, s: seq<Frame>)
    requires OnPath(t, s) && |s| == 1
    ensures Last(t, s) == t && s[0].page == t.page && s[0].index < Len(t)
  {
  }

  lemma EmptyFlat(t: Tree)
    ensures t.Leaf? && t.entries == [] ==> Flatten(t) == []
  {
  }

  // ---------- the cursor ----------

  lemma Reassociate(a: seq<Frame>, x: Frame, b: seq<Frame>)
    ensures a + ([x] + b) == (a + [x]) + b
  {
  }

  class Cursor {
    const view: map<PageId, PageData>
    const rootPage: PageId
    ghost const tree: Tree
    var stack: seq<Frame>
    var nextCalled: bool
    var previousCalled: bool

    /** A committed tree: no empty leaf, except that the whole bucket may be empty. */
    ghost predicate Committed() {
      && Rep(view, tree) && tree.page == rootPage && Routable(tree)
      && (Full(tree) || (tree.Leaf? && tree.entries == []))
    }

    ghost predicate Empty() {
      tree.Leaf? && tree.entries == []
    }

    /** The stack is empty, complete, or ran off the end of the tree. */
    ghost predicate Valid()
      reads this
    {
      && Committed()
      && (!Empty() && stack != [] ==>
            && OnPath(tree, stack)
            && (Complete(tree, stack) || (nextCalled && EndOff(tree, stack) == |Flatten(tree)|)))
      && (Empty() ==> stack == [] || stack == [Frame(0, rootPage)])
    }

    /** The position the next call of `Advance` yields. */
    ghost function NextOff(): nat
      requires Valid()
      reads this
    {
      if Empty() || stack == [] then 0
      else if nextCalled then EndOff(tree, stack) else StartOff(tree, stack)
    }

    constructor (view: map<PageId, PageData>, rootPage: PageId, ghost tree: Tree)
      requires Rep(view, tree) && tree.page == rootPage && Routable(tree)
      requires Full(tree) || (tree.Leaf? && tree.entries == [])
      ensures Valid() && stack == [] && !nextCalled && !previousCalled
      ensures this.view == view && this.tree == tree && this.rootPage == rootPage
    {
      this.view, this.rootPage, this.tree := view, rootPage, tree;
      stack, nextCalled, previousCalled := [], false, false;
    }

    /** The entry at the cursor, if its leaf has one there. */
    method Current() returns (r: Option<Entry>)
      requires Committed()
      requires stack != [] && (Empty() || Complete(tree, stack)) && (Empty() ==> stack == [Frame(0, rootPage)])
      ensures Empty() ==> r == None
      ensures !Empty() ==> StartOff(tree, stack) < |Flatten(tree)| && r == Some(Flatten(tree)[StartOff(tree, stack)])
    {
      var top := stack[|stack| - 1];
      if Complete(tree, stack) {
        LastFacts(view, tree, stack);
        EntryAt(tree, stack);
      }
      var es := view[top.page].entries;
      r := if top.index < |es| then Some(es[top.index]) else None;
    }

    /** Descends from the top of the stack to a leaf, along first or along last children. */
    method Descend(first: bool)
      requires Committed() && !Empty() && OnPath(tree, stack)
      modifies this`stack
      ensures stack != [] && Complete(tree, stack)
      ensures first ==> StartOff(tree, stack) == StartOff(tree, old(stack))
      ensures !first ==> EndOff(tree, stack) == EndOff(tree, old(stack))
    {
      hide Routable, StartOff, EndOff, OnPath, Last;
      ghost var cur := Last(tree, stack);
      LastFacts(view, tree, stack);
      while view[stack[|stack| - 1].page].Branches?
        invariant OnPath(tree, stack) && stack != [] && cur == Last(tree, stack)
        invariant first ==> StartOff(tree, stack) == StartOff(tree, old(stack))
        invariant !first ==> EndOff(tree, stack) == EndOff(tree, old(stack))
        invariant Rep(view, cur) && Full(cur) && cur.page == stack[|stack| - 1].page
        invariant stack[|stack| - 1].index < Len(cur)
        decreases cur
      {
        var top := stack[|stack| - 1];
        var page := view[top.page].pages[top.index];
        ghost var kid := cur.kids[top.index];
        assert Rep(view, kid) && Full(kid);
        CountIsLen(view, kid);
        FullLen(kid);
        var index := if first then 0 else Count(view[page]) - 1;
        PushFrame(tree, stack, index);
        stack := stack + [Frame(index, page)];
        cur := kid;
      }
    }

    method SeekFirst()
      requires Committed()
      requires stack == [] || (!Empty() && OnPath(tree, stack))
      modifies this`stack
      ensures Empty() ==> stack == [Frame(0, rootPage)]
      ensures stack != [] && (!Empty() ==> Complete(tree, stack))
      ensures !Empty() ==> StartOff(tree, stack) == if old(stack) == [] then 0 else StartOff(tree, old(stack))
    {
      if stack == [] {
        stack := [Frame(0, rootPage)];
        if view[rootPage] == Leaves([]) {
          return;
        }
        OffsetBound(tree, stack);
      }
      Descend(true);
    }

    /** Moves to the key, or just before where it would be. */
    method Seek(key: Key) returns (exists': bool)
      requires Valid()
      modifies this
      ensures Valid() && !nextCalled && !previousCalled && stack == SeekPath(tree, key) && stack != []
      ensures !Empty() ==> Complete(tree, stack)
      ensures Route(tree, key).Leaf? && exists' == Hit(KeysOf(Route(tree, key).entries), key)
    {
      hide StartOff, EndOff, OnPath, Last, Full, Flatten, Routable, Rep, Route, SeekPath, Index, Hit;
      nextCalled, previousCalled, stack := false, false, [];
      ghost var cur := tree;
      var page := rootPage;
      EmptySeek(tree, key);
      if !Empty() {
        SeekLands(tree, key);
      }
      while true
        invariant Rep(view, cur) && cur.page == page && Routable(cur)
        invariant !nextCalled && !previousCalled && stack + SeekPath(cur, key) == SeekPath(tree, key)
        invariant Route(cur, key) == Route(tree, key)
        decreases cur
      {
        SeekLevel(view, cur, key);
        var d := view[page];
        var index := Index(KeysIn(d), key);
        if d.Leaves? {
          stack := stack + [Frame(index, page)];
          return Hit(KeysIn(d), key);
        }
        Reassociate(stack, Frame(index, page), SeekPath(cur.kids[index], key));
        stack := stack + [Frame(index, page)];
        page := d.pages[index];
        cur := cur.kids[index];
      }
    }

    /** Steps to the next element, popping finished nodes. */
    method StepForward() returns (moved: bool)
      requires Committed() && !Empty() && OnPath(tree, stack)
      modifies this`stack
      ensures stack != []
      ensures moved ==> Complete(tree, stack) && StartOff(tree, stack) == EndOff(tree, old(stack))
      ensures !moved ==> OnPath(tree, stack) && EndOff(tree, stack) == EndOff(tree, old(stack)) == |Flatten(tree)|
    {
      hide Routable, StartOff, EndOff, OnPath, Last, Flatten, Full;
      while true
        invariant OnPath(tree, stack) && EndOff(tree, stack) == EndOff(tree, old(stack))
        decreases |stack|
      {
        LastFacts(view, tree, stack);
        CountIsLen(view, Last(tree, stack));
        var top := stack[|stack| - 1];
        if top.index >= Count(view[top.page]) - 1 {
          if |stack| == 1 {
            SingleFrame(tree, stack);
            OffsetBound(tree, stack);
            return false;
          }
          PopFrame(tree, stack);
          stack := stack[..|stack| - 1];
        } else {
          MoveIndex(tree, stack, top.index + 1);
          stack := WithIndex(stack, top.index + 1);
          Descend(true);
          return true;
        }
      }
    }

    /** `Iterator::next` */
    method Advance() returns (r: Option<Entry>)
      requires Valid() && (Empty() ==> stack == [] || !nextCalled)
      modifies this
      ensures Valid() && nextCalled && !previousCalled
      ensures old(NextOff()) < |Flatten(tree)| ==>
                r == Some(Flatten(tree)[old(NextOff())]) && NextOff() == old(NextOff()) + 1 && stack != []
      ensures old(NextOff()) >= |Flatten(tree)| ==> r == None && NextOff() == |Flatten(tree)|
    {
      hide Routable, StartOff, EndOff, OnPath, Last, Full;
      previousCalled := false;
      if stack == [] {
        SeekFirst();
      } else if nextCalled {
        var moved := StepForward();
        if !moved {
          return None;
        }
      }
      nextCalled := true;
      if !Empty() {
        EntryAt(tree, stack);
      }
      r := Current();
    }

    /** Iterating a fresh cursor to its end yields every entry, in order. */
    method CollectForward() returns (out: seq<Entry>)
      requires Valid() && stack == [] && !nextCalled
      modifies this
      ensures Valid() && out == Flatten(tree)
    {
      hide Routable, StartOff, EndOff, OnPath, Last, Full, Flatten;
      out := [];
      ghost var flat := Flatten(tree);
      EmptyFlat(tree);
      while true
        invariant Valid() && NextOff() <= |flat| && out == flat[..NextOff()]
        invariant Empty() ==> stack == [] || !nextCalled
        decreases |flat| - NextOff()
      {
        var e := Advance();
        if e.None? {
          return;
        }
        out := out + [e.value];
      }
    }

    /** Positions the cursor at the greatest key; an empty bucket leaves it unset. */
    method SeekLast()
      requires Valid()
      modifies this
      ensures Valid() && !nextCalled && !previousCalled
      ensures Empty() ==> stack == []
      ensures !Empty() ==> stack != [] && Complete(tree, stack) && StartOff(tree, stack) + 1 == |Flatten(tree)|
    {
      hide Routable, StartOff, EndOff, Last, Flatten;
      stack, nextCalled, previousCalled := [], false, false;
      CountIsLen(view, tree);
      if Count(view[rootPage]) == 0 {
        return;
      }
      stack := [Frame(Count(view[rootPage]) - 1, rootPage)];
      OffsetBound(tree, stack);
      Descend(false);
      EntryAt(tree, stack);
    }

    /** Steps to the previous element, popping nodes left at their first element. */
    method StepBack() returns (moved: bool)
      requires Committed() && !Empty() && OnPath(tree, stack)
      modifies this`stack
      ensures moved ==> stack != [] && Complete(tree, stack) && EndOff(tree, stack) == StartOff(tree, old(stack))
      ensures !moved ==> stack == [] && StartOff(tree, old(stack)) == 0
    {
      hide Routable, StartOff, EndOff, OnPath, Last, Full, Flatten;
      while true
        invariant OnPath(tree, stack) && StartOff(tree, stack) == StartOff(tree, old(stack))
        decreases |stack|
      {
        LastFacts(view, tree, stack);
        var top := stack[|stack| - 1];
        if top.index == 0 {
          if |stack| == 1 {
            OffsetBound(tree, stack);
            stack := [];
            return false;
          }
          PopFrame(tree, stack);
          stack := stack[..|stack| - 1];
        } else {
          MoveIndex(tree, stack, top.index - 1);
          stack := WithIndex(stack, top.index - 1);
          Descend(false);
          return true;
        }
      }
    }

    /** How many entries `Previous` has still to yield. */
    ghost function LeftOff(): nat
      requires Valid() && (stack == [] || Empty() || Complete(tree, stack))
      reads this
    {
      if Empty() then 0
      else if stack == [] then |Flatten(tree)|
      else if previousCalled then StartOff(tree, stack) else StartOff(tree, stack) + 1
    }

    /** Returns the current entry, then moves toward smaller keys; after the first key the
        stack is empty, so that one more call starts over at the end. */
    method Previous() returns (r: Option<Entry>)
      requires Valid() && (stack == [] || Empty() || Complete(tree, stack))
      modifies this
      ensures Valid() && (stack == [] || Empty() || Complete(tree, stack))
      ensures old(LeftOff()) > 0 ==>
                && old(LeftOff()) <= |Flatten(tree)| && r == Some(Flatten(tree)[old(LeftOff()) - 1])
                && stack != [] && previousCalled && LeftOff() == old(LeftOff()) - 1
      ensures old(LeftOff()) == 0 ==> r == None && (!Empty() ==> stack == [])
    {
      hide Routable, StartOff, EndOff, OnPath, Last, Full, Flatten;
      if stack == [] {
        SeekLast();
        if stack == [] {
          previousCalled, nextCalled := true, false;
          return None;
        }
      } else if previousCalled {
        if view[rootPage] == Leaves([]) {
          stack := [];
          return None;
        }
        var moved := StepBack();
        if !moved {
          return None;
        }
        EntryAt(tree, stack);
      }
      previousCalled, nextCalled := true, false;
      if !Empty() {
        EntryAt(tree, stack);
      }
      r := Current();
    }

    /** Iterating backwards from the end yields the entries in reverse. */
    method CollectBackward() returns (out: seq<Entry>)
      requires Valid() && stack == []
      modifies this
      ensures Valid() && |out| == |Flatten(tree)|
      ensures forall i :: 0 <= i < |out| ==> out[i] == Flatten(tree)[|out| - 1 - i]
    {
      hide Routable, StartOff, EndOff, OnPath, Last, Full, Flatten;
      out := [];
      ghost var n := |Flatten(tree)|;
      EmptyFlat(tree);
      while true
        invariant Valid() && (stack == [] || Empty() || Complete(tree, stack))
        invariant |out| + LeftOff() == n
        invariant forall i :: 0 <= i < |out| ==> out[i] == Flatten(tree)[n - 1 - i]
        decreases LeftOff()
      {
        var e := Previous();
        if e.None? {
          return;
        }
        out := out + [e.value];
      }
    }
  }

  // ---------- ranges ----------

  datatype Bound = Unbounded | Included(key: Key) | Excluded(key: Key)

  /** k lies before the start bound. */
  ghost predicate TooLow(lo: Bound, k: Key) {
    match lo
    case Unbounded => false
    case Included(s) => Less(k, s)
    case Excluded(s) => !Less(s, k)
  }

  predicate TooHigh(hi: Bound, k: Key) {
    match hi
    case Unbounded => false
    case Included(e) => Less(e, k)
    case Excluded(e) => !Less(k, e)
  }

  /** The entries a range promises. */
  ghost function InBounds(es: seq<Entry>, lo: Bound, hi: Bound): seq<Entry> {
    if es == [] then []
    else
      var rest := InBounds(es[..|es| - 1], lo, hi);
      var e := es[|es| - 1];
      if TooLow(lo, e.key) || TooHigh(hi, e.key) then rest else rest + [e]
  }

  /** The start bound `Range` honours. */
  function Honoured(lo: Bound): Bound {
    if lo.Included? then lo else Unbounded
  }

  lemma {:induction false} InBoundsPrefix(es: seq<Entry>, lo: Bound, hi: Bound, n: nat)
    requires n <= |es|
    requires forall i :: n <= i < |es| ==> TooLow(lo, es[i].key) || TooHigh(hi, es[i].key)
    ensures InBounds(es, lo, hi) == InBounds(es[..n], lo, hi)
    decreases |es|
  {
    if n < |es| {
      var front := es[..|es| - 1];
      InBoundsPrefix(front, lo, hi, n);
      assert front[..n] == es[..n];
    } else {
      assert es[..n] == es;
    }
  }

  lemma {:induction false} InBoundsLow(es: seq<Entry>, lo: Bound, hi: Bound)
    requires forall i :: 0 <= i < |es| ==> TooLow(lo, es[i].key)
    ensures InBounds(es, lo, hi) == []
  {
    if es != [] {
      InBoundsLow(es[..|es| - 1], lo, hi);
    }
  }

  /** Entries below s come before position n, the others from n on. */
  ghost predicate StartsAt(es: seq<Entry>, s: Key, n: nat) {
    && n <= |es|
    && (forall i :: 0 <= i < n ==> Less(es[i].key, s))
    && (forall i :: n <= i < |es| ==> !Less(es[i].key, s))
  }

  /** After a seek the range starts at the found entry or, if the entry there is still
      smaller, at the one after it. */
  lemma SeekStart(t: Tree, key: Key)
    requires Routable(t) && Full(t)
    ensures Route(t, key).Leaf? && Complete(t, SeekPath(t, key))
    ensures var n := StartOff(t, SeekPath(t, key));
            var flat := Flatten(t);
            && n < |flat|
            && StartsAt(flat, key,
                        if Hit(KeysOf(Route(t, key).entries), key) || !Less(flat[n].key, key) then n else n + 1)
  {
    hide Routable, Full, Flatten, OnPath, StartOff, Last, Rank;
    SeekLands(t, key);
    RouteSplits(t, key, []);
    RouteBounds(t, key);
    RouteLeafSorted(t, key);
    EntryAt(t, SeekPath(t, key));
    var leaf := Route(t, key).entries;
    LowerOfSorted(leaf, key);
    StartInMiddle(Before(t, key), leaf, After(t, key), key, Flatten(t), StartOff(t, SeekPath(t, key)));
  }

  lemma StartInMiddle(b: seq<Entry>, l: seq<Entry>, a: seq<Entry>, key: Key, flat: seq<Entry>, n: nat)
    requires flat == b + l + a && Sorted(l) && n == |b| + Index(KeysOf(l), key) < |flat|
    requires forall e :: e in b ==> Less(e.key, key)
    requires forall e :: e in a ==> Less(key, e.key)
    requires l != []
    ensures StartsAt(flat, key, if Hit(KeysOf(l), key) || !Less(flat[n].key, key) then n else n + 1)
  {
    hide Rank, Less, StartsAt;
    assert flat[n] == l[n - |b|];
    LeafStart(l, key);
    StartsInside(b, l, a, key, flat, if Hit(KeysOf(l), key) || !Less(flat[n].key, key) then n else n + 1);
  }

  /** Where the entries not below a key start in the leaf a search ends in. */
  lemma LeafStart(l: seq<Entry>, key: Key)
    requires Sorted(l) && l != []
    ensures var i := Index(KeysOf(l), key);
            i < |l| && StartsAt(l, key, if Hit(KeysOf(l), key) || !Less(l[i].key, key) then i else i + 1)
  {
    hide Rank;
    LowerOfSorted(l, key);
  }

  lemma StartsInside(b: seq<Entry>, l: seq<Entry>, a: seq<Entry>, key: Key, flat: seq<Entry>, n: nat)
    requires flat == b + l + a && |b| <= n && StartsAt(l, key, n - |b|)
    requires forall e :: e in b ==> Less(e.key, key)
    requires forall e :: e in a ==> Less(key, e.key)
    ensures StartsAt(flat, key, n)
  {
    hide Rank;
    forall k | 0 <= k < |flat|
      ensures flat[k] == if k < |b| then b[k] else if k < |b| + |l| then l[k - |b|] else a[k - |b| - |l|]
    {
    }
    assert forall k :: 0 <= k < |b| ==> b[k] in b;
    assert forall k :: 0 <= k < |a| ==> a[k] in a;
  }

  class Range {
    const c: Cursor
    const lo: Bound
    const hi: Bound

    constructor (c: Cursor, lo: Bound, hi: Bound)
      ensures this.c == c && this.lo == lo && this.hi == hi
    {
      this.c, this.lo, this.hi := c, lo, hi;
    }

    /** Moves a fresh cursor to the start of the range. */
    method Start()
      requires c.Valid() && c.stack == [] && !c.nextCalled
      modifies c
      ensures c.Valid() && (c.Empty() ==> c.stack == [] || !c.nextCalled)
      ensures !c.Empty() ==> lo.Included? ==> StartsAt(Flatten(c.tree), lo.key, c.NextOff())
      ensures !lo.Included? ==> c.NextOff() == 0
    {
      hide Routable, Full, Flatten, OnPath, StartOff, EndOff, Last, Rank;
      if lo.Included? {
        var found := c.Seek(lo.key);
        if !c.Empty() {
          SeekStart(c.tree, lo.key);
        }
        if !found {
          var data := c.Current();
          if data.Some? && Less(data.value.key, lo.key) {
            var _ := c.Advance();
          }
        }
      }
    }

    /** Iterating a range: with an included or unbounded start it yields exactly the
        entries in bounds, in order; an excluded start is not honoured. */
    method Collect() returns (out: seq<Entry>)
      requires c.Valid() && c.stack == [] && !c.nextCalled
      modifies c
      ensures c.Valid() && out == InBounds(Flatten(c.tree), Honoured(lo), hi)
    {
      hide Routable, Full, Flatten, OnPath, StartOff, EndOff, Last, Rank;
      ghost var flat := Flatten(c.tree);
      EmptyFlat(c.tree);
      RoutableSorted(c.tree);
      Start();
      out := [];
      assert c.NextOff() <= |flat|;
      InBoundsLow(flat[..c.NextOff()], Honoured(lo), hi);
      while true
        invariant c.Valid() && c.NextOff() <= |flat| && out == InBounds(flat[..c.NextOff()], Honoured(lo), hi)
        invariant !c.Empty() && lo.Included? ==> forall i :: c.NextOff() <= i < |flat| ==> !Less(flat[i].key, lo.key)
        invariant c.Empty() ==> c.stack == [] || !c.nextCalled
        decreases |flat| - c.NextOff()
      {
        ghost var n := c.NextOff();
        var e := c.Advance();
        if e.None? {
          assert flat[..n] == flat;
          return;
        }
        if TooHigh(hi, e.value.key) {
          InBoundsPrefix(flat, Honoured(lo), hi, n);
          return;
        }
        assert flat[..n + 1][..n] == flat[..n];
        out := out + [e.value];
      }
    }
  }

  /** An excluded start bound is met exactly when no entry up to the end bound lies at or
      below it. */
  lemma ExcludedStart(es: seq<Entry>, s: Key, hi: Bound)
    ensures InBounds(es, Honoured(Excluded(s)), hi) == InBounds(es, Excluded(s), hi)
            <==> forall i :: 0 <= i < |es| && !TooHigh(hi, es[i].key) ==> Less(s, es[i].key)
  {
    InBoundsShorter(es, s, hi);
  }

  /** Two entries, the first excluded: the range yields it all the same. */
  lemma ExcludedYielded()
    ensures var a, b := Entry([1], Kv([])), Entry([2], Kv([]));
            && InBounds([a, b], Excluded([1]), Unbounded) == [b]
            && InBounds([a, b], Honoured(Excluded([1])), Unbounded) == [a, b]
  {
    var a, b := Entry([1], Kv([])), Entry([2], Kv([]));
    RankIsOrder([1], [1]);
    RankIsOrder([1], [2]);
    assert [a, b][..1] == [a] && [a][..0] == [];
    assert InBounds([a], Excluded([1]), Unbounded) == [] && InBounds([a], Unbounded, Unbounded) == [a];
  }

  lemma {:induction false} InBoundsShorter(es: seq<Entry>, s: Key, hi: Bound)
    ensures |InBounds(es, Excluded(s), hi)| <= |InBounds(es, Unbounded, hi)|
    ensures |InBounds(es, Excluded(s), hi)| == |InBounds(es, Unbounded, hi)| ==>
            InBounds(es, Excluded(s), hi) == InBounds(es, Unbounded, hi)
    ensures |InBounds(es, Excluded(s), hi)| == |InBounds(es, Unbounded, hi)|
            <==> forall i :: 0 <= i < |es| && !TooHigh(hi, es[i].key) ==> Less(s, es[i].key)
  {
    if es != [] {
      var front := es[..|es| - 1];
      InBoundsShorter(front, s, hi);
      if forall i :: 0 <= i < |es| && !TooHigh(hi, es[i].key) ==> Less(s, es[i].key) {
        assert forall i :: 0 <= i < |front| ==> front[i] == es[i];
      }
    }
  }
}
