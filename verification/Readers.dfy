/** Readers registered as byte-range locks: a one-byte token per slot, and a payload range
    whose position and length spell the transaction id.  Enumerating them finds every slot
    once, whatever overlapping lock the kernel reports first. */
module Readers {
  import opened Bytes
  import opened Wrappers

  const LOCK_BASE := 0x1000_0000_0000_0000
  const TOKEN_BASE := LOCK_BASE + 8
  const MAX_READER_SLOTS := 65536
  const PAYLOAD_BASE := LOCK_BASE + 0x10_0000
  const PAYLOAD_STRIDE := 0x2_0000_0000
  const TWO_32 := 0x1_0000_0000

  type Slot = s: nat | s < 65536
  type TxId = t: nat | t < TWO_64

  datatype Result<T> = Ok(value: T) | Err
  datatype Range = Range(start: nat, length: nat)

  /** Slots whose token is locked, and the ids of those that hold their payload too. */
  datatype Table = Table(tokens: set<Slot>, ids: map<Slot, TxId>)

  ghost predicate Valid(t: Table) {
    t.ids.Keys <= t.tokens
  }

  function TokenOffset(s: Slot): nat {
    TOKEN_BASE + s
  }

  function PayloadBlock(s: Slot): nat {
    PAYLOAD_BASE + s * PAYLOAD_STRIDE
  }

  function EncodeTxId(s: Slot, id: TxId): Range {
    Range(PayloadBlock(s) + id % TWO_32, id / TWO_32 + 1)
  }

  function DecodeTxId(block: nat, lock: Range): Result<nat> {
    if lock.start < block || lock.start - block >= TWO_32 then Err
    else if lock.length < 1 || lock.length - 1 >= TWO_32 then Err
    else Ok((lock.length - 1) * TWO_32 + (lock.start - block))
  }

  ghost predicate Overlap(a: Range, b: Range) {
    a.start < b.start + b.length && b.start < a.start + a.length
  }

  /** Every 64-bit id reads back from its lock, which stays inside its slot's block. */
  lemma IdRoundTrip(s: Slot, id: TxId)
    ensures DecodeTxId(PayloadBlock(s), EncodeTxId(s, id)) == Ok(id)
    ensures var r := EncodeTxId(s, id);
            PayloadBlock(s) <= r.start && r.length > 0 && r.start + r.length <= PayloadBlock(s) + PAYLOAD_STRIDE
  {
    assert id / TWO_32 < TWO_32;
    assert id == (id / TWO_32) * TWO_32 + id % TWO_32;
  }

  /** A slot's lock meets no other slot's block, and blocks lie above the token region. */
  lemma BlocksApart(p: Slot, id: TxId, s: Slot)
    ensures Overlap(EncodeTxId(p, id), Range(PayloadBlock(s), PAYLOAD_STRIDE)) <==> p == s
    ensures TOKEN_BASE + MAX_READER_SLOTS <= EncodeTxId(p, id).start
  {
    IdRoundTrip(p, id);
    if p < s {
      assert (p + 1) * PAYLOAD_STRIDE <= s * PAYLOAD_STRIDE;
    } else if s < p {
      assert (s + 1) * PAYLOAD_STRIDE <= p * PAYLOAD_STRIDE;
    }
  }

  // ---------- the kernel's answer ----------

  function TokenRange(s: Slot): Range {
    Range(TokenOffset(s), 1)
  }

  /** The locks other descriptors hold. */
  function Locks(t: Table): set<Range> {
    (set s | s in t.tokens :: TokenRange(s)) + (set s | s in t.ids :: EncodeTxId(s, t.ids[s]))
  }

  /** Some lock that overlaps the range, if there is one; which one is not specified. */
  method GetLock(t: Table, start: nat, length: nat) returns (r: Option<Range>)
    ensures r.Some? ==> r.value in Locks(t) && Overlap(r.value, Range(start, length))
    ensures r.None? ==> forall l :: l in Locks(t) ==> !Overlap(l, Range(start, length))
  {
    var locks := Locks(t);
    if l :| l in locks && l.start < start + length && start < l.start + l.length {
      r := Some(l);
    } else {
      r := None;
    }
  }

  /** In the token region only tokens answer. */
  lemma TokenAnswer(t: Table, l: Range, start: nat, end: nat) returns (s: Slot)
    requires TOKEN_BASE <= start <= end <= TOKEN_BASE + MAX_READER_SLOTS
    requires l in Locks(t) && Overlap(l, Range(start, end - start))
    ensures s in t.tokens && l == TokenRange(s) && start <= TokenOffset(s) < end
  {
    forall p | p in t.ids ensures l != EncodeTxId(p, t.ids[p]) {
      BlocksApart(p, t.ids[p], p);
    }
    s :| s in t.tokens && l == TokenRange(s);
  }

  /** In a slot's block only that slot's payload answers. */
  lemma PayloadAnswer(t: Table, s: Slot)
    requires Valid(t)
    ensures forall l :: l in Locks(t) ==>
                          (Overlap(l, Range(PayloadBlock(s), PAYLOAD_STRIDE)) <==>
                              s in t.ids && l == EncodeTxId(s, t.ids[s]))
    ensures s in t.ids ==> EncodeTxId(s, t.ids[s]) in Locks(t)
  {
    forall l | l in Locks(t)
      ensures Overlap(l, Range(PayloadBlock(s), PAYLOAD_STRIDE)) <==> s in t.ids && l == EncodeTxId(s, t.ids[s])
    {
      if s in t.ids {
        BlocksApart(s, t.ids[s], s);
      }
      if p :| p in t.ids && l == EncodeTxId(p, t.ids[p]) {
        BlocksApart(p, t.ids[p], s);
      }
    }
  }

  // ---------- enumerating tokens ----------

  datatype Span = Span(start: nat, end: nat)

  ghost predicate In(r: Span, s: Slot) {
    r.start <= TokenOffset(s) < r.end
  }

  ghost function Size(r: Span): nat {
    if r.end < r.start then 0 else r.end - r.start
  }

  ghost function Sizes(rs: seq<Span>): nat {
    if rs == [] then 0 else Sizes(rs[..|rs| - 1]) + Size(rs[|rs| - 1])
  }

  ghost predicate Distinct(s: seq<Slot>) {
    forall i, j :: 0 <= i < j < |s| ==> s[i] != s[j]
  }

  /** Found slots are locked and outside every open span; any other locked slot is in
      exactly one open span. */
  ghost predicate Search(t: Table, slots: seq<Slot>, rs: seq<Span>) {
    && Distinct(slots) && (forall s :: s in slots ==> s in t.tokens)
    && (forall i :: 0 <= i < |rs| ==> TOKEN_BASE <= rs[i].start && rs[i].end <= TOKEN_BASE + MAX_READER_SLOTS)
    && (forall s, i :: s in slots && 0 <= i < |rs| ==> !In(rs[i], s))
    && (forall s, i, j :: 0 <= i < j < |rs| && In(rs[i], s) ==> !In(rs[j], s))
    && (forall s :: s in t.tokens ==> s in slots || exists i :: 0 <= i < |rs| && In(rs[i], s))
  }

  lemma DropSpan(t: Table, slots: seq<Slot>, rs: seq<Span>, r: Span)
    requires Search(t, slots, rs + [r]) && forall s :: s in t.tokens ==> !In(r, s)
    ensures Search(t, slots, rs)
  {
    var all := rs + [r];
    assert forall i :: 0 <= i < |rs| ==> rs[i] == all[i];
    forall s | s in t.tokens ensures s in slots || exists i :: 0 <= i < |rs| && In(rs[i], s) {
      if s !in slots {
        var i :| 0 <= i < |all| && In(all[i], s);
        assert In(rs[i], s);
      }
    }
    forall s, i, j | 0 <= i < j < |rs| && In(rs[i], s) ensures !In(rs[j], s) {
      assert In(all[i], s);
      assert !In(all[j], s);
    }
    forall s, i | s in slots && 0 <= i < |rs| ensures !In(rs[i], s) {
      assert !In(all[i], s);
    }
  }

  /** A reported lock splits its span in two around it. */
  lemma SplitSpan(t: Table, slots: seq<Slot>, rs: seq<Span>, r: Span, s: Slot)
    requires Search(t, slots, rs + [r]) && s in t.tokens && In(r, s)
    ensures Search(t, slots + [s], rs + [Span(r.start, TokenOffset(s)), Span(TokenOffset(s) + 1, r.end)])
  {
    var all, left, right := rs + [r], Span(r.start, TokenOffset(s)), Span(TokenOffset(s) + 1, r.end);
    var next, found := rs + [left, right], slots + [s];
    assert all[|rs|] == r && forall i :: 0 <= i < |rs| ==> next[i] == all[i];
    assert forall x :: x in slots ==> !In(all[|rs|], x);
    forall x: Slot ensures In(r, x) <==> In(left, x) || x == s || In(right, x) {
    }
    forall x, i | x in found && 0 <= i < |next| ensures !In(next[i], x) {
      assert i < |rs| ==> next[i] == all[i];
      assert In(all[|rs|], s);
    }
    forall x, i, j | 0 <= i < j < |next| && In(next[i], x) ensures !In(next[j], x) {
      assert i < |rs| ==> next[i] == all[i];
      assert j < |rs| ==> next[j] == all[j];
      if i < |rs| <= j {
        assert In(all[i], x) && !In(all[|rs|], x);
      }
    }
    forall x | x in t.tokens ensures x in found || exists i :: 0 <= i < |next| && In(next[i], x) {
      if x !in found {
        var i :| 0 <= i < |all| && In(all[i], x);
        if i < |rs| {
          assert In(next[i], x);
        } else {
          assert In(next[|rs|], x) || In(next[|rs| + 1], x);
        }
      }
    }
  }

  /** `locked_tokens`: ends for any order of answers, and finds each locked slot once. */
  method LockedTokens(t: Table) returns (r: Result<seq<Slot>>)
    ensures r.Ok? && Distinct(r.value) && forall s :: s in r.value <==> s in t.tokens
  {
    hide Search, Locks;
    var slots: seq<Slot> := [];
    var ranges := [Span(TOKEN_BASE, TOKEN_BASE + MAX_READER_SLOTS)];
    Begin(t);
    while ranges != []
      invariant Search(t, slots, ranges)
      decreases 2 * Sizes(ranges) + |ranges|
    {
      var top := ranges[|ranges| - 1];
      ghost var rest, before := ranges[..|ranges| - 1], ranges;
      assert before == rest + [top];
      ranges := ranges[..|ranges| - 1];
      if top.start < top.end {
        SpanBounds(t, slots, rest, top);
        var lock := GetLock(t, top.start, top.end - top.start);
        match lock {
          case None =>
            NoAnswer(t, top);
            DropSpan(t, slots, rest, top);
          case Some(l) =>
            ghost var s := TokenAnswer(t, l, top.start, top.end);
            var lockEnd := l.start + l.length;
            if lockEnd >= TWO_64 || l.start < TOKEN_BASE || lockEnd > TOKEN_BASE + MAX_READER_SLOTS {
              assert false;
              return Err;
            }
            SplitSpan(t, slots, rest, top, s);
            slots := slots + [l.start - TOKEN_BASE];
            ranges := ranges + [Span(top.start, l.start), Span(lockEnd, top.end)];
            SizesAppend(rest, Span(top.start, l.start), Span(lockEnd, top.end));
        }
      } else {
        DropSpan(t, slots, rest, top);
      }
    }
    Finished(t, slots);
    r := Ok(slots);
  }

  lemma Begin(t: Table)
    ensures Search(t, [], [Span(TOKEN_BASE, TOKEN_BASE + MAX_READER_SLOTS)])
  {
    var r := Span(TOKEN_BASE, TOKEN_BASE + MAX_READER_SLOTS);
    forall s | s in t.tokens ensures exists i :: 0 <= i < |[r]| && In([r][i], s) {
      assert In([r][0], s);
    }
  }

  lemma SpanBounds(t: Table, slots: seq<Slot>, rs: seq<Span>, r: Span)
    requires Search(t, slots, rs + [r])
    ensures TOKEN_BASE <= r.start && r.end <= TOKEN_BASE + MAX_READER_SLOTS
  {
    assert (rs + [r])[|rs|] == r;
  }

  lemma NoAnswer(t: Table, r: Span)
    requires r.start < r.end && forall l :: l in Locks(t) ==> !Overlap(l, Range(r.start, r.end - r.start))
    ensures forall s :: s in t.tokens ==> !In(r, s)
  {
    forall s | s in t.tokens ensures !In(r, s) {
      assert TokenRange(s) in Locks(t);
    }
  }

  lemma SizesAppend(rs: seq<Span>, a: Span, b: Span)
    ensures Sizes(rs + [a, b]) == Sizes(rs) + Size(a) + Size(b)
  {
    assert (rs + [a, b])[..|rs| + 1] == rs + [a];
    assert (rs + [a])[..|rs|] == rs;
  }

  lemma Finished(t: Table, slots: seq<Slot>)
    requires Search(t, slots, [])
    ensures Distinct(slots) && forall s :: s in slots <==> s in t.tokens
  {
  }

  // ---------- the oldest reader ----------

  /** What the probe of one slot's block tells. */
  method ReaderId(t: Table, slot: Slot) returns (r: Option<nat>)
    requires Valid(t)
    ensures r == if slot in t.ids then Some(t.ids[slot]) else None
  {
    hide Locks, EncodeTxId, DecodeTxId, Overlap;
    var block := PayloadBlock(slot);
    PayloadAnswer(t, slot);
    var lock := GetLock(t, block, PAYLOAD_STRIDE);
    if lock.None? {
      return None;
    }
    IdRoundTrip(slot, t.ids[slot]);
    r := Some(DecodeTxId(block, lock.value).value);
  }

  /** The least id of the slots seen so far. */
  ghost predicate Best(t: Table, seen: set<Slot>, count: nat, oldest: Option<nat>) {
    && seen <= t.ids.Keys && count == |seen| && (oldest.None? <==> seen == {})
    && (oldest.Some? ==> (exists s :: s in seen && t.ids[s] == oldest.value)
                         && forall s :: s in seen ==> oldest.value <= t.ids[s])
  }

  lemma BestStep(t: Table, seen: set<Slot>, count: nat, oldest: Option<nat>, slot: Slot)
    requires Best(t, seen, count, oldest) && slot in t.ids && slot !in seen
    ensures Best(t, seen + {slot}, count + 1,
                 if oldest.None? || t.ids[slot] < oldest.value then Some(t.ids[slot]) else oldest)
  {
    assert slot in seen + {slot};
    if oldest.Some? {
      var s :| s in seen && t.ids[s] == oldest.value;
      assert s in seen + {slot};
    }
  }

  /** `readers`: how many hold their payload, and the least of their ids. */
  method OldestReader(t: Table) returns (count: nat, oldest: Option<nat>)
    requires Valid(t)
    ensures Best(t, t.ids.Keys, count, oldest)
  {
    hide Best;
    var slots := LockedTokens(t);
    count, oldest := 0, None;
    ghost var seen: set<Slot> := {};
    assert Best(t, seen, count, oldest) by {
      NoneSeen(t);
    }
    for i := 0 to |slots.value|
      invariant Best(t, seen, count, oldest)
      invariant forall s :: s in seen <==> s in slots.value[..i] && s in t.ids
    {
      var slot := slots.value[i];
      assert slots.value[..i + 1] == slots.value[..i] + [slot] && slot !in slots.value[..i];
      var id := ReaderId(t, slot);
      if id.Some? {
        BestStep(t, seen, count, oldest, slot);
        count := count + 1;
        oldest := if oldest.None? || id.value < oldest.value then id else oldest;
        seen := seen + {slot};
      }
    }
    assert slots.value[..|slots.value|] == slots.value;
    assert seen == t.ids.Keys;
  }

  lemma NoneSeen(t: Table)
    ensures Best(t, {}, 0, None)
  {
  }

  // ---------- registering ----------

  function Turn(first: Slot, k: nat): Slot {
    (first + k) % MAX_READER_SLOTS
  }

  /** `register`: takes the first free slot from `first` on; fails only when all are taken. */
  method Register(t: Table, first: Slot, id: TxId) returns (r: Option<Slot>, t': Table)
    requires Valid(t)
    ensures Valid(t')
    ensures r.Some? ==> r.value !in t.tokens && t' == Table(t.tokens + {r.value}, t.ids[r.value := id])
    ensures r.Some? ==> exists n: nat :: Turn(first, n) == r.value
                                         && forall k: nat :: k < n ==> Turn(first, k) in t.tokens
    ensures r.None? ==> t' == t && forall s: Slot :: s in t.tokens
  {
    for attempt := 0 to MAX_READER_SLOTS
      invariant forall k: nat :: k < attempt ==> Turn(first, k) in t.tokens
    {
      var slot := Turn(first, attempt);
      if slot !in t.tokens {
        return Some(slot), Table(t.tokens + {slot}, t.ids[slot := id]);
      }
    }
    forall s: Slot ensures s in t.tokens {
      var k := if first <= s then s - first else s + MAX_READER_SLOTS - first;
      assert Turn(first, k) == s;
    }
    r, t' := None, t;
  }
}
