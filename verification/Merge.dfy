/** Merging one bucket tree into another under three conflict policies. */
module Merge {
  import opened Wrappers
  import opened Bytes
  import T = Ttl

  datatype Entry = Value(bytes: Bytes) | Nested(bucket: Bucket)
  /** A bucket's entries, its deadlines (absent until one is set) and its key counter. */
  datatype Bucket = Bucket(entries: map<Bytes, Entry>, ttl: Option<map<Bytes, nat>>, nextInt: nat)
  datatype Policy = Overwrite | KeepExisting | Error

  datatype Report = Report(inserted: nat, updated: nat, same: nat, skipped: nat, created: nat, merged: nat,
                           retyped: nat)
  datatype Result<T> = Ok(value: T) | MergeConflict(path: seq<Bytes>)

  const EMPTY := Bucket(map[], None, 0)
  const NOTHING := Report(0, 0, 0, 0, 0, 0, 0)

  function Exp(b: Bucket, k: Bytes): Option<nat> {
    if b.ttl.Some? && k in b.ttl.value then Some(b.ttl.value[k]) else None
  }

  // ---------- what each policy means ----------

  predicate HasValue(b: Bucket, k: Bytes) {
    k in b.entries && b.entries[k].Value?
  }

  predicate HasNested(b: Bucket, k: Bytes) {
    k in b.entries && b.entries[k].Nested?
  }

  /** Both sides have the key and disagree, leaving out what is inside common buckets. */
  predicate Conflict(d: Bucket, s: Bucket, k: Bytes) {
    && k in d.entries && k in s.entries
    && if HasValue(d, k) && HasValue(s, k) then d.entries[k] != s.entries[k] || Exp(d, k) != Exp(s, k)
       else !(HasNested(d, k) && HasNested(s, k))
  }

  /** The source's value and deadline replace the destination's. */
  predicate Takes(d: Bucket, s: Bucket, p: Policy, k: Bytes) {
    HasValue(s, k) && (k !in d.entries || (Conflict(d, s, k) && p.Overwrite?))
  }

  /** A source bucket meets a value that stays. */
  predicate Refused(d: Bucket, s: Bucket, p: Policy, k: Bytes) {
    HasNested(s, k) && HasValue(d, k) && !p.Overwrite?
  }

  /** The destination of a nested merge: the bucket there, or a new one. */
  function Dest(d: Bucket, k: Bytes): Bucket {
    if HasNested(d, k) then d.entries[k].bucket else EMPTY
  }

  /** The key is new to the destination, also where it changes its type. */
  predicate Adds(d: Bucket, s: Bucket, p: Policy, k: Bytes) {
    || (Takes(d, s, p, k) && !HasValue(d, k))
    || (HasNested(s, k) && !HasNested(d, k) && !Refused(d, s, p, k))
  }

  ghost predicate EntryMerged(d: Bucket, s: Bucket, p: Policy, k: Bytes, e: Entry)
    requires k in s.entries
    decreases s, 0
  {
    if s.entries[k].Value? then
      if Takes(d, s, p, k) then e == s.entries[k] else k in d.entries && e == d.entries[k]
    else if Refused(d, s, p, k) then k in d.entries && e == d.entries[k]
    else e.Nested? && IsMerge(Dest(d, k), s.entries[k].bucket, p, e.bucket)
  }

  /** The merge restricted to the source keys in `done`, before the counters are joined. */
  ghost predicate Partial(d: Bucket, s: Bucket, p: Policy, done: set<Bytes>, r: Bucket)
    decreases s, 1
  {
    && done <= s.entries.Keys && r.entries.Keys == d.entries.Keys + done
    && (forall k :: k in d.entries && k !in done ==> r.entries[k] == d.entries[k])
    && (forall k :: k in done ==> EntryMerged(d, s, p, k, r.entries[k]))
    && (forall k :: Exp(r, k) == if k in done && Takes(d, s, p, k) then Exp(s, k) else Exp(d, k))
    && (r.ttl.Some? <==> d.ttl.Some? || exists k :: k in done && Takes(d, s, p, k) && Exp(s, k).Some?)
    && r.nextInt == d.nextInt + |Added(d, s, p, done)| + if r.ttl.Some? && d.ttl.None? then 2 else 0
  }

  ghost function Added(d: Bucket, s: Bucket, p: Policy, done: set<Bytes>): set<Bytes> {
    set k | k in done && Adds(d, s, p, k)
  }

  /** r is d with s merged in under p. */
  ghost predicate IsMerge(d: Bucket, s: Bucket, p: Policy, r: Bucket)
    decreases s, 2
  {
    exists n: nat :: r.nextInt == (if n < s.nextInt then s.nextInt else n)
                     && Partial(d, s, p, s.entries.Keys, r.(nextInt := n))
  }

  /** No common path disagrees. */
  ghost predicate Compatible(d: Bucket, s: Bucket)
    decreases s
  {
    forall k :: k in d.entries && k in s.entries ==>
      !Conflict(d, s, k) && (HasNested(s, k) ==> Compatible(Dest(d, k), s.entries[k].bucket))
  }

  /** The path leads through common buckets to a key on which the two sides disagree. */
  ghost predicate ConflictAt(d: Bucket, s: Bucket, path: seq<Bytes>)
    decreases path
  {
    && path != [] && path[0] in d.entries && path[0] in s.entries
    && if |path| == 1 then Conflict(d, s, path[0])
       else HasNested(d, path[0]) && HasNested(s, path[0])
            && ConflictAt(d.entries[path[0]].bucket, s.entries[path[0]].bucket, path[1..])
  }

  lemma {:induction false} ConflictBreaks(d: Bucket, s: Bucket, path: seq<Bytes>)
    requires ConflictAt(d, s, path)
    ensures !Compatible(d, s)
    decreases path
  {
    if |path| > 1 {
      ConflictBreaks(d.entries[path[0]].bucket, s.entries[path[0]].bucket, path[1..]);
    }
  }

  lemma {:induction false} EmptyCompatible(s: Bucket)
    ensures Compatible(EMPTY, s)
  {
  }

  // ---------- one entry ----------

  function SetExp(b: Bucket, k: Bytes, e: Option<nat>): Bucket {
    match e
    case Some(at) => b.(ttl := Some((if b.ttl.None? then map[] else b.ttl.value)[k := at]),
        nextInt := b.nextInt + if b.ttl.None? then 2 else 0)
    case None => if b.ttl.None? then b else b.(ttl := Some(b.ttl.value - {k}))
  }

  lemma SetExpExp(b: Bucket, k: Bytes, e: Option<nat>, l: Bytes)
    ensures Exp(SetExp(b, k, e), l) == if l == k then e else Exp(b, l)
    ensures SetExp(b, k, e).entries == b.entries
    ensures SetExp(b, k, e).ttl.Some? <==> b.ttl.Some? || e.Some?
    ensures SetExp(b, k, e).nextInt == b.nextInt + if b.ttl.None? && e.Some? then 2 else 0
  {
  }

  function Put(b: Bucket, k: Bytes, e: Entry, isNew: bool): Bucket {
    b.(entries := b.entries[k := e], nextInt := b.nextInt + if isNew then 1 else 0)
  }

  /** What is counted for one source entry. */
  function Tally(d: Bucket, s: Bucket, p: Policy, k: Bytes): Report
    requires k in s.entries
  {
    if s.entries[k].Value? then
      if k !in d.entries then NOTHING.(inserted := 1)
      else if !Conflict(d, s, k) then NOTHING.(same := 1)
      else if !p.Overwrite? then NOTHING.(skipped := 1)
      else if d.entries[k].Value? then NOTHING.(updated := 1) else NOTHING.(inserted := 1, retyped := 1)
    else
      if k !in d.entries then NOTHING.(created := 1)
      else if d.entries[k].Nested? then NOTHING.(merged := 1)
      else if !p.Overwrite? then NOTHING.(skipped := 1) else NOTHING.(created := 1, retyped := 1)
  }

  function Add(a: Report, b: Report): Report {
    Report(a.inserted + b.inserted, a.updated + b.updated, a.same + b.same, a.skipped + b.skipped,
           a.created + b.created, a.merged + b.merged, a.retyped + b.retyped)
  }

  /** Entries counted once each: inserted, updated, unchanged, skipped, created or merged. */
  function Entries(r: Report): nat {
    r.inserted + r.updated + r.same + r.skipped + r.created + r.merged
  }

  /** `merge_key_value`. */
  method MergeKeyValue(d: Bucket, s: Bucket, p: Policy, k: Bytes) returns (r: Option<Bucket>, report: Report)
    requires HasValue(s, k)
    ensures r.None? <==> p.Error? && Conflict(d, s, k)
    ensures r.Some? ==> report == Tally(d, s, p, k)
    ensures r.Some? ==> r.value == if Takes(d, s, p, k)
                                   then SetExp(Put(d, k, s.entries[k], !HasValue(d, k)), k, Exp(s, k))
                                   else d
  {
    var apply, t := true, d;
    report := NOTHING;
    if k !in d.entries {
      t := Put(d, k, s.entries[k], true);
      report := report.(inserted := 1);
    } else if d.entries[k].Value? && d.entries[k] == s.entries[k] {
      if Exp(d, k) == Exp(s, k) {
        report, apply := report.(same := 1), false;
      } else {
        match p {
          case Overwrite => report := report.(updated := 1);
          case KeepExisting => report, apply := report.(skipped := 1), false;
          case Error => return None, report;
        }
        assert d.entries[k := s.entries[k]] == d.entries;
      }
    } else if d.entries[k].Value? {
      match p {
        case Overwrite =>
          t := Put(d, k, s.entries[k], false);
          report := report.(updated := 1);
        case KeepExisting => report, apply := report.(skipped := 1), false;
        case Error => return None, report;
      }
    } else {
      match p {
        case Overwrite =>
          t := Put(d.(entries := d.entries - {k}), k, s.entries[k], true);
          assert (d.entries - {k})[k := s.entries[k]] == d.entries[k := s.entries[k]];
          report := report.(inserted := 1, retyped := 1);
        case KeepExisting => report, apply := report.(skipped := 1), false;
        case Error => return None, report;
      }
    }
    r := Some(if apply then SetExp(t, k, Exp(s, k)) else t);
  }

  // ---------- the loop over the source ----------

  /** A key not merged yet looks as it did at the start. */
  lemma Untouched(d: Bucket, s: Bucket, p: Policy, done: set<Bytes>, t: Bucket, k: Bytes)
    requires Partial(d, s, p, done, t) && k !in done
    ensures (k in t.entries <==> k in d.entries) && (k in d.entries ==> t.entries[k] == d.entries[k])
            && Exp(t, k) == Exp(d, k)
    ensures Conflict(t, s, k) == Conflict(d, s, k) && Takes(t, s, p, k) == Takes(d, s, p, k)
    ensures Refused(t, s, p, k) == Refused(d, s, p, k) && Dest(t, k) == Dest(d, k) && HasValue(t, k) == HasValue(d, k)
    ensures HasNested(t, k) == HasNested(d, k) && (k in s.entries ==> Tally(t, s, p, k) == Tally(d, s, p, k))
  {
    hide EntryMerged;
  }

  lemma AddedMore(d: Bucket, s: Bucket, p: Policy, done: set<Bytes>, k: Bytes)
    requires k !in done
    ensures |Added(d, s, p, done + {k})| == |Added(d, s, p, done)| + if Adds(d, s, p, k) then 1 else 0
  {
    var a := Added(d, s, p, done);
    assert k !in a;
    assert Added(d, s, p, done + {k}) == if Adds(d, s, p, k) then a + {k} else a;
  }

  lemma ValueStep(d: Bucket, s: Bucket, p: Policy, done: set<Bytes>, t: Bucket, k: Bytes)
    requires Partial(d, s, p, done, t) && k !in done && HasValue(s, k) && !(p.Error? && Conflict(d, s, k))
    ensures var t' := if Takes(t, s, p, k) then SetExp(Put(t, k, s.entries[k], !HasValue(t, k)), k, Exp(s, k)) else t;
            Partial(d, s, p, done + {k}, t')
  {
    hide Partial, Takes, SetExp, Put;
    Untouched(d, s, p, done, t, k);
    if Takes(t, s, p, k) {
      TakeStep(d, s, p, done, t, k);
    } else {
      KeepStep(d, s, p, done, t, k);
    }
  }

  lemma KeepStep(d: Bucket, s: Bucket, p: Policy, done: set<Bytes>, t: Bucket, k: Bytes)
    requires Partial(d, s, p, done, t) && k !in done && HasValue(s, k) && !Takes(d, s, p, k)
    ensures Partial(d, s, p, done + {k}, t)
  {
    hide IsMerge, Added;
    AddedMore(d, s, p, done, k);
    assert done + {k} <= s.entries.Keys;
    assert k in d.entries;
    assert t.entries.Keys == d.entries.Keys + (done + {k});
    assert forall l :: l in done + {k} && Takes(d, s, p, l) ==> l in done;
  }

  lemma TakeStep(d: Bucket, s: Bucket, p: Policy, done: set<Bytes>, t: Bucket, k: Bytes)
    requires Partial(d, s, p, done, t) && k !in done && Takes(d, s, p, k)
    ensures Partial(d, s, p, done + {k}, SetExp(Put(t, k, s.entries[k], !HasValue(t, k)), k, Exp(s, k)))
  {
    hide Partial, SetExp, Takes, Exp, Adds;
    Untouched(d, s, p, done, t, k);
    TakeAdds(d, s, p, k);
    var u := Put(t, k, s.entries[k], !HasValue(t, k));
    var t' := SetExp(u, k, Exp(s, k));
    forall l ensures Exp(t', l) == if l == k then Exp(s, k) else Exp(t, l) {
      SetExpExp(u, k, Exp(s, k), l);
      SameTtl(t, u, l);
    }
    SetExpExp(u, k, Exp(s, k), k);
    assert t'.entries == t.entries[k := s.entries[k]];
    Taken(d, s, p, done, t, k, t');
  }

  lemma Taken(d: Bucket, s: Bucket, p: Policy, done: set<Bytes>, t: Bucket, k: Bytes, t': Bucket)
    requires Partial(d, s, p, done, t) && k !in done && Takes(d, s, p, k) && HasValue(s, k)
    requires t'.entries == t.entries[k := s.entries[k]]
    requires forall l :: Exp(t', l) == if l == k then Exp(s, k) else Exp(t, l)
    requires t'.ttl.Some? <==> t.ttl.Some? || Exp(s, k).Some?
    requires t'.nextInt == t.nextInt + (if HasValue(d, k) then 0 else 1) + if t'.ttl.Some? && t.ttl.None? then 2 else 0
    ensures Partial(d, s, p, done + {k}, t')
  {
    hide EntryMerged, Added, Takes, Exp, Adds, Partial;
    Parts(d, s, p, done, t);
    AddedMore(d, s, p, done, k);
    TakeAdds(d, s, p, k);
    ExpSome(d, s, p, done, k, t, t');
    assert t'.entries.Keys == d.entries.Keys + (done + {k});
    forall l | l in done + {k} ensures l in s.entries && EntryMerged(d, s, p, l, t'.entries[l]) {
    }
    Whole(d, s, p, done + {k}, t');
  }

  /** A partial merge, clause by clause. */
  lemma Parts(d: Bucket, s: Bucket, p: Policy, done: set<Bytes>, r: Bucket)
    requires Partial(d, s, p, done, r)
    ensures done <= s.entries.Keys && r.entries.Keys == d.entries.Keys + done
    ensures forall k :: k in d.entries && k !in done ==> r.entries[k] == d.entries[k]
    ensures forall k :: k in done ==> EntryMerged(d, s, p, k, r.entries[k])
    ensures forall k :: Exp(r, k) == if k in done && Takes(d, s, p, k) then Exp(s, k) else Exp(d, k)
    ensures r.ttl.Some? <==> d.ttl.Some? || exists k :: k in done && Takes(d, s, p, k) && Exp(s, k).Some?
    ensures r.nextInt == d.nextInt + |Added(d, s, p, done)| + if r.ttl.Some? && d.ttl.None? then 2 else 0
  {
    hide EntryMerged, Added, Takes, Exp;
  }

  lemma Whole(d: Bucket, s: Bucket, p: Policy, done: set<Bytes>, r: Bucket)
    requires done <= s.entries.Keys && r.entries.Keys == d.entries.Keys + done
    requires forall k :: k in d.entries && k !in done ==> r.entries[k] == d.entries[k]
    requires forall k :: k in done ==> EntryMerged(d, s, p, k, r.entries[k])
    requires forall k :: Exp(r, k) == if k in done && Takes(d, s, p, k) then Exp(s, k) else Exp(d, k)
    requires r.ttl.Some? <==> d.ttl.Some? || exists k :: k in done && Takes(d, s, p, k) && Exp(s, k).Some?
    requires r.nextInt == d.nextInt + |Added(d, s, p, done)| + if r.ttl.Some? && d.ttl.None? then 2 else 0
    ensures Partial(d, s, p, done, r)
  {
    hide EntryMerged, Added, Takes, Exp;
  }

  lemma TakeAdds(d: Bucket, s: Bucket, p: Policy, k: Bytes)
    requires Takes(d, s, p, k)
    ensures HasValue(s, k) && (Adds(d, s, p, k) <==> !HasValue(d, k)) && EntryMerged(d, s, p, k, s.entries[k])
  {
  }

  lemma SameTtl(t: Bucket, u: Bucket, l: Bytes)
    requires t.ttl == u.ttl
    ensures Exp(t, l) == Exp(u, l)
  {
  }

  lemma ExpSome(d: Bucket, s: Bucket, p: Policy, done: set<Bytes>, k: Bytes, t: Bucket, t': Bucket)
    requires Takes(d, s, p, k) && (t'.ttl.Some? <==> t.ttl.Some? || Exp(s, k).Some?)
    requires t.ttl.Some? <==> d.ttl.Some? || exists l :: l in done && Takes(d, s, p, l) && Exp(s, l).Some?
    ensures t'.ttl.Some? <==> d.ttl.Some? || exists l :: l in done + {k} && Takes(d, s, p, l) && Exp(s, l).Some?
  {
    hide Takes, Exp;
    if l :| l in done && Takes(d, s, p, l) && Exp(s, l).Some? {
      assert l in done + {k};
    }
    assert k in done + {k};
  }

  lemma NestedStep(d: Bucket, s: Bucket, p: Policy, done: set<Bytes>, t: Bucket, k: Bytes, b: Bucket)
    requires Partial(d, s, p, done, t) && k !in done && HasNested(s, k) && !Refused(d, s, p, k)
    requires IsMerge(Dest(d, k), s.entries[k].bucket, p, b)
    ensures Partial(d, s, p, done + {k}, Put(t, k, Nested(b), !HasNested(t, k)))
  {
    hide IsMerge, Added;
    Untouched(d, s, p, done, t, k);
    AddedMore(d, s, p, done, k);
    var t' := Put(t, k, Nested(b), !HasNested(t, k));
    assert done + {k} <= s.entries.Keys;
    assert t'.entries.Keys == d.entries.Keys + (done + {k});
    assert forall l :: Exp(t', l) == Exp(t, l);
    assert forall l :: l in done + {k} && Takes(d, s, p, l) ==> l in done;
  }

  lemma RefusedStep(d: Bucket, s: Bucket, p: Policy, done: set<Bytes>, t: Bucket, k: Bytes)
    requires Partial(d, s, p, done, t) && k !in done && Refused(d, s, p, k)
    ensures Partial(d, s, p, done + {k}, t)
  {
    hide IsMerge, Added;
    Untouched(d, s, p, done, t, k);
    AddedMore(d, s, p, done, k);
    assert t.entries.Keys == d.entries.Keys + (done + {k});
    assert forall l :: l in done + {k} && Takes(d, s, p, l) ==> l in done;
  }

  /** The report of a merge: every source entry is counted, those of buckets that are
      merged or created with the entries inside. */
  ghost function ReportOf(d: Bucket, s: Bucket, p: Policy): Report
    decreases s, 1
  {
    Along(d, s, p, T.InOrder(s.entries.Keys))
  }

  ghost function Along(d: Bucket, s: Bucket, p: Policy, keys: seq<Bytes>): Report
    requires forall k :: k in keys ==> k in s.entries
    decreases s, 0, |keys|
  {
    if keys == [] then NOTHING
    else
      var k := keys[|keys| - 1];
      Add(Along(d, s, p, keys[..|keys| - 1]), Add(Tally(d, s, p, k), Inside(d, s, p, k)))
  }

  ghost function Inside(d: Bucket, s: Bucket, p: Policy, k: Bytes): Report
    requires k in s.entries
    decreases s, 0, 0
  {
    if HasNested(s, k) && !Refused(d, s, p, k) then ReportOf(Dest(d, k), s.entries[k].bucket, p) else NOTHING
  }

  /** One source entry: a value, a bucket that is refused, or one that is merged. */
  method MergeEntry(ghost d: Bucket, s: Bucket, p: Policy, path: seq<Bytes>, ghost done: set<Bytes>, t: Bucket,
                    k: Bytes)
    returns (r: Result<Bucket>, one: Report)
    requires Partial(d, s, p, done, t) && k in s.entries && k !in done
    ensures r.Ok? ==> Partial(d, s, p, done + {k}, r.value) && one == Add(Tally(d, s, p, k), Inside(d, s, p, k))
    ensures r.Ok? && p.Error? && Settled(d, s, done) ==> Settled(d, s, done + {k})
    ensures r.MergeConflict? ==> p.Error? && path <= r.path && ConflictAt(d, s, r.path[|path|..])
    decreases s, 0
  {
    hide Partial, IsMerge, ReportOf, Compatible, ConflictAt, Tally, Takes, SetExp, Put, Settled, Conflict;
    Untouched(d, s, p, done, t, k);
    if s.entries[k].Value? {
      var next, tally := MergeKeyValue(t, s, p, k);
      if next.None? {
        Here(d, s, path, k);
        return MergeConflict(path + [k]), NOTHING;
      }
      ValueStep(d, s, p, done, t, k);
      SettledValue(d, s, done, k);
      return Ok(next.value), tally;
    }
    if k in t.entries && t.entries[k].Value? && !p.Overwrite? {
      if p.Error? {
        TypesConflict(d, s, k);
        Here(d, s, path, k);
        return MergeConflict(path + [k]), NOTHING;
      }
      RefusedStep(d, s, p, done, t, k);
      return Ok(t), Tally(t, s, p, k);
    }
    var merged, inside := MergeBucket(Dest(t, k), s.entries[k].bucket, p, path + [k]);
    if merged.MergeConflict? {
      Below(d, s, path, k, merged.path);
      return MergeConflict(merged.path), NOTHING;
    }
    NestedStep(d, s, p, done, t, k, merged.value);
    if p.Error? && Settled(d, s, done) {
      SettledNested(d, s, done, k);
    }
    r := Ok(Put(t, k, Nested(merged.value), !HasNested(t, k)));
    one := Add(Tally(t, s, p, k), inside);
  }

  /** `merge_bucket`, with `merge_nested_bucket` for its nested entries. */
  method MergeBucket(d: Bucket, s: Bucket, p: Policy, path: seq<Bytes>) returns (r: Result<Bucket>, report: Report)
    ensures r.Ok? ==> IsMerge(d, s, p, r.value) && report == ReportOf(d, s, p) && (p.Error? ==> Compatible(d, s))
    ensures r.MergeConflict? ==> p.Error? && path <= r.path && ConflictAt(d, s, r.path[|path|..])
    decreases s, 1
  {
    hide Partial, IsMerge, Compatible, ConflictAt, T.InOrder, Tally, Add, Inside, Settled, T.Increasing;
    var keys := T.InOrder(s.entries.Keys);
    var t := d;
    report := NOTHING;
    ghost var done: set<Bytes> := {};
    NoneDone(d, s, p);
    for i := 0 to |keys|
      invariant Partial(d, s, p, done, t) && (forall k :: k in done <==> k in keys[..i])
      invariant report == Along(d, s, p, keys[..i])
      invariant p.Error? ==> Settled(d, s, done)
    {
      var k := keys[i];
      Fresh(keys, i);
      AlongMore(d, s, p, keys, i);
      var next, one := MergeEntry(d, s, p, path, done, t, k);
      if next.MergeConflict? {
        return MergeConflict(next.path), report;
      }
      t, report, done := next.value, Add(report, one), done + {k};
    }
    assert keys[..|keys|] == keys;
    assert done == s.entries.Keys;
    Finish(d, s, p, t);
    if p.Error? {
      AllSettled(d, s);
    }
    r := Ok(t.(nextInt := if t.nextInt < s.nextInt then s.nextInt else t.nextInt));
  }

  lemma TypesConflict(d: Bucket, s: Bucket, k: Bytes)
    requires HasValue(d, k) && HasNested(s, k)
    ensures Conflict(d, s, k)
  {
  }

  // ---------- small steps of the loop ----------

  lemma NoneDone(d: Bucket, s: Bucket, p: Policy)
    ensures Partial(d, s, p, {}, d) && Settled(d, s, {})
  {
    assert Added(d, s, p, {}) == {};
  }

  lemma Fresh(keys: seq<Bytes>, i: nat)
    requires T.Increasing(keys) && i < |keys|
    ensures keys[i] !in keys[..i] && keys[..i + 1] == keys[..i] + [keys[i]]
  {
    hide Rank;
  }

  lemma AlongMore(d: Bucket, s: Bucket, p: Policy, keys: seq<Bytes>, i: nat)
    requires (forall k :: k in keys ==> k in s.entries) && i < |keys|
    ensures keys[i] in s.entries
    ensures Along(d, s, p, keys[..i + 1]) == Add(Along(d, s, p, keys[..i]),
            Add(Tally(d, s, p, keys[i]), Inside(d, s, p, keys[i])))
  {
    hide Tally, Add, Inside;
    assert keys[..i + 1][..i] == keys[..i];
  }

  /** The common keys merged so far agree, deep down. */
  ghost predicate Settled(d: Bucket, s: Bucket, done: set<Bytes>) {
    forall k :: k in done && k in d.entries && k in s.entries ==>
      !Conflict(d, s, k) && (HasNested(s, k) ==> Compatible(Dest(d, k), s.entries[k].bucket))
  }

  lemma SettledValue(d: Bucket, s: Bucket, done: set<Bytes>, k: Bytes)
    requires HasValue(s, k)
    ensures Settled(d, s, done) && !Conflict(d, s, k) ==> Settled(d, s, done + {k})
  {
    hide Compatible;
  }

  lemma SettledNested(d: Bucket, s: Bucket, done: set<Bytes>, k: Bytes)
    requires HasNested(s, k) && !HasValue(d, k) && Settled(d, s, done) && Compatible(Dest(d, k), s.entries[k].bucket)
    ensures Settled(d, s, done + {k})
  {
    hide Compatible;
  }

  lemma AllSettled(d: Bucket, s: Bucket)
    requires Settled(d, s, s.entries.Keys)
    ensures Compatible(d, s)
  {
  }

  lemma Here(d: Bucket, s: Bucket, path: seq<Bytes>, k: Bytes)
    requires Conflict(d, s, k)
    ensures path <= path + [k] && ConflictAt(d, s, (path + [k])[|path|..])
  {
    assert (path + [k])[|path|..] == [k];
  }

  lemma Below(d: Bucket, s: Bucket, path: seq<Bytes>, k: Bytes, found: seq<Bytes>)
    requires HasNested(s, k) && path + [k] <= found && ConflictAt(Dest(d, k), s.entries[k].bucket, found[|path| + 1..])
    ensures path <= found && ConflictAt(d, s, found[|path|..])
  {
    var rest := found[|path|..];
    assert rest[0] == k && rest[1..] == found[|path| + 1..];
  }

  lemma Finish(d: Bucket, s: Bucket, p: Policy, t: Bucket)
    requires Partial(d, s, p, s.entries.Keys, t)
    ensures IsMerge(d, s, p, t.(nextInt := if t.nextInt < s.nextInt then s.nextInt else t.nextInt))
  {
    var r := t.(nextInt := if t.nextInt < s.nextInt then s.nextInt else t.nextInt);
    assert r.(nextInt := t.nextInt) == t;
  }

  // ---------- by paths ----------

  /** The value at the end of a path of nested buckets. */
  ghost function Find(b: Bucket, path: seq<Bytes>): Option<Bytes>
    decreases path
  {
    if path == [] || path[0] !in b.entries then None
    else match b.entries[path[0]]
         case Value(v) => if |path| == 1 then Some(v) else None
         case Nested(c) => Find(c, path[1..])
  }

  /** Something else is in the way: a value before the end of the path, or a bucket at it. */
  ghost predicate Blocked(b: Bucket, path: seq<Bytes>)
    decreases path
  {
    path != [] && path[0] in b.entries
    && match b.entries[path[0]]
       case Value(v) => |path| > 1
       case Nested(c) => |path| == 1 || Blocked(c, path[1..])
  }

  ghost function Biased(first: Bucket, second: Bucket, path: seq<Bytes>): Option<Bytes> {
    if Find(first, path).Some? then Find(first, path) else if Blocked(first, path) then None else Find(second, path)
  }

  lemma EmptyFinds(path: seq<Bytes>)
    ensures Find(EMPTY, path) == None && !Blocked(EMPTY, path)
  {
  }

  lemma MergedAt(d: Bucket, s: Bucket, p: Policy, r: Bucket, k: Bytes)
    requires IsMerge(d, s, p, r)
    ensures k in r.entries <==> k in d.entries || k in s.entries
    ensures k in s.entries ==> EntryMerged(d, s, p, k, r.entries[k])
    ensures k in d.entries && k !in s.entries ==> r.entries[k] == d.entries[k]
    ensures Exp(r, k) == if Takes(d, s, p, k) then Exp(s, k) else Exp(d, k)
  {
    hide EntryMerged, Takes, Added;
    var n: nat :| r.nextInt == (if n < s.nextInt then s.nextInt else n)
        && Partial(d, s, p, s.entries.Keys, r.(nextInt := n));
    assert Exp(r.(nextInt := n), k) == Exp(r, k);
    assert r.(nextInt := n).entries == r.entries;
    TakesKey(d, s, p, k);
  }

  /** A deadline follows the winning value; a bucket that replaces a value leaves the old
      deadline behind, so it has one afterwards exactly if the value had. */
  lemma DeadlineFollows(d: Bucket, s: Bucket, p: Policy, r: Bucket, k: Bytes)
    requires IsMerge(d, s, p, r)
    ensures HasValue(s, k) && HasValue(r, k)
            && r.entries[k] != (if k in d.entries then d.entries[k] else Nested(EMPTY)) ==>
              r.entries[k] == s.entries[k] && Exp(r, k) == Exp(s, k)
    ensures HasNested(s, k) ==> Exp(r, k) == Exp(d, k)
  {
    hide IsMerge;
    MergedAt(d, s, p, r, k);
  }

  /** A bucket that overwrites a value with a deadline is under that deadline. */
  lemma BucketUnderDeadline(r: Bucket)
    requires IsMerge(Bucket(map[[1] := Value([])], Some(map[[1] := 5]), 1), Bucket(map[[1] := Nested(EMPTY)], None, 1),
             Overwrite, r)
    ensures HasNested(r, [1]) && Exp(r, [1]) == Some(5)
  {
    hide IsMerge;
    MergedAt(Bucket(map[[1] := Value([])], Some(map[[1] := 5]), 1), Bucket(map[[1] := Nested(EMPTY)], None, 1),
        Overwrite, r, [1]);
  }

  lemma TakesKey(d: Bucket, s: Bucket, p: Policy, k: Bytes)
    ensures Takes(d, s, p, k) ==> k in s.entries
  {
  }

  /** Overwrite gives the source-biased union, KeepExisting the destination-biased one, path
      by path; under Error, where it succeeds, the two are the same. */
  lemma {:induction false} MergeByPath(d: Bucket, s: Bucket, p: Policy, r: Bucket, path: seq<Bytes>)
    requires IsMerge(d, s, p, r) && (p.Error? ==> Compatible(d, s))
    ensures !p.KeepExisting? ==> Find(r, path) == Biased(s, d, path)
    ensures !p.Overwrite? ==> Find(r, path) == Biased(d, s, path)
    decreases path
  {
    hide IsMerge;
    if path != [] {
      var k := path[0];
      MergedAt(d, s, p, r, k);
      if HasNested(s, k) && !Refused(d, s, p, k) {
        if p.Error? && !HasNested(d, k) {
          EmptyCompatible(s.entries[k].bucket);
        }
        MergeByPath(Dest(d, k), s.entries[k].bucket, p, r.entries[k].bucket, path[1..]);
        EmptyFinds(path[1..]);
      }
    }
  }

  // ---------- merging again ----------

  lemma {:induction false} AfterOverwrite(d: Bucket, s: Bucket, r: Bucket, k: Bytes)
    requires IsMerge(d, s, Overwrite, r)
    ensures !Takes(r, s, Overwrite, k) && !Adds(r, s, Overwrite, k)
    ensures k in s.entries ==> k in r.entries && !Conflict(r, s, k)
    ensures HasNested(s, k) ==> HasNested(r, k) && IsMerge(Dest(d, k), s.entries[k].bucket, Overwrite, Dest(r, k))
  {
    hide IsMerge;
    MergedAt(d, s, Overwrite, r, k);
  }

  /** A second Overwrite merge of the same source changes nothing. */
  lemma {:induction false} OverwriteAgain(d: Bucket, s: Bucket, r: Bucket, r': Bucket)
    requires IsMerge(d, s, Overwrite, r) && IsMerge(r, s, Overwrite, r')
    ensures r' == r
    decreases s
  {
    hide IsMerge, Takes, Adds, Conflict;
    forall k ensures (k in r'.entries <==> k in r.entries) && (k in r.entries ==> r'.entries[k] == r.entries[k])
        && Exp(r', k) == Exp(r, k) {
      MergedAt(r, s, Overwrite, r', k);
      AfterOverwrite(d, s, r, k);
      if HasNested(s, k) {
        OverwriteAgain(Dest(d, k), s.entries[k].bucket, Dest(r, k), r'.entries[k].bucket);
      }
    }
    assert r'.entries == r.entries;
    SameCounters(d, s, r, r');
    SameDeadlines(r, r');
  }

  lemma SameDeadlines(r: Bucket, r': Bucket)
    requires (r.ttl.Some? <==> r'.ttl.Some?) && forall k :: Exp(r', k) == Exp(r, k)
    ensures r'.ttl == r.ttl
  {
    if r.ttl.Some? {
      forall k
        ensures (k in r'.ttl.value <==> k in r.ttl.value) && (k in r.ttl.value ==> r'.ttl.value[k] == r.ttl.value[k])
      {
        assert Exp(r', k) == Exp(r, k);
      }
      assert r'.ttl.value == r.ttl.value;
    }
  }

  lemma SameCounters(d: Bucket, s: Bucket, r: Bucket, r': Bucket)
    requires IsMerge(d, s, Overwrite, r) && IsMerge(r, s, Overwrite, r')
    ensures (r.ttl.Some? <==> r'.ttl.Some?) && r'.nextInt == r.nextInt
  {
    hide Takes, Adds, Conflict, EntryMerged;
    forall k ensures !Takes(r, s, Overwrite, k) && !Adds(r, s, Overwrite, k) {
      AfterOverwrite(d, s, r, k);
    }
    assert Added(r, s, Overwrite, s.entries.Keys) == {};
    assert s.nextInt <= r.nextInt;
  }

  // ---------- the counters ----------

  /** Entries of a bucket and of every bucket inside it. */
  ghost function Size(b: Bucket): nat
    decreases b, 1
  {
    SizeAlong(b, T.InOrder(b.entries.Keys))
  }

  ghost function SizeAlong(b: Bucket, keys: seq<Bytes>): nat
    requires forall k :: k in keys ==> k in b.entries
    decreases b, 0, |keys|
  {
    if keys == [] then 0
    else
      var k := keys[|keys| - 1];
      SizeAlong(b, keys[..|keys| - 1]) + 1 + if b.entries[k].Nested? then Size(b.entries[k].bucket) else 0
  }

  /** Source entries a merge comes to: all but those inside buckets it refuses. */
  ghost function Reached(d: Bucket, s: Bucket, p: Policy): nat
    decreases s, 1
  {
    ReachedAlong(d, s, p, T.InOrder(s.entries.Keys))
  }

  ghost function ReachedAlong(d: Bucket, s: Bucket, p: Policy, keys: seq<Bytes>): nat
    requires forall k :: k in keys ==> k in s.entries
    decreases s, 0, |keys|
  {
    if keys == [] then 0
    else
      var k := keys[|keys| - 1];
      ReachedAlong(d, s, p, keys[..|keys| - 1]) + 1 + ReachedInside(d, s, p, k)
  }

  ghost function ReachedInside(d: Bucket, s: Bucket, p: Policy, k: Bytes): nat
    requires k in s.entries
    decreases s, 0, 0
  {
    if HasNested(s, k) && !Refused(d, s, p, k) then Reached(Dest(d, k), s.entries[k].bucket, p) else 0
  }

  lemma AddEntries(a: Report, b: Report)
    ensures Entries(Add(a, b)) == Entries(a) + Entries(b)
  {
  }

  lemma AlongLast(d: Bucket, s: Bucket, p: Policy, keys: seq<Bytes>)
    requires (forall k :: k in keys ==> k in s.entries) && keys != []
    ensures var k, front := keys[|keys| - 1], keys[..|keys| - 1];
            && Along(d, s, p, keys) == Add(Along(d, s, p, front), Add(Tally(d, s, p, k), Inside(d, s, p, k)))
            && SizeAlong(s, keys) ==
               SizeAlong(s, front) + 1 + (if s.entries[k].Nested? then Size(s.entries[k].bucket) else 0)
            && ReachedAlong(d, s, p, keys) == ReachedAlong(d, s, p, front) + 1 + ReachedInside(d, s, p, k)
  {
    hide Add, Tally, Inside, Size, ReachedInside;
  }

  lemma TallyOne(d: Bucket, s: Bucket, p: Policy, k: Bytes)
    requires k in s.entries
    ensures Entries(Tally(d, s, p, k)) == 1
  {
  }

  /** Under every policy the counters add up to the source entries reached. */
  lemma {:induction false} CountersAddUp(d: Bucket, s: Bucket, p: Policy, keys: seq<Bytes>)
    requires forall k :: k in keys ==> k in s.entries
    ensures Entries(Along(d, s, p, keys)) == ReachedAlong(d, s, p, keys)
    decreases s, |keys|
  {
    hide T.InOrder, Along, SizeAlong, Size, Inside, Tally, Add, Entries, ReachedAlong, ReachedInside;
    if keys == [] {
      AlongNone(d, s, p);
      NoEntries();
    } else {
      var k, front := keys[|keys| - 1], keys[..|keys| - 1];
      CountersAddUp(d, s, p, front);
      AlongLast(d, s, p, keys);
      AddEntries(Along(d, s, p, front), Add(Tally(d, s, p, k), Inside(d, s, p, k)));
      AddEntries(Tally(d, s, p, k), Inside(d, s, p, k));
      TallyOne(d, s, p, k);
      InsideReached(d, s, p, k);
      if HasNested(s, k) && !Refused(d, s, p, k) {
        var b := s.entries[k].bucket;
        CountersAddUp(Dest(d, k), b, p, T.InOrder(b.entries.Keys));
      } else {
        NoEntries();
      }
    }
  }

  lemma InsideReached(d: Bucket, s: Bucket, p: Policy, k: Bytes)
    requires k in s.entries
    ensures if HasNested(s, k) && !Refused(d, s, p, k)
            then var b := s.entries[k].bucket;
                 && Inside(d, s, p, k) == Along(Dest(d, k), b, p, T.InOrder(b.entries.Keys))
                 && ReachedInside(d, s, p, k) == ReachedAlong(Dest(d, k), b, p, T.InOrder(b.entries.Keys))
            else Inside(d, s, p, k) == NOTHING && ReachedInside(d, s, p, k) == 0
  {
    hide T.InOrder, Along, ReachedAlong, Refused;
  }

  /** Every source entry is reached under Overwrite, and under Error where it succeeds. */
  lemma {:induction false} AllReached(d: Bucket, s: Bucket, p: Policy, keys: seq<Bytes>)
    requires forall k :: k in keys ==> k in s.entries
    ensures ReachedAlong(d, s, p, keys) <= SizeAlong(s, keys)
    ensures p.Overwrite? || (p.Error? && Compatible(d, s)) ==> ReachedAlong(d, s, p, keys) == SizeAlong(s, keys)
    decreases s, |keys|
  {
    hide T.InOrder, Along, SizeAlong, Size, Inside, Tally, Add, Entries, Compatible, ReachedAlong, ReachedInside;
    if keys == [] {
      AlongNone(d, s, p);
    } else {
      var k, front := keys[|keys| - 1], keys[..|keys| - 1];
      AllReached(d, s, p, front);
      AlongLast(d, s, p, keys);
      InsideReached(d, s, p, k);
      if HasNested(s, k) {
        var b := s.entries[k].bucket;
        SizeOf(b);
        AllReached(Dest(d, k), b, p, T.InOrder(b.entries.Keys));
        if p.Error? && Compatible(d, s) {
          CompatibleInside(d, s, k);
        }
      }
    }
  }

  lemma SizeOf(b: Bucket)
    ensures Size(b) == SizeAlong(b, T.InOrder(b.entries.Keys))
  {
    hide T.InOrder, SizeAlong;
  }

  lemma AlongNone(d: Bucket, s: Bucket, p: Policy)
    ensures Along(d, s, p, []) == NOTHING && SizeAlong(s, []) == 0 && ReachedAlong(d, s, p, []) == 0
  {
  }

  lemma CompatibleInside(d: Bucket, s: Bucket, k: Bytes)
    requires Compatible(d, s) && HasNested(s, k)
    ensures !HasValue(d, k) && Compatible(Dest(d, k), s.entries[k].bucket)
  {
    if !HasNested(d, k) {
      EmptyCompatible(s.entries[k].bucket);
    }
  }

  lemma NoEntries()
    ensures Entries(NOTHING) == 0
  {
  }

  ghost predicate OnlyFound(a: Report) {
    a.inserted == 0 && a.updated == 0 && a.skipped == 0 && a.created == 0 && a.retyped == 0
  }

  /** Merging again only finds entries that are there already. */
  lemma {:induction false} SecondReport(d: Bucket, s: Bucket, r: Bucket, keys: seq<Bytes>)
    requires IsMerge(d, s, Overwrite, r) && forall k :: k in keys ==> k in s.entries
    ensures OnlyFound(Along(r, s, Overwrite, keys))
    decreases s, |keys|
  {
    hide T.InOrder, IsMerge, Along, SizeAlong, Size, Inside, Tally;
    if keys == [] {
      AlongNone(r, s, Overwrite);
    } else {
      var k, front := keys[|keys| - 1], keys[..|keys| - 1];
      SecondReport(d, s, r, front);
      AlongLast(r, s, Overwrite, keys);
      AfterOverwrite(d, s, r, k);
      FoundOne(r, s, k);
      if HasNested(s, k) {
        var b := s.entries[k].bucket;
        InsideReached(r, s, Overwrite, k);
        SecondReport(Dest(d, k), b, Dest(r, k), T.InOrder(b.entries.Keys));
      }
    }
  }

  lemma FoundOne(r: Bucket, s: Bucket, k: Bytes)
    requires k in s.entries && k in r.entries && !Conflict(r, s, k)
    ensures OnlyFound(Tally(r, s, Overwrite, k)) && (HasValue(s, k) ==> Inside(r, s, Overwrite, k) == NOTHING)
  {
  }
}
