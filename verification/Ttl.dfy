/** Expiring keys: a lookup index from key to deadline and an index of deadlines in time
    order, beside the data they speak of. */
module Ttl {
  import opened Wrappers
  import opened Bytes

  datatype Result<T> = Ok(value: T) | IncompatibleValue
  datatype Datum = Kv(value: Bytes) | Nested

  // ---------- deadline keys ----------

  function DeadlineKey(deadline: nat, key: Bytes): Bytes {
    BigEndian(deadline, 8) + key
  }

  function DecodeDeadline(encoded: Bytes): Option<(nat, Bytes)> {
    if |encoded| < 8 then None else Some((FromBigEndian(encoded[..8]), encoded[8..]))
  }

  /** Earlier: a smaller deadline, or the same one and a smaller key. */
  predicate Earlier(d: nat, k: Bytes, e: nat, l: Bytes) {
    d < e || (d == e && Lex(k, l))
  }

  /** Deadline keys read back and sort by deadline, then key. */
  lemma DeadlineKeys(d: nat, k: Bytes, e: nat, l: Bytes)
    requires d < TWO_64 && e < TWO_64
    ensures DecodeDeadline(DeadlineKey(d, k)) == Some((d, k))
    ensures Less(DeadlineKey(d, k), DeadlineKey(e, l)) <==> Earlier(d, k, e, l)
    ensures DeadlineKey(d, k) == DeadlineKey(e, l) <==> d == e && k == l
  {
    Width8();
    BigEndianRoundTrip(d, 8);
    BigEndianRoundTrip(e, 8);
    BigEndianOrder(d, e, 8);
    LexAppend(BigEndian(d, 8), BigEndian(e, 8), k, l);
    RankIsOrder(DeadlineKey(d, k), DeadlineKey(e, l));
    assert DeadlineKey(d, k)[..8] == BigEndian(d, 8) && DeadlineKey(d, k)[8..] == k;
    assert DeadlineKey(e, l)[..8] == BigEndian(e, 8) && DeadlineKey(e, l)[8..] == l;
  }

  ghost predicate Times(lookup: map<Bytes, nat>) {
    forall k :: k in lookup ==> lookup[k] < TWO_64
  }

  /** The deadline index that belongs to a lookup index. */
  function Index(lookup: map<Bytes, nat>): set<Bytes> {
    set k | k in lookup :: DeadlineKey(lookup[k], k)
  }

  lemma IndexPut(lookup: map<Bytes, nat>, key: Bytes, at: nat)
    requires Times(lookup) && at < TWO_64
    ensures Index(lookup[key := at]) ==
            (if key in lookup then Index(lookup) - {DeadlineKey(lookup[key], key)} else Index(lookup))
            + {DeadlineKey(at, key)}
  {
    var l' := lookup[key := at];
    forall k | k in lookup && k != key ensures DeadlineKey(lookup[k], k) in Index(l') {
      assert DeadlineKey(l'[k], k) in Index(l');
    }
    assert DeadlineKey(l'[key], key) in Index(l');
    forall k | k in lookup && k != key && key in lookup
      ensures DeadlineKey(lookup[k], k) != DeadlineKey(lookup[key], key)
    {
      DeadlineKeys(lookup[k], k, lookup[key], key);
    }
  }

  lemma IndexDrop(lookup: map<Bytes, nat>, key: Bytes)
    requires Times(lookup) && key in lookup
    ensures Index(lookup - {key}) == Index(lookup) - {DeadlineKey(lookup[key], key)}
  {
    var l' := lookup - {key};
    forall k | k in l' ensures DeadlineKey(lookup[k], k) != DeadlineKey(lookup[key], key) {
      DeadlineKeys(lookup[k], k, lookup[key], key);
    }
    forall k | k in lookup && k != key ensures DeadlineKey(lookup[k], k) in Index(l') {
      assert k in l';
    }
  }

  // ---------- what a reader sees ----------

  /** `get_live_at` for a key that holds a value or nothing. */
  function Live(data: map<Bytes, Datum>, lookup: map<Bytes, nat>, key: Bytes, now: nat): Option<Bytes> {
    if key in lookup && lookup[key] <= now then None
    else if key in data && data[key].Kv? then Some(data[key].value) else None
  }

  /** Removing expired keys with their deadlines is invisible from then on. */
  lemma PurgeInvisible(data: map<Bytes, Datum>, lookup: map<Bytes, nat>, gone: set<Bytes>, now: nat, key: Bytes, t: nat)
    requires (forall k :: k in gone ==> k in lookup && lookup[k] <= now) && now <= t
    ensures Live(data - gone, lookup - gone, key, t) == Live(data, lookup, key, t)
  {
  }

  // ---------- key order ----------

  predicate IsLeast(m: Bytes, s: set<Bytes>) {
    m in s && forall x :: x in s ==> !Less(x, m)
  }

  lemma {:induction false} HasLeast(s: set<Bytes>)
    requires s != {}
    ensures exists m :: IsLeast(m, s)
  {
    hide Rank;
    var e :| e in s;
    var rest := s - {e};
    if rest == {} {
      assert s == {e};
      assert IsLeast(e, s);
    } else {
      HasLeast(rest);
      var m :| IsLeast(m, rest);
      assert s == rest + {e};
      assert IsLeast(if Less(e, m) then e else m, s);
    }
  }

  function Least(s: set<Bytes>): (m: Bytes)
    requires s != {}
    ensures IsLeast(m, s)
  {
    HasLeast(s);
    RankInjective();
    var m :| IsLeast(m, s);
    m
  }

  ghost predicate Increasing(s: seq<Bytes>) {
    forall i, j :: 0 <= i < j < |s| ==> Less(s[i], s[j])
  }

  /** The order in which a bucket's keys are visited. */
  function InOrder(s: set<Bytes>): (r: seq<Bytes>)
    ensures Increasing(r)
    ensures forall x :: x in s <==> x in r
    decreases |s|
  {
    if s == {} then []
    else
      RankInjective();
      var m := Least(s);
      [m] + InOrder(s - {m})
  }

  /** The first `limit` keys in deadline order among those expired at `now`. */
  ghost predicate First(lookup: map<Bytes, nat>, now: nat, limit: nat, gone: set<Bytes>) {
    && (forall k :: k in gone ==> k in lookup && lookup[k] <= now)
    && |gone| <= limit && (|gone| < limit ==> forall k :: k in lookup && lookup[k] <= now ==> k in gone)
    && (forall k, l :: k in gone && l in lookup && l !in gone ==> Earlier(lookup[k], k, lookup[l], l))
  }

  ghost function KeySet(es: seq<(Bytes, Bytes)>): set<Bytes> {
    set e | e in es :: e.1
  }

  lemma KeySetMore(es: seq<(Bytes, Bytes)>, i: nat)
    requires i < |es|
    ensures KeySet(es[..i + 1]) == KeySet(es[..i]) + {es[i].1}
  {
    assert es[..i + 1] == es[..i] + [es[i]];
    assert es[i] in es[..i + 1];
  }

  /** Entry i of the ordered index: its key and deadline. */
  lemma Entry(lookup: map<Bytes, nat>, order: seq<Bytes>, i: nat) returns (k: Bytes)
    requires Times(lookup) && order == InOrder(Index(lookup)) && i < |order|
    ensures k in lookup && order[i] == DeadlineKey(lookup[k], k) && DecodeDeadline(order[i]) == Some((lookup[k], k))
  {
    assert order[i] in Index(lookup);
    k :| k in lookup && order[i] == DeadlineKey(lookup[k], k);
    DeadlineKeys(lookup[k], k, lookup[k], k);
  }

  /** The pairs of a prefix of the ordered index. */
  ghost predicate Prefix(lookup: map<Bytes, nat>, order: seq<Bytes>, es: seq<(Bytes, Bytes)>, now: nat) {
    && |es| <= |order|
    && forall i :: 0 <= i < |es| ==>
         es[i].0 == order[i] && es[i].1 in lookup && order[i] == DeadlineKey(lookup[es[i].1], es[i].1)
             && lookup[es[i].1] <= now
  }

  lemma PrefixDistinct(lookup: map<Bytes, nat>, order: seq<Bytes>, es: seq<(Bytes, Bytes)>, now: nat, i: nat)
    requires Prefix(lookup, order, es, now) && Increasing(order) && i <= |es|
    ensures |KeySet(es[..i])| == i
    ensures i < |es| ==> es[i].1 !in KeySet(es[..i])
  {
    hide Rank;
    if i < |es| {
      forall j | 0 <= j < i ensures es[j].1 != es[i].1 {
        assert Less(order[j], order[i]);
      }
    }
    if i > 0 {
      PrefixDistinct(lookup, order, es, now, i - 1);
      KeySetMore(es, i - 1);
    } else {
      assert es[..0] == [];
      assert KeySet([]) == {};
    }
  }

  /** A prefix that stopped for a reason holds the first keys. */
  lemma PrefixIsFirst(lookup: map<Bytes, nat>, order: seq<Bytes>, es: seq<(Bytes, Bytes)>, now: nat, limit: nat)
    requires Times(lookup) && order == InOrder(Index(lookup)) && Prefix(lookup, order, es, now) && |es| <= limit
    requires |es| == limit || |es| == |order| || (DecodeDeadline(order[|es|]).Some?
             && DecodeDeadline(order[|es|]).value.0 > now)
    ensures First(lookup, now, limit, KeySet(es))
  {
    hide Rank, InOrder, DecodeDeadline, DeadlineKey;
    PrefixDistinct(lookup, order, es, now, |es|);
    assert es[..|es|] == es;
    forall l | l in lookup && l !in KeySet(es)
      ensures |es| < limit ==> lookup[l] > now
      ensures forall k :: k in KeySet(es) ==> Earlier(lookup[k], k, lookup[l], l)
    {
      LaterKey(lookup, order, es, now, l);
      var j := Position(lookup, order, es, now, l);
      if |es| < limit {
        var m := Entry(lookup, order, |es|);
        if j != |es| {
          assert Less(order[|es|], order[j]);
        }
        DeadlineKeys(lookup[m], m, lookup[l], l);
      }
    }
  }

  lemma Position(lookup: map<Bytes, nat>, order: seq<Bytes>, es: seq<(Bytes, Bytes)>, now: nat, l: Bytes)
                 returns (j: nat)
    requires Times(lookup) && order == InOrder(Index(lookup)) && Prefix(lookup, order, es, now) && l in lookup
             && l !in KeySet(es)
    ensures |es| <= j < |order| && order[j] == DeadlineKey(lookup[l], l)
  {
    hide Rank, InOrder;
    assert DeadlineKey(lookup[l], l) in Index(lookup);
    forall i | 0 <= i < |es| ensures order[i] != DeadlineKey(lookup[l], l) {
      DeadlineKeys(lookup[es[i].1], es[i].1, lookup[l], l);
      assert es[i] in es;
    }
    j :| 0 <= j < |order| && order[j] == DeadlineKey(lookup[l], l);
  }

  lemma LaterKey(lookup: map<Bytes, nat>, order: seq<Bytes>, es: seq<(Bytes, Bytes)>, now: nat, l: Bytes)
    requires Times(lookup) && order == InOrder(Index(lookup)) && Prefix(lookup, order, es, now) && l in lookup
             && l !in KeySet(es)
    ensures forall k :: k in KeySet(es) ==> Earlier(lookup[k], k, lookup[l], l)
  {
    hide Rank, InOrder;
    var j := Position(lookup, order, es, now, l);
    forall k | k in KeySet(es) ensures Earlier(lookup[k], k, lookup[l], l) {
      var e :| e in es && e.1 == k;
      var i :| 0 <= i < |es| && es[i] == e;
      assert Less(order[i], order[j]);
      DeadlineKeys(lookup[k], k, lookup[l], l);
    }
  }

  // ---------- what the operations mean ----------

  datatype Op =
    | WriteTtl(key: Bytes, value: Bytes, at: nat)
    | Write(key: Bytes, value: Bytes)
    | Remove(key: Bytes)
    | Nest(key: Bytes)
    | Unnest(key: Bytes)
    | Clear(key: Bytes)
    | PurgeAt(now: nat, limit: nat)
    | ReadAt(key: Bytes, now: nat)

  /** No other key has an earlier deadline. */
  ghost predicate IsEarliest(lookup: map<Bytes, nat>, key: Bytes) {
    key in lookup && forall l :: l in lookup && l != key ==> Earlier(lookup[key], key, lookup[l], l)
  }

  lemma EarliestUnique(lookup: map<Bytes, nat>, k: Bytes, l: Bytes)
    requires IsEarliest(lookup, k) && IsEarliest(lookup, l)
    ensures k == l
  {
    RankIsOrder(k, l);
    RankIsOrder(l, k);
  }

  /** The key a purge removes next: the one with the earliest deadline, if that has passed
      and the key holds no bucket. */
  ghost predicate Due(data: map<Bytes, Datum>, lookup: map<Bytes, nat>, now: nat, key: Bytes) {
    IsEarliest(lookup, key) && lookup[key] <= now && !(key in data && data[key].Nested?)
  }

  /** A purge, one key at a time. */
  ghost function PurgeOn(data: map<Bytes, Datum>, lookup: map<Bytes, nat>, now: nat, limit: nat)
    : (map<Bytes, Datum>, map<Bytes, nat>)
  {
    if limit > 0 && exists k :: Due(data, lookup, now, k) then
      var k :| Due(data, lookup, now, k);
      PurgeOn(data - {k}, lookup - {k}, now, limit - 1)
    else (data, lookup)
  }

  /** One operation on values and deadlines; a plain write or removal leaves the deadline. */
  ghost function StepOn(data: map<Bytes, Datum>, lookup: map<Bytes, nat>, op: Op)
    : (map<Bytes, Datum>, map<Bytes, nat>)
  {
    match op
    case WriteTtl(key, value, at) =>
      if key in data && data[key].Nested? then (data, lookup) else (data[key := Kv(value)], lookup[key := at])
    case Write(key, value) =>
      if key in data && data[key].Nested? then (data, lookup) else (data[key := Kv(value)], lookup)
    case Remove(key) => if key in data && data[key].Kv? then (data - {key}, lookup) else (data, lookup)
    case Nest(key) => if key in data then (data, lookup) else (data[key := Nested], lookup)
    case Unnest(key) => if key in data && data[key].Nested? then (data - {key}, lookup) else (data, lookup)
    case Clear(key) => (data, lookup - {key})
    case PurgeAt(now, limit) => PurgeOn(data, lookup, now, limit)
    case ReadAt(_, _) => (data, lookup)
  }

  ghost function RunOn(data: map<Bytes, Datum>, lookup: map<Bytes, nat>, ops: seq<Op>)
    : (map<Bytes, Datum>, map<Bytes, nat>)
  {
    if ops == [] then (data, lookup)
    else
      var (d, l) := RunOn(data, lookup, ops[..|ops| - 1]);
      StepOn(d, l, ops[|ops| - 1])
  }

  /** What the reads among the operations see, each at its own time. */
  ghost function Answers(data: map<Bytes, Datum>, lookup: map<Bytes, nat>, ops: seq<Op>): seq<Option<Bytes>> {
    if ops == [] then []
    else
      var (d, l) := RunOn(data, lookup, ops[..|ops| - 1]);
      Answers(data, lookup, ops[..|ops| - 1]) + Answer(d, l, ops[|ops| - 1])
  }

  ghost function Answer(data: map<Bytes, Datum>, lookup: map<Bytes, nat>, op: Op): seq<Option<Bytes>> {
    if op.ReadAt? then [Live(data, lookup, op.key, op.now)] else []
  }

  lemma PurgeStep(data: map<Bytes, Datum>, lookup: map<Bytes, nat>, now: nat, limit: nat, k: Bytes)
    requires Due(data, lookup, now, k) && limit > 0
    ensures PurgeOn(data, lookup, now, limit) == PurgeOn(data - {k}, lookup - {k}, now, limit - 1)
  {
    hide Earlier;
    forall l | Due(data, lookup, now, l) ensures l == k {
      EarliestUnique(lookup, k, l);
    }
  }

  /** A purge stops at a bucket or at a deadline not yet passed. */
  lemma PurgeStops(data: map<Bytes, Datum>, lookup: map<Bytes, nat>, now: nat, limit: nat)
    requires limit == 0 || forall k :: IsEarliest(lookup, k) ==> lookup[k] > now || (k in data && data[k].Nested?)
    ensures PurgeOn(data, lookup, now, limit) == (data, lookup)
  {
  }

  /** With i entries of the ordered index gone the next one is the earliest left. */
  lemma NextEarliest(lookup: map<Bytes, nat>, order: seq<Bytes>, es: seq<(Bytes, Bytes)>, now: nat, i: nat)
    requires Times(lookup) && order == InOrder(Index(lookup)) && Prefix(lookup, order, es, now) && i < |es|
    ensures IsEarliest(lookup - KeySet(es[..i]), es[i].1)
  {
    hide Rank, InOrder, Index, DeadlineKey, Earlier, Times, KeySet;
    PrefixDistinct(lookup, order, es, now, i);
    KeySetMore(es, i);
    var rest, key := lookup - KeySet(es[..i]), es[i].1;
    forall l | l in rest && l != key ensures Earlier(rest[key], key, rest[l], l) {
      LaterKey(lookup, order, es[..i + 1], now, l);
    }
  }

  // ---------- the bucket ----------

  class TtlBucket {
    var data: map<Bytes, Datum>
    /** The two hidden index buckets; either may not exist yet. */
    var lookup: Option<map<Bytes, nat>>
    var deadlines: Option<set<Bytes>>

    constructor ()
      ensures Agree() && Complete() && data == map[] && lookup == None && deadlines == None
    {
      data, lookup, deadlines := map[], None, None;
    }

    function Lookup(): map<Bytes, nat>
      reads `lookup
    {
      if lookup.None? then map[] else lookup.value
    }

    /** Where the deadline index exists it holds exactly the pairs of the lookup index. */
    ghost predicate Agree()
      reads `lookup, `deadlines
    {
      Times(Lookup()) && (deadlines.Some? ==> deadlines.value == Index(Lookup()))
    }

    /** The deadline index exists as soon as some key has a deadline. */
    ghost predicate Complete()
      reads `lookup, `deadlines
    {
      deadlines.None? ==> Lookup() == map[]
    }

    method RemoveDeadline(deadline: nat, key: Bytes)
      modifies `deadlines
      ensures deadlines == if old(deadlines).None? then None
                           else Some(old(deadlines).value - {DeadlineKey(deadline, key)})
    {
      if deadlines.Some? {
        deadlines := Some(deadlines.value - {DeadlineKey(deadline, key)});
      }
    }

    /** Sets a deadline.  The indexes agree afterwards exactly if the deadline index existed
        or no other key had a deadline: a missing one is created with this key alone. */
    method SetExpiration(key: Bytes, at: nat)
      requires Agree() && at < TWO_64
      modifies `lookup, `deadlines
      ensures Lookup() == old(Lookup())[key := at] && lookup.Some? && deadlines.Some?
      ensures Agree() <==> old(deadlines).Some? || old(Lookup()).Keys <= {key}
      ensures old(deadlines).None? ==> deadlines.value == {DeadlineKey(at, key)}
    {
      ghost var before := Lookup();
      IndexPut(before, key, at);
      if lookup.Some? && key in lookup.value {
        RemoveDeadline(lookup.value[key], key);
      }
      lookup := Some(Lookup()[key := at]);
      deadlines := Some((if deadlines.None? then {} else deadlines.value) + {DeadlineKey(at, key)});
      if old(deadlines).None? {
        OnlyThis(before, key, at);
      }
    }

    method ClearTtl(key: Bytes) returns (had: bool)
      requires Agree()
      modifies `lookup, `deadlines
      ensures Agree() && (old(Complete()) ==> Complete())
      ensures had == (key in old(Lookup())) && Lookup() == old(Lookup()) - {key}
    {
      had := key in Lookup();
      if had {
        IndexDrop(Lookup(), key);
        RemoveDeadline(lookup.value[key], key);
        lookup := Some(lookup.value - {key});
      }
    }

    method PutWithTtl(key: Bytes, value: Bytes, at: nat) returns (r: Result<Option<Bytes>>)
      requires Agree() && Complete() && at < TWO_64
      modifies this
      ensures Agree() && Complete()
      ensures r.IncompatibleValue? <==> key in old(data) && old(data)[key].Nested?
      ensures r.IncompatibleValue? ==> data == old(data) && Lookup() == old(Lookup())
      ensures r.Ok? ==> data == old(data)[key := Kv(value)] && Lookup() == old(Lookup())[key := at]
                        && r.value == if key in old(data) then Some(old(data)[key].value) else None
    {
      if key in data && data[key].Nested? {
        return IncompatibleValue;
      }
      r := Ok(if key in data then Some(data[key].value) else None);
      data := data[key := Kv(value)];
      SetExpiration(key, at);
    }

    method GetLiveAt(key: Bytes, now: nat) returns (r: Option<Bytes>)
      ensures r == Live(data, Lookup(), key, now)
    {
      if lookup.Some? && key in lookup.value && lookup.value[key] <= now {
        return None;
      }
      r := if key in data && data[key].Kv? then Some(data[key].value) else None;
    }

    /** The first pass of a purge: expired pairs in key order. */
    method CollectExpired(order: seq<Bytes>, now: nat, limit: nat) returns (expired: seq<(Bytes, Bytes)>)
      requires Agree() && order == InOrder(Index(Lookup())) && limit > 0
      ensures Prefix(Lookup(), order, expired, now) && First(Lookup(), now, limit, KeySet(expired))
              && |expired| <= limit
    {
      hide InOrder, DecodeDeadline, DeadlineKey, Index, First;
      expired := [];
      for i := 0 to |order|
        invariant |expired| == i < limit && Prefix(Lookup(), order, expired, now)
      {
        ghost var k := Entry(Lookup(), order, i);
        var pair := DecodeDeadline(order[i]).value;
        if pair.0 > now {
          PrefixIsFirst(Lookup(), order, expired, now, limit);
          return;
        }
        expired := expired + [(order[i], pair.1)];
        if |expired| == limit {
          PrefixIsFirst(Lookup(), order, expired, now, limit);
          return;
        }
      }
      PrefixIsFirst(Lookup(), order, expired, now, limit);
    }

    /** One expired key: its value, its deadline and its place in the deadline index. */
    method RemoveEntry(deadlineKey: Bytes, key: Bytes) returns (ok: bool)
      requires Agree() && lookup.Some? && deadlines.Some? && key in Lookup()
               && deadlineKey == DeadlineKey(Lookup()[key], key)
      modifies this
      ensures ok <==> !(key in old(data) && old(data)[key].Nested?)
      ensures Agree() && lookup.Some? && deadlines.Some?
      ensures if ok then data == old(data) - {key} && Lookup() == old(Lookup()) - {key}
              else data == old(data) && Lookup() == old(Lookup())
    {
      ok := !(key in data && data[key].Nested?);
      if ok {
        data := data - {key};
        IndexDrop(Lookup(), key);
        deadlines := Some(deadlines.value - {deadlineKey});
        lookup := Some(lookup.value - {key});
      }
    }

    /** The second pass: stops with an error at a key that has become a bucket. */
    method RemoveExpired(expired: seq<(Bytes, Bytes)>, ghost order: seq<Bytes>, ghost now: nat, ghost limit: nat)
                         returns (ok: bool)
      requires Agree() && lookup.Some? && deadlines.Some? && |expired| <= limit
      requires Prefix(Lookup(), order, expired, now) && order == InOrder(Index(Lookup()))
      requires First(Lookup(), now, limit, KeySet(expired))
      modifies this
      ensures ok <==> forall k :: k in KeySet(expired) && k in old(data) ==> old(data)[k].Kv?
      ensures Agree() && deadlines.Some?
      ensures (data, Lookup()) == PurgeOn(old(data), old(Lookup()), now, limit)
      ensures ok ==> data == old(data) - KeySet(expired) && Lookup() == old(Lookup()) - KeySet(expired)
    {
      hide DeadlineKey, Increasing, Index, Times, InOrder, PurgeOn, First, Earlier, Prefix;
      ghost var d, l := data, Lookup();
      assert expired[..0] == [];
      assert KeySet([]) == {};
      for i := 0 to |expired|
        invariant Agree() && lookup.Some? && deadlines.Some?
        invariant data == d - KeySet(expired[..i]) && Lookup() == l - KeySet(expired[..i])
        invariant forall k :: k in KeySet(expired[..i]) && k in d ==> d[k].Kv?
        invariant PurgeOn(data, Lookup(), now, limit - i) == PurgeOn(d, l, now, limit)
      {
        RemoveNext(d, l, order, expired, now, limit, i);
        var fine := RemoveEntry(expired[i].0, expired[i].1);
        if !fine {
          assert expired[i] in expired;
          return false;
        }
      }
      assert expired[..|expired|] == expired;
      PrefixDistinct(l, order, expired, now, |expired|);
      NoneLeft(data, l, now, limit, KeySet(expired));
      ok := true;
    }

    /** `purge_expired`: removes the first `limit` expired keys in deadline order, unless one
        of them has become a bucket. */
    method Purge(now: nat, limit: nat) returns (r: Result<nat>, ghost gone: set<Bytes>)
      requires Agree()
      modifies this
      ensures First(old(Lookup()), now, limit, gone)
      ensures Agree() && (old(Complete()) ==> Complete())
      ensures r.Ok? ==> r.value == |gone| && data == old(data) - gone && Lookup() == old(Lookup()) - gone
      ensures r.Ok? ==> forall key, t: nat :: now <= t ==>
                          Live(data, Lookup(), key, t) == old(Live(data, Lookup(), key, t))
      ensures r.Ok? <==> forall k :: k in gone && k in old(data) ==> old(data)[k].Kv?
      ensures (data, Lookup()) == PurgeOn(old(data), old(Lookup()), now, limit)
    {
      hide DeadlineKey, Index, InOrder, Times, Prefix, PurgeOn, Earlier;
      if limit == 0 || lookup.None? {
        NoneFirst(Lookup(), now, limit);
        PurgeStops(data, Lookup(), now, limit);
        return Ok(0), {};
      }
      if deadlines.None? {
        deadlines := Some(Index(lookup.value));
      }
      var order := InOrder(deadlines.value);
      var expired := CollectExpired(order, now, limit);
      gone := KeySet(expired);
      PrefixDistinct(Lookup(), order, expired, now, |expired|);
      assert expired[..|expired|] == expired;
      var ok := RemoveExpired(expired, order, now, limit);
      r := if ok then Ok(|expired|) else IncompatibleValue;
      if ok {
        forall key, t: nat | now <= t ensures Live(data, Lookup(), key, t) == old(Live(data, Lookup(), key, t)) {
          PurgeInvisible(old(data), old(Lookup()), gone, now, key, t);
        }
      }
    }

    method Apply(op: Op) returns (seen: seq<Option<Bytes>>)
      requires Agree() && Complete() && (op.WriteTtl? ==> op.at < TWO_64)
      modifies this
      ensures Agree() && Complete() && (data, Lookup()) == StepOn(old(data), old(Lookup()), op)
      ensures seen == Answer(old(data), old(Lookup()), op)
    {
      hide Times, Index, PurgeOn;
      seen := [];
      match op {
        case WriteTtl(key, value, at) => var _ := PutWithTtl(key, value, at);
        case Write(key, value) =>
          if key !in data || data[key].Kv? {
            data := data[key := Kv(value)];
          }
        case Remove(key) =>
          if key in data && data[key].Kv? {
            data := data - {key};
          }
        case Nest(key) =>
          if key !in data {
            data := data[key := Nested];
          }
        case Unnest(key) =>
          if key in data && data[key].Nested? {
            data := data - {key};
          }
        case Clear(key) => var _ := ClearTtl(key);
        case PurgeAt(now, limit) =>
          var _, _ := Purge(now, limit);
        case ReadAt(key, now) =>
          var r := GetLiveAt(key, now);
          seen := [r];
      }
    }

    /** Over every run the two indexes agree, and values, deadlines and the answers to reads
        are what the operations mean one by one. */
    method Run(ops: seq<Op>) returns (seen: seq<Option<Bytes>>)
      requires Agree() && Complete() && forall i :: 0 <= i < |ops| && ops[i].WriteTtl? ==> ops[i].at < TWO_64
      modifies this
      ensures Agree() && Complete() && (data, Lookup()) == RunOn(old(data), old(Lookup()), ops)
      ensures seen == Answers(old(data), old(Lookup()), ops)
    {
      hide Agree, Complete, StepOn, Answer;
      seen := [];
      for i := 0 to |ops|
        invariant Agree() && Complete() && (data, Lookup()) == RunOn(old(data), old(Lookup()), ops[..i])
        invariant seen == Answers(old(data), old(Lookup()), ops[..i])
      {
        assert ops[..i + 1][..i] == ops[..i];
        var more := Apply(ops[i]);
        seen := seen + more;
      }
      assert ops[..|ops|] == ops;
    }
  }

  /** Entry i after the i before it: where a bucket stops the purge, and what it removes. */
  lemma RemoveNext(d: map<Bytes, Datum>, l: map<Bytes, nat>, order: seq<Bytes>, es: seq<(Bytes, Bytes)>, now: nat,
                   limit: nat, i: nat)
    requires Times(l) && order == InOrder(Index(l)) && Prefix(l, order, es, now) && i < |es| <= limit
    ensures var key, d', l' := es[i].1, d - KeySet(es[..i]), l - KeySet(es[..i]);
            && key in l' && es[i].0 == DeadlineKey(l'[key], key) && KeySet(es[..i + 1]) == KeySet(es[..i]) + {key}
            && (key in d' <==> key in d) && d' - {key} == d - KeySet(es[..i + 1])
                && l' - {key} == l - KeySet(es[..i + 1])
            && PurgeOn(d', l', now, limit - i) ==
               if key in d && d[key].Nested? then (d', l') else PurgeOn(d' - {key}, l' - {key}, now, limit - i - 1)
  {
    hide DeadlineKey, Increasing, Index, Times, InOrder, PurgeOn, Earlier;
    var key, d', l' := es[i].1, d - KeySet(es[..i]), l - KeySet(es[..i]);
    KeySetMore(es, i);
    PrefixDistinct(l, order, es, now, i);
    NextEarliest(l, order, es, now, i);
    if key in d && d[key].Nested? {
      StopsAtBucket(d', l', now, limit - i, key);
    } else {
      PurgeStep(d', l', now, limit - i, key);
    }
    MinusMore(d, KeySet(es[..i]), key);
    MinusMore(l, KeySet(es[..i]), key);
  }

  lemma StopsAtBucket(data: map<Bytes, Datum>, lookup: map<Bytes, nat>, now: nat, limit: nat, key: Bytes)
    requires IsEarliest(lookup, key) && key in data && data[key].Nested?
    ensures PurgeOn(data, lookup, now, limit) == (data, lookup)
  {
    hide Earlier, PurgeOn;
    forall k | IsEarliest(lookup, k) ensures k == key {
      EarliestUnique(lookup, k, key);
    }
    PurgeStops(data, lookup, now, limit);
  }

  lemma NoneLeft(data: map<Bytes, Datum>, lookup: map<Bytes, nat>, now: nat, limit: nat, gone: set<Bytes>)
    requires First(lookup, now, limit, gone)
    ensures PurgeOn(data, lookup - gone, now, limit - |gone|) == (data, lookup - gone)
  {
    hide Earlier, PurgeOn;
    PurgeStops(data, lookup - gone, now, limit - |gone|);
  }

  /** A lookup index without its deadline index: setting one more deadline leaves the first
      out of the new index. */
  method MissingIndex() returns (b: TtlBucket)
    ensures b.Lookup() == map[[1] := 5, [2] := 6] && b.deadlines == Some({DeadlineKey(6, [2])}) && !b.Agree()
  {
    b := new TtlBucket();
    b.lookup := Some(map[[1] := 5]);
    assert [1] in b.Lookup().Keys && [1] != [2];
    b.SetExpiration([2], 6);
  }

  lemma NoneFirst(lookup: map<Bytes, nat>, now: nat, limit: nat)
    requires limit == 0 || lookup == map[]
    ensures First(lookup, now, limit, {})
  {
  }

  lemma MinusMore<V>(m: map<Bytes, V>, s: set<Bytes>, k: Bytes)
    ensures m - s - {k} == m - (s + {k})
  {
  }

  lemma OnlyThis(lookup: map<Bytes, nat>, key: Bytes, at: nat)
    requires Times(lookup) && at < TWO_64
    ensures Index(lookup[key := at]) == {DeadlineKey(at, key)} <==> lookup.Keys <= {key}
  {
    var l' := lookup[key := at];
    assert DeadlineKey(l'[key], key) in Index(l');
    forall k | k in lookup && k != key ensures DeadlineKey(l'[k], k) in Index(l')
        && DeadlineKey(l'[k], k) != DeadlineKey(at, key) {
      DeadlineKeys(l'[k], k, at, key);
    }
  }

  // ---------- how long a value is visible ----------

  /** The key still has its value and deadline, or the deadline has passed and both are gone. */
  ghost predicate Lasts(data: map<Bytes, Datum>, lookup: map<Bytes, nat>, key: Bytes, value: Bytes, at: nat, t: nat) {
    || (key in data && data[key] == Kv(value) && key in lookup && lookup[key] == at)
    || (at <= t && key !in data && key !in lookup)
  }

  /** An operation that is not about the key, and purges nothing still live at t. */
  predicate Spares(op: Op, key: Bytes, t: nat) {
    if op.PurgeAt? then op.now <= t else op.ReadAt? || op.key != key
  }

  lemma {:induction false} PurgeLasts(data: map<Bytes, Datum>, lookup: map<Bytes, nat>, now: nat, limit: nat,
                                      key: Bytes, value: Bytes,
                                      at: nat, t: nat)
    requires Lasts(data, lookup, key, value, at, t) && now <= t
    ensures var (d, l) := PurgeOn(data, lookup, now, limit); Lasts(d, l, key, value, at, t)
    decreases limit
  {
    hide Earlier;
    if limit > 0 && exists k :: Due(data, lookup, now, k) {
      var k :| Due(data, lookup, now, k);
      PurgeStep(data, lookup, now, limit, k);
      PurgeLasts(data - {k}, lookup - {k}, now, limit - 1, key, value, at, t);
    }
  }

  /** A value written with a deadline is visible exactly until then, whatever is written under
      other keys and whatever is purged meanwhile. */
  lemma {:induction false} LiveUntil(data: map<Bytes, Datum>, lookup: map<Bytes, nat>, key: Bytes, value: Bytes,
                                     at: nat,
                                     ops: seq<Op>, t: nat)
    requires !(key in data && data[key].Nested?) && forall i :: 0 <= i < |ops| ==> Spares(ops[i], key, t)
    ensures var (d, l) := RunOn(data, lookup, [WriteTtl(key, value, at)] + ops);
            Lasts(d, l, key, value, at, t) && Live(d, l, key, t) == if t < at then Some(value) else None
    decreases |ops|
  {
    hide PurgeOn;
    var all := [WriteTtl(key, value, at)] + ops;
    if ops == [] {
      assert all[..|all| - 1] == [];
    } else {
      var before := ops[..|ops| - 1];
      LiveUntil(data, lookup, key, value, at, before, t);
      assert all[..|all| - 1] == [WriteTtl(key, value, at)] + before && all[|all| - 1] == ops[|ops| - 1];
      var (d, l) := RunOn(data, lookup, all[..|all| - 1]);
      var op := ops[|ops| - 1];
      assert Spares(op, key, t);
      if op.PurgeAt? {
        PurgeLasts(d, l, op.now, op.limit, key, value, at, t);
      }
    }
  }
}
