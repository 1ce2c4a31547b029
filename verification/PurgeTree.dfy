/** `purge_expired` of the whole database: a bucket's own expired keys, then its nested buckets
    in key order, under one shared limit. */
module PurgeTree {
  import opened Wrappers
  import opened Bytes
  import opened Ttl

  /** A bucket by value: its values, its deadlines and its nested buckets. */
  datatype Bucket = Bucket(values: map<Bytes, Bytes>, lookup: map<Bytes, nat>, kids: map<Bytes, Bucket>)

  ghost predicate Proper(t: Bucket) {
    && Times(t.lookup) && t.values.Keys !! t.kids.Keys
    && forall n :: n in t.kids ==> Proper(t.kids[n])
  }

  function Flat(t: Bucket): map<Bytes, Datum> {
    map k | k in t.values.Keys + t.kids.Keys :: if k in t.kids then Nested else Kv(t.values[k])
  }

  /** A key and the names that lead to its bucket. */
  datatype Item = Item(path: seq<Bytes>, key: Bytes)

  function Under(n: Bytes, s: set<Item>): set<Item> {
    set x | x in s :: Item([n] + x.path, x.key)
  }

  function Own(s: set<Bytes>): set<Item> {
    set k | k in s :: Item([], k)
  }

  ghost function OwnExpired(t: Bucket, now: nat): set<Bytes> {
    set k | k in t.lookup && t.lookup[k] <= now
  }

  /** Every expired key of the bucket, and of its nested buckets alone. */
  ghost function Expired(t: Bucket, now: nat): set<Item>
    decreases t, 1
  {
    Own(OwnExpired(t, now)) + ExpiredBelow(t, now)
  }

  ghost function ExpiredBelow(t: Bucket, now: nat): set<Item>
    decreases t, 0
  {
    set n, x | n in t.kids && x in Under(n, Expired(t.kids[n], now)) :: x
  }

  /** The order of a purge: a bucket before those nested in it, these in key order, and within a
      bucket by deadline. */
  ghost predicate Before(t: Bucket, x: Item, y: Item) {
    if x.path == [] || y.path == [] then
      x.path == [] && (y.path == [] ==>
                         x.key in t.lookup && y.key in t.lookup
                         && Earlier(t.lookup[x.key], x.key, t.lookup[y.key], y.key))
    else if x.path[0] == y.path[0] then
      x.path[0] in t.kids && Before(t.kids[x.path[0]], Item(x.path[1..], x.key), Item(y.path[1..], y.key))
    else Less(x.path[0], y.path[0])
  }

  /** Nothing left behind comes before anything taken. */
  ghost predicate Leading(t: Bucket, all: set<Item>, gone: set<Item>) {
    gone <= all && forall x, y :: x in gone && y in all - gone ==> Before(t, x, y)
  }

  /** A key with a deadline that names a nested bucket. */
  ghost predicate Blocked(t: Bucket, x: Item) {
    if x.path == [] then x.key in t.kids
    else x.path[0] in t.kids && Blocked(t.kids[x.path[0]], Item(x.path[1..], x.key))
  }

  ghost function Here(gone: set<Item>): set<Bytes> {
    set x | x in gone && x.path == [] :: x.key
  }

  ghost function Below(gone: set<Item>, n: Bytes): set<Item> {
    set x | x in gone && x.path != [] && x.path[0] == n :: Item(x.path[1..], x.key)
  }

  /** The bucket without these values and their deadlines. */
  ghost function Without(t: Bucket, gone: set<Item>): Bucket {
    Bucket(t.values - Here(gone), t.lookup - Here(gone), map n | n in t.kids :: Without(t.kids[n], Below(gone, n)))
  }

  lemma {:induction false} WithoutNone(t: Bucket)
    ensures Without(t, {}) == t
  {
    forall n | n in t.kids ensures Without(t.kids[n], Below({}, n)) == t.kids[n] {
      assert Below({}, n) == {};
      WithoutNone(t.kids[n]);
    }
  }

  lemma UnderTail(n: Bytes, s: set<Item>, x: Item)
    ensures x in Under(n, s) <==> x.path != [] && x.path[0] == n && Item(x.path[1..], x.key) in s
  {
    if x.path != [] && x.path[0] == n && Item(x.path[1..], x.key) in s {
      assert [n] + x.path[1..] == x.path;
    }
    if x in Under(n, s) {
      var y :| y in s && x == Item([n] + y.path, y.key);
      assert x.path[1..] == y.path;
    }
  }

  lemma {:induction false} UnderCount(n: Bytes, s: set<Item>)
    ensures |Under(n, s)| == |s|
  {
    if s != {} {
      var x :| x in s;
      var rest := s - {x};
      UnderCount(n, rest);
      var z := Item([n] + x.path, x.key);
      UnderTail(n, rest, z);
      assert z.path[1..] == x.path;
      assert Under(n, s) == Under(n, rest) + {z};
    } else {
      assert Under(n, s) == {};
    }
  }

  lemma {:induction false} OwnCount(s: set<Bytes>)
    ensures |Own(s)| == |s|
  {
    if s != {} {
      var k :| k in s;
      OwnCount(s - {k});
      assert Own(s) == Own(s - {k}) + {Item([], k)};
    } else {
      assert Own(s) == {};
    }
  }

  lemma InBelow(t: Bucket, now: nat, x: Item)
    ensures x in ExpiredBelow(t, now) <==>
            x.path != [] && x.path[0] in t.kids && Item(x.path[1..], x.key) in Expired(t.kids[x.path[0]], now)
  {
    hide Expired, Under;
    if x.path != [] && x.path[0] in t.kids {
      UnderTail(x.path[0], Expired(t.kids[x.path[0]], now), x);
    }
    forall n | n in t.kids && x in Under(n, Expired(t.kids[n], now))
      ensures x.path != [] && x.path[0] == n && Item(x.path[1..], x.key) in Expired(t.kids[n], now)
    {
      UnderTail(n, Expired(t.kids[n], now), x);
    }
  }

  // ---------- nested buckets one after the other ----------

  /** What the nested buckets of these names hold. */
  ghost function Part(t: Bucket, now: nat, names: seq<Bytes>): set<Item> {
    set x | x in ExpiredBelow(t, now) && x.path != [] && x.path[0] in names
  }

  lemma PartEnds(t: Bucket, now: nat, names: seq<Bytes>)
    requires forall n :: n in t.kids <==> n in names
    ensures Part(t, now, []) == {} && Part(t, now, names) == ExpiredBelow(t, now)
    ensures Leading(t, ExpiredBelow(t, now), ExpiredBelow(t, now))
  {
    hide ExpiredBelow;
    forall x | x in ExpiredBelow(t, now) ensures x in Part(t, now, names) {
      InBelow(t, now, x);
    }
  }

  /** The next name in key order. */
  lemma NextName(t: Bucket, names: seq<Bytes>, i: nat)
    requires names == InOrder(t.kids.Keys) && i < |names|
    ensures names[i] in t.kids && names[i] !in names[..i] && names[..i + 1] == names[..i] + [names[i]]
    ensures forall n :: n in names[..i] ==> Less(n, names[i])
    ensures forall n, m :: n in names[..i + 1] && m in t.kids && m !in names[..i + 1] ==> Less(n, m)
  {
    hide InOrder;
    assert names[i] in names;
    assert forall j :: 0 <= j <= i ==> names[j] in names[..i + 1];
    forall n, m | n in names[..i + 1] && m in t.kids && m !in names[..i + 1] ensures Less(n, m) {
      var j :| 0 <= j < |names| && names[j] == m;
    }
  }

  lemma TakeKid(t: Bucket, now: nat, names: seq<Bytes>, i: nat, g: set<Item>)
    requires names == InOrder(t.kids.Keys) && i < |names| && names[i] in t.kids
    requires Leading(t.kids[names[i]], Expired(t.kids[names[i]], now), g)
    ensures Leading(t, ExpiredBelow(t, now), Part(t, now, names[..i]) + Under(names[i], g))
  {
    hide Expired, ExpiredBelow, InOrder, Under, Less;
    var n, kid, before := names[i], t.kids[names[i]], Part(t, now, names[..i]);
    var gone := before + Under(n, g);
    NextName(t, names, i);
    forall x | x in Under(n, g) ensures x in ExpiredBelow(t, now) {
      UnderTail(n, g, x);
      InBelow(t, now, x);
    }
    forall x, y | x in gone && y in ExpiredBelow(t, now) - gone ensures Before(t, x, y) {
      InBelow(t, now, x);
      InBelow(t, now, y);
      UnderTail(n, g, x);
      UnderTail(n, g, y);
    }
  }

  lemma KidTaken(t: Bucket, now: nat, names: seq<Bytes>, i: nat)
    requires names == InOrder(t.kids.Keys) && i < |names| && names[i] in t.kids
    ensures Part(t, now, names[..i + 1]) == Part(t, now, names[..i]) + Under(names[i], Expired(t.kids[names[i]], now))
  {
    hide Expired, ExpiredBelow, InOrder, Under, Less;
    NextName(t, names, i);
    forall x ensures x in Part(t, now, names[..i + 1]) <==>
                     x in Part(t, now, names[..i]) + Under(names[i], Expired(t.kids[names[i]], now)) {
      InBelow(t, now, x);
      UnderTail(names[i], Expired(t.kids[names[i]], now), x);
    }
  }

  lemma KidCount(t: Bucket, now: nat, names: seq<Bytes>, n: Bytes, g: set<Item>)
    requires n !in names
    ensures |Part(t, now, names) + Under(n, g)| == |Part(t, now, names)| + |g|
  {
    hide ExpiredBelow, Under;
    UnderCount(n, g);
    forall x | x in Part(t, now, names) ensures x !in Under(n, g) {
      UnderTail(n, g, x);
    }
  }

  lemma PartWithout(t: Bucket, now: nat, names: seq<Bytes>, n: Bytes, g: set<Item>)
    requires n in t.kids && n !in names
    ensures var before := Without(t, Part(t, now, names));
            Without(t, Part(t, now, names) + Under(n, g)) == before.(kids := before.kids[n := Without(t.kids[n], g)])
  {
    hide ExpiredBelow, Under, Without;
    KidWithout(t, Part(t, now, names), n, g);
  }

  lemma KidWithout(t: Bucket, gone: set<Item>, n: Bytes, g: set<Item>)
    requires n in t.kids && forall x :: x in gone ==> x.path != [] && x.path[0] != n
    ensures Without(t, gone + Under(n, g)) ==
            Without(t, gone).(kids := Without(t, gone).kids[n := Without(t.kids[n], g)])
  {
    hide Under, Here, Below;
    BelowUnder(gone, n, g);
  }

  lemma BelowUnder(gone: set<Item>, n: Bytes, g: set<Item>)
    requires forall x :: x in gone ==> x.path != [] && x.path[0] != n
    ensures Here(gone + Under(n, g)) == Here(gone)
    ensures forall m :: Below(gone + Under(n, g), m) == if m == n then g else Below(gone, m)
  {
    hide Under;
    forall x ensures x in Under(n, g) <==> x.path != [] && x.path[0] == n && Item(x.path[1..], x.key) in g {
      UnderTail(n, g, x);
    }
    forall x | x in g ensures x in Below(gone + Under(n, g), n) {
      var y := Item([n] + x.path, x.key);
      assert y.path[1..] == x.path;
      assert y in Under(n, g);
    }
  }

  lemma KidBlocked(t: Bucket, n: Bytes, g: set<Item>)
    requires n in t.kids
    ensures (forall x :: x in Under(n, g) ==> !Blocked(t, x)) <==> (forall x :: x in g ==> !Blocked(t.kids[n], x))
  {
    forall x | x in g ensures Item([n] + x.path, x.key) in Under(n, g)
        && (Blocked(t, Item([n] + x.path, x.key)) <==> Blocked(t.kids[n], x)) {
      assert ([n] + x.path)[1..] == x.path;
    }
  }

  lemma NothingTaken(t: Bucket, now: nat)
    ensures Leading(t, Expired(t, now), {}) && Without(t, {}) == t
  {
    WithoutNone(t);
  }

  /** The bucket's own `purge_expired`. */
  method PurgeOwn(t: Bucket, now: nat, limit: nat)
    returns (r: Result<nat>, values: map<Bytes, Bytes>, lookup: map<Bytes, nat>, ghost keys: set<Bytes>)
    requires Times(t.lookup) && t.values.Keys !! t.kids.Keys
    ensures First(t.lookup, now, limit, keys)
    ensures r.Ok? <==> forall k :: k in keys && k in Flat(t) ==> Flat(t)[k].Kv?
    ensures r.Ok? ==> r.value == |keys| && values == t.values - keys && lookup == t.lookup - keys
  {
    hide First, Index;
    var b := new TtlBucket();
    b.data, b.lookup, b.deadlines := Flat(t), Some(t.lookup), Some(Index(t.lookup));
    r, keys := b.Purge(now, limit);
    values, lookup := map k | k in t.values && k in b.data :: t.values[k], b.Lookup();
  }

  method PurgeBelow(t: Bucket, now: nat, limit: nat) returns (r: Result<nat>, t': Bucket, ghost gone: set<Item>)
    requires Proper(t) && limit > 0
    ensures Leading(t, ExpiredBelow(t, now), gone) && |gone| <= limit
    ensures r.Ok? ==> r.value == |gone| && (|gone| < limit ==> gone == ExpiredBelow(t, now)) && t' == Without(t, gone)
    ensures r.Ok? <==> forall x :: x in gone ==> !Blocked(t, x)
    decreases t, 0
  {
    hide Expired, ExpiredBelow, InOrder, Under, Less, Leading, Part, Blocked, Without;
    var names, removed := InOrder(t.kids.Keys), 0;
    t', gone := t, {};
    PartEnds(t, now, names);
    WithoutNone(t);
    for i := 0 to |names|
      invariant gone == Part(t, now, names[..i]) && removed == |gone| < limit
      invariant t' == Without(t, gone) && forall x :: x in gone ==> !Blocked(t, x)
    {
      NextName(t, names, i);
      var n := names[i];
      var some, kid, g := Purge(t.kids[n], now, limit - removed);
      TakeKid(t, now, names, i, g);
      KidCount(t, now, names[..i], n, g);
      KidBlocked(t, n, g);
      PartWithout(t, now, names[..i], n, g);
      KidTaken(t, now, names, i);
      gone := gone + Under(n, g);
      if !some.Ok? {
        return IncompatibleValue, t', gone;
      }
      removed := removed + some.value;
      t' := t'.(kids := t'.kids[n := kid]);
      if removed == limit {
        return Ok(removed), t', gone;
      }
    }
    assert names[..|names|] == names;
    r := Ok(removed);
  }

  // ---------- a bucket and all it contains ----------

  lemma OwnLeads(t: Bucket, now: nat, limit: nat, keys: set<Bytes>)
    requires First(t.lookup, now, limit, keys)
    ensures Leading(t, Expired(t, now), Own(keys)) && |Own(keys)| == |keys| <= limit
    ensures |keys| < limit ==> keys == OwnExpired(t, now)
  {
    hide Earlier, ExpiredBelow;
    OwnCount(keys);
    forall x, y | x in Own(keys) && y in Expired(t, now) - Own(keys) ensures Before(t, x, y) {
      InBelow(t, now, y);
    }
  }

  lemma OwnThenBelow(t: Bucket, now: nat, g: set<Item>)
    requires Leading(t, ExpiredBelow(t, now), g)
    ensures var keys := OwnExpired(t, now);
            && Leading(t, Expired(t, now), Own(keys) + g) && |Own(keys) + g| == |keys| + |g|
            && Without(t, Own(keys) + g) == Bucket(t.values - keys, t.lookup - keys, Without(t, g).kids)
            && (g == ExpiredBelow(t, now) ==> Own(keys) + g == Expired(t, now))
  {
    hide ExpiredBelow, Without;
    var keys := OwnExpired(t, now);
    forall x | x in ExpiredBelow(t, now) ensures x.path != [] {
      InBelow(t, now, x);
    }
    forall x, y | x in Own(keys) + g && y in Expired(t, now) - (Own(keys) + g) ensures Before(t, x, y) {
      assert y in ExpiredBelow(t, now) - g;
    }
    OwnCount(keys);
    OwnWithout(t, keys, g);
  }

  lemma OwnWithout(t: Bucket, keys: set<Bytes>, g: set<Item>)
    requires forall x :: x in g ==> x.path != []
    ensures Without(t, Own(keys) + g) == Bucket(t.values - keys, t.lookup - keys, Without(t, g).kids)
  {
    forall k | k in keys ensures k in Here(Own(keys) + g) {
      assert Item([], k) in Own(keys);
    }
    assert Here(Own(keys) + g) == keys;
    forall n ensures Below(Own(keys) + g, n) == Below(g, n) {
    }
  }

  lemma OwnBlocked(t: Bucket, keys: set<Bytes>)
    ensures (forall x :: x in Own(keys) ==> !Blocked(t, x)) <==>
            forall k :: k in keys && k in Flat(t) ==> Flat(t)[k].Kv?
  {
    forall k | k in keys && k in t.kids ensures Item([], k) in Own(keys) && Blocked(t, Item([], k)) {
    }
  }

  /** `purge_bucket_tree`: the own expired keys, then those of the nested buckets. */
  method Purge(t: Bucket, now: nat, limit: nat) returns (r: Result<nat>, t': Bucket, ghost gone: set<Item>)
    requires Proper(t)
    ensures Leading(t, Expired(t, now), gone) && |gone| <= limit
    ensures r.Ok? ==> r.value == |gone| && (|gone| < limit ==> gone == Expired(t, now)) && t' == Without(t, gone)
    ensures r.Ok? <==> forall x :: x in gone ==> !Blocked(t, x)
    decreases t, 1
  {
    hide Expired, ExpiredBelow, Leading, Blocked, Without, First, Own, OwnExpired;
    if limit == 0 {
      NothingTaken(t, now);
      return Ok(0), t, {};
    }
    var own, values, lookup, keys := PurgeOwn(t, now, limit);
    gone := Own(keys);
    OwnLeads(t, now, limit, keys);
    OwnBlocked(t, keys);
    if !own.Ok? {
      return IncompatibleValue, t, gone;
    }
    OwnWithout(t, keys, {});
    WithoutNone(t);
    assert gone + {} == gone;
    if own.value == limit {
      return own, Bucket(values, lookup, t.kids), gone;
    }
    var rest, below, g := PurgeBelow(t, now, limit - own.value);
    OwnThenBelow(t, now, g);
    gone := gone + g;
    r := if rest.Ok? then Ok(own.value + rest.value) else rest;
    t' := Bucket(values, lookup, below.kids);
  }

  // ---------- the whole database ----------

  lemma {:induction false} BeforeOneWay(t: Bucket, x: Item, y: Item)
    ensures !(Before(t, x, y) && Before(t, y, x))
    decreases |x.path|
  {
    hide Rank;
    if x.path != [] && y.path != [] && x.path[0] == y.path[0] && x.path[0] in t.kids {
      BeforeOneWay(t.kids[x.path[0]], Item(x.path[1..], x.key), Item(y.path[1..], y.key));
    } else if x.path == [] && y.path == [] {
      RankIsOrder(x.key, y.key);
      RankIsOrder(y.key, x.key);
    }
  }

  /** The first `limit` expired keys: fewer than `limit` come before each of them. */
  ghost function Due(t: Bucket, now: nat, limit: nat): set<Item> {
    set x | x in Expired(t, now) && |Sooner(t, now, x)| < limit
  }

  ghost function Sooner(t: Bucket, now: nat, x: Item): set<Item> {
    set y | y in Expired(t, now) && Before(t, y, x)
  }

  lemma {:induction false} Fewer<T>(a: set<T>, b: set<T>)
    requires a <= b
    ensures |a| <= |b|
  {
    if a != {} {
      var x :| x in a;
      Fewer(a - {x}, b - {x});
    }
  }

  lemma LeadingDue(t: Bucket, now: nat, gone: set<Item>, limit: nat)
    requires Leading(t, Expired(t, now), gone) && |gone| <= limit
    ensures gone <= Due(t, now, limit) && |gone| <= |Expired(t, now)|
    ensures |gone| == limit || gone == Expired(t, now) ==> gone == Due(t, now, limit)
  {
    hide Before, Expired;
    forall x | x in gone ensures |Sooner(t, now, x)| < limit {
      forall y | y in Sooner(t, now, x) ensures y in gone && y != x {
        BeforeOneWay(t, x, y);
      }
      Fewer(Sooner(t, now, x), gone - {x});
    }
    Fewer(gone, Expired(t, now));
    forall x | x in Expired(t, now) - gone ensures |gone| <= |Sooner(t, now, x)| {
      Fewer(gone, Sooner(t, now, x));
    }
  }

  /** Items below the root alone lead when the root has no deadlines of its own. */
  lemma RootHasNone(t: Bucket, now: nat)
    requires t.lookup == map[]
    ensures Expired(t, now) == ExpiredBelow(t, now)
  {
    assert OwnExpired(t, now) == {};
    assert Own({}) == {};
  }

  /** `DB::purge_expired`: of all buckets in the database the first `limit` expired keys are
      removed with their deadlines and nothing else changes, unless one of them names a
      bucket: then the transaction is given up. */
  method PurgeDatabase(db: Bucket, now: nat, limit: nat) returns (r: Result<nat>, db': Bucket)
    requires Proper(db) && db.values == map[] && db.lookup == map[]
    ensures r.Ok? <==> forall x :: x in Due(db, now, limit) ==> !Blocked(db, x)
    ensures r.Ok? ==> db' == Without(db, Due(db, now, limit)) && r.value == |Due(db, now, limit)|
    ensures r.Ok? ==> r.value == if |Expired(db, now)| < limit then |Expired(db, now)| else limit
    ensures !r.Ok? ==> db' == db
  {
    hide Before, Leading, Blocked, Without, Expired, ExpiredBelow, Due;
    ghost var gone := {};
    if limit == 0 {
      NothingTaken(db, now);
      r, db' := Ok(0), db;
    } else {
      RootHasNone(db, now);
      r, db', gone := PurgeBelow(db, now, limit);
    }
    LeadingDue(db, now, gone, limit);
    if !r.Ok? {
      db' := db;
    }
  }

  // ---------- what readers see ----------

  ghost function LiveIn(t: Bucket, path: seq<Bytes>, key: Bytes, at: nat): Option<Bytes> {
    if path == [] then Live(Flat(t), t.lookup, key, at)
    else if path[0] in t.kids then LiveIn(t.kids[path[0]], path[1..], key, at) else None
  }

  /** A purge at `now` is invisible from then on, in every bucket. */
  lemma {:induction false} PurgeUnseen(t: Bucket, now: nat, gone: set<Item>, path: seq<Bytes>, key: Bytes, at: nat)
    requires gone <= Expired(t, now) && now <= at
    ensures LiveIn(Without(t, gone), path, key, at) == LiveIn(t, path, key, at)
    decreases |path|
  {
    hide ExpiredBelow;
    if path == [] {
      forall k | k in Here(gone) ensures k in t.lookup && t.lookup[k] <= now {
        InBelow(t, now, Item([], k));
      }
    } else if path[0] in t.kids {
      var n := path[0];
      forall x | x in Below(gone, n) ensures x in Expired(t.kids[n], now) {
        var y :| y in gone && y.path != [] && y.path[0] == n && x == Item(y.path[1..], y.key);
        InBelow(t, now, y);
      }
      PurgeUnseen(t.kids[n], now, Below(gone, n), path[1..], key, at);
    }
  }
}
