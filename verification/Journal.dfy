/** The durable change journal: a bucket of records keyed by transaction id, kept to a
    window of the newest ones, beside a configuration and consumer checkpoints. */
module Journal {
  import opened Wrappers
  import opened Bytes
  import opened JournalCodec
  import F = Freelist

  const CONFIG_KEY: Bytes := [99, 111, 110, 102, 105, 103]
  const TX_PREFIX: byte := 116
  const CHECKPOINT_PREFIX: byte := 99
  /** The consumer name whose checkpoint key is the configuration key. */
  const ONFIG: Bytes := [111, 110, 102, 105, 103]

  // ---------- keys ----------

  function TxKey(id: nat): Bytes {
    [TX_PREFIX] + BigEndian(id, 8)
  }

  function DecodeTxKey(key: Bytes): Option<nat> {
    if |key| == 9 && key[0] == TX_PREFIX then Some(FromBigEndian(key[1..])) else None
  }

  function CheckpointKey(consumer: Bytes): Option<Bytes> {
    if consumer == [] || |consumer| > 255 then None else Some([CHECKPOINT_PREFIX] + consumer)
  }

  /** Transaction keys are exactly the nine-byte keys with the prefix, and sort by id. */
  lemma TxKeys(id: nat, other: nat)
    requires id < TWO_64 && other < TWO_64
    ensures DecodeTxKey(TxKey(id)) == Some(id)
    ensures Lex(TxKey(id), TxKey(other)) <==> id < other
    ensures TxKey(id) == TxKey(other) <==> id == other
  {
    Width8();
    BigEndianRoundTrip(id, 8);
    BigEndianOrder(id, other, 8);
    assert TxKey(id)[1..] == BigEndian(id, 8) && TxKey(other)[1..] == BigEndian(other, 8);
  }

  lemma DecodedTxKey(key: Bytes)
    requires DecodeTxKey(key).Some?
    ensures DecodeTxKey(key).value < TWO_64 && TxKey(DecodeTxKey(key).value) == key
  {
    Width8();
    FromBigEndianRoundTrip(key[1..]);
    assert key == [key[0]] + key[1..];
  }

  /** A checkpoint is never a record; it is the configuration for one consumer only. */
  lemma CheckpointKeys(consumer: Bytes)
    requires CheckpointKey(consumer).Some?
    ensures CheckpointKey(consumer).value == CONFIG_KEY <==> consumer == ONFIG
    ensures DecodeTxKey(CheckpointKey(consumer).value).None?
    ensures DecodeTxKey(CONFIG_KEY).None?
  {
    assert ([CHECKPOINT_PREFIX] + consumer)[1..] == consumer;
    assert CONFIG_KEY[1..] == ONFIG;
  }

  /** The ids of the records in a bucket, in key order. */
  function Ids(bucket: map<Bytes, Bytes>): set<nat> {
    set k | k in bucket && DecodeTxKey(k).Some? :: DecodeTxKey(k).value
  }

  lemma InIds(bucket: map<Bytes, Bytes>, id: nat)
    ensures id in Ids(bucket) <==> id < TWO_64 && TxKey(id) in bucket
  {
    if id in Ids(bucket) {
      var k :| k in bucket && DecodeTxKey(k) == Some(id);
      DecodedTxKey(k);
    }
    if id < TWO_64 {
      TxKeys(id, id);
    }
  }

  // ---------- windows ----------

  /** The records are exactly those of ids lo .. last. */
  ghost predicate Window(bucket: map<Bytes, Bytes>, lo: nat, last: nat) {
    forall id: nat :: id in Ids(bucket) <==> lo <= id <= last
  }

  lemma {:induction false} IntervalInOrder(s: seq<nat>, lo: nat, last: nat, i: nat)
    requires F.Increasing(s) && (forall id: nat :: id in s <==> lo <= id <= last) && i < |s|
    ensures s[i] == lo + i
  {
    if i == 0 {
      assert s[0] in s;
      assert lo in s;
    } else {
      IntervalInOrder(s, lo, last, i - 1);
      assert s[i] in s && s[i] > s[i - 1];
      assert lo + i in s;
      var j :| 0 <= j < |s| && s[j] == lo + i;
      assert j == i;
    }
  }

  lemma IntervalLength(s: seq<nat>, lo: nat, last: nat)
    requires F.Increasing(s) && (forall id: nat :: id in s <==> lo <= id <= last) && lo <= last + 1
    ensures |s| == last + 1 - lo
  {
    if s == [] {
      assert lo !in s;
    } else {
      IntervalInOrder(s, lo, last, |s| - 1);
      assert s[|s| - 1] in s && last in s;
      var j :| 0 <= j < |s| && s[j] == last;
      IntervalInOrder(s, lo, last, j);
    }
  }

  /** Records lo .. last, each as it was committed. */
  ghost predicate Holds(bucket: map<Bytes, Bytes>, lo: nat, last: nat, history: map<nat, ChangeSet>) {
    forall id: nat :: lo <= id <= last ==>
      id in history && history[id].txId == id && Fits(history[id].changes)
      && TxKey(id) in bucket && bucket[TxKey(id)] == Record(history[id])
  }

  lemma OtherKey(bucket: map<Bytes, Bytes>, key: Bytes, value: Bytes, lo: nat, last: nat, history: map<nat, ChangeSet>)
    requires DecodeTxKey(key).None? && last < TWO_64 && Window(bucket, lo, last) && Holds(bucket, lo, last, history)
    ensures Window(bucket[key := value], lo, last) && Holds(bucket[key := value], lo, last, history)
  {
    hide Ids, Record, Fits;
    var b' := bucket[key := value];
    forall id: nat ensures id in Ids(b') <==> lo <= id <= last {
      InIds(bucket, id);
      InIds(b', id);
      if id < TWO_64 {
        TxKeys(id, id);
      }
    }
    forall id: nat | lo <= id <= last ensures TxKey(id) != key {
      TxKeys(id, id);
    }
  }

  lemma AddRecord(bucket: map<Bytes, Bytes>, set_: ChangeSet, lo: nat, last: nat, history: map<nat, ChangeSet>)
    requires set_.txId == last + 1 < TWO_64 && lo <= last + 1 && Fits(set_.changes)
    requires Window(bucket, lo, last) && Holds(bucket, lo, last, history)
    ensures var b' := bucket[TxKey(set_.txId) := Record(set_)];
            Window(b', lo, last + 1) && Holds(b', lo, last + 1, history[set_.txId := set_])
  {
    hide TxKey, Ids, Record, Fits;
    var b' := bucket[TxKey(set_.txId) := Record(set_)];
    forall id: nat ensures id in Ids(b') <==> lo <= id <= last + 1 {
      InIds(bucket, id);
      InIds(b', id);
      if id < TWO_64 {
        TxKeys(id, last + 1);
      }
    }
    forall id: nat | lo <= id <= last ensures TxKey(id) != TxKey(last + 1) {
      TxKeys(id, last + 1);
    }
  }

  lemma DropRecord(bucket: map<Bytes, Bytes>, lo: nat, last: nat, history: map<nat, ChangeSet>)
    requires lo <= last < TWO_64 && Window(bucket, lo, last) && Holds(bucket, lo, last, history)
    ensures TxKey(lo) in bucket
    ensures Window(bucket - {TxKey(lo)}, lo + 1, last) && Holds(bucket - {TxKey(lo)}, lo + 1, last, history)
  {
    hide TxKey, Ids, Record, Fits;
    var b' := bucket - {TxKey(lo)};
    forall id: nat ensures id in Ids(b') <==> lo + 1 <= id <= last {
      InIds(bucket, id);
      InIds(b', id);
      if id < TWO_64 {
        TxKeys(id, lo);
      }
    }
    forall id: nat | lo + 1 <= id <= last ensures TxKey(id) != TxKey(lo) {
      TxKeys(id, lo);
    }
  }

  /** Only records differ. */
  ghost predicate OthersSame(a: map<Bytes, Bytes>, b: map<Bytes, Bytes>) {
    forall k :: DecodeTxKey(k).None? ==> (k in a <==> k in b) && (k in a ==> a[k] == b[k])
  }

  lemma OthersDrop(a: map<Bytes, Bytes>, b: map<Bytes, Bytes>, id: nat)
    requires OthersSame(a, b) && id < TWO_64
    ensures OthersSame(a, b - {TxKey(id)})
  {
    hide TxKey;
    NotOther(id);
  }

  lemma OthersRefl(a: map<Bytes, Bytes>)
    ensures OthersSame(a, a)
  {
  }

  lemma ConfigSame(a: map<Bytes, Bytes>, b: map<Bytes, Bytes>)
    requires OthersSame(a, b)
    ensures (CONFIG_KEY in a <==> CONFIG_KEY in b) && (CONFIG_KEY in a ==> a[CONFIG_KEY] == b[CONFIG_KEY])
  {
    CheckpointKeys(ONFIG);
  }

  // ---------- the journal of one database ----------

  datatype Gap = Gap(requestedAfter: nat, oldestAvailable: nat)
  datatype Replay = Replay(transactions: seq<ChangeSet>, gap: Option<Gap>, oldest: Option<nat>, newest: Option<nat>)

  function Keep(cs: seq<Change>, filter: Change -> bool): seq<Change> {
    if cs == [] then [] else (if filter(cs[0]) then [cs[0]] else []) + Keep(cs[1..], filter)
  }

  function Selected(set_: ChangeSet, filter: Change -> bool): ChangeSet {
    set_.(changes := Keep(set_.changes, filter))
  }

  /** The committed sets of n transactions from `first` on. */
  ghost function Committed(history: map<nat, ChangeSet>, first: nat, n: nat, filter: Change -> bool): seq<ChangeSet>
    requires forall id: nat :: first <= id < first + n ==> id in history
  {
    if n == 0 then [] else Committed(history, first, n - 1, filter) + [Selected(history[first + n - 1], filter)]
  }

  // ---------- what the operations mean ----------

  datatype Op = SetRetention(max: nat) | Position(consumer: Bytes, id: nat) | Commit(changes: seq<Change>,
                             truncated: bool)

  predicate Bounded(op: Op) {
    match op
    case SetRetention(max) => max < TWO_64
    case Position(_, id) => id < TWO_64
    case Commit(_, _) => true
  }

  /** The newest transaction, the oldest retained, the retention, every set committed since the
      journal was enabled. */
  datatype State = State(last: nat, lo: nat, retention: nat, history: map<nat, ChangeSet>)

  ghost function Kept(s: State): int {
    s.last + 1 - s.lo
  }

  /** One committed transaction: its set is added, the oldest records over the retention go. */
  ghost function Committing(s: State, changes: seq<Change>, truncated: bool): State
    requires s.lo <= s.last + 1
  {
    var id := s.last + 1;
    State(id, id + 1 - (if Kept(s) + 1 <= s.retention then Kept(s) + 1 else s.retention), s.retention,
          s.history[id := ChangeSet(id, changes, truncated)])
  }

  /** Setting the retention and storing a position are transactions with no changes of their
      own; one consumer's position is the retention. */
  ghost function StepOn(s: State, op: Op): (s': State)
    requires s.lo <= s.last + 1
    ensures s'.lo <= s'.last + 1
  {
    match op
    case SetRetention(max) => if max == 0 then s else Committing(s.(retention := max), [], false)
    case Position(consumer, id) =>
      if CheckpointKey(consumer).None? then s
      else Committing(if consumer == ONFIG then s.(retention := id) else s, [], false)
    case Commit(changes, truncated) => if Fits(changes) then Committing(s, changes, truncated) else s
  }

  ghost function RunOn(s: State, ops: seq<Op>): (s': State)
    requires s.lo <= s.last + 1
    ensures s'.lo <= s'.last + 1
  {
    if ops == [] then s else StepOn(RunOn(s, ops[..|ops| - 1]), ops[|ops| - 1])
  }

  class Journal {
    var bucket: map<Bytes, Bytes>
    /** The last committed transaction. */
    var last: nat
    /** Every set committed since the journal was enabled, and the oldest one retained. */
    ghost var history: map<nat, ChangeSet>
    ghost var lo: nat

    ghost predicate Valid()
      reads this
    {
      && CONFIG_KEY in bucket && |bucket[CONFIG_KEY]| == 8
      && lo <= last + 1 && last < TWO_64
      && Window(bucket, lo, last) && Holds(bucket, lo, last, history)
      && forall id :: id in history ==> id <= last
    }

    function Retention(): nat
      requires CONFIG_KEY in bucket
      reads `bucket
    {
      FromBigEndian(bucket[CONFIG_KEY])
    }

    ghost function Current(): State
      requires CONFIG_KEY in bucket
      reads this
    {
      State(last, lo, Retention(), history)
    }

    /** `enable_journal` on a database whose last committed transaction is `before`: the
        enabling transaction is the first one recorded. */
    constructor (max: nat, before: nat)
      requires 0 < max < TWO_64 && before + 1 < TWO_64
      ensures Valid()
      ensures Current() == State(before + 1, before + 1, max, map[before + 1 := ChangeSet(before + 1, [], false)])
    {
      bucket := map[CONFIG_KEY := BigEndian(max, 8)];
      last, lo, history := before, before + 1, map[];
      new;
      Width8();
      BigEndianRoundTrip(max, 8);
      CheckpointKeys(ONFIG);
      forall id: nat ensures id !in Ids(bucket) {
      }
      var ok := Persist([], false);
    }

    /** Puts a configuration or a checkpoint. */
    method Put(key: Bytes, n: nat)
      requires Valid() && DecodeTxKey(key).None? && n < TWO_64
      modifies `bucket
      ensures Valid() && bucket == old(bucket)[key := BigEndian(n, 8)]
      ensures Retention() == if key == CONFIG_KEY then n else old(Retention())
    {
      hide Window, Holds, DecodeTxKey;
      Width8();
      BigEndianRoundTrip(n, 8);
      OtherKey(bucket, key, BigEndian(n, 8), lo, last, history);
      bucket := bucket[key := BigEndian(n, 8)];
    }

    /** Changes the retention in a transaction of its own; zero is refused. */
    method Enable(max: nat) returns (ok: bool)
      requires Valid() && max < TWO_64 && last + 1 < TWO_64
      modifies this
      ensures Valid() && (ok <==> max > 0) && Current() == StepOn(old(Current()), SetRetention(max))
      ensures OthersSame(if ok then old(bucket)[CONFIG_KEY := BigEndian(max, 8)] else old(bucket), bucket)
    {
      hide Window, Holds, DecodeTxKey, BigEndian, FromBigEndian, OthersSame;
      ok := max > 0;
      OthersRefl(bucket);
      if ok {
        CheckpointKeys(ONFIG);
        Put(CONFIG_KEY, max);
        var done := Persist([], false);
      }
    }

    /** Stores a consumer's position in a transaction of its own.  It leaves the retention
        alone, except for the one consumer whose key is the configuration's. */
    method Checkpoint(consumer: Bytes, id: nat) returns (ok: bool)
      requires Valid() && id < TWO_64 && last + 1 < TWO_64
      modifies this
      ensures Valid() && (ok <==> CheckpointKey(consumer).Some?)
      ensures Current() == StepOn(old(Current()), Position(consumer, id))
      ensures OthersSame(if ok then old(bucket)[CheckpointKey(consumer).value := BigEndian(id, 8)] else old(bucket),
              bucket)
    {
      hide Window, Holds, DecodeTxKey, BigEndian, FromBigEndian, OthersSame, CheckpointKey;
      var key := CheckpointKey(consumer);
      ok := key.Some?;
      OthersRefl(bucket);
      if ok {
        CheckpointKeys(consumer);
        Put(key.value, id);
        var done := Persist([], false);
      }
    }

    /** `persist`: adds the record of the next transaction, then drops the oldest ones over
        the retention.  The records stay one block that ends with the newest. */
    method Persist(changes: seq<Change>, truncated: bool) returns (ok: bool)
      requires Valid() && last + 1 < TWO_64
      modifies this
      ensures Valid() && (ok <==> Fits(changes)) && Current() == StepOn(old(Current()), Commit(changes, truncated))
      ensures !ok ==> bucket == old(bucket)
      ensures OthersSame(old(bucket), bucket)
    {
      hide Window, Holds, Record, TxKey, DecodeTxKey, BigEndian, FromBigEndian, Fits;
      var set_ := ChangeSet(last + 1, changes, truncated);
      var retention := Retention();
      var record := Encode(set_);
      ok := record.Some?;
      if !ok {
        return;
      }
      AddRecord(bucket, set_, lo, last, history);
      NotOther(set_.txId);
      bucket := bucket[TxKey(set_.txId) := record.value];
      history, last := history[set_.txId := set_], set_.txId;
      Trim(retention);
    }

    /** Records are listed in key order and removed from the front. */
    method Trim(retention: nat)
      requires Valid()
      modifies `bucket, `lo
      ensures Valid() && last + 1 - lo == if old(last + 1 - lo) <= retention then old(last + 1 - lo) else retention
      ensures OthersSame(old(bucket), bucket) && Retention() == old(Retention())
    {
      hide Window, Holds, TxKey, Ids, OthersSame, DecodeTxKey, FromBigEndian;
      var ids: seq<nat> := F.Ascending(Ids(bucket));
      ghost var first := lo;
      OthersRefl(bucket);
      Listed(bucket, lo, last, ids);
      var remove := if |ids| <= retention then 0 else |ids| - retention;
      for i := 0 to remove
        invariant Valid() && lo == first + i
        invariant OthersSame(old(bucket), bucket) && Retention() == old(Retention())
      {
        DropRecord(bucket, lo, last, history);
        OthersDrop(old(bucket), bucket, lo);
        assert OthersSame(bucket, bucket - {TxKey(lo)}) by {
          OthersRefl(bucket);
          OthersDrop(bucket, bucket, lo);
        }
        ConfigSame(bucket, bucket - {TxKey(lo)});
        bucket := bucket - {TxKey(ids[i])};
        lo := lo + 1;
      }
    }

    /** A retained record decodes to the set that was committed. */
    method ReadRecord(id: nat) returns (r: ChangeSet)
      requires Valid() && lo <= id <= last
      ensures id in history && r == history[id]
    {
      hide TxKey, Record, Fits, Window;
      var decoded := Decode(id, bucket[TxKey(id)]);
      ReadsBack(history[id], decoded, bucket[TxKey(id)]);
      r := decoded.value;
    }

    /** Collects from the listed ids those after `after`, up to the limit. */
    method Collect(ids: seq<nat>, after: nat, limit: nat, filter: Change -> bool) returns (transactions: seq<ChangeSet>)
      requires Valid() && |ids| == last + 1 - lo && forall i :: 0 <= i < |ids| ==> ids[i] == lo + i
      ensures Read(history, if after + 1 < lo then lo else after + 1, limit, last + 1, filter, transactions)
    {
      hide Read, Holds, Window, Keep;
      transactions := [];
      ghost var first := if after + 1 < lo then lo else after + 1;
      NoneRead(history, lo, after, limit, filter);
      for i := 0 to |ids|
        invariant Read(history, first, limit, lo + i, filter, transactions) && |transactions| <= limit
      {
        if ids[i] <= after || |transactions| == limit {
          ReadSkips(history, first, limit, lo + i, filter, transactions);
          continue;
        }
        var record := ReadRecord(ids[i]);
        ReadMore(history, first, limit, lo + i, filter, transactions);
        transactions := transactions + [Selected(record, filter)];
      }
    }

    /** `replay_journal`: the retained transactions after `after`, oldest first. */
    method ReplayAfter(after: nat, limit: nat, filter: Change -> bool) returns (r: Replay)
      requires Valid() && after < TWO_64
      ensures r.oldest == (if lo <= last then Some(lo) else None)
              && r.newest == (if lo <= last then Some(last) else None)
      ensures r.gap == if lo <= last && after + 1 < lo then Some(Gap(after, lo)) else None
      ensures var first := if after + 1 < lo then lo else after + 1;
              var n := Count(first, limit, last + 1);
              && (forall id: nat :: first <= id < first + n ==> id in history)
              && r.transactions == Committed(history, first, n, filter)
    {
      hide Ids, Read, Window, Holds, Committed;
      var ids: seq<nat> := F.Ascending(Ids(bucket));
      Listed(bucket, lo, last, ids);
      var oldest := if ids == [] then None else Some(ids[0]);
      var newest := if ids == [] then None else Some(ids[|ids| - 1]);
      var next := if after + 1 < TWO_64 then after + 1 else after;
      var gap := if ids != [] && next < ids[0] then Some(Gap(after, ids[0])) else None;
      var transactions := Collect(ids, after, limit, filter);
      ReadAll(history, if after + 1 < lo then lo else after + 1, limit, last + 1, filter, transactions);
      r := Replay(transactions, gap, oldest, newest);
    }
  }

  /** How many of the ids first .. end are returned under a limit. */
  function Count(first: nat, limit: nat, end: nat): nat {
    if end <= first then 0 else if end - first <= limit then end - first else limit
  }

  /** What has been collected when the scan stands before `end`. */
  ghost predicate Read(history: map<nat, ChangeSet>, first: nat, limit: nat, end: nat, filter: Change -> bool,
                       out: seq<ChangeSet>) {
    && |out| == Count(first, limit, end)
    && (forall id: nat :: first <= id < first + |out| ==> id in history)
    && out == Committed(history, first, |out|, filter)
  }

  lemma NoneRead(history: map<nat, ChangeSet>, lo: nat, after: nat, limit: nat, filter: Change -> bool)
    ensures Read(history, if after + 1 < lo then lo else after + 1, limit, lo, filter, [])
  {
  }

  lemma ReadSkips(history: map<nat, ChangeSet>, first: nat, limit: nat, end: nat, filter: Change -> bool,
                  out: seq<ChangeSet>)
    requires Read(history, first, limit, end, filter, out) && (end < first || |out| == limit)
    ensures Read(history, first, limit, end + 1, filter, out)
  {
  }

  lemma ReadMore(history: map<nat, ChangeSet>, first: nat, limit: nat, end: nat, filter: Change -> bool,
                 out: seq<ChangeSet>)
    requires Read(history, first, limit, end, filter, out) && first <= end && |out| < limit && end in history
    ensures Read(history, first, limit, end + 1, filter, out + [Selected(history[end], filter)])
  {
    assert first + |out| == end;
  }

  lemma ReadAll(history: map<nat, ChangeSet>, first: nat, limit: nat, end: nat, filter: Change -> bool,
                out: seq<ChangeSet>)
    requires Read(history, first, limit, end, filter, out)
    ensures var n := Count(first, limit, end);
            (forall id: nat :: first <= id < first + n ==> id in history) && out == Committed(history, first, n, filter)
  {
  }

  lemma Listed(bucket: map<Bytes, Bytes>, lo: nat, last: nat, ids: seq<nat>)
    requires Window(bucket, lo, last) && lo <= last + 1 && ids == F.Ascending(Ids(bucket))
    ensures |ids| == last + 1 - lo && forall i :: 0 <= i < |ids| ==> ids[i] == lo + i
  {
    IntervalLength(ids, lo, last);
    forall i | 0 <= i < |ids| ensures ids[i] == lo + i {
      IntervalInOrder(ids, lo, last, i);
    }
  }

  lemma NotOther(id: nat)
    requires id < TWO_64
    ensures DecodeTxKey(TxKey(id)) == Some(id) && TxKey(id) != CONFIG_KEY
  {
    TxKeys(id, id);
    CheckpointKeys(ONFIG);
  }

  /** What was encoded is what is decoded. */
  lemma ReadsBack(set_: ChangeSet, decoded: Option<ChangeSet>, bytes: Bytes)
    requires Fits(set_.changes) && bytes == Record(set_)
    requires decoded.Some? ==> decoded.value.txId == set_.txId && Fits(decoded.value.changes) && |bytes| > 4
                               && bytes == RecordWith(bytes[4], decoded.value.changes)
                                   && (decoded.value.truncated <==> bytes[4] != 0)
    requires decoded.None? ==> forall flag, cs :: Fits(cs) ==> bytes != RecordWith(flag, cs)
    ensures decoded == Some(set_)
  {
    if decoded.Some? {
      RecordUnique(Flag(set_.truncated), set_.changes, bytes[4], decoded.value.changes);
    }
  }

  // ---------- runs ----------

  /** `enable_journal` where there was no journal: a retention of zero is refused. */
  method Start(max: nat, before: nat) returns (j: Option<Journal>)
    requires max < TWO_64 && before + 1 < TWO_64
    ensures j.Some? <==> max > 0
    ensures j.Some? ==>
              && fresh(j.value) && j.value.Valid()
              && j.value.Current() ==
                 State(before + 1, before + 1, max, map[before + 1 := ChangeSet(before + 1, [], false)])
  {
    if max == 0 {
      return None;
    }
    var started := new Journal(max, before);
    j := Some(started);
  }

  /** Any run of operations leaves what they mean. */
  method Run(j: Journal, ops: seq<Op>)
    requires j.Valid() && j.last + |ops| < TWO_64 && forall i :: 0 <= i < |ops| ==> Bounded(ops[i])
    modifies j
    ensures j.Valid() && j.Current() == RunOn(old(j.Current()), ops)
  {
    hide Window, Holds, StepOn;
    for i := 0 to |ops|
      invariant j.Valid() && j.Current() == RunOn(old(j.Current()), ops[..i])
      invariant j.last + (|ops| - i) < TWO_64
    {
      assert ops[..i + 1][..i] == ops[..i];
      LastGrows(j.Current(), ops[i]);
      var ok;
      match ops[i] {
        case SetRetention(max) => ok := j.Enable(max);
        case Position(consumer, id) => ok := j.Checkpoint(consumer, id);
        case Commit(changes, truncated) => ok := j.Persist(changes, truncated);
      }
    }
    assert ops[..|ops|] == ops;
  }

  lemma LastGrows(s: State, op: Op)
    requires s.lo <= s.last + 1
    ensures s.last <= StepOn(s, op).last <= s.last + 1
  {
  }

  /** Whether an operation is a committed transaction; the others are refused. */
  predicate Commits(op: Op) {
    match op
    case SetRetention(max) => max > 0
    case Position(consumer, _) => CheckpointKey(consumer).Some?
    case Commit(changes, _) => Fits(changes)
  }

  /** Whether an operation sets the retention. */
  predicate Setting(op: Op) {
    (op.SetRetention? && op.max > 0) || (op.Position? && op.consumer == ONFIG)
  }

  /** The sets a run commits, oldest first. */
  ghost function Sets(last: nat, ops: seq<Op>): seq<ChangeSet> {
    if ops == [] then []
    else
      var sets, op := Sets(last, ops[..|ops| - 1]), ops[|ops| - 1];
      if !Commits(op) then sets
      else sets + [ChangeSet(last + |sets| + 1, if op.Commit? then op.changes else [], op.Commit? && op.truncated)]
  }

  /** The history of a run is what came before and the sets it commits, under consecutive ids. */
  lemma {:induction false} HistoryOfRun(s: State, ops: seq<Op>)
    requires s.lo <= s.last + 1 && forall id :: id in s.history ==> id <= s.last
    ensures var s', sets := RunOn(s, ops), Sets(s.last, ops);
            && s'.last == s.last + |sets|
            && (forall id: nat :: id in s'.history <==> id in s.history || s.last < id <= s'.last)
            && (forall id :: id in s.history ==> s'.history[id] == s.history[id])
            && forall i: nat :: i < |sets| ==> sets[i].txId == s.last + 1 + i && s'.history[s.last + 1 + i] == sets[i]
    decreases |ops|
  {
    hide StepOn, Commits;
    if ops != [] {
      HistoryOfRun(s, ops[..|ops| - 1]);
      StepKept(RunOn(s, ops[..|ops| - 1]), ops[|ops| - 1]);
    }
  }

  /** The retention a run ends with. */
  ghost function InForce(r: nat, ops: seq<Op>): nat {
    if ops == [] then r
    else
      var op := ops[|ops| - 1];
      if !Setting(op) then InForce(r, ops[..|ops| - 1]) else if op.SetRetention? then op.max else op.id
  }

  /** The retention at each commit of a run. */
  ghost function Caps(r: nat, ops: seq<Op>): seq<nat> {
    if ops == [] then []
    else Caps(r, ops[..|ops| - 1]) + if Commits(ops[|ops| - 1]) then [InForce(r, ops)] else []
  }

  /** k is the least of k0 and all of a run's commits, and, for each commit, its retention and
      the commits after it. */
  ghost predicate LeastOf(k: int, k0: int, caps: seq<nat>) {
    && k <= k0 + |caps|
    && (forall i :: 0 <= i < |caps| ==> k <= caps[i] + (|caps| - 1 - i))
    && (k == k0 + |caps| || exists i :: 0 <= i < |caps| && k == caps[i] + (|caps| - 1 - i))
  }

  lemma LeastMore(k: int, k0: int, caps: seq<nat>, r: nat)
    requires LeastOf(k, k0, caps)
    ensures LeastOf(if k + 1 <= r then k + 1 else r, k0, caps + [r])
  {
    var k', caps', n := if k + 1 <= r then k + 1 else r, caps + [r], |caps|;
    if k' == r {
      assert k' == caps'[n] + (n - n);
    } else if k != k0 + n {
      var i :| 0 <= i < n && k == caps[i] + (n - 1 - i);
      assert k' == caps'[i] + (n - i);
    }
  }

  /** How many transactions are retained: as many as were, and the run's, but at every commit no
      more than its retention and whatever was committed later. */
  lemma {:induction false} KeptOfRun(s: State, ops: seq<Op>)
    requires s.lo <= s.last + 1
    ensures RunOn(s, ops).retention == InForce(s.retention, ops)
    ensures LeastOf(Kept(RunOn(s, ops)), Kept(s), Caps(s.retention, ops))
    decreases |ops|
  {
    hide LeastOf, StepOn;
    if ops == [] {
      LeastNone(Kept(s));
    } else {
      var before, op := ops[..|ops| - 1], ops[|ops| - 1];
      KeptOfRun(s, before);
      StepKept(RunOn(s, before), op);
      if Commits(op) {
        LeastMore(Kept(RunOn(s, before)), Kept(s), Caps(s.retention, before), InForce(s.retention, ops));
      } else {
        assert Caps(s.retention, ops) == Caps(s.retention, before);
      }
    }
  }

  lemma LeastNone(k: int)
    ensures LeastOf(k, k, [])
  {
  }

  lemma StepKept(s: State, op: Op)
    requires s.lo <= s.last + 1
    ensures var s' := StepOn(s, op);
            && s'.retention == (if !Setting(op) then s.retention else if op.SetRetention? then op.max else op.id)
            && Kept(s') == (if !Commits(op) then Kept(s)
                            else if Kept(s) + 1 <= s'.retention then Kept(s) + 1 else s'.retention)
            && s'.last == s.last + (if Commits(op) then 1 else 0)
            && s'.history == if !Commits(op) then s.history
                             else s.history[s'.last := ChangeSet(s'.last, if op.Commit? then op.changes else [],
                                                                 op.Commit? && op.truncated)]
  {
    OnfigCommits();
  }

  lemma OnfigCommits()
    ensures CheckpointKey(ONFIG).Some?
  {
  }

  /** The last operation to set the retention is position 0 of the colliding consumer. */
  ghost predicate EndsWithZero(ops: seq<Op>) {
    exists i :: 0 <= i < |ops| && ops[i] == Position(ONFIG, 0) && forall k :: i < k < |ops| ==> !Setting(ops[k])
  }

  lemma EndsWithZeroStep(ops: seq<Op>)
    requires ops != []
    ensures var before, op := ops[..|ops| - 1], ops[|ops| - 1];
            EndsWithZero(ops) <==> op == Position(ONFIG, 0) || (!Setting(op) && EndsWithZero(before))
  {
    var before, op := ops[..|ops| - 1], ops[|ops| - 1];
    if EndsWithZero(ops) && op != Position(ONFIG, 0) {
      var i :| 0 <= i < |ops| && ops[i] == Position(ONFIG, 0) && forall k :: i < k < |ops| ==> !Setting(ops[k]);
      assert before[i] == Position(ONFIG, 0);
    }
    if op == Position(ONFIG, 0) {
      assert ops[|ops| - 1] == Position(ONFIG, 0);
    } else if !Setting(op) && EndsWithZero(before) {
      var i :| 0 <= i < |before| && before[i] == Position(ONFIG, 0)
          && forall k :: i < k < |before| ==> !Setting(before[k]);
      assert ops[i] == Position(ONFIG, 0);
      forall k | i < k < |ops| ensures !Setting(ops[k]) {
        assert k < |before| ==> ops[k] == before[k];
      }
    }
  }

  /** A journal that retained something retains nothing exactly if the retention was last set
      by that one position. */
  lemma {:induction false} NothingRetained(s: State, ops: seq<Op>)
    requires s.lo <= s.last && s.retention > 0
    ensures Kept(RunOn(s, ops)) == 0 <==> EndsWithZero(ops)
    ensures RunOn(s, ops).retention == 0 <==> EndsWithZero(ops)
    decreases |ops|
  {
    hide StepOn, EndsWithZero;
    if ops == [] {
      NoneEmpty();
    } else {
      var s1, op := RunOn(s, ops[..|ops| - 1]), ops[|ops| - 1];
      NothingRetained(s, ops[..|ops| - 1]);
      StepKept(s1, op);
      EndsWithZeroStep(ops);
      assert Setting(op) ==> Commits(op) by {
        OnfigCommits();
      }
      assert Kept(s1) >= 0 && RunOn(s, ops) == StepOn(s1, op);
    }
  }

  lemma NoneEmpty()
    ensures !EndsWithZero([])
  {
  }

  /** A transaction after the requested one is gone and a replay reports no gap. */
  ghost predicate LostSilently(s: State, after: nat) {
    (exists id: nat :: Gone(s, after, id)) && !(s.lo <= s.last && after + 1 < s.lo)
  }

  ghost predicate Gone(s: State, after: nat, id: nat) {
    after < id <= s.last && id < s.lo
  }

  /** After any run, a consumer that is behind loses transactions without being told exactly
      if the last operation to set the retention was position 0 of the colliding consumer. */
  lemma SilentLoss(s: State, ops: seq<Op>, after: nat)
    requires s.lo <= s.last && s.retention > 0 && after < RunOn(s, ops).last
    ensures LostSilently(RunOn(s, ops), after) <==> EndsWithZero(ops)
  {
    hide EndsWithZero, RunOn;
    NothingRetained(s, ops);
    var s' := RunOn(s, ops);
    if Kept(s') == 0 {
      assert Gone(s', after, s'.last);
    }
  }

  /** One such position: every transaction is forgotten, and a replay then reports neither
      records nor a gap. */
  method Forgets(j: Journal, after: nat, limit: nat) returns (r: Replay)
    requires j.Valid() && j.last + 1 < TWO_64 && after < TWO_64
    modifies j
    ensures r == Replay([], None, None, None) && j.last == old(j.last) + 1 && j.last in j.history
  {
    hide Window, Holds;
    var ok := j.Checkpoint(ONFIG, 0);
    r := j.ReplayAfter(after, limit, _ => true);
  }
}
