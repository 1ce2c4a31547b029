/** Journal records: a change set as bytes, and back. */
module JournalCodec {
  import opened Wrappers
  import opened Bytes


  datatype Operation = Put | Delete | BucketCreate | BucketDelete | Expire
  datatype Change = Change(path: seq<Bytes>, key: Bytes, operation: Operation)
  datatype ChangeSet = ChangeSet(txId: nat, changes: seq<Change>, truncated: bool)

  const MAGIC: Bytes := [73, 83, 74, 82]
  const LIMIT_16 := 0x1_0000
  const LIMIT_32 := 0x1_0000_0000

  function EncodeOperation(op: Operation): byte {
    match op
    case Put => 1
    case Delete => 2
    case BucketCreate => 3
    case BucketDelete => 4
    case Expire => 5
  }

  function DecodeOperation(b: byte): Option<Operation> {
    match b
    case 1 => Some(Put)
    case 2 => Some(Delete)
    case 3 => Some(BucketCreate)
    case 4 => Some(BucketDelete)
    case 5 => Some(Expire)
    case _ => None
  }

  lemma OperationRoundTrip(op: Operation, b: byte)
    ensures DecodeOperation(EncodeOperation(op)) == Some(op)
    ensures DecodeOperation(b).Some? ==> EncodeOperation(DecodeOperation(b).value) == b
  {
  }

  // ---------- the format ----------

  function Field(b: Bytes): Bytes {
    BigEndian(|b|, 4) + b
  }

  function Fields(parts: seq<Bytes>): Bytes {
    if parts == [] then [] else Field(parts[0]) + Fields(parts[1..])
  }

  function OneChange(c: Change): Bytes {
    [EncodeOperation(c.operation)] + (BigEndian(|c.path|, 2) + (Fields(c.path) + Field(c.key)))
  }

  function Changes(cs: seq<Change>): Bytes {
    if cs == [] then [] else OneChange(cs[0]) + Changes(cs[1..])
  }

  /** A record with any byte in the place of the truncation flag. */
  function RecordWith(flag: byte, cs: seq<Change>): Bytes {
    MAGIC + ([flag] + (BigEndian(|cs|, 4) + Changes(cs)))
  }

  function Flag(truncated: bool): byte {
    if truncated then 1 else 0
  }

  function Record(set_: ChangeSet): Bytes {
    RecordWith(Flag(set_.truncated), set_.changes)
  }

  /** Counts and lengths fit their fields. */
  predicate ChangeFits(c: Change) {
    |c.path| < LIMIT_16 && (forall i :: 0 <= i < |c.path| ==> |c.path[i]| < LIMIT_32) && |c.key| < LIMIT_32
  }

  predicate Fits(cs: seq<Change>) {
    |cs| < LIMIT_32 && forall i :: 0 <= i < |cs| ==> ChangeFits(cs[i])
  }

  // ---------- writing ----------

  method PushBytes(out: Bytes, b: Bytes) returns (r: Option<Bytes>)
    ensures r == if |b| < LIMIT_32 then Some(out + Field(b)) else None
  {
    if |b| >= LIMIT_32 {
      return None;
    }
    assert out + Field(b) == out + BigEndian(|b|, 4) + b;
    r := Some(out + BigEndian(|b|, 4) + b);
  }

  lemma {:induction false} FieldsAppend(a: seq<Bytes>, b: Bytes)
    ensures Fields(a + [b]) == Fields(a) + Field(b)
  {
    hide Field;
    if a == [] {
      assert [b][1..] == [];
    } else {
      FieldsAppend(a[1..], b);
      assert (a + [b])[1..] == a[1..] + [b];
    }
  }

  lemma {:induction false} ChangesAppend(a: seq<Change>, c: Change)
    ensures Changes(a + [c]) == Changes(a) + OneChange(c)
  {
    hide OneChange;
    if a == [] {
      assert [c][1..] == [];
    } else {
      ChangesAppend(a[1..], c);
      assert (a + [c])[1..] == a[1..] + [c];
    }
  }

  method PushChange(out: Bytes, c: Change) returns (r: Option<Bytes>)
    ensures r == if ChangeFits(c) then Some(out + OneChange(c)) else None
  {
    hide Field, BigEndian;
    if |c.path| >= LIMIT_16 {
      return None;
    }
    var parts: Bytes := [];
    for i := 0 to |c.path|
      invariant parts == Fields(c.path[..i])
      invariant forall j :: 0 <= j < i ==> |c.path[j]| < LIMIT_32
    {
      assert c.path[..i + 1] == c.path[..i] + [c.path[i]];
      FieldsAppend(c.path[..i], c.path[i]);
      var next := PushBytes(parts, c.path[i]);
      if next.None? {
        return None;
      }
      parts := next.value;
    }
    assert c.path[..|c.path|] == c.path;
    var last := PushBytes(parts, c.key);
    if last.None? {
      return None;
    }
    r := Some(out + ([EncodeOperation(c.operation)] + (BigEndian(|c.path|, 2) + last.value)));
  }

  /** `encode_change_set`: fails exactly when some count or length does not fit. */
  method Encode(set_: ChangeSet) returns (r: Option<Bytes>)
    ensures r == if Fits(set_.changes) then Some(Record(set_)) else None
  {
    hide OneChange, ChangeFits, BigEndian;
    var cs := set_.changes;
    if |cs| >= LIMIT_32 {
      return None;
    }
    var body: Bytes := [];
    for i := 0 to |cs|
      invariant body == Changes(cs[..i])
      invariant forall j :: 0 <= j < i ==> ChangeFits(cs[j])
    {
      assert cs[..i + 1] == cs[..i] + [cs[i]];
      ChangesAppend(cs[..i], cs[i]);
      var next := PushChange(body, cs[i]);
      if next.None? {
        return None;
      }
      body := next.value;
    }
    assert cs[..|cs|] == cs;
    r := Some(MAGIC + ([Flag(set_.truncated)] + (BigEndian(|cs|, 4) + body)));
  }

  // ---------- reading ----------

  /** `Input::take`. */
  function Take(b: Bytes, n: nat): (r: Option<(Bytes, Bytes)>)
    ensures r.Some? <==> n <= |b|
    ensures r.Some? ==> |r.value.0| == n && b == r.value.0 + r.value.1
  {
    if |b| < n then None else Some((b[..n], b[n..]))
  }

  function ParseNumber(b: Bytes, width: nat): Option<(nat, Bytes)> {
    match Take(b, width)
    case None => None
    case Some((n, rest)) => Some((FromBigEndian(n), rest))
  }

  function ParseField(b: Bytes): Option<(Bytes, Bytes)> {
    match ParseNumber(b, 4)
    case None => None
    case Some((n, rest)) => Take(rest, n)
  }

  function ParseFields(b: Bytes, n: nat): Option<(seq<Bytes>, Bytes)>
    decreases n
  {
    if n == 0 then Some(([], b))
    else match ParseField(b)
         case None => None
         case Some((part, rest)) =>
           match ParseFields(rest, n - 1)
           case None => None
           case Some((parts, end)) => Some(([part] + parts, end))
  }

  function ParseChange(b: Bytes): Option<(Change, Bytes)> {
    match Take(b, 1)
    case None => None
    case Some((op, r0)) =>
      match DecodeOperation(op[0])
      case None => None
      case Some(operation) =>
        match ParseNumber(r0, 2)
        case None => None
        case Some((n, r1)) =>
          match ParseFields(r1, n)
          case None => None
          case Some((path, r2)) =>
            match ParseField(r2)
            case None => None
            case Some((key, r3)) => Some((Change(path, key, operation), r3))
  }

  function ParseChanges(b: Bytes, n: nat): Option<(seq<Change>, Bytes)>
    decreases n
  {
    if n == 0 then Some(([], b))
    else match ParseChange(b)
         case None => None
         case Some((c, rest)) =>
           match ParseChanges(rest, n - 1)
           case None => None
           case Some((cs, end)) => Some(([c] + cs, end))
  }

  // ---------- reading undoes writing, and accepts nothing else ----------

  lemma Widths()
    ensures Pow256(2) == LIMIT_16 && Pow256(4) == LIMIT_32
  {
  }

  lemma NumberRoundTrip(n: nat, width: nat, rest: Bytes)
    requires n < Pow256(width)
    ensures ParseNumber(BigEndian(n, width) + rest, width) == Some((n, rest))
  {
    BigEndianRoundTrip(n, width);
    var b := BigEndian(n, width) + rest;
    assert b[..width] == BigEndian(n, width) && b[width..] == rest;
  }

  lemma NumberSound(b: Bytes, width: nat)
    requires ParseNumber(b, width).Some?
    ensures var (n, rest) := ParseNumber(b, width).value; n < Pow256(width) && b == BigEndian(n, width) + rest
  {
    FromBigEndianRoundTrip(b[..width]);
  }

  lemma FieldRoundTrip(v: Bytes, rest: Bytes)
    requires |v| < LIMIT_32
    ensures ParseField(Field(v) + rest) == Some((v, rest))
  {
    hide Pow256;
    Widths();
    NumberRoundTrip(|v|, 4, v + rest);
    assert Field(v) + rest == BigEndian(|v|, 4) + (v + rest);
    assert (v + rest)[..|v|] == v && (v + rest)[|v|..] == rest;
  }

  lemma FieldSound(b: Bytes)
    requires ParseField(b).Some?
    ensures var (v, rest) := ParseField(b).value; |v| < LIMIT_32 && b == Field(v) + rest
  {
    hide Pow256, FromBigEndian, BigEndian;
    Widths();
    NumberSound(b, 4);
    var (n, r) := ParseNumber(b, 4).value;
    var (v, rest) := ParseField(b).value;
    assert BigEndian(n, 4) + (v + rest) == Field(v) + rest;
  }

  lemma {:induction false} FieldsRoundTrip(parts: seq<Bytes>, rest: Bytes)
    requires forall i :: 0 <= i < |parts| ==> |parts[i]| < LIMIT_32
    ensures ParseFields(Fields(parts) + rest, |parts|) == Some((parts, rest))
  {
    hide ParseField, Field;
    if parts == [] {
      assert Fields(parts) + rest == rest;
    } else {
      FieldRoundTrip(parts[0], Fields(parts[1..]) + rest);
      assert Fields(parts) + rest == Field(parts[0]) + (Fields(parts[1..]) + rest);
      FieldsRoundTrip(parts[1..], rest);
      assert parts == [parts[0]] + parts[1..];
    }
  }

  lemma {:induction false} FieldsSound(b: Bytes, n: nat)
    requires ParseFields(b, n).Some?
    ensures var (parts, rest) := ParseFields(b, n).value;
            |parts| == n && (forall i :: 0 <= i < n ==> |parts[i]| < LIMIT_32) && b == Fields(parts) + rest
    decreases n
  {
    hide ParseField, Field;
    if n > 0 {
      FieldSound(b);
      var (part, r) := ParseField(b).value;
      FieldsSound(r, n - 1);
      var (tail, rest) := ParseFields(r, n - 1).value;
      var parts := [part] + tail;
      assert parts[1..] == tail;
      assert Field(part) + (Fields(tail) + rest) == Fields(parts) + rest;
    }
  }

  lemma ChangeRoundTrip(c: Change, rest: Bytes)
    requires ChangeFits(c)
    ensures ParseChange(OneChange(c) + rest) == Some((c, rest))
  {
    hide ParseField, Field, Fields, ParseFields, BigEndian, ParseNumber, Pow256;
    Widths();
    var op := [EncodeOperation(c.operation)];
    var r2 := Field(c.key) + rest;
    var r1 := Fields(c.path) + r2;
    var r0 := BigEndian(|c.path|, 2) + r1;
    assert OneChange(c) + rest == op + r0;
    assert (op + r0)[..1] == op && (op + r0)[1..] == r0;
    OperationRoundTrip(c.operation, 0);
    NumberRoundTrip(|c.path|, 2, r1);
    FieldsRoundTrip(c.path, r2);
    FieldRoundTrip(c.key, rest);
  }

  lemma ChangeSound(b: Bytes)
    requires ParseChange(b).Some?
    ensures var (c, rest) := ParseChange(b).value; ChangeFits(c) && b == OneChange(c) + rest
  {
    hide ParseField, Field, Fields, ParseFields, BigEndian, ParseNumber, Pow256;
    Widths();
    var (op, r0) := Take(b, 1).value;
    OperationRoundTrip(Put, op[0]);
    NumberSound(r0, 2);
    var (n, r1) := ParseNumber(r0, 2).value;
    FieldsSound(r1, n);
    var (path, r2) := ParseFields(r1, n).value;
    FieldSound(r2);
    var (c, rest) := ParseChange(b).value;
    assert op == [EncodeOperation(c.operation)];
    assert b == op + (BigEndian(n, 2) + (Fields(path) + (Field(c.key) + rest)));
    assert OneChange(c) + rest == op + (BigEndian(n, 2) + (Fields(path) + (Field(c.key) + rest)));
  }

  lemma {:induction false} ChangesRoundTrip(cs: seq<Change>, rest: Bytes)
    requires forall i :: 0 <= i < |cs| ==> ChangeFits(cs[i])
    ensures ParseChanges(Changes(cs) + rest, |cs|) == Some((cs, rest))
  {
    hide ParseChange, OneChange, ChangeFits;
    if cs == [] {
      assert Changes(cs) + rest == rest;
    } else {
      ChangeRoundTrip(cs[0], Changes(cs[1..]) + rest);
      assert Changes(cs) + rest == OneChange(cs[0]) + (Changes(cs[1..]) + rest);
      ChangesRoundTrip(cs[1..], rest);
      assert cs == [cs[0]] + cs[1..];
    }
  }

  lemma {:induction false} ChangesSound(b: Bytes, n: nat)
    requires ParseChanges(b, n).Some?
    ensures var (cs, rest) := ParseChanges(b, n).value;
            |cs| == n && (forall i :: 0 <= i < n ==> ChangeFits(cs[i])) && b == Changes(cs) + rest
    decreases n
  {
    hide ParseChange, OneChange, ChangeFits;
    if n > 0 {
      ChangeSound(b);
      var (c, r) := ParseChange(b).value;
      ChangesSound(r, n - 1);
      var (tail, rest) := ParseChanges(r, n - 1).value;
      var cs := [c] + tail;
      assert cs[1..] == tail;
      assert OneChange(c) + (Changes(tail) + rest) == Changes(cs) + rest;
    }
  }

  // ---------- whole records ----------

  method ReadFields(b: Bytes, n: nat) returns (r: Option<(seq<Bytes>, Bytes)>)
    ensures r == ParseFields(b, n)
  {
    hide ParseField;
    var parts: seq<Bytes>, rest := [], b;
    ghost var all := ParseFields(b, n);
    assert all.Some? ==> parts + all.value.0 == all.value.0;
    for i := 0 to n
      invariant ParseFields(b, n) == match ParseFields(rest, n - i)
                                     case None => None
                                     case Some((more, end)) => Some((parts + more, end))
    {
      var next := ParseField(rest);
      if next.None? {
        return None;
      }
      ghost var more := ParseFields(next.value.1, n - i - 1);
      assert more.Some? ==> parts + ([next.value.0] + more.value.0) == (parts + [next.value.0]) + more.value.0;
      parts, rest := parts + [next.value.0], next.value.1;
    }
    assert parts + [] == parts;
    r := Some((parts, rest));
  }

  method ReadChange(b: Bytes) returns (r: Option<(Change, Bytes)>)
    ensures r == ParseChange(b)
  {
    hide ParseField, ParseNumber, ParseFields;
    var op := Take(b, 1);
    if op.None? || DecodeOperation(op.value.0[0]).None? {
      return None;
    }
    var n := ParseNumber(op.value.1, 2);
    if n.None? {
      return None;
    }
    var path := ReadFields(n.value.1, n.value.0);
    if path.None? {
      return None;
    }
    var key := ParseField(path.value.1);
    if key.None? {
      return None;
    }
    r := Some((Change(path.value.0, key.value.0, DecodeOperation(op.value.0[0]).value), key.value.1));
  }

  method ReadChanges(b: Bytes, n: nat) returns (r: Option<(seq<Change>, Bytes)>)
    ensures r == ParseChanges(b, n)
  {
    hide ParseChange;
    var cs: seq<Change>, rest := [], b;
    ghost var all := ParseChanges(b, n);
    assert all.Some? ==> cs + all.value.0 == all.value.0;
    for i := 0 to n
      invariant ParseChanges(b, n) == match ParseChanges(rest, n - i)
                                      case None => None
                                      case Some((more, end)) => Some((cs + more, end))
    {
      var next := ReadChange(rest);
      if next.None? {
        return None;
      }
      ghost var more := ParseChanges(next.value.1, n - i - 1);
      assert more.Some? ==> cs + ([next.value.0] + more.value.0) == (cs + [next.value.0]) + more.value.0;
      cs, rest := cs + [next.value.0], next.value.1;
    }
    assert cs + [] == cs;
    r := Some((cs, rest));
  }

  /** `decode_change_set` accepts exactly well-formed records, with any byte as flag. */
  method Decode(txId: nat, bytes: Bytes) returns (r: Option<ChangeSet>)
    ensures r.Some? ==> r.value.txId == txId && Fits(r.value.changes) && |bytes| > 4
                        && bytes == RecordWith(bytes[4], r.value.changes) && (r.value.truncated <==> bytes[4] != 0)
    ensures r.None? ==> forall flag, cs :: Fits(cs) ==> bytes != RecordWith(flag, cs)
  {
    hide ParseChanges, Changes, ParseNumber, BigEndian, Fits;
    if |bytes| >= 5 && bytes[..4] == MAGIC {
      Tail(bytes);
      var count := ParseNumber(bytes[5..], 4);
      if count.Some? {
        var body := ReadChanges(count.value.1, count.value.0);
        if body.Some? && body.value.1 == [] {
          RecordSound(bytes);
          return Some(ChangeSet(txId, body.value.0, bytes[4] != 0));
        }
      }
    }
    forall flag, cs | Fits(cs) && bytes == RecordWith(flag, cs) ensures false {
      RecordParses(flag, cs);
    }
    r := None;
  }

  ghost predicate Parses(bytes: Bytes, cs: seq<Change>) {
    && |bytes| >= 5 && bytes[..4] == MAGIC && ParseNumber(bytes[5..], 4).Some?
    && var (n, rest) := ParseNumber(bytes[5..], 4).value; ParseChanges(rest, n) == Some((cs, []))
  }

  lemma Tail(bytes: Bytes)
    requires |bytes| >= 5
    ensures bytes == bytes[..4] + ([bytes[4]] + bytes[5..])
  {
  }

  lemma RecordParses(flag: byte, cs: seq<Change>)
    requires Fits(cs)
    ensures Parses(RecordWith(flag, cs), cs) && RecordWith(flag, cs)[4] == flag
  {
    hide BigEndian, Changes, ParseChanges, ParseNumber, Pow256, ChangeFits;
    Widths();
    var b := RecordWith(flag, cs);
    assert b[..4] == MAGIC && b[4] == flag && b[5..] == BigEndian(|cs|, 4) + Changes(cs);
    NumberRoundTrip(|cs|, 4, Changes(cs));
    ChangesRoundTrip(cs, []);
    assert Changes(cs) + [] == Changes(cs);
  }

  lemma RecordSound(bytes: Bytes)
    requires |bytes| >= 5 && bytes[..4] == MAGIC && ParseNumber(bytes[5..], 4).Some?
    requires var (n, rest) := ParseNumber(bytes[5..], 4).value;
             ParseChanges(rest, n).Some? && ParseChanges(rest, n).value.1 == []
    ensures var (n, rest) := ParseNumber(bytes[5..], 4).value;
            var cs := ParseChanges(rest, n).value.0;
            Fits(cs) && bytes == RecordWith(bytes[4], cs)
  {
    hide BigEndian, Changes, ParseChanges, ParseNumber, Pow256, ChangeFits;
    Widths();
    NumberSound(bytes[5..], 4);
    var (n, rest) := ParseNumber(bytes[5..], 4).value;
    ChangesSound(rest, n);
    var cs := ParseChanges(rest, n).value.0;
    assert rest == Changes(cs) + [] == Changes(cs);
    Tail(bytes);
  }

  /** A record reads back as the set it was made from. */
  lemma RecordUnique(flag: byte, cs: seq<Change>, flag': byte, cs': seq<Change>)
    requires Fits(cs) && Fits(cs') && RecordWith(flag, cs) == RecordWith(flag', cs')
    ensures flag == flag' && cs == cs'
  {
    RecordParses(flag, cs);
    RecordParses(flag', cs');
  }

  /** A flag byte of 2 reads as set and is written as 1. */
  lemma FlagRewritten(txId: nat)
    ensures Record(ChangeSet(txId, [], 2 != 0)) == RecordWith(1, []) != RecordWith(2, [])
  {
    Rewrites(2, [], txId);
    Rewrites(1, [], txId);
  }

  /** A set that was read from a record is written as that record exactly if the flag byte
      is one the writer uses. */
  lemma Rewrites(flag: byte, cs: seq<Change>, txId: nat)
    requires Fits(cs)
    ensures Record(ChangeSet(txId, cs, flag != 0)) == RecordWith(flag, cs) <==> flag == 0 || flag == 1
  {
    RecordParses(flag, cs);
    RecordParses(Flag(flag != 0), cs);
  }
}
