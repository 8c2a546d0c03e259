/**
 The owner-scoped store of opaque encrypted records (native/src/records.rs): a map of maps that
 behaves as one flat map keyed by owner and record.
 */
module RecordStore {
  import opened Common
  import opened StringOrder

  const MAX_IDENTIFIER_BYTES: nat := 512
  const MAX_CIPHERTEXT_BYTES: nat := 1024 * 1024

  type Owner = string
  type RecordId = string

  datatype StoreError = InvalidOwner | InvalidRecordId | InvalidRevision | EmptyCiphertext | CiphertextTooLarge

  datatype EncryptedRecord = EncryptedRecord(recordId: RecordId, ciphertext: seq<bv8>, revision: nat)

  // ---------------------------------------------------------------- validation

  function Utf8Bytes(s: string): nat {
    if s == [] then 0
    else
      (if s[0] < 0x80 as char then 1
       else if s[0] < 0x800 as char then 2
       else if s[0] < 0x1_0000 as char then 3
       else 4) + Utf8Bytes(s[1..])
  }

  /** The UTF-8 encoding, section 3 of RFC 3629. */
  function Utf8(c: char): seq<Byte> {
    var n := c as int;
    if n < 128 then [n]
    else if n < 2048 then [192 + n / 64, 128 + n % 64]
    else if n < 65536 then [224 + n / 4096, 128 + n / 64 % 64, 128 + n % 64]
    else [240 + n / 262144, 128 + n / 4096 % 64, 128 + n / 64 % 64, 128 + n % 64]
  }

  function Encoded(s: string): seq<Byte> {
    if s == [] then [] else Utf8(s[0]) + Encoded(s[1..])
  }

  /** The limit on identifiers counts the bytes of their encoding. */
  lemma {:induction false} Utf8BytesExact(s: string)
    ensures Utf8Bytes(s) == |Encoded(s)|
    decreases |s|
  {
    if s != [] { Utf8BytesExact(s[1..]); }
  }

  /** The `White_Space` property of Unicode. */
  predicate Whitespace(c: char) {
    var n := c as int;
    9 <= n <= 13 || n in {0x20, 0x85, 0xa0, 0x1680, 0x2028, 0x2029, 0x202f, 0x205f, 0x3000} || 0x2000 <= n <= 0x200a
  }

  predicate Control(c: char) {
    var n := c as int;
    n < 0x20 || 0x7f <= n < 0xa0
  }

  predicate ValidIdentifier(s: string) {
    s != [] && Utf8Bytes(s) <= MAX_IDENTIFIER_BYTES
    && !Whitespace(s[0]) && !Whitespace(s[|s| - 1])
    && forall i | 0 <= i < |s| :: !Control(s[i])
  }

  predicate ValidRecord(r: EncryptedRecord) {
    ValidIdentifier(r.recordId) && 0 < |r.ciphertext| <= MAX_CIPHERTEXT_BYTES && r.revision > 0
  }

  /** What an identifier may be, character by character. */
  lemma IdentifierExact(s: string)
    ensures ValidIdentifier(s) <==>
              && 1 <= |Encoded(s)| <= 512
              && (forall i | 0 <= i < |s| :: !ControlCode(s[i] as int))
              && !White(s[0]) && !White(s[|s| - 1])
  {
    Utf8BytesExact(s);
    assert s != [] ==> |Encoded(s)| >= 1;
    forall i | 0 <= i < |s| ensures Control(s[i]) <==> ControlCode(s[i] as int) {}
  }

  /** The first 32 codes of each half of the first 256, and 127. */
  predicate ControlCode(n: int) {
    (n < 256 && n % 128 < 32) || n == 127
  }

  /** The 25 code points with the `White_Space` property. */
  predicate White(c: char) {
    c as int in {9, 10, 11, 12, 13, 32, 133, 160, 5760, 8192, 8193, 8194, 8195, 8196, 8197, 8198, 8199, 8200, 8201,
                 8202, 8232, 8233, 8239, 8287, 12288}
  }

  // ---------------------------------------------------------------- the flat map

  type Nested = map<Owner, map<RecordId, EncryptedRecord>>
  type Flat = map<(Owner, RecordId), EncryptedRecord>

  predicate Has(m: Nested, o: Owner, r: RecordId) {
    o in m && r in m[o]
  }

  /** The flat map a nested one stands for. */
  ghost predicate Represents(m: Nested, f: Flat) {
    forall o, r :: AgreeAt(m, f, o, r)
  }

  predicate AgreeAt(m: Nested, f: Flat, o: Owner, r: RecordId) {
    ((o, r) in f <==> Has(m, o, r)) && (Has(m, o, r) ==> f[(o, r)] == m[o][r])
  }

  /** No owner keeps an empty map, and every record is valid and stored under its own id. */
  predicate Tidy(m: Nested) {
    forall o | o in m :: TidyOwner(o, m[o])
  }

  datatype Op =
    | Put(owner: Owner, id: RecordId, ciphertext: seq<bv8>, revision: nat)
    | Delete(owner: Owner, id: RecordId)

  /** Why an operation is refused, in the order of the checks. */
  function Refusal(op: Op): Option<StoreError> {
    if !ValidIdentifier(op.owner) then Some(InvalidOwner)
    else if !ValidIdentifier(op.id) then Some(InvalidRecordId)
    else if op.Put? && op.ciphertext == [] then Some(EmptyCiphertext)
    else if op.Put? && |op.ciphertext| > MAX_CIPHERTEXT_BYTES then Some(CiphertextTooLarge)
    else if op.Put? && op.revision == 0 then Some(InvalidRevision)
    else None
  }

  function NestedAfter(m: Nested, op: Op): Nested {
    if Refusal(op).Some? then m
    else match op
         case Put(o, r, ciphertext, revision) =>
           m[o := (if o in m then m[o] else map[])[r := EncryptedRecord(r, ciphertext, revision)]]
         case Delete(o, r) =>
           if o !in m then m
           else if m[o] - {r} == map[] then m - {o} else m[o := m[o] - {r}]
  }

  /** The reference: one entry set, one entry removed, nothing else touched. */
  function FlatAfter(f: Flat, op: Op): Flat {
    if Refusal(op).Some? then f
    else match op
         case Put(o, r, ciphertext, revision) => f[(o, r) := EncryptedRecord(r, ciphertext, revision)]
         case Delete(o, r) => f - {(o, r)}
  }

  function NestedRun(m: Nested, ops: seq<Op>): Nested
    decreases |ops|
  {
    if ops == [] then m else NestedRun(NestedAfter(m, ops[0]), ops[1..])
  }

  function FlatRun(f: Flat, ops: seq<Op>): Flat
    decreases |ops|
  {
    if ops == [] then f else FlatRun(FlatAfter(f, ops[0]), ops[1..])
  }

  lemma StepAgrees(m: Nested, f: Flat, op: Op, o: Owner, r: RecordId)
    requires AgreeAt(m, f, o, r)
    ensures AgreeAt(NestedAfter(m, op), FlatAfter(f, op), o, r)
  {
    if op.Delete? && op.owner in m && o == op.owner {
      var left := m[o] - {op.id};
      assert r in left <==> r in m[o] && r != op.id;
    }
  }

  predicate TidyOwner(o: Owner, records: map<RecordId, EncryptedRecord>) {
    ValidIdentifier(o) && records != map[]
    && forall r | r in records :: records[r].recordId == r && ValidRecord(records[r])
  }

  lemma TidyInsert(o: Owner, records: map<RecordId, EncryptedRecord>, r: EncryptedRecord)
    requires ValidIdentifier(o) && ValidRecord(r) && (records == map[] || TidyOwner(o, records))
    ensures TidyOwner(o, records[r.recordId := r])
  {
    assert r.recordId in records[r.recordId := r];
  }

  lemma StepKeepsTidy(m: Nested, op: Op)
    requires Tidy(m)
    ensures Tidy(NestedAfter(m, op))
  {
    var m' := NestedAfter(m, op);
    forall o | o in m' ensures TidyOwner(o, m'[o]) {
      var records := if o in m then m[o] else map[];
      if o in m { assert TidyOwner(o, m[o]); }
      if Refusal(op).None? && op.Put? && o == op.owner {
        TidyInsert(o, records, EncryptedRecord(op.id, op.ciphertext, op.revision));
      }
    }
  }

  /** Every sequence of operations on the nested store is that sequence on the flat map. */
  lemma {:induction false} StoreIsFlatMap(m: Nested, f: Flat, ops: seq<Op>)
    requires Tidy(m) && Represents(m, f)
    ensures Tidy(NestedRun(m, ops)) && Represents(NestedRun(m, ops), FlatRun(f, ops))
    decreases |ops|
  {
    if ops != [] {
      StepKeepsTidy(m, ops[0]);
      forall o, r ensures AgreeAt(NestedAfter(m, ops[0]), FlatAfter(f, ops[0]), o, r) {
        StepAgrees(m, f, ops[0], o, r);
      }
      StoreIsFlatMap(NestedAfter(m, ops[0]), FlatAfter(f, ops[0]), ops[1..]);
    }
  }

  /** A put is read back, whatever came before it, if and only if owner and record are named
      properly, the ciphertext has 1 to 1048576 bytes and the revision is positive; otherwise it
      changes nothing. A delete removes its record and no other. */
  lemma OperationOutcome(ops: seq<Op>, op: Op, o: Owner, r: RecordId)
    ensures var m := NestedRun(map[], ops);
            var m' := NestedAfter(m, op);
            var named := ValidIdentifier(op.owner) && ValidIdentifier(op.id);
            if (o, r) != (op.owner, op.id) then
              (Has(m', o, r) <==> Has(m, o, r)) && (Has(m, o, r) ==> m'[o][r] == m[o][r])
            else if op.Put? && named && 1 <= |op.ciphertext| <= 1_048_576 && op.revision >= 1 then
              Has(m', o, r) && m'[o][r] == EncryptedRecord(r, op.ciphertext, op.revision)
            else if op.Delete? && named then !Has(m', o, r)
            else m' == m
  {
    var m, f := NestedRun(map[], ops), FlatRun(map[], ops);
    StoreIsFlatMap(map[], map[], ops);
    assert AgreeAt(m, f, o, r);
    StepAgrees(m, f, op, o, r);
  }

  /** In every run, all that is stored is named properly and within the limits. */
  lemma StoredIsWithinLimits(ops: seq<Op>, o: Owner, r: RecordId)
    requires Has(NestedRun(map[], ops), o, r)
    ensures var x := NestedRun(map[], ops)[o][r];
            && ValidIdentifier(o) && ValidIdentifier(r) && x.recordId == r
            && 1 <= |x.ciphertext| <= 1_048_576 && x.revision >= 1
  {
    StoreIsFlatMap(map[], map[], ops);
    assert TidyOwner(o, NestedRun(map[], ops)[o]);
  }

  /** What other owners do leaves an owner's records alone. */
  lemma {:induction false} OwnersAreIsolated(m: Nested, ops: seq<Op>, owner: Owner)
    requires forall op | op in ops :: op.owner != owner
    ensures owner in NestedRun(m, ops) <==> owner in m
    ensures owner in m ==> NestedRun(m, ops)[owner] == m[owner]
    decreases |ops|
  {
    if ops != [] {
      assert ops[0] in ops;
      OwnersAreIsolated(NestedAfter(m, ops[0]), ops[1..], owner);
    }
  }

  // ---------------------------------------------------------------- listing order

  predicate Ascending(rs: seq<EncryptedRecord>) {
    forall i, j | 0 <= i < j < |rs| :: Below(rs[i].recordId, rs[j].recordId)
  }

  /** `i` is the place of `r` in `rs`. */
  predicate Place(rs: seq<EncryptedRecord>, r: EncryptedRecord, i: nat) {
    i <= |rs|
    && (forall j | 0 <= j < i :: Below(rs[j].recordId, r.recordId))
    && (forall j | i <= j < |rs| :: Below(r.recordId, rs[j].recordId))
  }

  lemma SplicedAt(rs: seq<EncryptedRecord>, r: EncryptedRecord, i: nat)
    requires i <= |rs|
    ensures forall k | 0 <= k <= |rs| ::
              (rs[..i] + [r] + rs[i..])[k] == if k < i then rs[k] else if k == i then r else rs[k - 1]
  {
  }

  lemma SplicedIsAscending(rs: seq<EncryptedRecord>, r: EncryptedRecord, i: nat)
    requires Ascending(rs) && Place(rs, r, i)
    ensures Ascending(rs[..i] + [r] + rs[i..])
  {
    SplicedAt(rs, r, i);
  }

  lemma SplicedHas(rs: seq<EncryptedRecord>, r: EncryptedRecord, i: nat)
    requires i <= |rs|
    ensures forall x :: x in rs[..i] + [r] + rs[i..] <==> x == r || x in rs
  {
    assert rs == rs[..i] + rs[i..];
  }

  /** One record put in its place. */
  method InsertSorted(rs: seq<EncryptedRecord>, r: EncryptedRecord) returns (out: seq<EncryptedRecord>)
    requires Ascending(rs) && forall i | 0 <= i < |rs| :: rs[i].recordId != r.recordId
    ensures Ascending(out)
    ensures forall x :: x in out <==> x == r || x in rs
  {
    var i := 0;
    while i < |rs| && Below(rs[i].recordId, r.recordId)
      invariant 0 <= i <= |rs|
      invariant forall j | 0 <= j < i :: Below(rs[j].recordId, r.recordId)
    {
      i := i + 1;
    }
    if i < |rs| {
      BelowIsTotal(rs[i].recordId, r.recordId);
      forall j | i < j < |rs| ensures Below(r.recordId, rs[j].recordId) {
        BelowIsTransitive(r.recordId, rs[i].recordId, rs[j].recordId);
      }
    }
    out := rs[..i] + [r] + rs[i..];
    SplicedIsAscending(rs, r, i);
    SplicedHas(rs, r, i);
  }

  // ---------------------------------------------------------------- the store

  class MemoryStore {
    var recordsByOwner: Nested

    constructor ()
      ensures recordsByOwner == map[]
    {
      recordsByOwner := map[];
    }

    method PutRecord(owner: Owner, id: RecordId, ciphertext: seq<bv8>, revision: nat)
      returns (error: Option<StoreError>)
      modifies this
      ensures recordsByOwner == NestedAfter(old(recordsByOwner), Put(owner, id, ciphertext, revision))
      ensures error == Refusal(Put(owner, id, ciphertext, revision))
    {
      if !ValidIdentifier(owner) { return Some(InvalidOwner); }
      if !ValidIdentifier(id) { return Some(InvalidRecordId); }
      if ciphertext == [] { return Some(EmptyCiphertext); }
      if |ciphertext| > MAX_CIPHERTEXT_BYTES { return Some(CiphertextTooLarge); }
      if revision == 0 { return Some(InvalidRevision); }
      var records := if owner in recordsByOwner then recordsByOwner[owner] else map[];
      recordsByOwner := recordsByOwner[owner := records[id := EncryptedRecord(id, ciphertext, revision)]];
      error := None;
    }

    method Get(owner: Owner, id: RecordId) returns (found: Result<Option<EncryptedRecord>, StoreError>)
      ensures found.Err? <==> !ValidIdentifier(owner) || !ValidIdentifier(id)
      ensures found.Err? ==> found.error == if !ValidIdentifier(owner) then InvalidOwner else InvalidRecordId
      ensures found.Ok? ==> (found.value.Some? <==> Has(recordsByOwner, owner, id))
      ensures found.Ok? && found.value.Some? ==> found.value.value == recordsByOwner[owner][id]
    {
      if !ValidIdentifier(owner) { return Err(InvalidOwner); }
      if !ValidIdentifier(id) { return Err(InvalidRecordId); }
      if owner !in recordsByOwner || id !in recordsByOwner[owner] { return Ok(None); }
      found := Ok(Some(recordsByOwner[owner][id]));
    }

    /** The owner's records and no others, each once, in ascending order of their ids. */
    method List(owner: Owner) returns (listed: Result<seq<EncryptedRecord>, StoreError>)
      requires Tidy(recordsByOwner)
      ensures listed.Err? <==> !ValidIdentifier(owner)
      ensures listed.Err? ==> listed.error == InvalidOwner
      ensures listed.Ok? ==> Ascending(listed.value)
      ensures listed.Ok? ==>
                forall x :: x in listed.value <==>
                  Has(recordsByOwner, owner, x.recordId) && recordsByOwner[owner][x.recordId] == x
    {
      if !ValidIdentifier(owner) { return Err(InvalidOwner); }
      var records := if owner in recordsByOwner then recordsByOwner[owner] else map[];
      var pending := records.Keys;
      var sorted := [];
      while pending != {}
        invariant pending <= records.Keys && Ascending(sorted)
        invariant forall x :: x in sorted <==>
                    x.recordId in records && x.recordId !in pending && records[x.recordId] == x
        decreases pending
      {
        var id :| id in pending;
        assert TidyOwner(owner, records) && records[id].recordId == id;
        assert forall i | 0 <= i < |sorted| :: sorted[i] in sorted;
        sorted := InsertSorted(sorted, records[id]);
        pending := pending - {id};
      }
      listed := Ok(sorted);
    }

    method DeleteRecord(owner: Owner, id: RecordId) returns (removed: Result<bool, StoreError>)
      modifies this
      ensures recordsByOwner == NestedAfter(old(recordsByOwner), Delete(owner, id))
      ensures removed == if Refusal(Delete(owner, id)).Some? then Err(Refusal(Delete(owner, id)).value)
                         else Ok(Has(old(recordsByOwner), owner, id))
    {
      if !ValidIdentifier(owner) { return Err(InvalidOwner); }
      if !ValidIdentifier(id) { return Err(InvalidRecordId); }
      if owner !in recordsByOwner { return Ok(false); }
      removed := Ok(id in recordsByOwner[owner]);
      var records := recordsByOwner[owner] - {id};
      recordsByOwner := if records == map[] then recordsByOwner - {owner} else recordsByOwner[owner := records];
    }
  }
}
