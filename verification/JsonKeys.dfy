/**
 Normalisation of JSON keys (src/util.rs): the first letter of every object key is lowered, and
 every spelling of "ssn" becomes that. There are two implementations, a converter of parsed
 values and a visitor that reads object entries as they stream in.
 */
module JsonKeys {
  import opened Common
  import opened StringOrder

  /** Numbers keep their spelling. An object of a parsed value is a sorted map, modelled as the
      list of its fields; the entries of a stream are such a list in text order. */
  datatype Value =
    | Null
    | Bool(b: bool)
    | Number(n: string)
    | Text(s: string)
    | Array(items: seq<Value>)
    | Object(fields: Fields)

  datatype Fields = NoFields | Field(key: string, value: Value, rest: Fields)

  // ---------------------------------------------------------------- keys

  function LowerChar(c: char): char {
    if 'A' <= c <= 'Z' then c + 32 as char else c
  }

  function Lower(s: string): string {
    seq(|s|, i requires 0 <= i < |s| => LowerChar(s[i]))
  }

  function LowerFirst(s: string): string {
    if s == [] then [] else [LowerChar(s[0])] + s[1..]
  }

  /** `process_json_key`. */
  function ProcessKey(k: string): string {
    if Lower(k) == "ssn" then "ssn" else LowerFirst(k)
  }

  /** Exactly the 26 characters from code 65 on are lowered, by 32. */
  lemma LowerCharExact(c: char)
    ensures LowerChar(c) as int == c as int + if 65 <= c as int < 65 + 26 then 32 else 0
  {
  }

  /** All eight spellings of "ssn" become "ssn"; of any other key the first character is lowered
      and nothing else changed. */
  lemma ProcessKeyOutcome(k: string)
    ensures ProcessKey(k) ==
            if k in {"ssn", "ssN", "sSn", "sSN", "Ssn", "SsN", "SSn", "SSN"} then "ssn"
            else if k == [] then [] else [LowerChar(k[0])] + k[1..]
  {
    if |k| == 3 {
      assert Lower(k) == [LowerChar(k[0]), LowerChar(k[1]), LowerChar(k[2])];
      assert k == [k[0], k[1], k[2]];
      assert LowerChar('s') == 's' && LowerChar('S') == 's' && LowerChar('n') == 'n' && LowerChar('N') == 'n';
      assert forall c :: LowerChar(c) == 's' ==> c == 's' || c == 'S';
      assert forall c :: LowerChar(c) == 'n' ==> c == 'n' || c == 'N';
    } else {
      assert |Lower(k)| == |k|;
    }
  }

  lemma ProcessKeyIdempotent(k: string)
    ensures ProcessKey(ProcessKey(k)) == ProcessKey(k)
  {
    if Lower(k) == "ssn" {
      assert Lower("ssn") == "ssn";
    } else {
      assert Lower(LowerFirst(k)) == Lower(k);
    }
  }

  // ---------------------------------------------------------------- sorted fields

  function Get(fs: Fields, k: string): Option<Value> {
    match fs
    case NoFields => None
    case Field(key, value, rest) => if key == k then Some(value) else Get(rest, k)
  }

  /** Insertion into the sorted map: a present key has its value replaced. */
  function Insert(fs: Fields, k: string, v: Value): Fields {
    match fs
    case NoFields => Field(k, v, NoFields)
    case Field(key, value, rest) =>
      if key == k then Field(k, v, rest)
      else if Below(k, key) then Field(k, v, fs)
      else Field(key, value, Insert(rest, k, v))
  }

  predicate Sorted(fs: Fields) {
    fs.NoFields? || (Sorted(fs.rest) && (fs.rest.Field? ==> Below(fs.key, fs.rest.key)))
  }

  lemma {:induction false} InsertGet(fs: Fields, k: string, v: Value, q: string)
    ensures Get(Insert(fs, k, v), q) == if q == k then Some(v) else Get(fs, q)
  {
    if fs.Field? { InsertGet(fs.rest, k, v, q); }
  }

  lemma {:induction false} InsertSorted(fs: Fields, k: string, v: Value)
    requires Sorted(fs)
    ensures Sorted(Insert(fs, k, v))
    ensures Insert(fs, k, v).key == k || (fs.Field? && Insert(fs, k, v).key == fs.key)
  {
    if fs.Field? {
      InsertSorted(fs.rest, k, v);
      BelowIsTotal(fs.key, k);
    }
  }

  /** A key below the first one is not in the map. */
  lemma {:induction false} BelowFirst(fs: Fields, k: string)
    requires Sorted(fs) && (fs.Field? ==> Below(k, fs.key))
    ensures Get(fs, k) == None
  {
    if fs.Field? {
      if fs.rest.Field? { BelowIsTransitive(k, fs.key, fs.rest.key); }
      BelowFirst(fs.rest, k);
      if k == fs.key { BelowIsIrreflexive(k); }
    }
  }

  /** Sorted maps with the same entries are the same list. */
  lemma {:induction false} SameEntriesSameMap(a: Fields, b: Fields)
    requires Sorted(a) && Sorted(b) && forall q :: Get(a, q) == Get(b, q)
    ensures a == b
  {
    if a.Field? { assert Get(b, a.key) == Get(a, a.key) == Some(a.value); }
    if b.Field? { assert Get(a, b.key) == Get(b, b.key) == Some(b.value); }
    if a.Field? {
      BelowIsTotal(a.key, b.key);
      if Below(a.key, b.key) { BelowFirst(b, a.key); assert false; }
      if Below(b.key, a.key) { BelowFirst(a, b.key); assert false; }
      BelowFirst(a.rest, a.key);
      BelowFirst(b.rest, a.key);
      forall q ensures Get(a.rest, q) == Get(b.rest, q) { assert Get(a, q) == Get(b, q); }
      SameEntriesSameMap(a.rest, b.rest);
    }
  }

  // ---------------------------------------------------------------- the reference

  /** The plain recursive key map. */
  function KeyMap(v: Value): Value
    decreases v, 0
  {
    match v
    case Array(items) => Array(MapAll(items))
    case Object(fields) => Object(Collect(fields, NoFields))
    case _ => v
  }

  function MapAll(items: seq<Value>): (r: seq<Value>)
    ensures |r| == |items|
    decreases items, 1
  {
    if items == [] then [] else [KeyMap(items[0])] + MapAll(items[1..])
  }

  /** The fields in order, each inserted under its processed key. */
  function Collect(fs: Fields, acc: Fields): Fields
    decreases fs, 1
  {
    match fs
    case NoFields => acc
    case Field(k, v, rest) => Collect(rest, Insert(acc, ProcessKey(k), KeyMap(v)))
  }

  lemma {:induction false} MapAllAt(items: seq<Value>, i: nat)
    requires i < |items|
    ensures MapAll(items)[i] == KeyMap(items[i])
  {
    if i > 0 { MapAllAt(items[1..], i - 1); }
  }

  lemma {:induction false} MapAllAppend(items: seq<Value>, v: Value)
    ensures MapAll(items + [v]) == MapAll(items) + [KeyMap(v)]
  {
    if items != [] {
      MapAllAppend(items[1..], v);
      assert (items + [v])[1..] == items[1..] + [v];
    }
  }

  lemma MapAllUpTo(items: seq<Value>, i: nat)
    requires i < |items|
    ensures MapAll(items[..i + 1]) == MapAll(items[..i]) + [KeyMap(items[i])]
  {
    MapAllAppend(items[..i], items[i]);
    assert items[..i + 1] == items[..i] + [items[i]];
  }

  // ---------------------------------------------------------------- the two implementations

  /** `convert_json_key_lcase_first`, branch by branch: nested objects recurse, arrays are
      converted in place, other values are moved as they are. */
  method ConvertKeys(src: Value) returns (r: Value)
    ensures r == KeyMap(src)
    decreases src
  {
    match src
    case Array(items) =>
      var newArray := [];
      for i := 0 to |items|
        invariant newArray == MapAll(items[..i])
      {
        var v := ConvertKeys(items[i]);
        MapAllUpTo(items, i);
        newArray := newArray + [v];
      }
      assert items[..|items|] == items;
      r := Array(newArray);
    case Object(fields) =>
      var jsonMap := NoFields;
      var rest := fields;
      while rest.Field?
        invariant Collect(rest, jsonMap) == Collect(fields, NoFields)
        invariant rest == fields || rest < fields
        decreases rest
      {
        match rest.value {
        case Object(_) =>
          var inner := ConvertKeys(rest.value);
          jsonMap := Insert(jsonMap, ProcessKey(rest.key), inner);
        case Array(items) =>
          var innerArray := [];
          for i := 0 to |items|
            invariant innerArray == MapAll(items[..i])
          {
            var v := ConvertKeys(items[i]);
            MapAllUpTo(items, i);
            innerArray := innerArray + [v];
          }
          assert items[..|items|] == items;
          jsonMap := Insert(jsonMap, ProcessKey(rest.key), Array(innerArray));
        case _ =>
          jsonMap := Insert(jsonMap, ProcessKey(rest.key), rest.value);
        }
        rest := rest.rest;
      }
      r := Object(jsonMap);
    case _ =>
      r := src;
  }

  /** `LowerCaseVisitor::visit_map` on a stream of entries. */
  method VisitMap(entries: Fields) returns (r: Value)
    ensures r == Object(Collect(entries, NoFields))
  {
    var resultMap := NoFields;
    var rest := entries;
    while rest.Field?
      invariant Collect(rest, resultMap) == Collect(entries, NoFields)
      decreases rest
    {
      var v := ConvertKeys(rest.value);
      resultMap := Insert(resultMap, ProcessKey(rest.key), v);
      rest := rest.rest;
    }
    r := Object(resultMap);
  }

  /** `LowerCaseVisitor::visit_seq`. */
  method VisitSeq(items: seq<Value>) returns (r: Value)
    ensures r == KeyMap(Array(items))
  {
    var resultSeq := [];
    for i := 0 to |items|
      invariant resultSeq == MapAll(items[..i])
    {
      var v := ConvertKeys(items[i]);
      MapAllUpTo(items, i);
      resultSeq := resultSeq + [v];
    }
    assert items[..|items|] == items;
    r := Array(resultSeq);
  }

  /** Parsing the stream first: a repeated key keeps its last value. */
  function Parse(entries: Fields, acc: Fields): Fields
    decreases entries
  {
    match entries
    case NoFields => acc
    case Field(k, v, rest) => Parse(rest, Insert(acc, k, v))
  }

  // ---------------------------------------------------------------- who wins a collision

  /** The last field, in list order, whose key is processed to `q`. */
  function LastFor(fs: Fields, q: string): Option<Value> {
    match fs
    case NoFields => None
    case Field(k, v, rest) =>
      if LastFor(rest, q).Some? then LastFor(rest, q) else if ProcessKey(k) == q then Some(v) else None
  }

  /** The last entry with exactly the key `k`. */
  function LastWith(fs: Fields, k: string): Option<Value> {
    match fs
    case NoFields => None
    case Field(key, v, rest) =>
      if LastWith(rest, k).Some? then LastWith(rest, k) else if key == k then Some(v) else None
  }

  function Mapped(v: Option<Value>): Option<Value> {
    if v.Some? then Some(KeyMap(v.value)) else None
  }

  /** The converted object has, under every key, the conversion of the last field processed to
      it, and nothing else. */
  lemma {:induction false} CollectGet(fs: Fields, acc: Fields, q: string)
    ensures Get(Collect(fs, acc), q) == if LastFor(fs, q).Some? then Mapped(LastFor(fs, q)) else Get(acc, q)
  {
    if fs.Field? {
      CollectGet(fs.rest, Insert(acc, ProcessKey(fs.key), KeyMap(fs.value)), q);
      InsertGet(acc, ProcessKey(fs.key), KeyMap(fs.value), q);
    }
  }

  lemma {:induction false} CollectSorted(fs: Fields, acc: Fields)
    requires Sorted(acc)
    ensures Sorted(Collect(fs, acc))
  {
    if fs.Field? {
      InsertSorted(acc, ProcessKey(fs.key), KeyMap(fs.value));
      CollectSorted(fs.rest, Insert(acc, ProcessKey(fs.key), KeyMap(fs.value)));
    }
  }

  /** Every key of the result is a processed one. */
  lemma {:induction false} CollectKeysFixed(fs: Fields, acc: Fields, q: string)
    requires Get(acc, q).Some? ==> ProcessKey(q) == q
    ensures Get(Collect(fs, acc), q).Some? ==> ProcessKey(q) == q
  {
    if fs.Field? {
      ProcessKeyIdempotent(fs.key);
      InsertGet(acc, ProcessKey(fs.key), KeyMap(fs.value), q);
      CollectKeysFixed(fs.rest, Insert(acc, ProcessKey(fs.key), KeyMap(fs.value)), q);
    }
  }

  /** In a sorted map whose keys are all processed, the last field for a key is its only one. */
  lemma {:induction false} FixedKeysWin(fs: Fields, q: string)
    requires Sorted(fs) && forall k :: Get(fs, k).Some? ==> ProcessKey(k) == k
    ensures LastFor(fs, q) == Get(fs, q)
  {
    if fs.Field? {
      BelowFirst(fs.rest, fs.key);
      forall k ensures Get(fs.rest, k).Some? ==> ProcessKey(k) == k {
        assert Get(fs, k).Some? ==> ProcessKey(k) == k;
      }
      assert Get(fs, fs.key).Some?;
      FixedKeysWin(fs.rest, q);
    }
  }

  // ---------------------------------------------------------------- idempotence

  lemma {:induction false} IdempotentAll(items: seq<Value>)
    ensures MapAll(MapAll(items)) == MapAll(items)
    decreases items, 1
  {
    if items != [] {
      Idempotent(items[0]);
      IdempotentAll(items[1..]);
      assert MapAll(items)[1..] == MapAll(items[1..]);
    }
  }

  lemma {:induction false} IdempotentFields(fs: Fields)
    ensures forall q :: Mapped(Mapped(LastFor(fs, q))) == Mapped(LastFor(fs, q))
    decreases fs, 1
  {
    if fs.Field? {
      Idempotent(fs.value);
      IdempotentFields(fs.rest);
      forall q ensures Mapped(Mapped(LastFor(fs, q))) == Mapped(LastFor(fs, q)) {
        assert Mapped(Mapped(LastFor(fs.rest, q))) == Mapped(LastFor(fs.rest, q));
      }
    }
  }

  /** Converting twice is converting once, for every value, colliding keys included. */
  lemma {:induction false} Idempotent(v: Value)
    ensures KeyMap(KeyMap(v)) == KeyMap(v)
    decreases v, 0
  {
    match v
    case Array(items) => IdempotentAll(items);
    case Object(fields) =>
      var once := Collect(fields, NoFields);
      IdempotentFields(fields);
      CollectSorted(fields, NoFields);
      CollectSorted(once, NoFields);
      forall q ensures Get(Collect(once, NoFields), q) == Get(once, q) {
        forall k ensures Get(once, k).Some? ==> ProcessKey(k) == k { CollectKeysFixed(fields, NoFields, k); }
        FixedKeysWin(once, q);
        CollectGet(once, NoFields, q);
        CollectGet(fields, NoFields, q);
        assert Mapped(Mapped(LastFor(fields, q))) == Mapped(LastFor(fields, q));
      }
      SameEntriesSameMap(Collect(once, NoFields), once);
    case _ =>
  }

  // ---------------------------------------------------------------- visitor and converter

  lemma {:induction false} ParseSorted(entries: Fields, acc: Fields)
    requires Sorted(acc)
    ensures Sorted(Parse(entries, acc))
  {
    if entries.Field? {
      InsertSorted(acc, entries.key, entries.value);
      ParseSorted(entries.rest, Insert(acc, entries.key, entries.value));
    }
  }

  lemma {:induction false} ParseGet(entries: Fields, acc: Fields, k: string)
    ensures Get(Parse(entries, acc), k) == if LastWith(entries, k).Some? then LastWith(entries, k) else Get(acc, k)
  {
    if entries.Field? {
      InsertGet(acc, entries.key, entries.value, k);
      ParseGet(entries.rest, Insert(acc, entries.key, entries.value), k);
    }
  }

  lemma {:induction false} SortedLastIsGet(fs: Fields, k: string)
    requires Sorted(fs)
    ensures LastWith(fs, k) == Get(fs, k)
  {
    if fs.Field? {
      BelowFirst(fs.rest, fs.key);
      SortedLastIsGet(fs.rest, k);
    }
  }

  /** Parsing keeps of every key the last entry. */
  lemma ParsedLast(entries: Fields, k: string)
    ensures LastWith(Parse(entries, NoFields), k) == LastWith(entries, k)
  {
    ParseSorted(entries, NoFields);
    ParseGet(entries, NoFields, k);
    SortedLastIsGet(Parse(entries, NoFields), k);
  }

  /** The key of the last entry processed to `q`. */
  function LastKey(fs: Fields, q: string): Option<string> {
    match fs
    case NoFields => None
    case Field(k, _, rest) =>
      if LastKey(rest, q).Some? then LastKey(rest, q) else if ProcessKey(k) == q then Some(k) else None
  }

  /** The greatest key processed to `q`. */
  function GreatestKey(fs: Fields, q: string): Option<string> {
    match fs
    case NoFields => None
    case Field(k, _, rest) =>
      var g := GreatestKey(rest, q);
      if ProcessKey(k) == q && (g.None? || Below(g.value, k)) then Some(k) else g
  }

  function EntryOf(fs: Fields, k: Option<string>): Option<Value> {
    if k.Some? then LastWith(fs, k.value) else None
  }

  predicate Candidate(fs: Fields, k: string, q: string) {
    LastWith(fs, k).Some? && ProcessKey(k) == q
  }

  lemma {:induction false} LastKeyWins(fs: Fields, q: string)
    ensures LastFor(fs, q) == EntryOf(fs, LastKey(fs, q))
    ensures LastKey(fs, q).Some? ==> Candidate(fs, LastKey(fs, q).value, q)
    ensures forall k | Candidate(fs, k, q) :: LastKey(fs, q).Some?
  {
    if fs.Field? {
      LastKeyWins(fs.rest, q);
      assert ProcessKey(fs.key) == q && LastWith(fs.rest, fs.key).Some? ==> Candidate(fs.rest, fs.key, q);
      forall k | Candidate(fs, k, q) ensures LastKey(fs, q).Some? {
        assert k != fs.key ==> Candidate(fs.rest, k, q);
      }
    }
  }

  /** `GreatestKey` is what its name says. */
  lemma {:induction false} GreatestIsGreatest(fs: Fields, q: string)
    ensures GreatestKey(fs, q).Some? ==> Candidate(fs, GreatestKey(fs, q).value, q)
    ensures forall k | Candidate(fs, k, q) ::
              GreatestKey(fs, q).Some? && (k == GreatestKey(fs, q).value || Below(k, GreatestKey(fs, q).value))
  {
    if fs.Field? {
      GreatestIsGreatest(fs.rest, q);
      forall k | Candidate(fs, k, q)
        ensures GreatestKey(fs, q).Some? && (k == GreatestKey(fs, q).value || Below(k, GreatestKey(fs, q).value))
      {
        var g := GreatestKey(fs.rest, q);
        if Candidate(fs.rest, k, q) {
          if Below(g.value, fs.key) && Below(k, g.value) { BelowIsTransitive(k, g.value, fs.key); }
        } else if g.Some? {
          BelowIsTotal(k, g.value);
        }
      }
    }
  }

  lemma GreatestIsUnique(fs: Fields, q: string, k: string)
    requires Candidate(fs, k, q) && forall k' | Candidate(fs, k', q) :: k' == k || Below(k', k)
    ensures GreatestKey(fs, q) == Some(k)
  {
    GreatestIsGreatest(fs, q);
    var g := GreatestKey(fs, q).value;
    if g != k {
      BelowIsTransitive(k, g, k);
      BelowIsIrreflexive(k);
    }
  }

  /** In a sorted map the last key processed to `q` is the greatest. */
  lemma {:induction false} SortedLastIsGreatest(fs: Fields, q: string)
    requires Sorted(fs)
    ensures LastKey(fs, q) == GreatestKey(fs, q)
  {
    if fs.Field? {
      SortedLastIsGreatest(fs.rest, q);
      var g := GreatestKey(fs.rest, q);
      if g.Some? {
        GreatestIsGreatest(fs.rest, q);
        SortedLastIsGet(fs.rest, g.value);
        FirstIsLeast(fs, g.value);
        if Below(g.value, fs.key) {
          BelowIsTransitive(g.value, fs.key, g.value);
          BelowIsIrreflexive(g.value);
        }
      }
    }
  }

  lemma {:induction false} FirstIsLeast(fs: Fields, k: string)
    requires Sorted(fs) && fs.Field? && Get(fs.rest, k).Some?
    ensures Below(fs.key, k)
  {
    if k != fs.rest.key {
      FirstIsLeast(fs.rest, k);
      BelowIsTransitive(fs.key, fs.rest.key, k);
    }
  }

  /** What the converter keeps of a stream for `q`: the last entry of the greatest key. */
  lemma GreatestKeyWins(entries: Fields, q: string)
    ensures LastFor(Parse(entries, NoFields), q) == EntryOf(entries, GreatestKey(entries, q))
  {
    var parsed := Parse(entries, NoFields);
    ParseSorted(entries, NoFields);
    LastKeyWins(parsed, q);
    SortedLastIsGreatest(parsed, q);
    GreatestIsGreatest(parsed, q);
    GreatestIsGreatest(entries, q);
    forall k ensures Candidate(parsed, k, q) <==> Candidate(entries, k, q) { ParsedLast(entries, k); }
    if GreatestKey(entries, q).Some? {
      var k := GreatestKey(entries, q).value;
      GreatestIsUnique(parsed, q, k);
      ParsedLast(entries, k);
    }
  }

  /** Visiting the stream gives what converting its parsed form gives. */
  predicate Agree(entries: Fields) {
    Object(Collect(entries, NoFields)) == KeyMap(Object(Parse(entries, NoFields)))
  }

  /** Of the entries processed to `q`, the last one in the text and the last one with the
      greatest key convert alike. */
  predicate SameWinner(entries: Fields, q: string) {
    Mapped(EntryOf(entries, LastKey(entries, q))) == Mapped(EntryOf(entries, GreatestKey(entries, q)))
  }

  /** Exactly then the two agree. */
  lemma VisitorAgreesExactly(entries: Fields)
    ensures Agree(entries) <==> forall q :: SameWinner(entries, q)
  {
    var visited := Collect(entries, NoFields);
    var parsed := Parse(entries, NoFields);
    var converted := Collect(parsed, NoFields);
    CollectSorted(entries, NoFields);
    CollectSorted(parsed, NoFields);
    forall q ensures SameWinner(entries, q) <==> Get(visited, q) == Get(converted, q) {
      CollectGet(entries, NoFields, q);
      CollectGet(parsed, NoFields, q);
      LastKeyWins(entries, q);
      GreatestKeyWins(entries, q);
    }
    if forall q :: SameWinner(entries, q) {
      forall q ensures Get(visited, q) == Get(converted, q) { assert SameWinner(entries, q); }
      SameEntriesSameMap(visited, converted);
    }
  }

  function Keys(fs: Fields): seq<string> {
    match fs
    case NoFields => []
    case Field(k, _, rest) => [k] + Keys(rest)
  }

  lemma {:induction false} KeysDecide(a: Fields, b: Fields, q: string)
    requires Keys(a) == Keys(b)
    ensures LastKey(a, q) == LastKey(b, q) && GreatestKey(a, q) == GreatestKey(b, q)
  {
    if a.Field? {
      assert Keys(a)[0] == a.key && Keys(b)[0] == b.key;
      assert Keys(a)[1..] == Keys(a.rest) && Keys(b)[1..] == Keys(b.rest);
      KeysDecide(a.rest, b.rest, q);
    }
  }

  /** Every entry with its own key as value. */
  function Labelled(fs: Fields): Fields {
    match fs
    case NoFields => NoFields
    case Field(k, _, rest) => Field(k, Text(k), Labelled(rest))
  }

  lemma {:induction false} LabelledLast(fs: Fields, k: string)
    ensures Keys(Labelled(fs)) == Keys(fs)
    ensures LastWith(Labelled(fs), k) == if LastWith(fs, k).Some? then Some(Text(k)) else None
  {
    if fs.Field? { LabelledLast(fs.rest, k); }
  }

  /** On the keys alone: the two agree whatever the values if and only if the last entry
      processed to a key is always one with the greatest. */
  lemma VisitorAgreesForAllValuesExactly(entries: Fields)
    ensures (forall other | Keys(other) == Keys(entries) :: Agree(other))
            <==> forall q :: LastKey(entries, q) == GreatestKey(entries, q)
  {
    if forall q :: LastKey(entries, q) == GreatestKey(entries, q) {
      forall other | Keys(other) == Keys(entries) ensures Agree(other) {
        forall q ensures SameWinner(other, q) { KeysDecide(entries, other, q); }
        VisitorAgreesExactly(other);
      }
    } else {
      var q :| LastKey(entries, q) != GreatestKey(entries, q);
      LabelsDisagree(entries, q);
    }
  }

  lemma LabelsDisagree(entries: Fields, q: string)
    requires LastKey(entries, q) != GreatestKey(entries, q)
    ensures Keys(Labelled(entries)) == Keys(entries) && !Agree(Labelled(entries))
  {
    var other := Labelled(entries);
    LabelledLast(entries, "");
    KeysDecide(entries, other, q);
    LastKeyWins(entries, q);
    GreatestIsGreatest(entries, q);
    var last, greatest := LastKey(entries, q).value, GreatestKey(entries, q).value;
    LabelledLast(entries, last);
    LabelledLast(entries, greatest);
    assert !SameWinner(other, q);
    VisitorAgreesExactly(other);
  }

  /** Different keys are processed to different keys. */
  ghost predicate CollisionFree(fs: Fields) {
    forall k, k' | LastWith(fs, k).Some? && LastWith(fs, k').Some? && ProcessKey(k) == ProcessKey(k') :: k == k'
  }

  lemma {:induction false} LastForIsLastWith(fs: Fields, k: string, q: string)
    requires ProcessKey(k) == q
    requires forall k' | LastWith(fs, k').Some? && ProcessKey(k') == q :: k' == k
    ensures LastFor(fs, q) == LastWith(fs, k)
  {
    if fs.Field? {
      forall k' | LastWith(fs.rest, k').Some? && ProcessKey(k') == q ensures k' == k { assert LastWith(fs, k').Some?; }
      LastForIsLastWith(fs.rest, k, q);
      assert LastWith(fs, fs.key).Some?;
    }
  }

  /** Without collisions the order of the text does not matter. */
  lemma VisitorAgreesWithoutCollisions(entries: Fields)
    requires CollisionFree(entries)
    ensures Agree(entries)
  {
    forall q ensures SameWinner(entries, q) {
      LastKeyWins(entries, q);
      GreatestIsGreatest(entries, q);
      if GreatestKey(entries, q).Some? { assert Candidate(entries, GreatestKey(entries, q).value, q); }
    }
    VisitorAgreesExactly(entries);
  }

  /** With a collision it can: of `{"a": x, "A": y}` the visitor keeps `y`, the converter `x`. */
  lemma TextOrderMatters(x: string, y: string)
    requires x != y
    ensures var entries := Field("a", Text(x), Field("A", Text(y), NoFields));
            && Get(Collect(entries, NoFields), "a") == Some(Text(y))
            && Get(Collect(Parse(entries, NoFields), NoFields), "a") == Some(Text(x))
  {
    var entries := Field("a", Text(x), Field("A", Text(y), NoFields));
    var parsed := Parse(entries, NoFields);
    assert Below("A", "a");
    var first := Field("a", Text(x), NoFields);
    assert "a"[0] != "A"[0];
    assert Parse(entries.rest, first) == Parse(NoFields, Insert(first, "A", Text(y)));
    assert parsed == Parse(entries.rest, Insert(NoFields, "a", Text(x)));
    assert parsed == Field("A", Text(y), first);
    assert Lower("a") == "a" && Lower("A") == "a";
    assert ProcessKey("a") == "a" && ProcessKey("A") == "a";
    CollectGet(entries, NoFields, "a");
    CollectGet(parsed, NoFields, "a");
    assert LastFor(entries.rest, "a") == Some(Text(y));
    assert LastFor(parsed.rest, "a") == Some(Text(x));
  }

  // ---------------------------------------------------------------- nothing lost, nothing invented

  datatype Place = Key(key: string) | Index(index: nat)

  function Child(v: Value, p: Place): Option<Value> {
    match (v, p)
    case (Array(items), Index(i)) => if i < |items| then Some(items[i]) else None
    case (Object(fields), Key(k)) => Get(fields, k)
    case _ => None
  }

  function Lookup(v: Value, path: seq<Place>): Option<Value>
    decreases |path|
  {
    if path == [] then Some(v)
    else match Child(v, path[0])
         case Some(w) => Lookup(w, path[1..])
         case None => None
  }

  function ProcessPlace(p: Place): Place {
    if p.Key? then Key(ProcessKey(p.key)) else p
  }

  function ProcessPath(path: seq<Place>): seq<Place> {
    if path == [] then [] else [ProcessPlace(path[0])] + ProcessPath(path[1..])
  }

  /** The value along the path is a parsed one without collisions. */
  ghost predicate Plain(v: Value, path: seq<Place>)
    decreases |path|
  {
    && (v.Object? ==> Sorted(v.fields) && CollisionFree(v.fields))
    && (path != [] && Child(v, path[0]).Some? ==> Plain(Child(v, path[0]).value, path[1..]))
  }

  /** Without collisions every value is found where it was, under processed keys; array
      positions and leaves are unchanged. */
  lemma {:induction false} PathsSurvive(v: Value, path: seq<Place>)
    requires Plain(v, path) && Lookup(v, path).Some?
    ensures Lookup(KeyMap(v), ProcessPath(path)) == Some(KeyMap(Lookup(v, path).value))
    decreases |path|
  {
    if path != [] {
      var path' := ProcessPath(path);
      assert path'[1..] == ProcessPath(path[1..]);
      match path[0]
      case Index(i) =>
        MapAllAt(v.items, i);
        PathsSurvive(v.items[i], path[1..]);
      case Key(k) =>
        var w := Get(v.fields, k).value;
        SortedLastIsGet(v.fields, k);
        LastForIsLastWith(v.fields, k, ProcessKey(k));
        CollectGet(v.fields, NoFields, ProcessKey(k));
        PathsSurvive(w, path[1..]);
    }
  }

  /** A parsed value: all its objects are sorted. */
  predicate AllSorted(v: Value)
    decreases v, 0
  {
    match v
    case Array(items) => forall i | 0 <= i < |items| :: AllSorted(items[i])
    case Object(fields) => Sorted(fields) && FieldsSorted(fields)
    case _ => true
  }

  predicate FieldsSorted(fs: Fields)
    decreases fs, 1
  {
    fs.NoFields? || (AllSorted(fs.value) && FieldsSorted(fs.rest))
  }

  lemma {:induction false} WinningKey(fs: Fields, q: string) returns (k: string)
    requires Sorted(fs) && FieldsSorted(fs) && LastFor(fs, q).Some?
    ensures Get(fs, k) == LastFor(fs, q) && ProcessKey(k) == q && AllSorted(Get(fs, k).value)
  {
    if LastFor(fs.rest, q).Some? {
      k := WinningKey(fs.rest, q);
      BelowFirst(fs.rest, fs.key);
    } else {
      k := fs.key;
    }
  }

  /** A child of the converted value is a converted child. */
  lemma ChildComesFrom(v: Value, p': Place) returns (p: Place)
    requires AllSorted(v) && Child(KeyMap(v), p').Some?
    ensures ProcessPlace(p) == p' && Child(v, p).Some? && AllSorted(Child(v, p).value)
    ensures Child(KeyMap(v), p').value == KeyMap(Child(v, p).value)
  {
    match p'
    case Index(i) =>
      MapAllAt(v.items, i);
      p := p';
    case Key(q) =>
      CollectGet(v.fields, NoFields, q);
      var k := WinningKey(v.fields, q);
      p := Key(k);
  }

  /** And whatever the collisions, every value of the result comes from the source. */
  lemma {:induction false} NothingInvented(v: Value, path': seq<Place>) returns (path: seq<Place>)
    requires AllSorted(v) && Lookup(KeyMap(v), path').Some?
    ensures ProcessPath(path) == path' && Lookup(v, path).Some?
    ensures Lookup(KeyMap(v), path').value == KeyMap(Lookup(v, path).value)
    decreases |path'|
  {
    if path' == [] {
      path := [];
    } else {
      var p := ChildComesFrom(v, path'[0]);
      var rest := NothingInvented(Child(v, p).value, path'[1..]);
      path := [p] + rest;
      assert path[1..] == rest;
    }
  }
}
