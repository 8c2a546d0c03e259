/**
 The layered configuration (src/config.rs): options set in the environment, options set by the
 administrator and kept in a file, and defaults computed from the options before them. Each
 operation is one step here; `ConfigRuns` lets them overlap.
 */
module LayeredConfig {
  import opened Common

  type Name = string
  type Value = string

  /** A builder holds the options that are set; an absent option is `None`. */
  type Builder = map<Name, Value>
  type Items = map<Name, Value>

  /** What an unset option becomes; `Generated` ignores a set value too. */
  datatype Action =
    | Optional
    | Def(value: Value)
    | Auto(compute: Items -> Value)
    | Generated(compute: Items -> Value)

  datatype Item = Item(name: Name, editable: bool, action: Action)

  /** The declared options in order; `finish` is the clean-up at the end of `build`, `valid` is
      `validate_config`. */
  datatype Schema = Schema(items: seq<Item>, finish: (Builder, Items) -> Items, valid: Items -> bool)

  predicate Declared(items: seq<Item>, name: Name) {
    exists i | 0 <= i < |items| :: items[i].name == name
  }

  /** Options are declared once, and a builder has no others. */
  predicate Distinct(items: seq<Item>) {
    forall i, j | 0 <= i < j < |items| :: items[i].name != items[j].name
  }

  predicate Known(items: seq<Item>, b: Builder) {
    forall n | n in b :: Declared(items, n)
  }

  // ---------------------------------------------------------------- merge

  /** Both layers, the second one winning. */
  function Merge(first: Builder, second: Builder): Builder {
    first + second
  }

  /** The empty builder is neutral, and layers can be merged in any grouping. */
  lemma MergeAssociative(a: Builder, b: Builder, c: Builder)
    ensures Merge(Merge(a, b), c) == Merge(a, Merge(b, c))
    ensures Merge(a, map[]) == a == Merge(map[], a)
  {
  }

  /** The options set in both layers, in declaration order. */
  function Overrides(items: seq<Item>, first: Builder, second: Builder): seq<Name> {
    if items == [] then []
    else (if items[0].name in first && items[0].name in second then [items[0].name] else [])
         + Overrides(items[1..], first, second)
  }

  lemma {:induction false} OverridesAppend(items: seq<Item>, item: Item, first: Builder, second: Builder)
    ensures Overrides(items + [item], first, second)
            == Overrides(items, first, second) + (if item.name in first && item.name in second then [item.name] else [])
  {
    if items != [] {
      OverridesAppend(items[1..], item, first, second);
      assert (items + [item])[1..] == items[1..] + [item];
    }
  }

  predicate Unrepeated(ns: seq<Name>) {
    forall i, j | 0 <= i < j < |ns| :: ns[i] != ns[j]
  }

  lemma UnrepeatedCons(n: Name, ns: seq<Name>)
    requires Unrepeated(ns) && n !in ns
    ensures Unrepeated([n] + ns)
  {
    assert forall i | 0 <= i < |ns| :: ns[i] in ns;
  }

  lemma DeclaredFirst(items: seq<Item>, n: Name)
    requires items != []
    ensures Declared(items, n) <==> n == items[0].name || Declared(items[1..], n)
  {
    if Declared(items[1..], n) {
      var i :| 0 <= i < |items[1..]| && items[1..][i].name == n;
      assert items[i + 1].name == n;
    }
    if Declared(items, n) && n != items[0].name {
      var i :| 0 <= i < |items| && items[i].name == n;
      assert items[1..][i - 1].name == n;
    }
  }

  /** The list has exactly the options set in both layers, each once. */
  lemma {:induction false} OverridesExact(items: seq<Item>, first: Builder, second: Builder)
    requires Distinct(items)
    ensures forall n :: n in Overrides(items, first, second) <==> Declared(items, n) && n in first && n in second
    ensures Unrepeated(Overrides(items, first, second))
  {
    if items != [] {
      var rest := Overrides(items[1..], first, second);
      OverridesExact(items[1..], first, second);
      forall n ensures Declared(items, n) <==> n == items[0].name || Declared(items[1..], n) {
        DeclaredFirst(items, n);
      }
      assert items[0].name !in rest;
      UnrepeatedCons(items[0].name, rest);
      assert [] + rest == rest;
    }
  }

  /** `ConfigBuilder::merge`: field by field, noting what the second layer overrides. */
  method MergeLayers(items: seq<Item>, first: Builder, second: Builder) returns (merged: Builder, overrides: seq<Name>)
    requires Known(items, second)
    ensures merged == Merge(first, second)
    ensures overrides == Overrides(items, first, second)
  {
    merged, overrides := first, [];
    for i := 0 to |items|
      invariant overrides == Overrides(items[..i], first, second)
      invariant merged == first + DeclaredPart(items[..i], second)
    {
      var n := items[i].name;
      OverridesAppend(items[..i], items[i], first, second);
      assert items[..i + 1] == items[..i] + [items[i]];
      DeclaredPartAppend(items[..i], items[i], second);
      if n in second {
        OverrideOne(first, DeclaredPart(items[..i], second), n, second[n]);
        merged := merged[n := second[n]];
        if n in first {
          overrides := overrides + [n];
        }
      }
    }
    assert items[..|items|] == items;
    AllDeclared(items, second);
  }

  lemma OverrideOne(first: Builder, part: Builder, n: Name, v: Value)
    ensures (first + part)[n := v] == first + part[n := v]
  {
  }

  lemma AllDeclared(items: seq<Item>, b: Builder)
    requires Known(items, b)
    ensures DeclaredPart(items, b) == b
  {
  }

  function DeclaredPart(items: seq<Item>, b: Builder): Builder {
    map n | n in b && Declared(items, n) :: b[n]
  }

  lemma DeclaredPartAppend(items: seq<Item>, item: Item, b: Builder)
    ensures DeclaredPart(items + [item], b)
            == if item.name in b then DeclaredPart(items, b)[item.name := b[item.name]] else DeclaredPart(items, b)
  {
    DeclaredAppend(items, item);
  }

  lemma DeclaredAppend(items: seq<Item>, item: Item)
    ensures forall n :: Declared(items + [item], n) <==> n == item.name || Declared(items, n)
  {
    forall n ensures Declared(items + [item], n) <==> n == item.name || Declared(items, n) {
      if Declared(items, n) {
        var i :| 0 <= i < |items| && items[i].name == n;
        assert (items + [item])[i].name == n;
      }
      if n == item.name { assert (items + [item])[|items|].name == n; }
    }
  }

  // ---------------------------------------------------------------- build and editability

  function ItemValue(item: Item, b: Builder, config: Items): Option<Value> {
    match item.action
    case Optional => if item.name in b then Some(b[item.name]) else None
    case Def(v) => Some(if item.name in b then b[item.name] else v)
    case Auto(f) => Some(if item.name in b then b[item.name] else f(config))
    case Generated(f) => Some(f(config))
  }

  function With(config: Items, item: Item, v: Option<Value>): Items {
    if v.Some? then config[item.name := v.value] else config - {item.name}
  }

  /** Options are filled in declaration order, so a computed default sees the ones before it. */
  function Filled(items: seq<Item>, b: Builder, config: Items): Items {
    if items == [] then config else Filled(items[1..], b, With(config, items[0], ItemValue(items[0], b, config)))
  }

  function Build(schema: Schema, b: Builder): Items {
    schema.finish(b, Filled(schema.items, b, map[]))
  }

  method BuildItems(schema: Schema, b: Builder) returns (config: Items)
    ensures config == Build(schema, b)
  {
    config := map[];
    for i := 0 to |schema.items|
      invariant Filled(schema.items[i..], b, config) == Filled(schema.items, b, map[])
    {
      var item := schema.items[i];
      var v := ItemValue(item, b, config);
      config := With(config, item, v);
    }
    config := schema.finish(b, config);
  }

  lemma {:induction false} FilledSplit(items: seq<Item>, i: nat, b: Builder, config: Items)
    requires i <= |items|
    ensures Filled(items, b, config) == Filled(items[i..], b, Filled(items[..i], b, config))
    decreases i
  {
    if i > 0 {
      FilledSplit(items[1..], i - 1, b, With(config, items[0], ItemValue(items[0], b, config)));
      assert items[1..][i - 1..] == items[i..] && items[1..][..i - 1] == items[..i][1..];
    }
  }

  /** Options declared elsewhere are left alone. */
  lemma {:induction false} FillingLeavesOthers(items: seq<Item>, b: Builder, config: Items, n: Name)
    requires !Declared(items, n)
    ensures n in Filled(items, b, config) <==> n in config
    ensures n in config ==> Filled(items, b, config)[n] == config[n]
    decreases |items|
  {
    if items != [] {
      DeclaredFirst(items, n);
      FillingLeavesOthers(items[1..], b, With(config, items[0], ItemValue(items[0], b, config)), n);
    }
  }

  /** What the option at place `i` becomes while the options are filled: its set value, unless it
      is generated; or else its default, the value computed from the options before it, or none. */
  lemma FilledOption(items: seq<Item>, b: Builder, i: nat)
    requires Distinct(items) && i < |items|
    ensures var n, all, earlier := items[i].name, Filled(items, b, map[]), Filled(items[..i], b, map[]);
            && (n in b && !items[i].action.Generated? ==> n in all && all[n] == b[n])
            && (n !in b ==>
                  match items[i].action
                  case Optional => n !in all
                  case Def(v) => n in all && all[n] == v
                  case Auto(f) => n in all && all[n] == f(earlier)
                  case Generated(_) => true)
            && (items[i].action.Generated? ==> n in all && all[n] == items[i].action.compute(earlier))
  {
    var n := items[i].name;
    FilledSplit(items, i, b, map[]);
    assert items[i..][1..] == items[i + 1..];
    var earlier := Filled(items[..i], b, map[]);
    var config := With(earlier, items[i], ItemValue(items[i], b, earlier));
    assert !Declared(items[i + 1..], n);
    FillingLeavesOthers(items[i + 1..], b, config, n);
  }

  /** The clean-up of `build` leaves the option as it was filled. */
  ghost predicate FinishKeeps(schema: Schema, b: Builder, n: Name) {
    forall config: Items | n in config :: n in schema.finish(b, config) && schema.finish(b, config)[n] == config[n]
  }

  /** So a set option keeps its value through the build, unless it is a generated one or one
      that the clean-up rewrites. */
  lemma SetOptionsWin(schema: Schema, b: Builder, n: Name)
    requires Distinct(schema.items) && n in b && Declared(schema.items, n) && FinishKeeps(schema, b, n)
    requires forall i | 0 <= i < |schema.items| && schema.items[i].name == n :: !schema.items[i].action.Generated?
    ensures n in Build(schema, b) && Build(schema, b)[n] == b[n]
  {
    var i :| 0 <= i < |schema.items| && schema.items[i].name == n;
    FilledOption(schema.items, b, i);
  }

  /** And an unset one gets its declared default, or what is computed from the configuration that
      the options declared before it build; a generated one is computed even when it is set. */
  lemma UnsetOptionsDefault(schema: Schema, b: Builder, i: nat)
    requires Distinct(schema.items) && i < |schema.items| && FinishKeeps(schema, b, schema.items[i].name)
    ensures var item, config := schema.items[i], Build(schema, b);
            var earlier := Filled(schema.items[..i], b, map[]);
            && (item.action.Def? && item.name !in b ==> item.name in config && config[item.name] == item.action.value)
            && ((item.action.Auto? && item.name !in b) || item.action.Generated? ==>
                  item.name in config && config[item.name] == item.action.compute(earlier))
  {
    FilledOption(schema.items, b, i);
  }

  predicate Editable(items: seq<Item>, n: Name) {
    forall i | 0 <= i < |items| && items[i].name == n :: items[i].editable
  }

  /** Only what the administrator may change. */
  function EditablePart(items: seq<Item>, b: Builder): Builder {
    map n | n in b && Editable(items, n) :: b[n]
  }

  method ClearNonEditable(items: seq<Item>, b: Builder) returns (cleared: Builder)
    ensures cleared == EditablePart(items, b)
  {
    cleared := b;
    for i := 0 to |items|
      invariant cleared == EditablePart(items[..i], b)
    {
      assert items[..i + 1] == items[..i] + [items[i]];
      if !items[i].editable {
        cleared := cleared - {items[i].name};
      }
      forall n | n in b
        ensures Editable(items[..i + 1], n)
                <==> Editable(items[..i], n) && (items[i].name == n ==> items[i].editable)
      {
        assert Editable(items[..i + 1], n) ==> forall j | 0 <= j < i :: items[..i][j] == items[..i + 1][j];
        if items[i].name == n { assert items[..i + 1][i] == items[i]; }
      }
    }
    assert items[..|items|] == items;
  }

  // ---------------------------------------------------------------- operations

  /** The locked state, and the saved file (`None` when there is none). */
  datatype State = State(env: Builder, usr: Builder, config: Items, overrides: seq<Name>, file: Option<Builder>)

  /** `stored` and `deleted` say whether the file operation succeeds. */
  datatype Op =
    | Update(other: Builder, ignoreNonEditable: bool, stored: bool)
    | UpdatePartial(other: Builder, stored: bool)
    | DeleteUser(deleted: bool)

  function FileBuilder(file: Option<Builder>): Builder {
    if file.Some? then file.value else map[]
  }

  /** `Config::load`, when validation does not stop it. */
  function Loaded(schema: Schema, env: Builder, file: Option<Builder>): State {
    var usr := FileBuilder(file);
    State(env, usr, Build(schema, Merge(env, usr)), Overrides(schema.items, env, usr), file)
  }

  /** The user layer an update asks for. */
  function Requested(schema: Schema, s: State, op: Op): Builder
    requires !op.DeleteUser?
  {
    match op
    case Update(other, ignore, _) => if ignore then EditablePart(schema.items, other) else other
    case UpdatePartial(other, _) => Merge(s.usr, other)
  }

  predicate Acceptable(schema: Schema, s: State, op: Op)
    requires !op.DeleteUser?
  {
    schema.valid(Build(schema, Merge(s.env, Requested(schema, s, op))))
  }

  function Apply(schema: Schema, s: State, op: Op): State {
    match op
    case DeleteUser(deleted) =>
      if deleted then State(s.env, map[], Build(schema, s.env), [], None) else s
    case _ =>
      if !Acceptable(schema, s, op) then s
      else
        var usr := Requested(schema, s, op);
        State(s.env, usr, Build(schema, Merge(s.env, usr)), Overrides(schema.items, s.env, usr),
              if op.stored then Some(usr) else s.file)
  }

  function Runs(schema: Schema, s: State, ops: seq<Op>): State
    decreases |ops|
  {
    if ops == [] then s else Runs(schema, Apply(schema, s, ops[0]), ops[1..])
  }

  /** The effective configuration is the build of both layers, and the override list is theirs. */
  predicate InStep(schema: Schema, s: State) {
    s.config == Build(schema, Merge(s.env, s.usr)) && s.overrides == Overrides(schema.items, s.env, s.usr)
  }

  /** No update ever puts a configuration in force that does not validate: starting from a valid
      one, with an environment that is valid by itself, every run of operations stays valid. */
  lemma {:induction false} InForceIsValid(schema: Schema, s: State, ops: seq<Op>)
    requires InStep(schema, s) && schema.valid(s.config) && schema.valid(Build(schema, s.env))
    ensures schema.valid(Runs(schema, s, ops).config)
    decreases |ops|
  {
    if ops != [] {
      OperationsStayInStep(schema, s, [ops[0]]);
      assert [ops[0]][1..] == [];
      InForceIsValid(schema, Apply(schema, s, ops[0]), ops[1..]);
    }
  }

  /** A restart would find the user layer that is in force. */
  predicate Persisted(s: State) {
    FileBuilder(s.file) == s.usr
  }

  lemma {:induction false} NothingOverridden(items: seq<Item>, b: Builder)
    ensures Overrides(items, b, map[]) == []
  {
    if items != [] { NothingOverridden(items[1..], b); }
  }

  lemma {:induction false} OperationsStayInStep(schema: Schema, s: State, ops: seq<Op>)
    requires InStep(schema, s)
    ensures InStep(schema, Runs(schema, s, ops)) && Runs(schema, s, ops).env == s.env
    decreases |ops|
  {
    if ops != [] {
      NothingOverridden(schema.items, s.env);
      assert Merge(s.env, map[]) == s.env;
      OperationsStayInStep(schema, Apply(schema, s, ops[0]), ops[1..]);
    }
  }

  /** After any operations on a loaded configuration: the effective configuration is the build
      of the environment under the user layer, and the override list has exactly the options
      set in both. */
  lemma EffectiveConfiguration(schema: Schema, env: Builder, file: Option<Builder>, ops: seq<Op>)
    requires Distinct(schema.items) && Known(schema.items, env)
    ensures var s := Runs(schema, Loaded(schema, env, file), ops);
            && s.env == env
            && s.config == Build(schema, Merge(env, s.usr))
            && (forall n :: n in s.overrides <==> n in env && n in s.usr)
  {
    var s := Runs(schema, Loaded(schema, env, file), ops);
    OperationsStayInStep(schema, Loaded(schema, env, file), ops);
    OverridesExact(schema.items, env, s.usr);
  }

  /** The layer an operation puts in force when it is not refused. */
  function Asked(schema: Schema, s: State, op: Op): Builder {
    if op.DeleteUser? then map[] else Requested(schema, s, op)
  }

  /** The operation changes the file. */
  predicate Reaches(schema: Schema, s: State, op: Op) {
    if op.DeleteUser? then op.deleted else op.stored && Acceptable(schema, s, op)
  }

  predicate NoneReaches(schema: Schema, s: State, ops: seq<Op>)
    decreases |ops|
  {
    ops == [] || (!Reaches(schema, s, ops[0]) && NoneReaches(schema, Apply(schema, s, ops[0]), ops[1..]))
  }

  /** From a state that a restart would restore, it restores what an operation leaves if and only
      if the operation removes the user layer, is stored, is refused, or asks for what is in
      force: an update whose file write fails is in force although it reports an error. */
  lemma RestartRestoresExactly(schema: Schema, s: State, op: Op)
    requires InStep(schema, s) && Persisted(s)
    ensures var t := Apply(schema, s, op);
            Loaded(schema, t.env, t.file) == t <==>
              op.DeleteUser? || op.stored || !Acceptable(schema, s, op) || Requested(schema, s, op) == s.usr
  {
    OperationsStayInStep(schema, s, [op]);
    assert [op][1..] == [];
  }

  lemma {:induction false} UnreachedFileStays(schema: Schema, s: State, ops: seq<Op>)
    requires NoneReaches(schema, s, ops)
    ensures Runs(schema, s, ops).file == s.file
    decreases |ops|
  {
    if ops != [] { UnreachedFileStays(schema, Apply(schema, s, ops[0]), ops[1..]); }
  }

  lemma {:induction false} RunsConcat(schema: Schema, s: State, ops: seq<Op>, ops': seq<Op>)
    ensures Runs(schema, s, ops + ops') == Runs(schema, Runs(schema, s, ops), ops')
    decreases |ops|
  {
    if ops == [] {
      assert ops + ops' == ops';
    } else {
      assert (ops + ops')[1..] == ops[1..] + ops';
      RunsConcat(schema, Apply(schema, s, ops[0]), ops[1..], ops');
    }
  }

  /** Over runs: with `op` the last operation to reach the file, whatever came before it, a restart
      restores the end of the run if and only if the layer then in force is the one `op` asked
      for. */
  lemma RestartRestoresRuns(schema: Schema, s: State, before: seq<Op>, op: Op, after: seq<Op>)
    requires InStep(schema, s)
    requires var s1 := Runs(schema, s, before);
             Reaches(schema, s1, op) && NoneReaches(schema, Apply(schema, s1, op), after)
    ensures var t := Runs(schema, s, before + [op] + after);
            Loaded(schema, t.env, t.file) == t <==> t.usr == Asked(schema, Runs(schema, s, before), op)
  {
    var s1 := Runs(schema, s, before);
    assert [op][1..] == [];
    RunsConcat(schema, s, before, [op]);
    RunsConcat(schema, s, before + [op], after);
    OperationsStayInStep(schema, s, before + [op] + after);
    UnreachedFileStays(schema, Apply(schema, s1, op), after);
  }

  /** An update changes nothing exactly when it is refused or asks for what is in force and in
      the file. */
  lemma RefusedUpdateChangesNothing(schema: Schema, s: State, op: Op)
    requires InStep(schema, s) && !op.DeleteUser?
    ensures Apply(schema, s, op) == s
            <==> !Acceptable(schema, s, op)
                 || (Requested(schema, s, op) == s.usr && (op.stored ==> s.file == Some(s.usr)))
  {
  }

  /** Two partial updates are one update with both, the later winning. */
  lemma PartialUpdatesCompose(schema: Schema, s: State, a: Builder, b: Builder)
    requires Acceptable(schema, s, UpdatePartial(a, true))
    ensures Apply(schema, Apply(schema, s, UpdatePartial(a, true)), UpdatePartial(b, true))
            == if Acceptable(schema, s, UpdatePartial(Merge(a, b), true))
               then Apply(schema, s, UpdatePartial(Merge(a, b), true))
               else Apply(schema, s, UpdatePartial(a, true))
  {
    var s1 := Apply(schema, s, UpdatePartial(a, true));
    MergeAssociative(s.usr, a, b);
    assert s1.usr == Merge(s.usr, a) && s1.env == s.env;
    assert Requested(schema, s1, UpdatePartial(b, true)) == Requested(schema, s, UpdatePartial(Merge(a, b), true));
  }

  /** The server itself, rather than the administrator, asks to set the option. */
  predicate SetsItself(op: Op, n: Name) {
    || (op.Update? && !op.ignoreNonEditable && n in op.other)
    || (op.UpdatePartial? && n in op.other)
  }

  lemma {:induction false} FixedOptionStaysUnset(schema: Schema, s: State, ops: seq<Op>, n: Name)
    requires n !in s.usr && !Editable(schema.items, n) && forall op | op in ops :: !SetsItself(op, n)
    ensures n !in Runs(schema, s, ops).usr
    decreases |ops|
  {
    if ops != [] {
      assert !SetsItself(ops[0], n);
      FixedOptionStaysUnset(schema, Apply(schema, s, ops[0]), ops[1..], n);
    }
  }

  /** From an administrator's update on, whatever the user layer was before and whatever updates
      and deletions follow: an option that is not editable has in the effective configuration
      the value the environment gives it, unless the server sets it itself. */
  lemma AdminCannotTouchFixedOptions(schema: Schema, s: State, other: Builder, stored: bool, ops: seq<Op>, n: Name)
    requires InStep(schema, s) && Acceptable(schema, s, Update(other, true, stored))
    requires Distinct(schema.items) && Declared(schema.items, n) && !Editable(schema.items, n) && n in s.env
    requires forall i | 0 <= i < |schema.items| && schema.items[i].name == n :: !schema.items[i].action.Generated?
    requires forall op | op in ops :: !SetsItself(op, n)
    ensures var t := Runs(schema, Apply(schema, s, Update(other, true, stored)), ops);
            && n !in t.usr
            && (FinishKeeps(schema, Merge(t.env, t.usr), n) ==> n in t.config && t.config[n] == s.env[n])
  {
    var s1 := Apply(schema, s, Update(other, true, stored));
    var t := Runs(schema, s1, ops);
    FixedOptionStaysUnset(schema, s1, ops, n);
    OperationsStayInStep(schema, s1, ops);
    if FinishKeeps(schema, Merge(t.env, t.usr), n) { SetOptionsWin(schema, Merge(t.env, t.usr), n); }
  }

  /** The locked configuration. */
  class Config {
    const schema: Schema
    var env: Builder
    var usr: Builder
    var config: Items
    var overrides: seq<Name>
    var file: Option<Builder>

    ghost function View(): State
      reads this
    {
      State(env, usr, config, overrides, file)
    }

    constructor (schema: Schema, env: Builder, file: Option<Builder>)
      requires file.Some? ==> Known(schema.items, file.value)
      ensures this.schema == schema && View() == Loaded(schema, env, file)
    {
      this.schema, this.env, this.file := schema, env, file;
      var user := if file.Some? then file.value else map[];
      this.usr := user;
      var merged, os := MergeLayers(schema.items, env, user);
      var built := BuildItems(schema, merged);
      this.config, this.overrides := built, os;
    }

    method UpdateConfig(other: Builder, ignoreNonEditable: bool, stored: bool) returns (ok: bool)
      requires Known(schema.items, other)
      modifies this
      ensures View() == Apply(schema, old(View()), Update(other, ignoreNonEditable, stored))
      ensures ok <==> stored && Acceptable(schema, old(View()), Update(other, ignoreNonEditable, stored))
    {
      var builder := other;
      if ignoreNonEditable {
        builder := ClearNonEditable(schema.items, builder);
      }
      var merged, os := MergeLayers(schema.items, env, builder);
      var built := BuildItems(schema, merged);
      if !schema.valid(built) { return false; }
      config, usr, overrides := built, builder, os;
      if stored {
        file := Some(builder);
      }
      ok := stored;
    }

    method UpdateConfigPartial(other: Builder, stored: bool) returns (ok: bool)
      requires Known(schema.items, other) && Known(schema.items, usr)
      modifies this
      ensures View() == Apply(schema, old(View()), UpdatePartial(other, stored))
      ensures ok <==> stored && Acceptable(schema, old(View()), UpdatePartial(other, stored))
    {
      var merged, _ := MergeLayers(schema.items, usr, other);
      ok := UpdateConfig(merged, false, stored);
    }

    method DeleteUserConfig(deleted: bool) returns (ok: bool)
      modifies this
      ensures View() == Apply(schema, old(View()), DeleteUser(deleted))
      ensures ok <==> deleted
    {
      if !deleted { return false; }
      file := None;
      var built := BuildItems(schema, env);
      config, usr, overrides := built, map[], [];
      ok := true;
    }
  }
}
