/**
 Overlapping configuration changes (src/config.rs, `update_config`, `update_config_partial` and
 `delete_user_config`). An update reads and validates, then replaces the three locked fields at
 once, then writes the file; a deletion removes the file, then replaces the fields. Other
 operations run in between.
 */
module ConfigRuns {
  import opened Common
  import opened LayeredConfig

  type OpId = nat

  /** An operation between its parts: validated, in force but not yet in the file, or with the
      file removed but the old layer still in force. */
  datatype Flight = Checked(usr: Builder) | Installed(usr: Builder) | Unlinked

  datatype Shared = Shared(state: State, flights: map<OpId, Flight>)

  datatype Step =
    | StartUpdate(u: OpId, other: Builder, ignoreNonEditable: bool)
    | StartPartial(u: OpId, other: Builder)
    | Install(u: OpId)
    | SaveFile(u: OpId, stored: bool)
    | DeleteFile(u: OpId, deleted: bool)
    | Clear(u: OpId)

  predicate Possible(s: Shared, e: Step) {
    match e
    case StartUpdate(u, _, _) => u !in s.flights
    case StartPartial(u, _) => u !in s.flights
    case Install(u) => u in s.flights && s.flights[u].Checked?
    case SaveFile(u, _) => u in s.flights && s.flights[u].Installed?
    case DeleteFile(u, _) => u !in s.flights
    case Clear(u) => u in s.flights && s.flights[u].Unlinked?
  }

  /** The operation a first step starts. */
  function Started(e: Step): Op
    requires e.StartUpdate? || e.StartPartial?
  {
    if e.StartUpdate? then Update(e.other, e.ignoreNonEditable, true) else UpdatePartial(e.other, true)
  }

  /** The three fields under the lock. */
  function InForce(schema: Schema, s: State, usr: Builder): State {
    s.(usr := usr, config := Build(schema, Merge(s.env, usr)), overrides := Overrides(schema.items, s.env, usr))
  }

  function Apply(schema: Schema, s: Shared, e: Step): Shared
    requires Possible(s, e)
  {
    match e
    case Install(u) =>
      var usr := s.flights[u].usr;
      Shared(InForce(schema, s.state, usr), s.flights[u := Installed(usr)])
    case SaveFile(u, stored) =>
      var file := if stored then Some(s.flights[u].usr) else s.state.file;
      Shared(s.state.(file := file), s.flights - {u})
    case DeleteFile(u, deleted) =>
      if deleted then Shared(s.state.(file := None), s.flights[u := Unlinked]) else s
    case Clear(u) =>
      var cleared := s.state.(usr := map[], config := Build(schema, s.state.env), overrides := []);
      Shared(cleared, s.flights - {u})
    case _ =>
      if !Acceptable(schema, s.state, Started(e)) then s
      else s.(flights := s.flights[e.u := Checked(Requested(schema, s.state, Started(e)))])
  }

  predicate Run(schema: Schema, s: Shared, es: seq<Step>)
    decreases |es|
  {
    es == [] || (Possible(s, es[0]) && Run(schema, Apply(schema, s, es[0]), es[1..]))
  }

  function After(schema: Schema, s: Shared, es: seq<Step>): Shared
    requires Run(schema, s, es)
    decreases |es|
  {
    if es == [] then s else After(schema, Apply(schema, s, es[0]), es[1..])
  }

  lemma RunCons(schema: Schema, s: Shared, e: Step, es: seq<Step>)
    requires Possible(s, e) && Run(schema, Apply(schema, s, e), es)
    ensures Run(schema, s, [e] + es) && After(schema, s, [e] + es) == After(schema, Apply(schema, s, e), es)
  {
    assert ([e] + es)[1..] == es;
  }

  lemma Run2(schema: Schema, s: Shared, a: Step, b: Step)
    requires Possible(s, a) && Possible(Apply(schema, s, a), b)
    ensures Run(schema, s, [a, b]) && After(schema, s, [a, b]) == Apply(schema, Apply(schema, s, a), b)
  {
    RunCons(schema, Apply(schema, s, a), b, []);
    RunCons(schema, s, a, [b]);
    assert [a] + [b] == [a, b];
  }

  lemma Run3(schema: Schema, s: Shared, a: Step, b: Step, c: Step)
    requires Possible(s, a) && Possible(Apply(schema, s, a), b)
    requires Possible(Apply(schema, Apply(schema, s, a), b), c)
    ensures Run(schema, s, [a, b, c])
    ensures After(schema, s, [a, b, c]) == Apply(schema, Apply(schema, Apply(schema, s, a), b), c)
  {
    Run2(schema, Apply(schema, s, a), b, c);
    RunCons(schema, s, a, [b, c]);
    assert [a] + [b, c] == [a, b, c];
  }

  // ---------------------------------------------------------------- what overlapping keeps

  lemma StepStaysInStep(schema: Schema, s: Shared, e: Step)
    requires InStep(schema, s.state) && Possible(s, e)
    ensures InStep(schema, Apply(schema, s, e).state) && Apply(schema, s, e).state.env == s.state.env
  {
    NothingOverridden(schema.items, s.state.env);
    assert Merge(s.state.env, map[]) == s.state.env;
  }

  lemma {:induction false} RunStaysInStep(schema: Schema, s: Shared, es: seq<Step>)
    requires InStep(schema, s.state) && Run(schema, s, es)
    ensures InStep(schema, After(schema, s, es).state) && After(schema, s, es).state.env == s.state.env
    decreases |es|
  {
    if es != [] {
      StepStaysInStep(schema, s, es[0]);
      RunStaysInStep(schema, Apply(schema, s, es[0]), es[1..]);
    }
  }

  /** However operations overlap, the effective configuration is the build of the environment
      under one user layer, and the override list has exactly the options set in both. */
  lemma OverlapKeepsEffective(schema: Schema, env: Builder, file: Option<Builder>, es: seq<Step>)
    requires Distinct(schema.items) && Known(schema.items, env)
    requires Run(schema, Shared(Loaded(schema, env, file), map[]), es)
    ensures var s := After(schema, Shared(Loaded(schema, env, file), map[]), es).state;
            && s.env == env
            && s.config == Build(schema, Merge(env, s.usr))
            && (forall n :: n in s.overrides <==> n in env && n in s.usr)
  {
    var start := Shared(Loaded(schema, env, file), map[]);
    RunStaysInStep(schema, start, es);
    OverridesExact(schema.items, env, After(schema, start, es).state.usr);
  }

  /** An undisturbed operation is the single step of `LayeredConfig`. */
  lemma UndisturbedUpdate(schema: Schema, s: Shared, e: Step, op: Op, stored: bool)
    requires || (e.StartUpdate? && op == Update(e.other, e.ignoreNonEditable, stored))
             || (e.StartPartial? && op == UpdatePartial(e.other, stored))
    requires e.u !in s.flights && Acceptable(schema, s.state, op)
    ensures var es := [e, Install(e.u), SaveFile(e.u, stored)];
            && Run(schema, s, es)
            && After(schema, s, es) == s.(state := LayeredConfig.Apply(schema, s.state, op))
  {
    Run3(schema, s, e, Install(e.u), SaveFile(e.u, stored));
    assert After(schema, s, [e, Install(e.u), SaveFile(e.u, stored)]).flights == s.flights;
  }

  lemma UndisturbedDelete(schema: Schema, s: Shared, u: OpId)
    requires u !in s.flights
    ensures var es := [DeleteFile(u, true), Clear(u)];
            && Run(schema, s, es)
            && After(schema, s, es) == s.(state := LayeredConfig.Apply(schema, s.state, DeleteUser(true)))
  {
    Run2(schema, s, DeleteFile(u, true), Clear(u));
    assert After(schema, s, [DeleteFile(u, true), Clear(u)]).flights == s.flights;
  }

  // ---------------------------------------------------------------- lost partial updates

  function Outside(b: Builder, other: Builder): Builder {
    b - other.Keys
  }

  lemma MergesAgreeExactly(read: Builder, usr: Builder, other: Builder)
    ensures Merge(read, other) == Merge(usr, other) <==> Outside(read, other) == Outside(usr, other)
  {
    var one, two := Merge(read, other), Merge(usr, other);
    assert Outside(one, other) == Outside(read, other);
    assert Outside(two, other) == Outside(usr, other);
    if Outside(read, other) == Outside(usr, other) {
      assert one == Merge(Outside(read, other), other);
      assert two == Merge(Outside(usr, other), other);
    }
  }

  lemma {:induction false} FlightStays(schema: Schema, s: Shared, es: seq<Step>, u: OpId)
    requires Run(schema, s, es) && u in s.flights && forall e | e in es :: e.u != u
    ensures u in After(schema, s, es).flights && After(schema, s, es).flights[u] == s.flights[u]
    decreases |es|
  {
    if es != [] {
      assert es[0] in es;
      FlightStays(schema, Apply(schema, s, es[0]), es[1..], u);
    }
  }

  /** Whatever other operations do between the start of a partial update and its taking the lock:
      it adds its options to the layer then in force if and only if that layer agrees, on all
      other options, with the one in force when it started. */
  lemma PartialInstallsExactly(schema: Schema, s: Shared, u: OpId, other: Builder, es: seq<Step>)
    requires u !in s.flights && Acceptable(schema, s.state, UpdatePartial(other, true))
    requires Run(schema, Apply(schema, s, StartPartial(u, other)), es) && forall e | e in es :: e.u != u
    ensures var t := After(schema, Apply(schema, s, StartPartial(u, other)), es);
            && Possible(t, Install(u))
            && (Apply(schema, t, Install(u)).state.usr == Merge(t.state.usr, other)
                <==> Outside(s.state.usr, other) == Outside(t.state.usr, other))
  {
    var s1 := Apply(schema, s, StartPartial(u, other));
    FlightStays(schema, s1, es, u);
    MergesAgreeExactly(s.state.usr, After(schema, s1, es).state.usr, other);
  }

  /** So of two overlapping partial updates the first is undone: its options are back to what
      they were, but for those the second sets too. */
  lemma PartialUpdateCanBeLost(schema: Schema, s: Shared, u: OpId, v: OpId, a: Builder, b: Builder)
    requires u != v && u !in s.flights && v !in s.flights
    requires Acceptable(schema, s.state, UpdatePartial(a, true)) && Acceptable(schema, s.state, UpdatePartial(b, true))
    ensures var es := [StartPartial(u, a)] + [StartPartial(v, b), Install(u), Install(v)];
            && Run(schema, s, es)
            && Outside(After(schema, s, es).state.usr, b) == Outside(s.state.usr, b)
  {
    var s1 := Apply(schema, s, StartPartial(u, a));
    Run3(schema, s1, StartPartial(v, b), Install(u), Install(v));
    RunCons(schema, s, StartPartial(u, a), [StartPartial(v, b), Install(u), Install(v)]);
  }

  // ---------------------------------------------------------------- what a restart restores

  predicate Halfway(f: Flight) {
    f.Installed? || f.Unlinked?
  }

  /** The layer the operation leaves. */
  function Layer(f: Flight): Builder {
    if f.Unlinked? then map[] else f.usr
  }

  predicate Quiet(s: Shared) {
    forall u | u in s.flights :: !Halfway(s.flights[u])
  }

  /** No operation enters its second half while another is in it with a different layer, and a
      file write fails only if the file has the layer anyway. */
  predicate Guard(s: Shared, e: Step)
    requires Possible(s, e)
  {
    match e
    case Install(u) =>
      forall v | v in s.flights && Halfway(s.flights[v]) :: Layer(s.flights[v]) == s.flights[u].usr
    case DeleteFile(u, deleted) =>
      deleted ==> forall v | v in s.flights && Halfway(s.flights[v]) :: Layer(s.flights[v]) == map[]
    case SaveFile(u, stored) => stored || FileBuilder(s.state.file) == s.flights[u].usr
    case _ => true
  }

  predicate Guarded(schema: Schema, s: Shared, es: seq<Step>)
    requires Run(schema, s, es)
    decreases |es|
  {
    es == [] || (Guard(s, es[0]) && Guarded(schema, Apply(schema, s, es[0]), es[1..]))
  }

  predicate FlightFits(s: Shared, f: Flight) {
    && (f.Installed? ==> s.state.usr == f.usr)
    && (f.Unlinked? ==> FileBuilder(s.state.file) == map[])
  }

  ghost predicate Fits(s: Shared) {
    && (forall u, v | u in s.flights && v in s.flights && Halfway(s.flights[u]) && Halfway(s.flights[v]) ::
          Layer(s.flights[u]) == Layer(s.flights[v]))
    && (forall u | u in s.flights :: FlightFits(s, s.flights[u]))
    && (Quiet(s) ==> Persisted(s.state))
  }

  lemma InstallKeepsFits(schema: Schema, s: Shared, e: Step)
    requires Fits(s) && Possible(s, e) && Guard(s, e) && (e.Install? || e.DeleteFile?)
    ensures Fits(Apply(schema, s, e))
  {
    var s' := Apply(schema, s, e);
    if s' != s {
      assert Halfway(s'.flights[e.u]);
      forall v | v in s'.flights ensures FlightFits(s', s'.flights[v]) {
        if v != e.u { assert FlightFits(s, s.flights[v]); }
      }
    }
  }

  lemma FinishKeepsFits(schema: Schema, s: Shared, e: Step)
    requires Fits(s) && Possible(s, e) && Guard(s, e) && (e.SaveFile? || e.Clear?)
    ensures Fits(Apply(schema, s, e))
  {
    var s' := Apply(schema, s, e);
    assert FlightFits(s, s.flights[e.u]);
    forall v | v in s'.flights ensures FlightFits(s', s'.flights[v]) { assert FlightFits(s, s.flights[v]); }
  }

  lemma StartKeepsFits(schema: Schema, s: Shared, e: Step)
    requires Fits(s) && Possible(s, e) && (e.StartUpdate? || e.StartPartial?)
    ensures Fits(Apply(schema, s, e))
  {
    var s' := Apply(schema, s, e);
    forall v | v in s'.flights ensures FlightFits(s', s'.flights[v]) {
      if v in s.flights { assert FlightFits(s, s.flights[v]); }
    }
    if Quiet(s') {
      forall v | v in s.flights ensures !Halfway(s.flights[v]) { assert s'.flights[v] == s.flights[v]; }
    }
  }

  lemma {:induction false} GuardedRunKeepsFits(schema: Schema, s: Shared, es: seq<Step>)
    requires Fits(s) && Run(schema, s, es) && Guarded(schema, s, es)
    ensures Fits(After(schema, s, es))
    decreases |es|
  {
    if es != [] {
      var e := es[0];
      if e.Install? || e.DeleteFile? {
        InstallKeepsFits(schema, s, e);
      } else if e.SaveFile? || e.Clear? {
        FinishKeepsFits(schema, s, e);
      } else {
        StartKeepsFits(schema, s, e);
      }
      GuardedRunKeepsFits(schema, Apply(schema, s, e), es[1..]);
    }
  }

  /** In guarded runs a restart restores the configuration whenever no operation is in its
      second half. */
  lemma GuardedRunsArePersisted(schema: Schema, env: Builder, file: Option<Builder>, es: seq<Step>)
    requires Run(schema, Shared(Loaded(schema, env, file), map[]), es)
    requires Guarded(schema, Shared(Loaded(schema, env, file), map[]), es)
    requires Quiet(After(schema, Shared(Loaded(schema, env, file), map[]), es))
    ensures var s := After(schema, Shared(Loaded(schema, env, file), map[]), es).state;
            Loaded(schema, s.env, s.file) == s
  {
    var start := Shared(Loaded(schema, env, file), map[]);
    RunStaysInStep(schema, start, es);
    GuardedRunKeepsFits(schema, start, es);
  }

  predicate Alone(s: Shared, u: OpId) {
    u in s.flights && Halfway(s.flights[u]) && forall v | v in s.flights && Halfway(s.flights[v]) :: v == u
  }

  /** The guard on file writes is needed: a write that fails while the file has another layer
      leaves, in a state of guarded runs, a layer that a restart does not restore. */
  lemma WriteGuardIsNeeded(schema: Schema, s: Shared, u: OpId)
    requires Fits(s) && Alone(s, u) && s.flights[u].Installed? && !Guard(s, SaveFile(u, false))
    ensures var t := Apply(schema, s, SaveFile(u, false));
            Quiet(t) && !Persisted(t.state)
  {
    assert FlightFits(s, s.flights[u]);
  }

  /** How an operation in its second half ends when nothing fails. */
  function Ending(f: Flight, u: OpId): Step {
    if f.Unlinked? then Clear(u) else SaveFile(u, true)
  }

  /** The order of the two endings that leaves the file with one layer and the other in force:
      a deletion ends last, and of two updates the one installed first does. */
  function Endings(s: Shared, u: OpId, e: Step): seq<Step>
    requires u in s.flights
  {
    if e.Install? then [SaveFile(e.u, true), Ending(s.flights[u], u)]
    else [Ending(s.flights[u], u), Clear(e.u)]
  }

  /** The guard is needed: when a second half starts while exactly one other is under way, with
      a different layer, the two can end so that a restart restores the wrong layer. */
  lemma GuardIsNeeded(schema: Schema, s: Shared, u: OpId, e: Step)
    requires Alone(s, u) && Possible(s, e) && !Guard(s, e) && (e.Install? || e.DeleteFile?)
    ensures var es := [e] + Endings(s, u, e);
            && Run(schema, s, es) && Quiet(After(schema, s, es)) && !Persisted(After(schema, s, es).state)
  {
    var s1 := Apply(schema, s, e);
    var ends := Endings(s, u, e);
    assert u in s1.flights && s1.flights[u] == s.flights[u] && e.u != u;
    Run2(schema, s1, ends[0], ends[1]);
    assert ends == [ends[0], ends[1]];
    RunCons(schema, s, e, ends);
  }
}
