/**
 * Owner-selected processing providers and the permission check made before every provider call and
 * every write: memory-processing-config.service.ts and processing-permission.service.ts in
 * apps/api/src/memory-processing.
 */
module Processing {
  import opened Common

  datatype Scope = Extraction | Consolidation

  datatype System = System1 | System2

  datatype Processor = Typesafe | Openai

  /** Deployment settings: which keys exist and which defaults are configured. */
  datatype Env = Env(
    openaiKey: bool,
    typesafeKey: bool,
    extractionSystem: Option<System>,
    consolidationSystem: Option<System>
  )

  datatype Preference = Preference(scope: Option<Scope>, system: Option<System>)

  function DefaultSystem(env: Env, scope: Scope): System {
    match scope
    case Extraction =>
      if env.extractionSystem.Some? then env.extractionSystem.value
      else if env.typesafeKey && env.openaiKey then System1 else System2
    case Consolidation =>
      if env.consolidationSystem.Some? then env.consolidationSystem.value
      else if env.typesafeKey then System1 else System2
  }

  function Processors(scope: Scope, system: System): seq<Processor> {
    match (scope, system)
    case (Extraction, System1) => [Typesafe, Openai]
    case (Consolidation, System1) => [Typesafe]
    case (_, System2) => [Openai]
  }

  predicate Available(env: Env, scope: Scope, system: System) {
    match (scope, system)
    case (Extraction, System1) => env.openaiKey && env.typesafeKey
    case (Extraction, System2) => env.openaiKey
    case (Consolidation, System1) => env.typesafeKey
    case (Consolidation, System2) => env.openaiKey
  }

  predicate ValidRows(rows: seq<Preference>) {
    forall i :: 0 <= i < |rows| ==> rows[i].scope.Some? && rows[i].system.Some?
  }

  /** The system selected by the last saved row of a scope, or the deployment default. */
  function Selected(env: Env, rows: seq<Preference>, scope: Scope): System
    requires ValidRows(rows)
  {
    if rows == [] then DefaultSystem(env, scope)
    else if rows[|rows| - 1].scope.value == scope then rows[|rows| - 1].system.value
    else Selected(env, rows[..|rows| - 1], scope)
  }

  /** `forUser`: None stands for the exception an unreadable row raises. */
  method ForUser(env: Env, rows: seq<Preference>) returns (selected: Option<map<Scope, System>>)
    ensures selected.Some? <==> ValidRows(rows)
    ensures selected.Some? ==> forall scope: Scope ::
              scope in selected.value && selected.value[scope] == Selected(env, rows, scope)
  {
    var systems := map[Extraction := DefaultSystem(env, Extraction), Consolidation := DefaultSystem(env, Consolidation)];
    for i := 0 to |rows|
      invariant ValidRows(rows[..i])
      invariant Extraction in systems && systems[Extraction] == Selected(env, rows[..i], Extraction)
      invariant Consolidation in systems && systems[Consolidation] == Selected(env, rows[..i], Consolidation)
    {
      if rows[i].scope.None? || rows[i].system.None? {
        return None;
      }
      systems := systems[rows[i].scope.value := rows[i].system.value];
      assert rows[..i + 1][..i] == rows[..i];
    }
    assert rows[..|rows|] == rows;
    selected := Some(systems);
    forall scope: Scope
      ensures scope in systems && systems[scope] == Selected(env, rows, scope)
    {
      match scope case Extraction => case Consolidation =>
    }
  }

  /** The deployment holds the key the processor needs. */
  predicate HasKey(env: Env, p: Processor) {
    if p == Typesafe then env.typesafeKey else env.openaiKey
  }

  /**
   * A system is available exactly when every processor it uses has its key; the default is the configured one, and otherwise the first
   * system exactly when that is available; the first uses Typesafe, and for extraction OpenAI too, and the second OpenAI alone.
   */
  lemma SystemRules(env: Env, scope: Scope, system: System)
    ensures Available(env, scope, system) <==> forall p :: p in Processors(scope, system) ==> HasKey(env, p)
    ensures var configured := if scope == Extraction then env.extractionSystem else env.consolidationSystem;
            DefaultSystem(env, scope) == if configured.Some? then configured.value else if Available(env, scope, System1) then System1 else System2
    ensures forall p :: p in Processors(scope, system) <==> if p == Typesafe then system == System1 else system == System2 || scope == Extraction
  {
    assert [Typesafe, Openai][0] == Typesafe && [Typesafe, Openai][1] == Openai;
    assert Typesafe in Processors(scope, system) <==> system == System1;
    assert Openai in Processors(scope, system) <==> system == System2 || scope == Extraction;
  }

  /** The selected system of a scope is that of its last row. */
  lemma {:induction false} SelectedIsLast(env: Env, rows: seq<Preference>, scope: Scope, i: nat)
    requires ValidRows(rows) && i < |rows| && rows[i].scope == Some(scope)
    requires forall j :: i < j < |rows| ==> rows[j].scope != Some(scope)
    ensures Selected(env, rows, scope) == rows[i].system.value
  {
    if i < |rows| - 1 {
      SelectedIsLast(env, rows[..|rows| - 1], scope, i);
    }
  }

  /** Without a row of its own the scope has the default. */
  lemma {:induction false} SelectedDefault(env: Env, rows: seq<Preference>, scope: Scope)
    requires ValidRows(rows) && forall i :: 0 <= i < |rows| ==> rows[i].scope != Some(scope)
    ensures Selected(env, rows, scope) == DefaultSystem(env, scope)
  {
    if rows != [] {
      SelectedDefault(env, rows[..|rows| - 1], scope);
    }
  }

  datatype Verdict = Allowed | SecretLikeContent | ProviderChanged | ProviderNotConfigured

  /** `check` against the owner's currently selected system of a scope. */
  function Check(env: Env, scope: Scope, selected: System, processors: seq<Processor>, secretLike: bool): Verdict {
    if secretLike then SecretLikeContent
    else if Processors(scope, selected) != processors then ProviderChanged
    else if !Available(env, scope, selected) then ProviderNotConfigured
    else Allowed
  }

  /** Work done under one system passes the check exactly while the owner still selects it and it is configured. */
  lemma CheckTracksSelection(env: Env, scope: Scope, selected: System, worker: System, secretLike: bool)
    ensures Check(env, scope, selected, Processors(scope, worker), secretLike).Allowed? <==>
            !secretLike && selected == worker && Available(env, scope, worker)
  {
  }

  /** The first of the three checks that fails decides: secrets, the processors of the selected system, and their keys. */
  lemma VerdictIs(env: Env, scope: Scope, selected: System, processors: seq<Processor>, secretLike: bool)
    ensures var verdict := Check(env, scope, selected, processors, secretLike);
            && (verdict == SecretLikeContent <==> secretLike)
            && (verdict == ProviderChanged <==> !secretLike && processors != Processors(scope, selected))
            && (verdict == ProviderNotConfigured <==>
                  !secretLike && processors == Processors(scope, selected) && exists p :: p in processors && !HasKey(env, p))
  {
    SystemRules(env, scope, selected);
  }

  datatype Choice = Saved | NotConfigured | Unreadable

  /** The table has one row per scope; how many rows no scope can be read from does not matter. */
  predicate OneRowPerScope(rows: seq<Preference>) {
    forall i, j :: 0 <= i < j < |rows| && rows[i].scope.Some? ==> rows[i].scope != rows[j].scope
  }

  /**
   * `setProvider` never saves a system that is not configured, changes nothing when some row is unreadable,
   * and otherwise makes the system the selected one of its scope alone.
   */
  method SetProvider(env: Env, rows: seq<Preference>, scope: Scope, system: System)
    returns (choice: Choice, saved: seq<Preference>)
    requires OneRowPerScope(rows)
    ensures choice.NotConfigured? <==> !Available(env, scope, system)
    ensures choice.Unreadable? <==> Available(env, scope, system) && !ValidRows(rows)
    ensures !choice.Saved? ==> saved == rows
    ensures choice.Saved? ==> ValidRows(saved) && Selected(env, saved, scope) == system
    ensures choice.Saved? ==> forall other :: other != scope ==> Selected(env, saved, other) == Selected(env, rows, other)
    ensures OneRowPerScope(saved)
  {
    saved := rows;
    if !Available(env, scope, system) {
      return NotConfigured, rows;
    }
    var at := FindRow(rows, scope);
    if at < |rows| && rows[at].system == Some(system) {
      var current := ForUser(env, rows);
      if current.None? {
        return Unreadable, rows;
      }
      assert rows[at := Preference(rows[at].scope, Some(system))] == rows;
      SelectedUpdate(env, rows, at, system);
      return Saved, rows;
    }
    var previous := ForUser(env, rows);
    if previous.None? {
      return Unreadable, rows;
    }
    choice := Saved;
    var row := Preference(Some(scope), Some(system));
    if at < |rows| {
      saved := rows[at := row];
      SelectedUpdate(env, rows, at, system);
    } else {
      saved := rows + [row];
      assert saved[..|rows|] == rows;
    }
  }

  /** The position of the row of a scope, or the number of rows. */
  method FindRow(rows: seq<Preference>, scope: Scope) returns (at: nat)
    ensures at <= |rows| && (at < |rows| ==> rows[at].scope == Some(scope))
    ensures at == |rows| ==> forall i :: 0 <= i < |rows| ==> rows[i].scope != Some(scope)
  {
    for i := 0 to |rows|
      invariant forall k :: 0 <= k < i ==> rows[k].scope != Some(scope)
    {
      if rows[i].scope == Some(scope) {
        return i;
      }
    }
    at := |rows|;
  }

  lemma {:induction false} SelectedUpdate(env: Env, rows: seq<Preference>, i: nat, system: System)
    requires ValidRows(rows) && i < |rows|
    requires forall j, k :: 0 <= j < k < |rows| ==> rows[j].scope != rows[k].scope
    ensures var saved := rows[i := Preference(rows[i].scope, Some(system))];
            Selected(env, saved, rows[i].scope.value) == system &&
            forall other :: other != rows[i].scope.value ==> Selected(env, saved, other) == Selected(env, rows, other)
  {
  }
}
