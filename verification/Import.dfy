/**
 * Restoring an exported vault: data-control/vault-import-writer.service.ts and import-mappers.ts in
 * apps/api/src, and the export schema in packages/shared/src/data-control.ts.
 */
module Import {
  import opened Common
  import opened Consolidation
  import opened ImportNames

  datatype ExportedClient = ExportedClient(id: nat, name: string)

  datatype ExportedPolicy = ExportedPolicy(clientId: nat, terms: nat)

  datatype Category = Category(key: string, definition: nat)

  datatype ExportedMemory = ExportedMemory(
    id: nat,
    content: nat,
    status: MemoryStatus,
    expiresAt: Option<int>,
    sourceClient: Option<nat>,
    categories: seq<Category>,
    categoryKeys: seq<string>
  )

  datatype Export = Export(
    categories: seq<Category>,
    memories: seq<ExportedMemory>,
    clients: seq<ExportedClient>,
    policies: seq<ExportedPolicy>
  )

  // ---------------------------------------------------------------- validation

  function ClientIds(clients: seq<ExportedClient>): set<nat> {
    set c | c in clients :: c.id
  }

  /** Every policy names an exported client, and no two the same. */
  predicate Validated(e: Export) {
    && (forall p :: p in e.policies ==> p.clientId in ClientIds(e.clients))
    && forall i, j :: 0 <= i < j < |e.policies| ==> e.policies[i].clientId != e.policies[j].clientId
  }

  predicate Misplaced(e: Export, i: int)
    requires 0 <= i < |e.policies|
  {
    e.policies[i].clientId !in ClientIds(e.clients) || exists j :: 0 <= j < i && e.policies[j].clientId == e.policies[i].clientId
  }

  /** The schema's refinement: an issue for every policy out of place. */
  method RefinePolicies(e: Export) returns (issues: seq<nat>)
    ensures forall i :: i in issues <==> 0 <= i < |e.policies| && Misplaced(e, i)
    ensures issues == [] <==> Validated(e)
  {
    var clients := ClientIds(e.clients);
    var seen: set<nat> := {};
    issues := [];
    for i := 0 to |e.policies|
      invariant seen == set j | 0 <= j < i :: e.policies[j].clientId
      invariant forall k :: k in issues <==> 0 <= k < i && Misplaced(e, k)
    {
      var policy := e.policies[i];
      if policy.clientId !in clients || policy.clientId in seen {
        issues := issues + [i];
      }
      seen := seen + {policy.clientId};
    }
    IssuesDecide(e, issues);
  }

  lemma IssuesDecide(e: Export, issues: seq<nat>)
    requires forall i :: i in issues <==> 0 <= i < |e.policies| && Misplaced(e, i)
    ensures issues == [] <==> Validated(e)
  {
    if issues == [] {
      forall i, j | 0 <= i < j < |e.policies|
        ensures e.policies[i].clientId != e.policies[j].clientId
      {
        assert j !in issues && !Misplaced(e, j);
      }
      forall p | p in e.policies
        ensures p.clientId in ClientIds(e.clients)
      {
        var i :| 0 <= i < |e.policies| && e.policies[i] == p;
        assert i !in issues && !Misplaced(e, i);
      }
    } else {
      assert issues[0] in issues && Misplaced(e, issues[0]);
    }
  }

  // ---------------------------------------------------------------- clients

  datatype NewClient = NewClient(id: nat, name: string, exportedId: nat)

  function LowerNames(clients: seq<NewClient>): set<string> {
    set c | c in clients :: Lower(c.name)
  }

  /** Names are distinct in lower case, from one another and from those claimed before. */
  predicate NamesApart(created: seq<NewClient>, existing: set<string>) {
    && (forall i, j :: 0 <= i < j < |created| ==> Lower(created[i].name) != Lower(created[j].name))
    && forall c :: c in created ==> Lower(c.name) !in existing
  }

  /** Where an exported client id leads: to the last client created for it. */
  function Remap(created: seq<NewClient>): map<nat, nat> {
    if created == [] then map[]
    else Remap(created[..|created| - 1])[created[|created| - 1].exportedId := created[|created| - 1].id]
  }

  ghost predicate MadeFrom(c: NewClient, exported: ExportedClient, id: nat) {
    c.id == id && c.exportedId == exported.id && IsNumbered(c.name, exported.name)
  }

  ghost predicate IsNumbered(name: string, base: string) {
    exists k: nat :: name == Numbered(base, k)
  }

  /** One new client per exported one, in order and named after it; names stay distinct and the map records the ids. */
  method ImportClients(existingNames: seq<string>, clients: seq<ExportedClient>, ids: seq<nat>)
    returns (created: seq<NewClient>, clientIdMap: map<nat, nat>)
    requires |ids| == |clients|
    ensures |created| == |clients|
    ensures forall i :: 0 <= i < |created| ==> MadeFrom(created[i], clients[i], ids[i])
    ensures NamesApart(created, LowerAll(existingNames))
    ensures clientIdMap == Remap(created)
  {
    hide Numbered, NamesApart, LowerAll, IsNumbered, LowerNames, Lower;
    ghost var existing := LowerAll(existingNames);
    var claimedNames := LowerAll(existingNames);
    created, clientIdMap := [], map[];
    NoNames(existing);
    for i := 0 to |clients|
      invariant |created| == i
      invariant forall k :: 0 <= k < i ==> MadeFrom(created[k], clients[k], ids[k])
      invariant NamesApart(created, existing) && claimedNames == existing + LowerNames(created)
      invariant clientIdMap == Remap(created)
    {
      var client := clients[i];
      var name, claimed, tries := UniqueImportName(client.name, claimedNames);
      var c := NewClient(ids[i], name, client.id);
      NumberedIs(name, client.name, tries);
      ApartSnoc(created, existing, c);
      assert (created + [c])[..i] == created;
      created := created + [c];
      claimedNames := claimed;
      clientIdMap := clientIdMap[client.id := c.id];
    }
  }

  function LowerAll(names: seq<string>): set<string> {
    set name | name in names :: Lower(name)
  }

  lemma NumberedIs(name: string, base: string, k: nat)
    requires name == Numbered(base, k)
    ensures IsNumbered(name, base)
  {
  }

  lemma NoNames(existing: set<string>)
    ensures NamesApart([], existing) && LowerNames([]) == {}
  {
  }

  lemma ApartSnoc(created: seq<NewClient>, existing: set<string>, c: NewClient)
    requires NamesApart(created, existing) && Lower(c.name) !in existing + LowerNames(created)
    ensures NamesApart(created + [c], existing)
    ensures LowerNames(created + [c]) == LowerNames(created) + {Lower(c.name)}
  {
  }

  function ExportedIds(created: seq<NewClient>): (ids: seq<nat>)
    ensures |ids| == |created| && forall i :: 0 <= i < |ids| ==> ids[i] == created[i].exportedId
  {
    if created == [] then [] else ExportedIds(created[..|created| - 1]) + [created[|created| - 1].exportedId]
  }

  predicate LeadsTo(created: seq<NewClient>, exportedId: nat, id: nat) {
    exists c :: c in created && c.exportedId == exportedId && c.id == id
  }

  /** An exported id leads to a client created for it. */
  lemma {:induction false} RemapSource(created: seq<NewClient>, x: nat)
    requires x in Remap(created)
    ensures LeadsTo(created, x, Remap(created)[x])
  {
    var n := |created| - 1;
    assert created[n] in created;
    if x != created[n].exportedId {
      RemapSource(created[..n], x);
      var c :| c in created[..n] && c.exportedId == x && c.id == Remap(created[..n])[x];
      assert c in created;
    }
  }

  /** Different exported ids lead to different new clients, even when an export repeats an id. */
  lemma RemapInjective(created: seq<NewClient>, x: nat, y: nat)
    requires forall i, j :: 0 <= i < j < |created| ==> created[i].id != created[j].id
    requires x in Remap(created) && y in Remap(created) && Remap(created)[x] == Remap(created)[y]
    ensures x == y
  {
    hide Remap;
    RemapSource(created, x);
    RemapSource(created, y);
    var c :| c in created && c.exportedId == x && c.id == Remap(created)[x];
    var d :| d in created && d.exportedId == y && d.id == Remap(created)[y];
    var i :| 0 <= i < |created| && created[i] == c;
    var j :| 0 <= j < |created| && created[j] == d;
    assert i == j;
  }

  lemma {:induction false} RemapKeys(created: seq<NewClient>)
    ensures Remap(created).Keys == Elements(ExportedIds(created))
  {
    if created != [] {
      var n := |created| - 1;
      RemapKeys(created[..n]);
      assert ExportedIds(created) == ExportedIds(created[..n]) + [created[n].exportedId];
    }
  }

  /** The reported number of created clients is the real one exactly when the exported ids are distinct. */
  lemma ClientCountIff(created: seq<NewClient>)
    ensures |Remap(created)| <= |created|
    ensures |Remap(created)| == |created| <==> Distinct(ExportedIds(created))
  {
    hide Remap;
    RemapKeys(created);
    DistinctIffCardinality(ExportedIds(created));
    assert |Remap(created)| == |Remap(created).Keys|;
  }

  // ---------------------------------------------------------------- policies

  datatype NewPolicy = NewPolicy(clientId: nat, terms: nat)

  /** None is the exception for a policy whose client is missing. */
  method ImportPolicies(policies: seq<ExportedPolicy>, clientIdMap: map<nat, nat>) returns (created: Option<seq<NewPolicy>>)
    ensures created.Some? <==> forall p :: p in policies ==> p.clientId in clientIdMap
    ensures created.Some? ==>
              |created.value| == |policies| &&
              forall i :: 0 <= i < |policies| ==> created.value[i] == NewPolicy(clientIdMap[policies[i].clientId], policies[i].terms)
  {
    var made: seq<NewPolicy> := [];
    for i := 0 to |policies|
      invariant |made| == i
      invariant forall k :: 0 <= k < i ==> policies[k].clientId in clientIdMap
      invariant forall k :: 0 <= k < i ==> made[k] == NewPolicy(clientIdMap[policies[k].clientId], policies[k].terms)
    {
      var policy := policies[i];
      if policy.clientId !in clientIdMap {
        assert policy in policies;
        return None;
      }
      made := made + [NewPolicy(clientIdMap[policy.clientId], policy.terms)];
    }
    created := Some(made);
  }

  /** One transaction creates clients and policies; None rolls everything back. */
  method ImportAccess(existingNames: seq<string>, e: Export, ids: seq<nat>)
    returns (result: Option<(seq<NewClient>, seq<NewPolicy>)>)
    requires |ids| == |e.clients| && Distinct(ids)
    ensures Validated(e) ==> result.Some?
    ensures result.Some? ==>
              NamesApart(result.value.0, LowerAll(existingNames)) &&
              |result.value.0| == |e.clients| && |result.value.1| == |e.policies|
    ensures result.Some? && Validated(e) ==> PoliciesPlaced(result.value.1, e, result.value.0)
  {
    hide NamesApart, LowerAll, Remap, PoliciesPlaced, IsNumbered;
    var created, clientIdMap := ImportClients(existingNames, e.clients, ids);
    RemapKeys(created);
    SameIds(created, e.clients);
    var policies := ImportPolicies(e.policies, clientIdMap);
    if policies.None? {
      return None;
    }
    result := Some((created, policies.value));
    if Validated(e) {
      forall i, j | 0 <= i < j < |created|
        ensures created[i].id != created[j].id
      {
        assert MadeFrom(created[i], e.clients[i], ids[i]) && MadeFrom(created[j], e.clients[j], ids[j]);
      }
      PlacedFrom(e, created, policies.value);
    }
  }

  lemma {:induction false} SameIds(created: seq<NewClient>, clients: seq<ExportedClient>)
    requires |created| == |clients| && forall i :: 0 <= i < |created| ==> created[i].exportedId == clients[i].id
    ensures Elements(ExportedIds(created)) == ClientIds(clients)
  {
  }

  /** Policy by policy: on a new client made for the client it named, and never two on the same one. */
  predicate PoliciesPlaced(policies: seq<NewPolicy>, e: Export, created: seq<NewClient>) {
    && |policies| == |e.policies|
    && (forall i, j :: 0 <= i < j < |policies| ==> policies[i].clientId != policies[j].clientId)
    && forall i :: 0 <= i < |policies| ==> policies[i].terms == e.policies[i].terms && PlacedOn(policies[i], e.policies[i], created)
  }

  predicate PlacedOn(policy: NewPolicy, exported: ExportedPolicy, created: seq<NewClient>) {
    exists c :: c in created && c.id == policy.clientId && c.exportedId == exported.clientId
  }

  predicate Mapped(policy: NewPolicy, exported: ExportedPolicy, created: seq<NewClient>) {
    exported.clientId in Remap(created) && policy == NewPolicy(Remap(created)[exported.clientId], exported.terms)
  }

  lemma PlacedFrom(e: Export, created: seq<NewClient>, policies: seq<NewPolicy>)
    requires Validated(e) && |policies| == |e.policies|
    requires forall i :: 0 <= i < |policies| ==> Mapped(policies[i], e.policies[i], created)
    requires forall i, j :: 0 <= i < j < |created| ==> created[i].id != created[j].id
    ensures PoliciesPlaced(policies, e, created)
  {
    hide Remap;
    forall i, j | 0 <= i < j < |policies|
      ensures policies[i].clientId != policies[j].clientId
    {
      assert Mapped(policies[i], e.policies[i], created) && Mapped(policies[j], e.policies[j], created);
      if policies[i].clientId == policies[j].clientId {
        RemapInjective(created, e.policies[i].clientId, e.policies[j].clientId);
      }
    }
    forall i | 0 <= i < |policies|
      ensures policies[i].terms == e.policies[i].terms && PlacedOn(policies[i], e.policies[i], created)
    {
      assert Mapped(policies[i], e.policies[i], created);
      RemapSource(created, e.policies[i].clientId);
    }
  }

  // ---------------------------------------------------------------- memories

  datatype Mode = Suggestions | ActiveMemories

  /** A memory row; `content` stands for kind, title, body, sensitivity, confidence, source uri and metadata. */
  datatype Restored = Restored(
    exportedId: nat,
    content: nat,
    status: MemoryStatus,
    expiresAt: Option<int>,
    sourceClient: Option<nat>,
    categoryKeys: seq<string>
  )

  /** A suggestion for review: the same content and deadline, and no source client. */
  datatype Suggested = Suggested(exportedId: nat, content: nat, expiresAt: Option<int>, categoryKeys: seq<string>)

  function Suggest(m: ExportedMemory): Suggested {
    Suggested(m.id, m.content, m.expiresAt, m.categoryKeys)
  }

  function ImportedActiveStatus(m: ExportedMemory, now: int): MemoryStatus {
    if m.status == ArchivedMemory then ArchivedMemory
    else if m.status == ExpiredMemory || (m.expiresAt.Some? && m.expiresAt.value <= now) then ExpiredMemory
    else ActiveMemory
  }

  function Restore(m: ExportedMemory, clientIdMap: map<nat, nat>, now: int): Restored {
    var source := if m.sourceClient.Some? && m.sourceClient.value in clientIdMap then Some(clientIdMap[m.sourceClient.value]) else None;
    Restored(m.id, m.content, ImportedActiveStatus(m, now), m.expiresAt, source, m.categoryKeys)
  }

  /** Only archived memories are restored directly when the import goes through review. */
  predicate RestoredDirectly(m: ExportedMemory, mode: Mode) {
    mode == ActiveMemories || m.status == ArchivedMemory
  }

  function RestoredOf(memories: seq<ExportedMemory>, mode: Mode, clientIdMap: map<nat, nat>, now: int): seq<Restored> {
    if memories == [] then []
    else
      RestoredOf(memories[..|memories| - 1], mode, clientIdMap, now)
      + (if RestoredDirectly(memories[|memories| - 1], mode) then [Restore(memories[|memories| - 1], clientIdMap, now)] else [])
  }

  function SuggestedOf(memories: seq<ExportedMemory>, mode: Mode): seq<Suggested> {
    if memories == [] then []
    else
      SuggestedOf(memories[..|memories| - 1], mode)
      + (if RestoredDirectly(memories[|memories| - 1], mode) then [] else [Suggest(memories[|memories| - 1])])
  }

  method ImportMemories(memories: seq<ExportedMemory>, mode: Mode, clientIdMap: map<nat, nat>, now: int)
    returns (restored: seq<Restored>, suggested: seq<Suggested>)
    ensures restored == RestoredOf(memories, mode, clientIdMap, now) && suggested == SuggestedOf(memories, mode)
    ensures |restored| + |suggested| == |memories|
  {
    hide Restore;
    restored, suggested := [], [];
    for i := 0 to |memories|
      invariant restored == RestoredOf(memories[..i], mode, clientIdMap, now) && suggested == SuggestedOf(memories[..i], mode)
      invariant |restored| + |suggested| == i
    {
      assert memories[..i + 1][..i] == memories[..i];
      if mode == ActiveMemories || memories[i].status == ArchivedMemory {
        restored := restored + [Restore(memories[i], clientIdMap, now)];
        continue;
      }
      suggested := suggested + [Suggest(memories[i])];
    }
    assert memories[..|memories|] == memories;
  }

  /** What a restored memory keeps of the exported one. */
  predicate Faithful(r: Restored, m: ExportedMemory, clientIdMap: map<nat, nat>, now: int) {
    && r.exportedId == m.id && r.content == m.content && r.expiresAt == m.expiresAt && r.categoryKeys == m.categoryKeys
    && (r.status == ActiveMemory <==> m.status !in {ArchivedMemory, ExpiredMemory} && Unexpired(m.expiresAt, now))
    && (r.status == ArchivedMemory <==> m.status == ArchivedMemory)
    && r.status in {ActiveMemory, ArchivedMemory, ExpiredMemory}
    && (r.sourceClient.Some? <==> m.sourceClient.Some? && m.sourceClient.value in clientIdMap)
    && (r.sourceClient.Some? ==> r.sourceClient.value == clientIdMap[m.sourceClient.value])
  }

  /**
   * A restore resurrects nothing: every restored memory keeps its archived or expired state and its source,
   * if that was imported; and review mode restores archived memories only.
   */
  lemma {:induction false} NothingResurrected(memories: seq<ExportedMemory>, mode: Mode, clientIdMap: map<nat, nat>, now: int, r: Restored)
    requires r in RestoredOf(memories, mode, clientIdMap, now)
    ensures mode == Suggestions ==> r.status == ArchivedMemory
    ensures exists m :: m in memories && Faithful(r, m, clientIdMap, now)
  {
    var n := |memories| - 1;
    assert memories == memories[..n] + [memories[n]];
    if r in RestoredOf(memories[..n], mode, clientIdMap, now) {
      NothingResurrected(memories[..n], mode, clientIdMap, now, r);
      var m :| m in memories[..n] && Faithful(r, m, clientIdMap, now);
      assert m in memories;
    } else {
      assert r == Restore(memories[n], clientIdMap, now) && Faithful(r, memories[n], clientIdMap, now);
      assert memories[n] in memories;
    }
  }

  /** Every exported memory turns up exactly once, as a row or as a suggestion, and in its order among each. */
  lemma {:induction false} EveryMemoryImported(memories: seq<ExportedMemory>, mode: Mode, clientIdMap: map<nat, nat>, now: int)
    ensures RestoredOf(memories, mode, clientIdMap, now) == RestoreAll(Filter(memories, (m: ExportedMemory) => RestoredDirectly(m, mode)), clientIdMap, now)
    ensures SuggestedOf(memories, mode) == SuggestAll(Filter(memories, (m: ExportedMemory) => !RestoredDirectly(m, mode)))
  {
    hide Restore, Suggest, RestoredDirectly;
    if memories != [] {
      var n := |memories| - 1;
      EveryMemoryImported(memories[..n], mode, clientIdMap, now);
      assert memories == memories[..n] + [memories[n]];
      FilterAppend(memories[..n], [memories[n]], (m: ExportedMemory) => RestoredDirectly(m, mode));
      FilterAppend(memories[..n], [memories[n]], (m: ExportedMemory) => !RestoredDirectly(m, mode));
    }
  }

  /** What a suggestion keeps of the exported memory. */
  predicate FaithfulSuggestion(s: Suggested, m: ExportedMemory) {
    s.exportedId == m.id && s.content == m.content && s.expiresAt == m.expiresAt && s.categoryKeys == m.categoryKeys
  }

  /** Every suggestion is a whole exported memory, and only an import for review makes any, never of an archived memory. */
  lemma {:induction false} SuggestionsFaithful(memories: seq<ExportedMemory>, mode: Mode, s: Suggested)
    requires s in SuggestedOf(memories, mode)
    ensures mode == Suggestions && exists m :: m in memories && m.status != ArchivedMemory && FaithfulSuggestion(s, m)
  {
    var n := |memories| - 1;
    assert memories == memories[..n] + [memories[n]];
    if s in SuggestedOf(memories[..n], mode) {
      SuggestionsFaithful(memories[..n], mode, s);
      var m :| m in memories[..n] && m.status != ArchivedMemory && FaithfulSuggestion(s, m);
      assert m in memories;
    } else {
      assert memories[n] in memories && FaithfulSuggestion(s, memories[n]);
    }
  }

  /** An exported memory is restored as a row when it is archived or the import is direct, and suggested otherwise, in full either way. */
  lemma {:induction false} EveryMemoryArrives(memories: seq<ExportedMemory>, mode: Mode, clientIdMap: map<nat, nat>, now: int, m: ExportedMemory)
    requires m in memories
    ensures if mode == ActiveMemories || m.status == ArchivedMemory
            then exists r :: r in RestoredOf(memories, mode, clientIdMap, now) && Faithful(r, m, clientIdMap, now)
            else exists s :: s in SuggestedOf(memories, mode) && FaithfulSuggestion(s, m)
  {
    var n := |memories| - 1;
    var rows, suggestions := RestoredOf(memories, mode, clientIdMap, now), SuggestedOf(memories, mode);
    if m == memories[n] {
      if RestoredDirectly(m, mode) {
        assert Restore(m, clientIdMap, now) in rows && Faithful(Restore(m, clientIdMap, now), m, clientIdMap, now);
      } else {
        assert Suggest(m) in suggestions && FaithfulSuggestion(Suggest(m), m);
      }
    } else {
      assert m in memories[..n];
      EveryMemoryArrives(memories[..n], mode, clientIdMap, now, m);
      if mode == ActiveMemories || m.status == ArchivedMemory {
        var r :| r in RestoredOf(memories[..n], mode, clientIdMap, now) && Faithful(r, m, clientIdMap, now);
        assert r in rows;
      } else {
        var s :| s in SuggestedOf(memories[..n], mode) && FaithfulSuggestion(s, m);
        assert s in suggestions;
      }
    }
  }

  function RestoreAll(memories: seq<ExportedMemory>, clientIdMap: map<nat, nat>, now: int): (rows: seq<Restored>)
    ensures |rows| == |memories| && forall i :: 0 <= i < |rows| ==> rows[i] == Restore(memories[i], clientIdMap, now)
  {
    seq(|memories|, i requires 0 <= i < |memories| => Restore(memories[i], clientIdMap, now))
  }

  function SuggestAll(memories: seq<ExportedMemory>): (suggestions: seq<Suggested>)
    ensures |suggestions| == |memories| && forall i :: 0 <= i < |suggestions| ==> suggestions[i] == Suggest(memories[i])
  {
    seq(|memories|, i requires 0 <= i < |memories| => Suggest(memories[i]))
  }

  // ---------------------------------------------------------------- categories

  function KeysOf(categories: seq<Category>): set<string> {
    set c | c in categories :: c.key
  }

  /** The keys a list of memories names, in full or by key only. */
  function MemoryKeys(memories: seq<ExportedMemory>): set<string> {
    if memories == [] then {}
    else MemoryKeys(memories[..|memories| - 1]) + KeysOf(memories[|memories| - 1].categories) + Elements(memories[|memories| - 1].categoryKeys)
  }

  /** All definitions an export gives, in the order they are read. */
  function AllDefinitions(categories: seq<Category>, memories: seq<ExportedMemory>): seq<Category> {
    if memories == [] then categories else AllDefinitions(categories, memories[..|memories| - 1]) + memories[|memories| - 1].categories
  }

  /** The last definition of the key, or the one derived from the key when there is none. */
  predicate LastOf(all: seq<Category>, key: string, c: Category) {
    if exists i :: 0 <= i < |all| && all[i].key == key then
      exists i :: 0 <= i < |all| && all[i].key == key && all[i] == c && forall j :: i < j < |all| ==> all[j].key != key
    else c == Category(key, DERIVED)
  }

  predicate AllLast(definitions: map<string, Category>, all: seq<Category>) {
    forall key :: key in definitions ==> LastOf(all, key, definitions[key])
  }

  /** The definition made up for a key nobody defines: its number stands for the title derived from the key. */
  const DERIVED := 0

  /** Definitions of the export by key; every key any memory uses has one, so a restore connects only to categories that exist. */
  method ExportCategoryDefinitions(e: Export) returns (definitions: map<string, Category>)
    ensures definitions.Keys == KeysOf(e.categories) + MemoryKeys(e.memories)
    ensures forall key :: key in definitions ==> definitions[key].key == key && Defined(e, definitions[key])
    ensures AllLast(definitions, AllDefinitions(e.categories, e.memories))
    ensures forall m :: m in e.memories ==> forall key :: key in m.categoryKeys ==> key in definitions
  {
    hide MemoryKeys, Defined, LastOf, AllLast, AllDefinitions;
    NothingDefined();
    assert [] + e.categories == e.categories;
    definitions := SetAll(map[], e.categories, []);
    DefinedByExport(e);
    NoMemoryKeys();
    FirstDefinitions(e.categories);
    for i := 0 to |e.memories|
      invariant definitions.Keys == KeysOf(e.categories) + MemoryKeys(e.memories[..i])
      invariant forall key :: key in definitions ==> definitions[key].key == key && Defined(e, definitions[key])
      invariant AllLast(definitions, AllDefinitions(e.categories, e.memories[..i]))
      invariant KeysOf(AllDefinitions(e.categories, e.memories[..i])) <= definitions.Keys
    {
      var memory := e.memories[i];
      KeysSnoc(e.memories, i);
      DefinedByMemory(e, memory);
      ghost var all := AllDefinitions(e.categories, e.memories[..i]);
      DefinitionsSnoc(e.categories, e.memories, i);
      definitions := SetAll(definitions, memory.categories, all);
      definitions := DeriveMissing(definitions, memory.categoryKeys, all + memory.categories);
      DefinedDerived(e);
    }
    assert e.memories[..|e.memories|] == e.memories;
    forall m | m in e.memories
      ensures forall key :: key in m.categoryKeys ==> key in MemoryKeys(e.memories)
    {
      AllKeys(e.memories, m);
    }
  }

  lemma NothingDefined()
    ensures AllLast(map[], []) && KeysOf([]) == {}
  {
  }

  lemma FirstDefinitions(categories: seq<Category>)
    ensures AllDefinitions(categories, []) == categories
  {
  }

  lemma DefinitionsSnoc(categories: seq<Category>, memories: seq<ExportedMemory>, i: nat)
    requires i < |memories|
    ensures var all := AllDefinitions(categories, memories[..i]);
            && AllDefinitions(categories, memories[..i + 1]) == all + memories[i].categories
            && KeysOf(all + memories[i].categories) == KeysOf(all) + KeysOf(memories[i].categories)
  {
    assert memories[..i + 1][..i] == memories[..i];
  }

  lemma LastSnoc(all: seq<Category>, c: Category, key: string, x: Category)
    requires key != c.key ==> LastOf(all, key, x)
    ensures LastOf(all + [c], key, if key == c.key then c else x)
  {
    var more := all + [c];
    if key == c.key {
      assert more[|all|] == c;
    } else {
      assert forall i :: 0 <= i < |all| ==> more[i] == all[i];
    }
  }

  lemma SetOne(definitions: map<string, Category>, all: seq<Category>, c: Category)
    requires AllLast(definitions, all)
    ensures AllLast(definitions[c.key := c], all + [c])
  {
    hide LastOf;
    var after := definitions[c.key := c];
    forall key | key in after
      ensures LastOf(all + [c], key, after[key])
    {
      LastSnoc(all, c, key, if key in definitions then definitions[key] else c);
    }
  }

  lemma DeriveOne(definitions: map<string, Category>, all: seq<Category>, key: string)
    requires AllLast(definitions, all) && key !in KeysOf(all)
    ensures AllLast(definitions[key := Category(key, DERIVED)], all)
  {
    assert forall i :: 0 <= i < |all| ==> all[i].key in KeysOf(all);
  }

  lemma NoMemoryKeys()
    ensures MemoryKeys([]) == {}
  {
  }

  /** The definition comes from the export, or was derived. */
  predicate Defined(e: Export, c: Category) {
    c in e.categories || (exists m :: m in e.memories && c in m.categories) || c.definition == DERIVED
  }

  lemma DefinedByExport(e: Export)
    ensures forall c :: c in e.categories ==> Defined(e, c)
  {
  }

  lemma DefinedByMemory(e: Export, m: ExportedMemory)
    requires m in e.memories
    ensures forall c :: c in m.categories ==> Defined(e, c)
  {
  }

  lemma DefinedDerived(e: Export)
    ensures forall key :: Defined(e, Category(key, DERIVED))
  {
  }

  lemma KeysSnoc(memories: seq<ExportedMemory>, i: nat)
    requires i < |memories|
    ensures MemoryKeys(memories[..i + 1]) == MemoryKeys(memories[..i]) + KeysOf(memories[i].categories) + Elements(memories[i].categoryKeys)
  {
    assert memories[..i + 1][..i] == memories[..i];
  }

  lemma {:induction false} AllKeys(memories: seq<ExportedMemory>, m: ExportedMemory)
    requires m in memories
    ensures forall key :: key in m.categoryKeys ==> key in MemoryKeys(memories)
  {
    var n := |memories| - 1;
    if m != memories[n] {
      assert m in memories[..n];
      AllKeys(memories[..n], m);
    }
  }

  method SetAll(definitions: map<string, Category>, categories: seq<Category>, ghost before: seq<Category>) returns (r: map<string, Category>)
    requires AllLast(definitions, before)
    ensures r.Keys == definitions.Keys + KeysOf(categories)
    ensures forall key :: key in r ==> (key in definitions && r[key] == definitions[key]) || (r[key].key == key && r[key] in categories)
    ensures AllLast(r, before + categories)
  {
    hide AllLast;
    r := definitions;
    assert before + categories[..0] == before;
    for i := 0 to |categories|
      invariant r.Keys == definitions.Keys + KeysOf(categories[..i])
      invariant forall key :: key in r ==> (key in definitions && r[key] == definitions[key]) || (r[key].key == key && r[key] in categories)
      invariant AllLast(r, before + categories[..i])
    {
      assert categories[..i + 1] == categories[..i] + [categories[i]];
      assert before + categories[..i + 1] == (before + categories[..i]) + [categories[i]];
      SetOne(r, before + categories[..i], categories[i]);
      r := r[categories[i].key := categories[i]];
    }
    assert categories[..|categories|] == categories;
  }

  method DeriveMissing(definitions: map<string, Category>, keys: seq<string>, ghost all: seq<Category>) returns (r: map<string, Category>)
    requires AllLast(definitions, all) && KeysOf(all) <= definitions.Keys
    ensures r.Keys == definitions.Keys + Elements(keys)
    ensures forall key :: key in r ==> if key in definitions then r[key] == definitions[key] else r[key] == Category(key, DERIVED)
    ensures AllLast(r, all)
  {
    hide AllLast;
    r := definitions;
    for i := 0 to |keys|
      invariant r.Keys == definitions.Keys + Elements(keys[..i])
      invariant forall key :: key in r ==> if key in definitions then r[key] == definitions[key] else r[key] == Category(key, DERIVED)
      invariant AllLast(r, all)
    {
      assert keys[..i + 1] == keys[..i] + [keys[i]];
      if keys[i] !in r {
        DeriveOne(r, all, keys[i]);
        r := r[keys[i] := Category(keys[i], DERIVED)];
      }
    }
    assert keys[..|keys|] == keys;
  }
}
