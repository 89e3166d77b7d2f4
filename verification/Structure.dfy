/** The structural checks of a pack archive, which list every issue instead of stopping at the first. */
module Structure {
  import opened Wrappers
  import opened Text
  import opened Distinct

  datatype Meta = Meta(packId: string, name: string, entryFlows: seq<string>, createdAt: string)

  datatype FlowEntry = FlowEntry(id: string, entry: string, fileYaml: string, fileJson: string)

  datatype Component = Component(
    name: string,
    version: string,
    fileWasm: string,
    schemaFile: Option<string>,
    manifestFile: Option<string>)

  /** A pack as it was opened. `signatureOk`, `sbomOk` and `warnings` are the report of that. */
  datatype Pack = Pack(
    meta: Meta,
    flows: seq<FlowEntry>,
    components: seq<Component>,
    sbomPaths: set<string>,
    signatureOk: bool,
    sbomOk: bool,
    warnings: seq<string>)

  datatype FileKind = Entry | Yaml | JsonFile | Wasm | Schema | ManifestFile

  datatype Issue =
    | NoPackId | NoName | NoEntryFlows | NoCreationTime
    | DuplicateFlow(id: string)
    | EmptyPath(kind: FileKind)
    | NotInSbom(kind: FileKind, path: string)
    | UnknownEntryFlow(id: string)
    | DuplicateComponent(key: string, previous: string, current: string)
    | BadSignature

  datatype Warning = Opening(text: string) | UnsignedAllowed | SbomIssues

  // ----- what is listed -----

  function MetaIssues(m: Meta): seq<Issue> {
    (if Blank(m.packId) then [NoPackId] else [])
    + (if Blank(m.name) then [NoName] else [])
    + (if m.entryFlows == [] then [NoEntryFlows] else [])
    + (if Blank(m.createdAt) then [NoCreationTime] else [])
  }

  function FileIssues(kind: FileKind, path: string, sbom: set<string>): seq<Issue> {
    if Blank(path) then [EmptyPath(kind)]
    else if path !in sbom then [NotInSbom(kind, path)]
    else []
  }

  function FlowIds(flows: seq<FlowEntry>): seq<string> {
    seq(|flows|, i requires 0 <= i < |flows| => flows[i].id)
  }

  function FlowFileIssues(f: FlowEntry, sbom: set<string>): seq<Issue> {
    FileIssues(Entry, f.entry, sbom) + FileIssues(Yaml, f.fileYaml, sbom) + FileIssues(JsonFile, f.fileJson, sbom)
  }

  /** A flow is reported if its id stands earlier; all its files are checked in any case. */
  function OneFlowIssues(f: FlowEntry, earlier: set<string>, sbom: set<string>): seq<Issue> {
    (if f.id in earlier then [DuplicateFlow(f.id)] else []) + FlowFileIssues(f, sbom)
  }

  function FlowIssues(flows: seq<FlowEntry>, sbom: set<string>): seq<Issue> {
    if flows == [] then []
    else
      var front, last := flows[..|flows| - 1], flows[|flows| - 1];
      FlowIssues(front, sbom) + OneFlowIssues(last, Elements(FlowIds(front)), sbom)
  }

  function EntryIssues(entries: seq<string>, ids: set<string>): seq<Issue> {
    if entries == [] then []
    else
      var last := entries[|entries| - 1];
      EntryIssues(entries[..|entries| - 1], ids) + if last in ids then [] else [UnknownEntryFlow(last)]
  }

  /** `name@version` */
  function Key(c: Component): string {
    c.name + "@" + c.version
  }

  function Keys(components: seq<Component>): seq<string> {
    seq(|components|, i requires 0 <= i < |components| => Key(components[i]))
  }

  /** The latest component under each key. */
  function Latest(components: seq<Component>): (m: map<string, Component>)
    ensures m.Keys == Elements(Keys(components))
  {
    if components == [] then map[]
    else
      var front, last := components[..|components| - 1], components[|components| - 1];
      assert Keys(components) == Keys(front) + [Key(last)];
      ElementsOfLast(Keys(front), Key(last));
      Latest(front)[Key(last) := last]
  }

  function ComponentFileIssues(c: Component, sbom: set<string>): seq<Issue> {
    FileIssues(Wasm, c.fileWasm, sbom)
    + (if c.schemaFile.Some? then FileIssues(Schema, c.schemaFile.value, sbom) else [])
    + (if c.manifestFile.Some? then FileIssues(ManifestFile, c.manifestFile.value, sbom) else [])
  }

  /** A component is reported with the latest earlier one under its key. */
  function OneComponentIssues(c: Component, earlier: map<string, Component>, sbom: set<string>): seq<Issue> {
    (if Key(c) in earlier then [DuplicateComponent(Key(c), earlier[Key(c)].fileWasm, c.fileWasm)] else [])
    + ComponentFileIssues(c, sbom)
  }

  function ComponentIssues(components: seq<Component>, sbom: set<string>): seq<Issue> {
    if components == [] then []
    else
      var front, last := components[..|components| - 1], components[|components| - 1];
      ComponentIssues(front, sbom) + OneComponentIssues(last, Latest(front), sbom)
  }

  function AllIssues(p: Pack, allowUnsigned: bool): seq<Issue> {
    MetaIssues(p.meta)
    + FlowIssues(p.flows, p.sbomPaths)
    + EntryIssues(p.meta.entryFlows, Elements(FlowIds(p.flows)))
    + ComponentIssues(p.components, p.sbomPaths)
    + SignatureIssues(p, allowUnsigned)
  }

  function SignatureIssues(p: Pack, allowUnsigned: bool): seq<Issue> {
    if p.signatureOk || allowUnsigned then [] else [BadSignature]
  }

  function OpeningWarnings(p: Pack): seq<Warning> {
    seq(|p.warnings|, i requires 0 <= i < |p.warnings| => Opening(p.warnings[i]))
  }

  function NewWarnings(p: Pack, allowUnsigned: bool): seq<Warning> {
    (if !p.signatureOk && allowUnsigned then [UnsignedAllowed] else [])
    + (if p.sbomOk then [] else [SbomIssues])
  }

  // ----- the checks -----

  method CheckFilePresent(kind: FileKind, path: string, sbom: set<string>, issues: seq<Issue>)
    returns (issues': seq<Issue>)
    ensures issues' == issues + FileIssues(kind, path, sbom)
  {
    issues' := issues;
    if Blank(path) {
      issues' := issues' + [EmptyPath(kind)];
      return;
    }
    if path !in sbom {
      issues' := issues' + [NotInSbom(kind, path)];
    }
  }

  method ValidateMeta(m: Meta, issues: seq<Issue>) returns (issues': seq<Issue>)
    ensures issues' == issues + MetaIssues(m)
  {
    issues' := issues;
    if Blank(m.packId) {
      issues' := issues' + [NoPackId];
    }
    if Blank(m.name) {
      issues' := issues' + [NoName];
    }
    if m.entryFlows == [] {
      issues' := issues' + [NoEntryFlows];
    }
    if Blank(m.createdAt) {
      issues' := issues' + [NoCreationTime];
    }
  }

  lemma Associative(a: seq<Issue>, b: seq<Issue>, c: seq<Issue>)
    ensures (a + b) + c == a + (b + c)
  {
  }

  method CheckFlow(flow: FlowEntry, flowIds: set<string>, sbom: set<string>, issues: seq<Issue>)
    returns (issues': seq<Issue>)
    ensures issues' == issues + OneFlowIssues(flow, flowIds, sbom)
  {
    var found: seq<Issue> := [];
    if flow.id in flowIds {
      found := [DuplicateFlow(flow.id)];
    }
    ghost var repeated := found;
    found := CheckFilePresent(Entry, flow.entry, sbom, found);
    found := CheckFilePresent(Yaml, flow.fileYaml, sbom, found);
    found := CheckFilePresent(JsonFile, flow.fileJson, sbom, found);
    ghost var a, b, c := FileIssues(Entry, flow.entry, sbom), FileIssues(Yaml, flow.fileYaml, sbom),
                         FileIssues(JsonFile, flow.fileJson, sbom);
    Associative(repeated, a, b);
    Associative(repeated, a + b, c);
    issues' := issues + found;
  }

  method CheckFlows(flows: seq<FlowEntry>, sbom: set<string>, issues: seq<Issue>)
    returns (issues': seq<Issue>, flowIds: set<string>)
    ensures issues' == issues + FlowIssues(flows, sbom)
    ensures flowIds == Elements(FlowIds(flows))
  {
    issues', flowIds := issues, {};
    for i := 0 to |flows|
      invariant issues' == issues + FlowIssues(flows[..i], sbom)
      invariant flowIds == Elements(FlowIds(flows[..i]))
    {
      var flow := flows[i];
      assert flows[..i + 1][..i] == flows[..i];
      assert FlowIds(flows[..i + 1]) == FlowIds(flows[..i]) + [flow.id];
      ElementsOfLast(FlowIds(flows[..i]), flow.id);
      Associative(issues, FlowIssues(flows[..i], sbom), OneFlowIssues(flow, flowIds, sbom));
      issues' := CheckFlow(flow, flowIds, sbom, issues');
      flowIds := flowIds + {flow.id};
    }
    assert flows[..|flows|] == flows;
  }

  method CheckEntries(entries: seq<string>, flowIds: set<string>, issues: seq<Issue>) returns (issues': seq<Issue>)
    ensures issues' == issues + EntryIssues(entries, flowIds)
  {
    issues' := issues;
    for i := 0 to |entries|
      invariant issues' == issues + EntryIssues(entries[..i], flowIds)
    {
      assert entries[..i + 1][..i] == entries[..i];
      if entries[i] !in flowIds {
        issues' := issues' + [UnknownEntryFlow(entries[i])];
      }
    }
    assert entries[..|entries|] == entries;
  }

  method CheckComponent(c: Component, keys: map<string, Component>, sbom: set<string>, issues: seq<Issue>)
    returns (issues': seq<Issue>)
    ensures issues' == issues + OneComponentIssues(c, keys, sbom)
  {
    var found: seq<Issue> := [];
    var key := Key(c);
    if key in keys {
      found := [DuplicateComponent(key, keys[key].fileWasm, c.fileWasm)];
    }
    ghost var repeated := found;
    found := CheckFilePresent(Wasm, c.fileWasm, sbom, found);
    ghost var a, b, d := FileIssues(Wasm, c.fileWasm, sbom), [], [];
    if c.schemaFile.Some? {
      found := CheckFilePresent(Schema, c.schemaFile.value, sbom, found);
      b := FileIssues(Schema, c.schemaFile.value, sbom);
    }
    if c.manifestFile.Some? {
      found := CheckFilePresent(ManifestFile, c.manifestFile.value, sbom, found);
      d := FileIssues(ManifestFile, c.manifestFile.value, sbom);
    }
    assert found == repeated + a + b + d;
    Associative(repeated, a, b);
    Associative(repeated, a + b, d);
    issues' := issues + found;
  }

  method CheckComponents(components: seq<Component>, sbom: set<string>, issues: seq<Issue>)
    returns (issues': seq<Issue>)
    ensures issues' == issues + ComponentIssues(components, sbom)
  {
    issues' := issues;
    var componentKeys: map<string, Component> := map[];
    for i := 0 to |components|
      invariant issues' == issues + ComponentIssues(components[..i], sbom)
      invariant componentKeys == Latest(components[..i])
    {
      var component := components[i];
      assert components[..i + 1][..i] == components[..i];
      Associative(issues, ComponentIssues(components[..i], sbom), OneComponentIssues(component, componentKeys, sbom));
      issues' := CheckComponent(component, componentKeys, sbom, issues');
      componentKeys := componentKeys[Key(component) := component];
    }
    assert components[..|components|] == components;
  }

  datatype Report = Report(
    basic: bool,
    full: bool,
    signatureOk: bool,
    sbomOk: bool,
    issues: seq<Issue>,
    warnings: seq<Warning>)

  /** What the report of opening the pack adds. */
  method CheckReport(p: Pack, issues: seq<Issue>, warnings: seq<Warning>, allowUnsigned: bool)
    returns (issues': seq<Issue>, warnings': seq<Warning>)
    ensures issues' == issues + SignatureIssues(p, allowUnsigned)
    ensures warnings' == warnings + NewWarnings(p, allowUnsigned)
  {
    issues', warnings' := issues, warnings;
    if !p.signatureOk {
      if allowUnsigned {
        warnings' := warnings' + [UnsignedAllowed];
      } else {
        issues' := issues' + [BadSignature];
      }
    }
    if !p.sbomOk {
      warnings' := warnings' + [SbomIssues];
    }
  }

  lemma SumOfFive(x: seq<Issue>, a: seq<Issue>, b: seq<Issue>, c: seq<Issue>, d: seq<Issue>, e: seq<Issue>)
    ensures x + a + b + c + d + e == x + (a + b + c + d + e)
  {
  }

  method PerformStructuralChecks(p: Pack, issues: seq<Issue>, warnings: seq<Warning>, allowUnsigned: bool)
    returns (issues': seq<Issue>, warnings': seq<Warning>)
    ensures issues' == issues + AllIssues(p, allowUnsigned)
    ensures warnings' == warnings + NewWarnings(p, allowUnsigned)
  {
    var flowIds: set<string>;
    issues' := ValidateMeta(p.meta, issues);
    issues', flowIds := CheckFlows(p.flows, p.sbomPaths, issues');
    issues' := CheckEntries(p.meta.entryFlows, flowIds, issues');
    issues' := CheckComponents(p.components, p.sbomPaths, issues');
    issues', warnings' := CheckReport(p, issues', warnings, allowUnsigned);
    SumOfFive(issues, MetaIssues(p.meta), FlowIssues(p.flows, p.sbomPaths), EntryIssues(p.meta.entryFlows, flowIds),
              ComponentIssues(p.components, p.sbomPaths), SignatureIssues(p, allowUnsigned));
  }

  /** The verdict: basic if nothing is listed, full if nothing is warned about either. */
  method CheckPack(p: Pack, allowUnsigned: bool) returns (r: Report)
    ensures r.issues == AllIssues(p, allowUnsigned)
    ensures r.warnings == OpeningWarnings(p) + NewWarnings(p, allowUnsigned)
    ensures r.basic <==> GoodPack(p, allowUnsigned)
    ensures r.full <==> GoodPack(p, allowUnsigned) && p.warnings == [] && p.signatureOk && p.sbomOk
    ensures (r.signatureOk <==> allowUnsigned || p.signatureOk) && r.sbomOk == p.sbomOk
    ensures r.basic ==> r.signatureOk
  {
    var issues, warnings := PerformStructuralChecks(p, [], OpeningWarnings(p), allowUnsigned);
    var basic := issues == [];
    var full := basic && warnings == [] && p.signatureOk && p.sbomOk;
    NoIssuesMeansGood(p, allowUnsigned);
    r := Report(basic, full, allowUnsigned || p.signatureOk, p.sbomOk, issues, warnings);
  }

  // ----- when nothing is listed -----

  predicate GoodFile(path: string, sbom: set<string>) {
    !Blank(path) && path in sbom
  }

  predicate GoodFlowFiles(f: FlowEntry, sbom: set<string>) {
    GoodFile(f.entry, sbom) && GoodFile(f.fileYaml, sbom) && GoodFile(f.fileJson, sbom)
  }

  predicate GoodComponentFiles(c: Component, sbom: set<string>) {
    && GoodFile(c.fileWasm, sbom)
    && (c.schemaFile.Some? ==> GoodFile(c.schemaFile.value, sbom))
    && (c.manifestFile.Some? ==> GoodFile(c.manifestFile.value, sbom))
  }

  /** What the checks ask of a pack. */
  predicate GoodPack(p: Pack, allowUnsigned: bool) {
    && !Blank(p.meta.packId) && !Blank(p.meta.name) && !Blank(p.meta.createdAt)
    && p.meta.entryFlows != [] && (forall id | id in p.meta.entryFlows :: id in FlowIds(p.flows))
    && AllDifferent(FlowIds(p.flows)) && (forall f | f in p.flows :: GoodFlowFiles(f, p.sbomPaths))
    && AllDifferent(Keys(p.components)) && (forall c | c in p.components :: GoodComponentFiles(c, p.sbomPaths))
    && (p.signatureOk || allowUnsigned)
  }

  lemma LastFlowId(flows: seq<FlowEntry>)
    requires flows != []
    ensures var front, id := flows[..|flows| - 1], flows[|flows| - 1].id;
              && |Elements(FlowIds(flows))|
                   == |Elements(FlowIds(front))| + (if id in Elements(FlowIds(front)) then 0 else 1)
              && (AllDifferent(FlowIds(flows)) <==> AllDifferent(FlowIds(front)) && id !in Elements(FlowIds(front)))
  {
    CountOfLast(FlowIds(flows), FlowIds(flows[..|flows| - 1]), flows[|flows| - 1].id);
  }

  lemma LastKey(components: seq<Component>)
    requires components != []
    ensures var front, key := components[..|components| - 1], Key(components[|components| - 1]);
              && |Elements(Keys(components))| == |Elements(Keys(front))| + (if key in Latest(front) then 0 else 1)
              && (AllDifferent(Keys(components)) <==> AllDifferent(Keys(front)) && key !in Latest(front))
  {
    var front, last := components[..|components| - 1], components[|components| - 1];
    CountOfLast(Keys(components), Keys(front), Key(last));
    assert Key(last) in Latest(front) <==> Key(last) in Elements(Keys(front));
  }

  lemma NoFlowFileIssues(f: FlowEntry, sbom: set<string>)
    ensures FlowFileIssues(f, sbom) == [] <==> GoodFlowFiles(f, sbom)
  {
  }

  lemma NoComponentFileIssues(c: Component, sbom: set<string>)
    ensures ComponentFileIssues(c, sbom) == [] <==> GoodComponentFiles(c, sbom)
  {
  }

  lemma {:induction false} NoFlowIssues(flows: seq<FlowEntry>, sbom: set<string>)
    ensures FlowIssues(flows, sbom) == [] <==>
              AllDifferent(FlowIds(flows)) && forall f | f in flows :: GoodFlowFiles(f, sbom)
  {
    if flows != [] {
      NoFlowIssues(flows[..|flows| - 1], sbom);
      LastFlowId(flows);
      NoFlowFileIssues(flows[|flows| - 1], sbom);
      AllOfLast(flows, f => GoodFlowFiles(f, sbom));
    }
  }

  lemma {:induction false} NoEntryIssues(entries: seq<string>, ids: set<string>)
    ensures EntryIssues(entries, ids) == [] <==> forall id | id in entries :: id in ids
  {
    if entries != [] {
      NoEntryIssues(entries[..|entries| - 1], ids);
      AllOfLast(entries, id => id in ids);
    }
  }

  lemma {:induction false} NoComponentIssues(components: seq<Component>, sbom: set<string>)
    ensures ComponentIssues(components, sbom) == [] <==>
              AllDifferent(Keys(components)) && forall c | c in components :: GoodComponentFiles(c, sbom)
  {
    if components != [] {
      NoComponentIssues(components[..|components| - 1], sbom);
      LastKey(components);
      NoComponentFileIssues(components[|components| - 1], sbom);
      AllOfLast(components, c => GoodComponentFiles(c, sbom));
    }
  }

  /** The list of issues is empty exactly for the good packs. */
  lemma NoIssuesMeansGood(p: Pack, allowUnsigned: bool)
    ensures AllIssues(p, allowUnsigned) == [] <==> GoodPack(p, allowUnsigned)
  {
    NoFlowIssues(p.flows, p.sbomPaths);
    NoEntryIssues(p.meta.entryFlows, Elements(FlowIds(p.flows)));
    NoComponentIssues(p.components, p.sbomPaths);
  }

  // ----- counting -----

  function DuplicateFlowCount(issues: seq<Issue>): nat {
    if issues == [] then 0
    else DuplicateFlowCount(issues[..|issues| - 1]) + if issues[|issues| - 1].DuplicateFlow? then 1 else 0
  }

  function DuplicateComponentCount(issues: seq<Issue>): nat {
    if issues == [] then 0
    else DuplicateComponentCount(issues[..|issues| - 1]) + if issues[|issues| - 1].DuplicateComponent? then 1 else 0
  }

  lemma {:induction false} CountsAdd(s: seq<Issue>, t: seq<Issue>)
    ensures DuplicateFlowCount(s + t) == DuplicateFlowCount(s) + DuplicateFlowCount(t)
    ensures DuplicateComponentCount(s + t) == DuplicateComponentCount(s) + DuplicateComponentCount(t)
  {
    if t == [] {
      assert s + t == s;
    } else {
      var front := t[..|t| - 1];
      CountsAdd(s, front);
      assert (s + t)[..|s + t| - 1] == s + front && (s + t)[|s + t| - 1] == t[|t| - 1];
    }
  }

  predicate NoDuplicates(issues: seq<Issue>) {
    forall i | i in issues :: !i.DuplicateFlow? && !i.DuplicateComponent?
  }

  lemma {:induction false} NoneCounted(issues: seq<Issue>)
    requires NoDuplicates(issues)
    ensures DuplicateFlowCount(issues) == DuplicateComponentCount(issues) == 0
  {
    if issues != [] {
      NoneCounted(issues[..|issues| - 1]);
    }
  }

  lemma FlowFilesUncounted(f: FlowEntry, sbom: set<string>)
    ensures NoDuplicates(FlowFileIssues(f, sbom))
  {
  }

  lemma ComponentFilesUncounted(c: Component, sbom: set<string>)
    ensures NoDuplicates(ComponentFileIssues(c, sbom))
  {
  }

  lemma OneCounted(first: seq<Issue>, rest: seq<Issue>)
    requires |first| <= 1 && NoDuplicates(rest)
    ensures DuplicateFlowCount(first + rest) == if first != [] && first[0].DuplicateFlow? then 1 else 0
    ensures DuplicateComponentCount(first + rest) == if first != [] && first[0].DuplicateComponent? then 1 else 0
  {
    CountsAdd(first, rest);
    NoneCounted(rest);
  }

  lemma OneFlowCounted(f: FlowEntry, earlier: set<string>, sbom: set<string>)
    ensures DuplicateFlowCount(OneFlowIssues(f, earlier, sbom)) == if f.id in earlier then 1 else 0
    ensures DuplicateComponentCount(OneFlowIssues(f, earlier, sbom)) == 0
  {
    FlowFilesUncounted(f, sbom);
    OneCounted(if f.id in earlier then [DuplicateFlow(f.id)] else [], FlowFileIssues(f, sbom));
  }

  lemma OneComponentCounted(c: Component, earlier: map<string, Component>, sbom: set<string>)
    ensures DuplicateComponentCount(OneComponentIssues(c, earlier, sbom)) == if Key(c) in earlier then 1 else 0
    ensures DuplicateFlowCount(OneComponentIssues(c, earlier, sbom)) == 0
  {
    ComponentFilesUncounted(c, sbom);
    OneCounted(if Key(c) in earlier then [DuplicateComponent(Key(c), earlier[Key(c)].fileWasm, c.fileWasm)] else [],
               ComponentFileIssues(c, sbom));
  }

  lemma {:induction false} FlowsCounted(flows: seq<FlowEntry>, sbom: set<string>)
    ensures DuplicateFlowCount(FlowIssues(flows, sbom)) == |flows| - |Elements(FlowIds(flows))|
    ensures DuplicateComponentCount(FlowIssues(flows, sbom)) == 0
  {
    if flows != [] {
      var front, last := flows[..|flows| - 1], flows[|flows| - 1];
      FlowsCounted(front, sbom);
      LastFlowId(flows);
      CountsAdd(FlowIssues(front, sbom), OneFlowIssues(last, Elements(FlowIds(front)), sbom));
      OneFlowCounted(last, Elements(FlowIds(front)), sbom);
    }
  }

  lemma {:induction false} ComponentsCounted(components: seq<Component>, sbom: set<string>)
    ensures DuplicateComponentCount(ComponentIssues(components, sbom)) == |components| - |Elements(Keys(components))|
    ensures DuplicateFlowCount(ComponentIssues(components, sbom)) == 0
  {
    if components != [] {
      var front, last := components[..|components| - 1], components[|components| - 1];
      ComponentsCounted(front, sbom);
      LastKey(components);
      CountsAdd(ComponentIssues(front, sbom), OneComponentIssues(last, Latest(front), sbom));
      OneComponentCounted(last, Latest(front), sbom);
    }
  }

  lemma {:induction false} EntriesUncounted(entries: seq<string>, ids: set<string>)
    ensures NoDuplicates(EntryIssues(entries, ids))
  {
    if entries != [] {
      EntriesUncounted(entries[..|entries| - 1], ids);
    }
  }

  /** One issue for every flow and every component beyond the first of its id or key. */
  lemma DuplicatesAreCounted(p: Pack, allowUnsigned: bool)
    ensures DuplicateFlowCount(AllIssues(p, allowUnsigned)) == |p.flows| - |Elements(FlowIds(p.flows))|
    ensures DuplicateComponentCount(AllIssues(p, allowUnsigned)) == |p.components| - |Elements(Keys(p.components))|
  {
    var a, b := MetaIssues(p.meta), FlowIssues(p.flows, p.sbomPaths);
    var c, d := EntryIssues(p.meta.entryFlows, Elements(FlowIds(p.flows))), ComponentIssues(p.components, p.sbomPaths);
    var e := SignatureIssues(p, allowUnsigned);
    CountsAdd(a + b + c + d, e);
    CountsAdd(a + b + c, d);
    CountsAdd(a + b, c);
    CountsAdd(a, b);
    NoneCounted(a);
    NoneCounted(e);
    EntriesUncounted(p.meta.entryFlows, Elements(FlowIds(p.flows)));
    NoneCounted(c);
    FlowsCounted(p.flows, p.sbomPaths);
    ComponentsCounted(p.components, p.sbomPaths);
  }

  /** The version of `d` starts with what the name of `c` has beyond that of `d`: "x@1", "2" and "x", "1@2". */
  predicate Shifted(c: Component, d: Component) {
    d.name + "@" <= c.name && d.version == c.name[|d.name| + 1..] + "@" + c.version
  }

  /** Shifted components share a key under different names. */
  lemma KeysCollide(c: Component, d: Component)
    requires Shifted(c, d)
    ensures Key(c) == Key(d) && |c.name| > |d.name|
  {
    var middle := c.name[|d.name| + 1..];
    assert c.name == d.name + "@" + middle;
    assert Key(c) == d.name + "@" + (middle + "@" + c.version);
  }

  lemma KeySplits(c: Component, d: Component)
    requires Key(c) == Key(d) && |c.name| >= |d.name|
    ensures (c.name == d.name && c.version == d.version) || Shifted(c, d)
  {
    var key, n := Key(c), |d.name|;
    assert key == d.name + "@" + d.version;
    assert key[..n + 1] == d.name + "@" && key[n + 1..] == d.version;
    assert key[..|c.name|] == c.name && key[|c.name|..] == "@" + c.version;
    if |c.name| > n {
      assert key[..n + 1] <= c.name;
      assert key[n + 1..] == key[..|c.name|][n + 1..] + key[|c.name|..];
    } else {
      assert c.version == key[n + 1..];
    }
  }

  /** Two components share a key exactly if they are the same, or one's version hides an '@' of the other's name. */
  lemma KeysShared(c: Component, d: Component)
    ensures Key(c) == Key(d) <==>
              (c.name == d.name && c.version == d.version) || Shifted(c, d) || Shifted(d, c)
  {
    if Key(c) == Key(d) {
      if |c.name| >= |d.name| {
        KeySplits(c, d);
      } else {
        KeySplits(d, c);
      }
    }
    if Shifted(c, d) {
      KeysCollide(c, d);
    }
    if Shifted(d, c) {
      KeysCollide(d, c);
    }
  }

  lemma HidesAt(c: Component, d: Component)
    ensures Shifted(c, d) ==> '@' in d.version
  {
  }

  /** So versions without an '@' are enough for keys to identify name and version. */
  lemma KeysIdentify(c: Component, d: Component)
    requires '@' !in c.version && '@' !in d.version
    ensures Key(c) == Key(d) <==> c.name == d.name && c.version == d.version
  {
    KeysShared(c, d);
    HidesAt(c, d);
    HidesAt(d, c);
  }
}
