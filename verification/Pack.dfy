/** Pack manifests: which ones verification accepts, under which requirements, and with which warnings. */
module Pack {
  import opened Wrappers
  import opened Text
  import opened Distinct
  import Json

  datatype Signature = Signature(kind: string, publicKey: string, signature: string)

  datatype Export = Export(id: string, path: Option<string>, schema: Option<Json.Value>)

  datatype Manifest = Manifest(
    id: Option<string>,
    name: Option<string>,
    version: Option<string>,
    kind: Option<string>,
    flowTypes: seq<string>,
    runnerVersion: Option<string>,
    flowFiles: seq<string>,
    components: seq<string>,
    secrets: seq<string>,
    sbom: Option<string>,
    attestations: seq<string>,
    schemaVersion: Option<string>,
    schema: Option<string>,
    signature: Option<Signature>,
    flows: seq<Export>)

  /** The requirements a caller can turn on. */
  datatype Require = Require(flows: bool, signature: bool, artifacts: bool, supplyChain: bool, runtimeMatch: bool)

  datatype Warning = NoSbomWarning | NoAttestationsWarning

  datatype ManifestFault =
    | NoName | BlankName | NoVersion | BlankKind | BlankFlowType | BlankRunnerVersion | BlankSecret
    | IncompleteSignature | NoSignature | BlankSbom | NoSbom | NoAttestations | BlankAttestation | NoFlows
    | BadFlow(index: nat, flowFault: ExportFault) | MissingFlowFile(index: nat) | MissingComponent(index: nat)

  datatype ExportFault = BlankId | DuplicateId | SchemaNotObject | MissingFile

  datatype PackFault =
    | ComponentMissing | BadLayout | NoManifest | UnknownSchemaVersion | BadManifest(fault: ManifestFault)
    | RuntimeUnavailable | RuntimeMismatch

  // ----- which manifests are good -----

  function PackName(m: Manifest): Option<string> {
    if m.id.Some? then m.id else m.name
  }

  predicate NoneBlank(entries: seq<string>) {
    forall entry | entry in entries :: !Blank(entry)
  }

  predicate GoodIdentity(m: Manifest) {
    && PackName(m).Some? && !Blank(PackName(m).value)
    && m.version.Some? && !Blank(m.version.value)
    && (m.kind.Some? ==> !Blank(m.kind.value))
    && NoneBlank(m.flowTypes)
    && (m.runnerVersion.Some? ==> !Blank(m.runnerVersion.value))
    && NoneBlank(m.secrets)
  }

  predicate CompleteSignature(s: Signature) {
    !Blank(s.kind) && !Blank(s.publicKey) && !Blank(s.signature)
  }

  predicate GoodSignature(m: Manifest, required: bool) {
    required ==> m.signature.Some? && CompleteSignature(m.signature.value)
  }

  /** Supply-chain references must not be blank where they are given; `required` says they must be given. */
  predicate GoodSupplyChain(m: Manifest, required: bool) {
    && (m.sbom.Some? ==> !Blank(m.sbom.value))
    && NoneBlank(m.attestations)
    && (required ==> m.sbom.Some? && m.attestations != [])
  }

  function FlowIds(m: Manifest): seq<string> {
    seq(|m.flows|, i requires 0 <= i < |m.flows| => m.flows[i].id)
  }

  predicate GoodExport(e: Export, artifacts: bool, pathExists: string -> bool) {
    && !Blank(e.id)
    && (e.schema.Some? ==> e.schema.value.Object?)
    && (artifacts && e.path.Some? ==> pathExists(e.path.value))
  }

  predicate AllExist(paths: seq<string>, pathExists: string -> bool) {
    forall path | path in paths :: pathExists(path)
  }

  predicate GoodManifest(m: Manifest, required: Require, pathExists: string -> bool) {
    && GoodIdentity(m)
    && GoodSignature(m, required.signature)
    && GoodSupplyChain(m, required.supplyChain)
    && (required.flows ==> m.flows != [])
    && AllDifferent(FlowIds(m))
    && (forall e | e in m.flows :: GoodExport(e, required.artifacts, pathExists))
    && (required.artifacts ==> AllExist(m.flowFiles, pathExists) && AllExist(m.components, pathExists))
  }

  /** What an accepted manifest is warned about. */
  function WarningsOf(m: Manifest): seq<Warning> {
    (if m.sbom.None? then [NoSbomWarning] else []) + (if m.attestations == [] then [NoAttestationsWarning] else [])
  }

  // ----- why a manifest is rejected -----

  /** The fault holds of the manifest, and none that is looked for earlier does. */
  predicate IdentityFaultHolds(m: Manifest, fault: ManifestFault) {
    var named := PackName(m).Some? && !Blank(PackName(m).value);
    var versioned := named && m.version.Some? && !Blank(m.version.value);
    var ofKind := versioned && (m.kind.Some? ==> !Blank(m.kind.value));
    var typed := ofKind && NoneBlank(m.flowTypes);
    var runnable := typed && (m.runnerVersion.Some? ==> !Blank(m.runnerVersion.value));
    match fault
    case NoName => PackName(m).None?
    case BlankName => PackName(m).Some? && !named
    case NoVersion => named && !versioned
    case BlankKind => versioned && !ofKind
    case BlankFlowType => ofKind && !typed
    case BlankRunnerVersion => typed && !runnable
    case BlankSecret => runnable && !NoneBlank(m.secrets)
    case _ => false
  }

  predicate SupplyFaultHolds(m: Manifest, required: bool, fault: ManifestFault) {
    match fault
    case BlankSbom => m.sbom.Some? && Blank(m.sbom.value)
    case NoSbom => required && m.sbom.None?
    case NoAttestations => required && m.sbom.Some? && !Blank(m.sbom.value) && m.attestations == []
    case BlankAttestation =>
      (if m.sbom.Some? then !Blank(m.sbom.value) else !required) && !NoneBlank(m.attestations)
    case _ => false
  }

  predicate IsNew(m: Manifest, i: nat)
    requires i < |m.flows|
  {
    forall j | 0 <= j < i :: m.flows[j].id != m.flows[i].id
  }

  predicate ExportFaultHolds(
    m: Manifest, artifacts: bool, pathExists: string -> bool, i: nat, fault: ExportFault)
    requires i < |m.flows|
  {
    var e := m.flows[i];
    match fault
    case BlankId => Blank(e.id)
    case DuplicateId => !Blank(e.id) && !IsNew(m, i)
    case SchemaNotObject => !Blank(e.id) && IsNew(m, i) && e.schema.Some? && !e.schema.value.Object?
    case MissingFile =>
      && !Blank(e.id) && IsNew(m, i) && (e.schema.Some? ==> e.schema.value.Object?)
      && artifacts && e.path.Some? && !pathExists(e.path.value)
  }

  predicate ExportPasses(m: Manifest, artifacts: bool, pathExists: string -> bool, i: nat)
    requires i < |m.flows|
  {
    GoodExport(m.flows[i], artifacts, pathExists) && IsNew(m, i)
  }

  predicate FlowFaultHolds(m: Manifest, artifacts: bool, pathExists: string -> bool, fault: ManifestFault) {
    && fault.BadFlow? && fault.index < |m.flows|
    && ExportFaultHolds(m, artifacts, pathExists, fault.index, fault.flowFault)
    && forall j | 0 <= j < fault.index :: ExportPasses(m, artifacts, pathExists, j)
  }

  predicate FirstMissing(paths: seq<string>, pathExists: string -> bool, i: nat) {
    i < |paths| && !pathExists(paths[i]) && forall j | 0 <= j < i :: pathExists(paths[j])
  }

  /** All that is looked at before the flows is in order. */
  predicate HeaderPasses(m: Manifest, required: Require) {
    GoodIdentity(m) && GoodSignature(m, required.signature) && GoodSupplyChain(m, required.supplyChain)
  }

  predicate FlowsPass(m: Manifest, required: Require, pathExists: string -> bool) {
    && (required.flows ==> m.flows != [])
    && forall i | 0 <= i < |m.flows| :: ExportPasses(m, required.artifacts, pathExists, i)
  }

  /** The fault of a rejection: the first in the order of the checks. */
  predicate FaultHolds(m: Manifest, required: Require, pathExists: string -> bool, fault: ManifestFault) {
    match fault
    case NoSignature => GoodIdentity(m) && required.signature && m.signature.None?
    case IncompleteSignature =>
      && GoodIdentity(m) && required.signature
      && m.signature.Some? && !CompleteSignature(m.signature.value)
    case BlankSbom | NoSbom | NoAttestations | BlankAttestation =>
      GoodIdentity(m) && GoodSignature(m, required.signature) && SupplyFaultHolds(m, required.supplyChain, fault)
    case NoFlows => HeaderPasses(m, required) && required.flows && m.flows == []
    case BadFlow(_, _) => HeaderPasses(m, required) && FlowFaultHolds(m, required.artifacts, pathExists, fault)
    case MissingFlowFile(i) =>
      && HeaderPasses(m, required) && FlowsPass(m, required, pathExists) && required.artifacts
      && FirstMissing(m.flowFiles, pathExists, i)
    case MissingComponent(i) =>
      && HeaderPasses(m, required) && FlowsPass(m, required, pathExists) && required.artifacts
      && AllExist(m.flowFiles, pathExists) && FirstMissing(m.components, pathExists, i)
    case _ => IdentityFaultHolds(m, fault)
  }

  /** The warnings that have been pushed when a fault is found. */
  function WarningsBefore(m: Manifest, fault: ManifestFault): seq<Warning> {
    match fault
    case BlankAttestation | NoFlows | BadFlow(_, _) | MissingFlowFile(_) | MissingComponent(_) => WarningsOf(m)
    case _ => []
  }

  lemma NewMeansDifferent(m: Manifest)
    ensures AllDifferent(FlowIds(m)) <==> forall i | 0 <= i < |m.flows| :: IsNew(m, i)
  {
    var ids := FlowIds(m);
    if AllDifferent(ids) {
      forall i, j | 0 <= j < i < |m.flows| ensures m.flows[j].id != m.flows[i].id {
        assert ids[j] != ids[i];
      }
    }
    if forall i | 0 <= i < |m.flows| :: IsNew(m, i) {
      forall j, i | 0 <= j < i < |ids| ensures ids[j] != ids[i] {
        assert IsNew(m, i);
      }
    }
  }

  lemma FlowsPassMeansGood(m: Manifest, artifacts: bool, pathExists: string -> bool)
    ensures (forall i | 0 <= i < |m.flows| :: ExportPasses(m, artifacts, pathExists, i)) <==>
              && AllDifferent(FlowIds(m))
              && forall e | e in m.flows :: GoodExport(e, artifacts, pathExists)
  {
    NewMeansDifferent(m);
    if forall i | 0 <= i < |m.flows| :: ExportPasses(m, artifacts, pathExists, i) {
      forall i | 0 <= i < |m.flows| ensures IsNew(m, i) && GoodExport(m.flows[i], artifacts, pathExists) {
        assert ExportPasses(m, artifacts, pathExists, i);
      }
    }
  }

  lemma ExportFaultFails(m: Manifest, artifacts: bool, pathExists: string -> bool, i: nat, fault: ExportFault)
    requires i < |m.flows| && ExportFaultHolds(m, artifacts, pathExists, i, fault)
    ensures !ExportPasses(m, artifacts, pathExists, i)
  {
  }

  lemma FlowFaultIsUnique(
    m: Manifest, artifacts: bool, pathExists: string -> bool, fault: ManifestFault, fault': ManifestFault)
    requires FlowFaultHolds(m, artifacts, pathExists, fault) && FlowFaultHolds(m, artifacts, pathExists, fault')
    ensures fault == fault'
  {
    ExportFaultFails(m, artifacts, pathExists, fault.index, fault.flowFault);
    ExportFaultFails(m, artifacts, pathExists, fault'.index, fault'.flowFault);
  }

  /** A manifest with a fault is not good. */
  lemma FaultMeansBad(m: Manifest, required: Require, pathExists: string -> bool, fault: ManifestFault)
    requires FaultHolds(m, required, pathExists, fault)
    ensures !GoodManifest(m, required, pathExists)
  {
    if fault.BadFlow? {
      FlowsPassMeansGood(m, required.artifacts, pathExists);
      ExportFaultFails(m, required.artifacts, pathExists, fault.index, fault.flowFault);
    }
  }

  /** The first fault is unique, so the error and the warnings of a rejection are settled by the manifest. */
  lemma FaultIsUnique(
    m: Manifest, required: Require, pathExists: string -> bool, fault: ManifestFault, fault': ManifestFault)
    requires FaultHolds(m, required, pathExists, fault) && FaultHolds(m, required, pathExists, fault')
    ensures fault == fault'
  {
    if fault.BadFlow? {
      ExportFaultFails(m, required.artifacts, pathExists, fault.index, fault.flowFault);
    }
    if fault'.BadFlow? {
      ExportFaultFails(m, required.artifacts, pathExists, fault'.index, fault'.flowFault);
    }
    if fault.BadFlow? && fault'.BadFlow? {
      FlowFaultIsUnique(m, required.artifacts, pathExists, fault, fault');
    }
  }

  // ----- the validator -----

  method CheckNoneBlank(entries: seq<string>) returns (ok: bool)
    ensures ok <==> NoneBlank(entries)
  {
    for i := 0 to |entries|
      invariant forall j | 0 <= j < i :: !Blank(entries[j])
    {
      if Blank(entries[i]) {
        return false;
      }
    }
    return true;
  }

  method CheckIdentity(m: Manifest) returns (fault: Option<ManifestFault>)
    ensures fault.None? <==> GoodIdentity(m)
    ensures fault.Some? ==> IdentityFaultHolds(m, fault.value)
  {
    if m.id.None? && m.name.None? {
      return Some(NoName);
    }
    var packId := if m.id.Some? then m.id.value else m.name.value;
    if Blank(packId) {
      return Some(BlankName);
    }
    if m.version.None? || Blank(m.version.value) {
      return Some(NoVersion);
    }
    if m.kind.Some? && Blank(m.kind.value) {
      return Some(BlankKind);
    }
    var ok := CheckNoneBlank(m.flowTypes);
    if !ok {
      return Some(BlankFlowType);
    }
    if m.runnerVersion.Some? && Blank(m.runnerVersion.value) {
      return Some(BlankRunnerVersion);
    }
    ok := CheckNoneBlank(m.secrets);
    if !ok {
      return Some(BlankSecret);
    }
    return None;
  }

  /** Pushes a warning for each supply-chain reference that is missing and not required. */
  method CheckSupplyChain(m: Manifest, required: bool, warnings: seq<Warning>)
    returns (fault: Option<ManifestFault>, warnings': seq<Warning>)
    ensures fault.None? <==> GoodSupplyChain(m, required)
    ensures fault.Some? ==> SupplyFaultHolds(m, required, fault.value)
    ensures warnings' == warnings + if fault.None? then WarningsOf(m) else WarningsBefore(m, fault.value)
  {
    warnings' := warnings;
    if m.sbom.Some? {
      if Blank(m.sbom.value) {
        return Some(BlankSbom), warnings';
      }
    } else if required {
      return Some(NoSbom), warnings';
    } else {
      warnings' := warnings' + [NoSbomWarning];
    }
    if m.attestations == [] {
      if required {
        return Some(NoAttestations), warnings';
      } else {
        warnings' := warnings' + [NoAttestationsWarning];
      }
    } else {
      var ok := CheckNoneBlank(m.attestations);
      if !ok {
        return Some(BlankAttestation), warnings';
      }
    }
    fault := None;
  }

  method CheckFlows(m: Manifest, artifacts: bool, pathExists: string -> bool) returns (fault: Option<ManifestFault>)
    ensures fault.None? <==>
              AllDifferent(FlowIds(m)) && forall e | e in m.flows :: GoodExport(e, artifacts, pathExists)
    ensures fault.Some? ==> FlowFaultHolds(m, artifacts, pathExists, fault.value)
  {
    var seenIds: set<string> := {};
    for i := 0 to |m.flows|
      invariant seenIds == Elements(FlowIds(m)[..i])
      invariant forall j | 0 <= j < i :: ExportPasses(m, artifacts, pathExists, j)
    {
      var e := m.flows[i];
      assert e in m.flows && FlowIds(m)[i] == e.id;
      SeenMeansOld(m, i);
      if Blank(e.id) {
        return Some(BadFlow(i, BlankId));
      }
      if e.id in seenIds {
        return Some(BadFlow(i, DuplicateId));
      }
      ElementsOfLast(FlowIds(m)[..i], e.id);
      assert FlowIds(m)[..i + 1] == FlowIds(m)[..i] + [e.id];
      seenIds := seenIds + {e.id};
      if e.schema.Some? && !e.schema.value.Object? {
        return Some(BadFlow(i, SchemaNotObject));
      }
      if artifacts && e.path.Some? && !pathExists(e.path.value) {
        return Some(BadFlow(i, MissingFile));
      }
    }
    FlowsPassMeansGood(m, artifacts, pathExists);
    return None;
  }

  lemma SeenMeansOld(m: Manifest, i: nat)
    requires i < |m.flows|
    ensures m.flows[i].id in Elements(FlowIds(m)[..i]) <==> !IsNew(m, i)
  {
    assert forall j | 0 <= j < i :: FlowIds(m)[..i][j] == m.flows[j].id;
  }

  /** The index of the first path that does not exist. */
  method CheckPaths(paths: seq<string>, pathExists: string -> bool) returns (missing: Option<nat>)
    ensures missing.None? <==> AllExist(paths, pathExists)
    ensures missing.Some? ==> FirstMissing(paths, pathExists, missing.value)
  {
    for i := 0 to |paths|
      invariant forall j | 0 <= j < i :: pathExists(paths[j])
    {
      if !pathExists(paths[i]) {
        return Some(i);
      }
    }
    return None;
  }

  method ValidateManifest(m: Manifest, required: Require, warnings: seq<Warning>, pathExists: string -> bool)
    returns (r: Result<(), ManifestFault>, warnings': seq<Warning>)
    ensures r.Ok? <==> GoodManifest(m, required, pathExists)
    ensures r.Err? ==> FaultHolds(m, required, pathExists, r.error)
    ensures warnings' == warnings + if r.Ok? then WarningsOf(m) else WarningsBefore(m, r.error)
  {
    warnings' := warnings;
    var fault := CheckIdentity(m);
    if fault.Some? {
      return Err(fault.value), warnings';
    }
    if required.signature {
      if m.signature.None? {
        return Err(NoSignature), warnings';
      }
      if !CompleteSignature(m.signature.value) {
        return Err(IncompleteSignature), warnings';
      }
    }
    fault, warnings' := CheckSupplyChain(m, required.supplyChain, warnings');
    if fault.Some? {
      return Err(fault.value), warnings';
    }
    if required.flows && m.flows == [] {
      return Err(NoFlows), warnings';
    }
    fault := CheckFlows(m, required.artifacts, pathExists);
    FlowsPassMeansGood(m, required.artifacts, pathExists);
    if fault.Some? {
      return Err(fault.value), warnings';
    }
    if required.artifacts {
      var missing := CheckPaths(m.flowFiles, pathExists);
      if missing.Some? {
        return Err(MissingFlowFile(missing.value)), warnings';
      }
      missing := CheckPaths(m.components, pathExists);
      if missing.Some? {
        return Err(MissingComponent(missing.value)), warnings';
      }
    }
    r := Ok(());
  }

  // ----- verification -----

  /**
   What verification finds: whether the component and its layout are in order, the manifest if one is found
   and parses, which relative paths exist, and, where a runtime adapter is configured, what it lists.
   */
  datatype Component = Component(
    componentExists: bool,
    goodLayout: bool,
    manifest: Option<Manifest>,
    pathExists: string -> bool,
    runtime: Option<Result<seq<string>, ()>>)

  datatype Report = Report(manifest: Manifest, runtimeFlows: Option<seq<string>>, warnings: seq<Warning>)

  predicate KnownSchema(m: Manifest) {
    var hint := if m.schemaVersion.Some? then m.schemaVersion else m.schema;
    hint.None? || AsciiLower(Trim(hint.value)) in ["1", "v1", "pack.v1"]
  }

  /** `ensure_runtime_matches_manifest` */
  predicate RuntimeMatches(m: Manifest, runtimeFlows: seq<string>) {
    Elements(FlowIds(m)) - Elements(runtimeFlows) == {} && Elements(runtimeFlows) - Elements(FlowIds(m)) == {}
  }

  /** Which components verification accepts. */
  predicate Accepted(c: Component, required: Require) {
    && Described(c, required)
    && match c.runtime
       case None => true
       case Some(Err(_)) => false
       case Some(Ok(flows)) => required.runtimeMatch ==> RuntimeMatches(c.manifest.value, flows)
  }

  /** Why verification rejects a component: the first check that fails. */
  predicate PackFaultHolds(c: Component, required: Require, fault: PackFault) {
    var found := c.componentExists && c.goodLayout && c.manifest.Some?;
    match fault
    case ComponentMissing => !c.componentExists
    case BadLayout => c.componentExists && !c.goodLayout
    case NoManifest => c.componentExists && c.goodLayout && c.manifest.None?
    case UnknownSchemaVersion => found && !KnownSchema(c.manifest.value)
    case BadManifest(manifestFault) =>
      && found && KnownSchema(c.manifest.value)
      && FaultHolds(c.manifest.value, required, c.pathExists, manifestFault)
    case RuntimeUnavailable => Described(c, required) && c.runtime.Some? && c.runtime.value.Err?
    case RuntimeMismatch =>
      && Described(c, required) && required.runtimeMatch && c.runtime.Some? && c.runtime.value.Ok?
      && !RuntimeMatches(c.manifest.value, c.runtime.value.value)
  }

  /** The component is there with a good manifest. */
  predicate Described(c: Component, required: Require) {
    && c.componentExists && c.goodLayout && c.manifest.Some?
    && KnownSchema(c.manifest.value)
    && GoodManifest(c.manifest.value, required, c.pathExists)
  }

  method VerifyPackExports(c: Component, required: Require) returns (r: Result<Report, PackFault>)
    ensures r.Ok? <==> Accepted(c, required)
    ensures r.Ok? ==> r.value.manifest == c.manifest.value && r.value.warnings == WarningsOf(c.manifest.value)
    ensures r.Ok? ==> r.value.runtimeFlows.Some? == c.runtime.Some?
    ensures r.Ok? && c.runtime.Some? ==> c.runtime.value == Ok(r.value.runtimeFlows.value)
    ensures r.Err? ==> PackFaultHolds(c, required, r.error)
  {
    if !c.componentExists {
      return Err(ComponentMissing);
    }
    if !c.goodLayout {
      return Err(BadLayout);
    }
    if c.manifest.None? {
      return Err(NoManifest);
    }
    var m := c.manifest.value;
    if !KnownSchema(m) {
      return Err(UnknownSchemaVersion);
    }
    var checked, warnings := ValidateManifest(m, required, [], c.pathExists);
    if checked.Err? {
      return Err(BadManifest(checked.error));
    }
    if c.runtime.None? {
      return Ok(Report(m, None, warnings));
    }
    if c.runtime.value.Err? {
      return Err(RuntimeUnavailable);
    }
    if required.runtimeMatch && !RuntimeMatches(m, c.runtime.value.value) {
      return Err(RuntimeMismatch);
    }
    return Ok(Report(m, Some(c.runtime.value.value), warnings));
  }

  // ----- what the requirements mean -----

  /** A runtime matches exactly if it lists the ids of the manifest's flows, no more and no less. */
  lemma RuntimeMatchMeans(m: Manifest, runtimeFlows: seq<string>)
    ensures RuntimeMatches(m, runtimeFlows) <==>
              forall id :: id in runtimeFlows <==> exists e | e in m.flows :: e.id == id
  {
    var ids, listed := Elements(FlowIds(m)), Elements(runtimeFlows);
    forall id ensures id in ids <==> exists e | e in m.flows :: e.id == id {
      if id in ids {
        var i :| 0 <= i < |m.flows| && FlowIds(m)[i] == id;
        assert m.flows[i] in m.flows;
      }
      if e :| e in m.flows && e.id == id {
        var i :| 0 <= i < |m.flows| && m.flows[i] == e;
        assert FlowIds(m)[i] == id;
      }
    }
    if RuntimeMatches(m, runtimeFlows) {
      forall id ensures id in ids <==> id in listed {
        assert id !in ids - listed && id !in listed - ids;
      }
      assert forall id :: id in runtimeFlows <==> id in listed;
    }
    if forall id :: id in runtimeFlows <==> exists e | e in m.flows :: e.id == id {
      assert forall id :: id in listed <==> id in ids;
    }
  }

  /** Requiring flows adds that there is one. */
  lemma RequiringFlows(c: Component, required: Require)
    ensures Accepted(c, required.(flows := true))
            <==> Accepted(c, required.(flows := false)) && c.manifest.value.flows != []
  {
  }

  /** Requiring a signature adds one, with all of its three parts. */
  lemma RequiringSignature(c: Component, required: Require)
    ensures Accepted(c, required.(signature := true))
            <==> && Accepted(c, required.(signature := false))
                 && match c.manifest.value.signature
                    case None => false
                    case Some(s) => !Blank(s.kind) && !Blank(s.publicKey) && !Blank(s.signature)
  {
  }

  /** Requiring artifacts adds that each path the manifest names exists. */
  lemma RequiringArtifacts(c: Component, required: Require)
    ensures Accepted(c, required.(artifacts := true))
            <==> && Accepted(c, required.(artifacts := false))
                 && (forall path | path in c.manifest.value.flowFiles :: c.pathExists(path))
                 && (forall path | path in c.manifest.value.components :: c.pathExists(path))
                 && (forall e | e in c.manifest.value.flows && e.path.Some? :: c.pathExists(e.path.value))
  {
    if c.manifest.Some? {
      ArtifactsAdd(c.manifest.value, required, c.pathExists);
    }
  }

  lemma ArtifactsAdd(m: Manifest, required: Require, pathExists: string -> bool)
    ensures GoodManifest(m, required.(artifacts := true), pathExists)
            <==> && GoodManifest(m, required.(artifacts := false), pathExists)
                 && (forall path | path in m.flowFiles :: pathExists(path))
                 && (forall path | path in m.components :: pathExists(path))
                 && (forall e | e in m.flows && e.path.Some? :: pathExists(e.path.value))
  {
  }

  /** Requiring a runtime match adds that the runtime, where there is one, lists the manifest's ids and no others. */
  lemma RequiringRuntimeMatch(c: Component, required: Require)
    ensures Accepted(c, required.(runtimeMatch := true))
            <==> && Accepted(c, required.(runtimeMatch := false))
                 && (c.runtime.Some? ==> forall id ::
                       id in c.runtime.value.value <==> exists e | e in c.manifest.value.flows :: e.id == id)
  {
    if c.manifest.Some? && c.runtime.Some? && c.runtime.value.Ok? {
      RuntimeMatchMeans(c.manifest.value, c.runtime.value.value);
    }
  }

  /** The text that names the schema version: `schema_version` where it is given, else `schema`. */
  predicate NamesSchema(m: Manifest, text: string) {
    m.schemaVersion == Some(text) || (m.schemaVersion.None? && m.schema == Some(text))
  }

  lemma KnownSchemaMeans(m: Manifest)
    ensures KnownSchema(m) <==> forall text | NamesSchema(m, text) ::
              Spells(text, "1") || Spells(text, "v1") || Spells(text, "pack.v1")
  {
    var hint := if m.schemaVersion.Some? then m.schemaVersion else m.schema;
    assert forall text :: NamesSchema(m, text) <==> hint == Some(text);
    if hint.Some? {
      TrimmedLowerMeans(hint.value, "1");
      TrimmedLowerMeans(hint.value, "v1");
      TrimmedLowerMeans(hint.value, "pack.v1");
    }
  }

  lemma BareIsAlike(m: Manifest, required: Require, pathExists: string -> bool)
    ensures var bare := m.(schemaVersion := None, schema := None);
              && KnownSchema(bare) && FlowIds(bare) == FlowIds(m)
              && (GoodManifest(bare, required, pathExists) <==> GoodManifest(m, required, pathExists))
  {
    assert FlowIds(m.(schemaVersion := None, schema := None)) == FlowIds(m);
  }

  /** A text that names the schema version must be one of three, up to case and white space around it. */
  lemma SchemaTextDecides(c: Component, m: Manifest, required: Require)
    requires c.manifest == Some(m)
    ensures Accepted(c, required) <==>
              && Accepted(c.(manifest := Some(m.(schemaVersion := None, schema := None))), required)
              && forall text | NamesSchema(m, text) ::
                   Spells(text, "1") || Spells(text, "v1") || Spells(text, "pack.v1")
  {
    KnownSchemaMeans(m);
    BareIsAlike(m, required, c.pathExists);
  }

  /** A name stands in for an id that is not given, and is not looked at otherwise. */
  lemma NameStandsIn(m: Manifest, required: Require, pathExists: string -> bool, name: Option<string>)
    ensures m.id.Some? ==>
              (GoodManifest(m, required, pathExists) <==> GoodManifest(m.(name := name), required, pathExists))
    ensures m.id.None? ==>
              (GoodManifest(m, required, pathExists) <==> GoodManifest(m.(id := m.name), required, pathExists))
  {
    assert FlowIds(m.(name := name)) == FlowIds(m) == FlowIds(m.(id := m.name));
  }

  /** Requiring the supply chain is the same as not requiring it and accepting no warnings. */
  lemma SupplyChainMeansNoWarnings(c: Component, required: Require)
    ensures Accepted(c, required.(supplyChain := true))
            <==> Accepted(c, required.(supplyChain := false)) && WarningsOf(c.manifest.value) == []
  {
  }

  /** Every requirement of `lax` is one of `strict`. */
  predicate AtLeast(strict: Require, lax: Require) {
    && (lax.flows ==> strict.flows) && (lax.signature ==> strict.signature) && (lax.artifacts ==> strict.artifacts)
    && (lax.supplyChain ==> strict.supplyChain) && (lax.runtimeMatch ==> strict.runtimeMatch)
  }

  /** Turning requirements on only shrinks what is accepted. */
  lemma RequiringMoreAcceptsLess(c: Component, strict: Require, lax: Require)
    requires AtLeast(strict, lax) && Accepted(c, strict)
    ensures Accepted(c, lax)
  {
  }

  /**
   A runtime list that matches a good manifest covers its flows, so it is no shorter; and it lists them once
   each, in some order, exactly when it is no longer.
   */
  lemma MatchingRuntimeLists(m: Manifest, required: Require, pathExists: string -> bool, runtimeFlows: seq<string>)
    requires GoodManifest(m, required, pathExists) && RuntimeMatches(m, runtimeFlows)
    ensures |m.flows| <= |runtimeFlows|
    ensures multiset(runtimeFlows) == multiset(FlowIds(m)) <==> |runtimeFlows| == |m.flows|
  {
    var ids := FlowIds(m);
    assert Elements(ids) == Elements(runtimeFlows) by {
      forall x ensures x in Elements(ids) <==> x in Elements(runtimeFlows) {
        assert x !in Elements(ids) - Elements(runtimeFlows) && x !in Elements(runtimeFlows) - Elements(ids);
      }
    }
    ElementsCount(ids);
    ElementsCount(runtimeFlows);
    if |runtimeFlows| == |m.flows| {
      SameElementsPermute(runtimeFlows, ids);
    }
    if multiset(runtimeFlows) == multiset(ids) {
      assert |multiset(runtimeFlows)| == |runtimeFlows| && |multiset(ids)| == |ids|;
    }
  }

  /** Matching does not look at repetition: every flow listed twice matches too, and is no permutation. */
  lemma DoubledListMatches(m: Manifest)
    ensures RuntimeMatches(m, FlowIds(m) + FlowIds(m))
    ensures m.flows != [] ==> multiset(FlowIds(m) + FlowIds(m)) != multiset(FlowIds(m))
  {
    var ids := FlowIds(m);
    assert forall x :: x in ids + ids <==> x in ids;
    assert Elements(ids + ids) == Elements(ids);
    assert |multiset(ids + ids)| == 2 * |ids| && |multiset(ids)| == |ids|;
  }
}
