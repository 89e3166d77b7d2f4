/** What the structural checks of a pack list, issue by issue, and in which order. */
module Listing {
  import opened Wrappers
  import opened Text
  import opened Distinct
  import opened Structure

  // ----- when an issue is listed -----

  /** A flow or a component names this file, as what it is. */
  predicate FlowNames(f: FlowEntry, kind: FileKind, path: string) {
    || (kind == Entry && f.entry == path)
    || (kind == Yaml && f.fileYaml == path)
    || (kind == JsonFile && f.fileJson == path)
  }

  predicate ComponentNames(c: Component, kind: FileKind, path: string) {
    || (kind == Wasm && c.fileWasm == path)
    || (kind == Schema && c.schemaFile == Some(path))
    || (kind == ManifestFile && c.manifestFile == Some(path))
  }

  predicate Names(p: Pack, kind: FileKind, path: string) {
    || (exists f | f in p.flows :: FlowNames(f, kind, path))
    || (exists c | c in p.components :: ComponentNames(c, kind, path))
  }

  predicate HasId(flows: seq<FlowEntry>, id: string) {
    exists f | f in flows :: f.id == id
  }

  /** Two flows have this id. */
  predicate IdTwice(flows: seq<FlowEntry>, id: string) {
    exists j | 0 <= j < |flows| :: flows[j].id == id && HasId(flows[..j], id)
  }

  /** Components `i` and `j` have this key, and none between them has it. */
  predicate Repeats(components: seq<Component>, i: nat, j: nat, key: string) {
    && i < j < |components| && Key(components[i]) == key == Key(components[j])
    && forall k | i < k < j :: Key(components[k]) != key
  }

  ghost predicate KeyTwice(components: seq<Component>, key: string, previous: string, current: string) {
    exists i: nat, j: nat :: Repeats(components, i, j, key)
      && components[i].fileWasm == previous && components[j].fileWasm == current
  }

  /** What an issue says of the pack. */
  ghost predicate Deserves(p: Pack, allowUnsigned: bool, issue: Issue) {
    match issue
    case NoPackId => Blank(p.meta.packId)
    case NoName => Blank(p.meta.name)
    case NoEntryFlows => p.meta.entryFlows == []
    case NoCreationTime => Blank(p.meta.createdAt)
    case DuplicateFlow(id) => IdTwice(p.flows, id)
    case EmptyPath(kind) => exists path :: Names(p, kind, path) && Blank(path)
    case NotInSbom(kind, path) => Names(p, kind, path) && !Blank(path) && path !in p.sbomPaths
    case UnknownEntryFlow(id) => id in p.meta.entryFlows && !HasId(p.flows, id)
    case DuplicateComponent(key, previous, current) => KeyTwice(p.components, key, previous, current)
    case BadSignature => !p.signatureOk && !allowUnsigned
  }

  /** The issue is about this file. */
  predicate FileFault(issue: Issue, kind: FileKind, path: string, sbom: set<string>) {
    || (issue == EmptyPath(kind) && Blank(path))
    || (issue == NotInSbom(kind, path) && !Blank(path) && path !in sbom)
  }

  predicate IsFileIssue(issue: Issue) {
    issue.EmptyPath? || issue.NotInSbom?
  }

  lemma FlowFilesListed(f: FlowEntry, sbom: set<string>, issue: Issue)
    ensures issue in FlowFileIssues(f, sbom) <==>
              IsFileIssue(issue) && exists path :: FlowNames(f, issue.kind, path)
                                                   && FileFault(issue, issue.kind, path, sbom)
  {
    assert FlowNames(f, Entry, f.entry) && FlowNames(f, Yaml, f.fileYaml) && FlowNames(f, JsonFile, f.fileJson);
  }

  lemma ComponentFilesListed(c: Component, sbom: set<string>, issue: Issue)
    ensures issue in ComponentFileIssues(c, sbom) <==>
              IsFileIssue(issue) && exists path :: ComponentNames(c, issue.kind, path)
                                                   && FileFault(issue, issue.kind, path, sbom)
  {
    assert ComponentNames(c, Wasm, c.fileWasm);
    assert c.schemaFile.Some? ==> ComponentNames(c, Schema, c.schemaFile.value);
    assert c.manifestFile.Some? ==> ComponentNames(c, ManifestFile, c.manifestFile.value);
  }

  lemma IdsOf(flows: seq<FlowEntry>, id: string)
    ensures id in Elements(FlowIds(flows)) <==> HasId(flows, id)
  {
    if id in FlowIds(flows) {
      var i :| 0 <= i < |flows| && FlowIds(flows)[i] == id;
      assert flows[i] in flows;
    }
    if f :| f in flows && f.id == id {
      var i :| 0 <= i < |flows| && flows[i] == f;
      assert FlowIds(flows)[i] == id;
    }
  }

  lemma IdTwiceStep(flows: seq<FlowEntry>, id: string)
    requires flows != []
    ensures var front, last := flows[..|flows| - 1], flows[|flows| - 1];
              IdTwice(flows, id) <==> IdTwice(front, id) || (last.id == id && HasId(front, id))
  {
    var front := flows[..|flows| - 1];
    assert forall j | 0 <= j < |front| :: front[j] == flows[j] && front[..j] == flows[..j];
  }

  lemma {:induction false} FlowsListed(flows: seq<FlowEntry>, sbom: set<string>, issue: Issue)
    ensures issue in FlowIssues(flows, sbom) <==>
              || (issue.DuplicateFlow? && IdTwice(flows, issue.id))
              || exists f | f in flows :: issue in FlowFileIssues(f, sbom)
  {
    if flows != [] {
      var front, last := flows[..|flows| - 1], flows[|flows| - 1];
      FlowsListed(front, sbom, issue);
      FlowFilesListed(last, sbom, issue);
      assert flows == front + [last];
      if issue.DuplicateFlow? {
        IdsOf(front, issue.id);
        IdTwiceStep(flows, issue.id);
      }
    }
  }

  lemma {:induction false} EntriesListed(entries: seq<string>, ids: set<string>, issue: Issue)
    ensures issue in EntryIssues(entries, ids) <==>
              issue.UnknownEntryFlow? && issue.id in entries && issue.id !in ids
  {
    if entries != [] {
      EntriesListed(entries[..|entries| - 1], ids, issue);
      assert entries == entries[..|entries| - 1] + [entries[|entries| - 1]];
    }
  }

  /** The component kept under a key is the last that has it. */
  lemma {:induction false} LatestIsLast(components: seq<Component>, key: string) returns (i: nat)
    requires key in Latest(components)
    ensures i < |components| && components[i] == Latest(components)[key] && Key(components[i]) == key
    ensures forall k | i < k < |components| :: Key(components[k]) != key
  {
    var n := |components| - 1;
    if Key(components[n]) == key {
      i := n;
    } else {
      i := LatestIsLast(components[..n], key);
    }
  }

  /** The last component repeats a key exactly if the latest one before it has it. */
  lemma LastRepeats(components: seq<Component>, i: nat, key: string)
    requires components != [] && i < |components| - 1
    ensures var front, last := components[..|components| - 1], components[|components| - 1];
              Repeats(components, i, |components| - 1, key) ==>
                key == Key(last) && key in Latest(front) && Latest(front)[key] == components[i]
  {
    var n := |components| - 1;
    var front := components[..n];
    if Repeats(components, i, n, key) {
      assert Keys(front)[i] == key && key in Elements(Keys(front));
      var i' := LatestIsLast(front, key);
      assert front[i'] == components[i'] && front[i] == components[i];
    }
  }

  lemma RepeatsInFront(components: seq<Component>, i: nat, j: nat, key: string)
    requires j < |components| - 1
    ensures Repeats(components, i, j, key) <==> Repeats(components[..|components| - 1], i, j, key)
  {
    var front := components[..|components| - 1];
    assert forall k | 0 <= k <= j :: front[k] == components[k];
  }

  lemma KeyTwiceStep(components: seq<Component>, key: string, previous: string, current: string)
    requires components != []
    ensures var front, last := components[..|components| - 1], components[|components| - 1];
              KeyTwice(components, key, previous, current) <==>
                || KeyTwice(front, key, previous, current)
                || (key == Key(last) && last.fileWasm == current
                    && key in Latest(front) && Latest(front)[key].fileWasm == previous)
  {
    var n := |components| - 1;
    var front, last := components[..n], components[n];
    if KeyTwice(front, key, previous, current) {
      var i: nat, j: nat :| Repeats(front, i, j, key)
        && front[i].fileWasm == previous && front[j].fileWasm == current;
      RepeatsInFront(components, i, j, key);
    } else if key == Key(last) && key in Latest(front) {
      var i := LatestIsLast(front, key);
      assert Repeats(components, i, n, key);
    }
    if KeyTwice(components, key, previous, current) {
      var i: nat, j: nat :| Repeats(components, i, j, key)
        && components[i].fileWasm == previous && components[j].fileWasm == current;
      if j < n {
        RepeatsInFront(components, i, j, key);
      } else {
        LastRepeats(components, i, key);
      }
    }
  }

  lemma {:induction false} ComponentsListed(components: seq<Component>, sbom: set<string>, issue: Issue)
    ensures issue in ComponentIssues(components, sbom) <==>
              || (issue.DuplicateComponent? && KeyTwice(components, issue.key, issue.previous, issue.current))
              || exists c | c in components :: issue in ComponentFileIssues(c, sbom)
  {
    if components != [] {
      var front, last := components[..|components| - 1], components[|components| - 1];
      ComponentsListed(front, sbom, issue);
      assert forall c :: c in components <==> c in front || c == last;
      if issue.DuplicateComponent? {
        ComponentFilesListed(last, sbom, issue);
        KeyTwiceStep(components, issue.key, issue.previous, issue.current);
      }
    }
  }

  /** Some flow or component of the pack has this issue with one of its files. */
  lemma FilesListed(p: Pack, issue: Issue)
    ensures (exists f | f in p.flows :: issue in FlowFileIssues(f, p.sbomPaths))
            || (exists c | c in p.components :: issue in ComponentFileIssues(c, p.sbomPaths))
            <==> IsFileIssue(issue) && Deserves(p, true, issue)
  {
    forall f ensures issue in FlowFileIssues(f, p.sbomPaths) <==>
      IsFileIssue(issue) && exists path :: FlowNames(f, issue.kind, path)
                                           && FileFault(issue, issue.kind, path, p.sbomPaths)
    {
      FlowFilesListed(f, p.sbomPaths, issue);
    }
    forall c ensures issue in ComponentFileIssues(c, p.sbomPaths) <==>
      IsFileIssue(issue) && exists path :: ComponentNames(c, issue.kind, path)
                                           && FileFault(issue, issue.kind, path, p.sbomPaths)
    {
      ComponentFilesListed(c, p.sbomPaths, issue);
    }
  }

  lemma PartsListed(p: Pack, allowUnsigned: bool, issue: Issue)
    ensures issue in AllIssues(p, allowUnsigned) <==>
              || issue in MetaIssues(p.meta)
              || issue in FlowIssues(p.flows, p.sbomPaths)
              || issue in EntryIssues(p.meta.entryFlows, Elements(FlowIds(p.flows)))
              || issue in ComponentIssues(p.components, p.sbomPaths)
              || issue in SignatureIssues(p, allowUnsigned)
  {
    var a, b := MetaIssues(p.meta), FlowIssues(p.flows, p.sbomPaths);
    var c, d := EntryIssues(p.meta.entryFlows, Elements(FlowIds(p.flows))), ComponentIssues(p.components, p.sbomPaths);
    var e := SignatureIssues(p, allowUnsigned);
    assert issue in a + b + c + d + e <==> issue in a + b + c + d || issue in e;
    assert issue in a + b + c + d <==> issue in a + b + c || issue in d;
    assert issue in a + b + c <==> issue in a + b || issue in c;
  }

  lemma MetaListed(m: Meta, issue: Issue)
    ensures issue in MetaIssues(m) <==>
              || (issue == NoPackId && Blank(m.packId)) || (issue == NoName && Blank(m.name))
              || (issue == NoEntryFlows && m.entryFlows == []) || (issue == NoCreationTime && Blank(m.createdAt))
  {
  }

  /** Where an issue belongs: metadata, flows, entry flows, components, signature. */
  function Stage(issue: Issue): nat {
    match issue
    case NoPackId | NoName | NoEntryFlows | NoCreationTime => 0
    case DuplicateFlow(_) => 1
    case UnknownEntryFlow(_) => 2
    case DuplicateComponent(_, _, _) => 3
    case BadSignature => 4
    case EmptyPath(kind) => if kind in {Entry, Yaml, JsonFile} then 1 else 3
    case NotInSbom(kind, _) => if kind in {Entry, Yaml, JsonFile} then 1 else 3
  }

  lemma FlowFileStage(f: FlowEntry, sbom: set<string>, issue: Issue)
    requires issue in FlowFileIssues(f, sbom)
    ensures Stage(issue) == 1
  {
  }

  lemma ComponentFileStage(c: Component, sbom: set<string>, issue: Issue)
    requires issue in ComponentFileIssues(c, sbom)
    ensures Stage(issue) == 3
  {
  }

  lemma FlowStage(flows: seq<FlowEntry>, sbom: set<string>, issue: Issue)
    ensures issue in FlowIssues(flows, sbom) ==> Stage(issue) == 1
  {
    FlowsListed(flows, sbom, issue);
    if f :| f in flows && issue in FlowFileIssues(f, sbom) {
      FlowFileStage(f, sbom, issue);
    }
  }

  lemma ComponentStage(components: seq<Component>, sbom: set<string>, issue: Issue)
    ensures issue in ComponentIssues(components, sbom) ==> Stage(issue) == 3
  {
    ComponentsListed(components, sbom, issue);
    if c :| c in components && issue in ComponentFileIssues(c, sbom) {
      ComponentFileStage(c, sbom, issue);
    }
  }

  /** Each part lists issues of its own stage alone. */
  lemma PartsAreStages(p: Pack, allowUnsigned: bool, issue: Issue)
    ensures issue in MetaIssues(p.meta) ==> Stage(issue) == 0
    ensures issue in FlowIssues(p.flows, p.sbomPaths) ==> Stage(issue) == 1
    ensures issue in EntryIssues(p.meta.entryFlows, Elements(FlowIds(p.flows))) ==> Stage(issue) == 2
    ensures issue in ComponentIssues(p.components, p.sbomPaths) ==> Stage(issue) == 3
    ensures issue in SignatureIssues(p, allowUnsigned) ==> Stage(issue) == 4
  {
    MetaListed(p.meta, issue);
    FlowStage(p.flows, p.sbomPaths, issue);
    EntriesListed(p.meta.entryFlows, Elements(FlowIds(p.flows)), issue);
    ComponentStage(p.components, p.sbomPaths, issue);
  }

  /** An issue is listed exactly if the pack deserves it: nothing is missed and nothing made up. */
  lemma IssueIsListed(p: Pack, allowUnsigned: bool, issue: Issue)
    ensures issue in AllIssues(p, allowUnsigned) <==> Deserves(p, allowUnsigned, issue)
  {
    PartsListed(p, allowUnsigned, issue);
    PartsAreStages(p, allowUnsigned, issue);
    if Stage(issue) == 0 {
      MetaListed(p.meta, issue);
    } else if IsFileIssue(issue) {
      FlowsListed(p.flows, p.sbomPaths, issue);
      ComponentsListed(p.components, p.sbomPaths, issue);
      FilesListed(p, issue);
    } else {
      OtherIsListed(p, allowUnsigned, issue);
    }
  }

  lemma OtherIsListed(p: Pack, allowUnsigned: bool, issue: Issue)
    requires Stage(issue) != 0 && !IsFileIssue(issue)
    ensures issue in FlowIssues(p.flows, p.sbomPaths)
            || issue in EntryIssues(p.meta.entryFlows, Elements(FlowIds(p.flows)))
            || issue in ComponentIssues(p.components, p.sbomPaths)
            || issue in SignatureIssues(p, allowUnsigned)
            <==> Deserves(p, allowUnsigned, issue)
  {
    FlowsListed(p.flows, p.sbomPaths, issue);
    EntriesListed(p.meta.entryFlows, Elements(FlowIds(p.flows)), issue);
    ComponentsListed(p.components, p.sbomPaths, issue);
    FilesListed(p, issue);
    if issue.UnknownEntryFlow? {
      IdsOf(p.flows, issue.id);
    }
  }

  // ----- order and warnings -----

  predicate InStages(issues: seq<Issue>) {
    forall i, j | 0 <= i < j < |issues| :: Stage(issues[i]) <= Stage(issues[j])
  }

  lemma StagesAppend(a: seq<Issue>, b: seq<Issue>, stage: nat)
    requires InStages(a) && forall x | x in a :: Stage(x) <= stage
    requires forall x | x in b :: Stage(x) == stage
    ensures InStages(a + b) && forall x | x in a + b :: Stage(x) <= stage
  {
  }

  /** The issues stand in the order of the checks. */
  lemma IssuesInOrder(p: Pack, allowUnsigned: bool)
    ensures InStages(AllIssues(p, allowUnsigned))
  {
    var a, b := MetaIssues(p.meta), FlowIssues(p.flows, p.sbomPaths);
    var c, d := EntryIssues(p.meta.entryFlows, Elements(FlowIds(p.flows))), ComponentIssues(p.components, p.sbomPaths);
    var e := SignatureIssues(p, allowUnsigned);
    forall x ensures (x in a ==> Stage(x) == 0) && (x in b ==> Stage(x) == 1) && (x in c ==> Stage(x) == 2)
                  && (x in d ==> Stage(x) == 3) && (x in e ==> Stage(x) == 4)
    {
      PartsAreStages(p, allowUnsigned, x);
    }
    StagesAppend(a, b, 1);
    StagesAppend(a + b, c, 2);
    StagesAppend(a + b + c, d, 3);
    StagesAppend(a + b + c + d, e, 4);
  }

  /** The place of an issue among those of one flow, of one component, or of the metadata. */
  function Rank(issue: Issue): nat {
    match issue
    case NoPackId | DuplicateFlow(_) | DuplicateComponent(_, _, _) | UnknownEntryFlow(_) | BadSignature => 0
    case NoName => 1
    case NoEntryFlows => 2
    case NoCreationTime => 3
    case EmptyPath(kind) => FileRank(kind)
    case NotInSbom(kind, _) => FileRank(kind)
  }

  function FileRank(kind: FileKind): nat {
    match kind
    case Entry | Wasm => 1
    case Yaml | Schema => 2
    case JsonFile | ManifestFile => 3
  }

  predicate Ranked(issues: seq<Issue>) {
    forall i, j | 0 <= i < j < |issues| :: Rank(issues[i]) < Rank(issues[j])
  }

  lemma RankedAppend(a: seq<Issue>, b: seq<Issue>, rank: nat)
    requires Ranked(a) && (forall x | x in a :: Rank(x) < rank)
    requires |b| <= 1 && (forall x | x in b :: Rank(x) == rank)
    ensures Ranked(a + b) && forall x | x in a + b :: Rank(x) < rank + 1
  {
  }

  lemma FourRanked(a: seq<Issue>, x: seq<Issue>, y: seq<Issue>, z: seq<Issue>)
    requires |a| <= 1 && |x| <= 1 && |y| <= 1 && |z| <= 1
    requires (forall i | i in a :: Rank(i) == 0) && (forall i | i in x :: Rank(i) == 1)
    requires (forall i | i in y :: Rank(i) == 2) && (forall i | i in z :: Rank(i) == 3)
    ensures Ranked(a + (x + y + z))
  {
    RankedAppend(a, x, 1);
    RankedAppend(a + x, y, 2);
    RankedAppend(a + x + y, z, 3);
    assert a + (x + y + z) == a + x + y + z;
  }

  /** The issues of one flow stand in the order of the checks, each at most once. */
  lemma FlowInOrder(f: FlowEntry, ids: set<string>, sbom: set<string>)
    ensures Ranked(OneFlowIssues(f, ids, sbom))
  {
    FourRanked(if f.id in ids then [DuplicateFlow(f.id)] else [],
               FileIssues(Entry, f.entry, sbom), FileIssues(Yaml, f.fileYaml, sbom),
               FileIssues(JsonFile, f.fileJson, sbom));
  }

  lemma ComponentInOrder(c: Component, keys: map<string, Component>, sbom: set<string>)
    ensures Ranked(OneComponentIssues(c, keys, sbom))
  {
    FourRanked(if Key(c) in keys then [DuplicateComponent(Key(c), keys[Key(c)].fileWasm, c.fileWasm)] else [],
               FileIssues(Wasm, c.fileWasm, sbom),
               if c.schemaFile.Some? then FileIssues(Schema, c.schemaFile.value, sbom) else [],
               if c.manifestFile.Some? then FileIssues(ManifestFile, c.manifestFile.value, sbom) else []);
  }

  lemma MetaInOrder(m: Meta)
    ensures Ranked(MetaIssues(m))
  {
    var a, x := if Blank(m.packId) then [NoPackId] else [], if Blank(m.name) then [NoName] else [];
    var y, z := if m.entryFlows == [] then [NoEntryFlows] else [], if Blank(m.createdAt) then [NoCreationTime] else [];
    FourRanked(a, x, y, z);
    assert MetaIssues(m) == a + (x + y + z);
  }

  /** Later flows only append to what is listed of the flows, and likewise for entry flows and components. */
  lemma {:induction false} FlowIssuesGrow(flows: seq<FlowEntry>, k: nat, sbom: set<string>)
    requires k <= |flows|
    ensures FlowIssues(flows[..k], sbom) <= FlowIssues(flows, sbom)
  {
    if k < |flows| {
      FlowIssuesGrow(flows[..|flows| - 1], k, sbom);
      assert flows[..|flows| - 1][..k] == flows[..k];
    } else {
      assert flows[..k] == flows;
    }
  }

  lemma {:induction false} EntryIssuesGrow(entries: seq<string>, k: nat, ids: set<string>)
    requires k <= |entries|
    ensures EntryIssues(entries[..k], ids) <= EntryIssues(entries, ids)
  {
    if k < |entries| {
      EntryIssuesGrow(entries[..|entries| - 1], k, ids);
      assert entries[..|entries| - 1][..k] == entries[..k];
    } else {
      assert entries[..k] == entries;
    }
  }

  lemma {:induction false} ComponentIssuesGrow(components: seq<Component>, k: nat, sbom: set<string>)
    requires k <= |components|
    ensures ComponentIssues(components[..k], sbom) <= ComponentIssues(components, sbom)
  {
    if k < |components| {
      ComponentIssuesGrow(components[..|components| - 1], k, sbom);
      assert components[..|components| - 1][..k] == components[..k];
    } else {
      assert components[..k] == components;
    }
  }

  /**
   The warnings of a report: those of opening the pack, in order, then one for an unsigned pack that is allowed,
   then one for a bad SBOM.
   */
  lemma WarningsMean(p: Pack, allowUnsigned: bool, warnings: seq<Warning>)
    requires warnings == OpeningWarnings(p) + NewWarnings(p, allowUnsigned)
    ensures |p.warnings| <= |warnings| <= |p.warnings| + 2
    ensures forall i | 0 <= i < |p.warnings| :: warnings[i] == Opening(p.warnings[i])
    ensures forall text :: Opening(text) in warnings <==> text in p.warnings
    ensures UnsignedAllowed in warnings <==> !p.signatureOk && allowUnsigned
    ensures SbomIssues in warnings <==> !p.sbomOk
    ensures SbomIssues in warnings ==> warnings[|warnings| - 1] == SbomIssues
  {
    var opening := OpeningWarnings(p);
    assert forall w :: w in warnings <==> w in opening || w in NewWarnings(p, allowUnsigned);
    forall text ensures Opening(text) in opening <==> text in p.warnings {
      if text in p.warnings {
        var i :| 0 <= i < |p.warnings| && p.warnings[i] == text;
        assert opening[i] == Opening(text);
      }
    }
  }
}
