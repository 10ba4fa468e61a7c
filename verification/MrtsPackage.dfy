/** A package that is staged, published under one name, verified by its manifest and copied for a run. */
module MrtsPackage {
  import opened Wrappers
  import opened Collections
  import opened TextLines

  /** A path by its components; parsed documents stand for the texts they are read from. */
  type Path = seq<string>
  type Digest = string

  datatype Value = Null | Text(text: string) | Scalar(int) | List(items: seq<Value>) | Dict(fields: map<string, Value>)

  datatype Content = Yaml(value: Value) | Plain(text: string) | ManifestDoc(manifest: Manifest) | NoteDoc(note: Note)

  type Files = map<Path, Content>
  type Hashes = map<Path, Digest>
  type Definitions = map<string, map<string, Digest>>

  datatype Manifest = Manifest(
    schema: int, root: Path, status: string, importStatus: string, validationStatus: string, sources: string,
    corpora: seq<string>, definitions: Definitions, caseIds: seq<string>, artifacts: Hashes)

  datatype Note = Note(manifestDigest: Digest, port: int, artifacts: Hashes)

  datatype Error =
    | DestinationExists | StagingFailed | NoRuleIds | DuplicateRuleIds | NoCases | InvalidCase | DuplicateCaseIds
    | InvalidDocument | SourcesChanged | DefinitionsChanged | NoManifest | IdentityMismatch | ArtifactMismatch
    | DefinitionMismatch | CaseIdMismatch | NotIndependent | ChangedDuringCopy

  /**
    Code outside this model: the digest, the case loader (over the case files in name order), the scan
    for rule ids, and setting the port of every request of a test document.
   */
  datatype Tools = Tools(
    hash: Content -> Digest, loadCases: Files -> Option<seq<string>>, ruleIds: Content -> set<string>,
    setPort: (Value, int) -> Option<Value>)

  const MANIFEST: Path := ["manifest.json"]
  const NOTE: Path := ["materialization.json"]

  // ---- Contents of a package ----

  predicate EndsWith(name: string, suffix: string) {
    |suffix| <= |name| && name[|name| - |suffix|..] == suffix
  }

  /** Digests of everything but the manifest at the root. */
  function ArtifactHashes(files: Files, hash: Content -> Digest): Hashes {
    map p | p in files && p != MANIFEST :: hash(files[p])
  }

  predicate Matches(p: Path, corpus: string, directory: string, suffix: string) {
    |p| == 3 && p[0] == corpus && p[1] == directory && EndsWith(p[2], suffix)
  }

  /** The files with that suffix in one directory of a corpus. */
  function Matching(files: Files, corpus: string, directory: string, suffix: string): Files {
    map p | p in files && Matches(p, corpus, directory, suffix) :: files[p]
  }

  function CorpusRuleIds(files: Files, corpus: string, ruleIds: Content -> set<string>): set<string> {
    var rules := Matching(files, corpus, "rules", ".conf");
    set p, id | p in rules && id in ruleIds(rules[p]) :: id
  }

  function CheckCollisions(files: Files, corpora: seq<string>, ruleIds: Content -> set<string>): Result<(), Error> {
    if exists c | c in corpora :: CorpusRuleIds(files, c, ruleIds) == {} then Err(NoRuleIds)
    else if |corpora| == 2
            && CorpusRuleIds(files, corpora[0], ruleIds) * CorpusRuleIds(files, corpora[1], ruleIds) != {}
    then Err(DuplicateRuleIds)
    else Ok(())
  }

  function LoadedNames(files: Files, corpora: seq<string>, loadCases: Files -> Option<seq<string>>)
    : Result<seq<string>, Error>
  {
    if corpora == [] then Ok([])
    else
      var before :- LoadedNames(files, corpora[..|corpora| - 1], loadCases);
      var cases := Matching(files, corpora[|corpora| - 1], "framework-cases", ".yaml");
      if cases == map[] then Err(NoCases)
      else match loadCases(cases)
        case Some(names) => Ok(before + names)
        case None => Err(InvalidCase)
  }

  function CaseIds(files: Files, corpora: seq<string>, loadCases: Files -> Option<seq<string>>)
    : Result<seq<string>, Error>
  {
    var names :- LoadedNames(files, corpora, loadCases);
    if Distinct(names) then Ok(names) else Err(DuplicateCaseIds)
  }

  // ---- Rewriting files ----

  /** Every string of a value, at any depth, moved to the new location. */
  function Relocate(v: Value, moved: string -> string): Value {
    match v
    case Text(s) => Text(moved(s))
    case Null => v
    case Scalar(_) => v
    case List(items) => List(seq(|items|, i requires 0 <= i < |items| => Relocate(items[i], moved)))
    case Dict(fields) => Dict(map k | k in fields :: Relocate(fields[k], moved))
  }

  /** A case keeps everything but what its provenance says about locations. */
  function RelocateCase(fields: map<string, Value>, moved: string -> string): map<string, Value> {
    map k | k in fields :: if k == "metadata" || k == "origin" then Relocate(fields[k], moved) else fields[k]
  }

  /** A name's suffix; dots in front of the name start none. */
  predicate HasSuffix(name: string, suffix: string) {
    EndsWith(name, suffix) && exists i :: 0 <= i < |name| - |suffix| && name[i] != '.'
  }

  predicate IsCasePath(p: Path) {
    |p| >= 2 && p[|p| - 2] == "framework-cases" && HasSuffix(p[|p| - 1], ".yaml")
  }

  predicate IsLoadPath(p: Path) {
    p != [] && p[|p| - 1] == "mrts.load"
  }

  function RewriteFile(p: Path, c: Content, moved: string -> string): Option<Content> {
    if IsCasePath(p) then
      if c.Yaml? && c.value.Dict? then Some(Yaml(Dict(RelocateCase(c.value.fields, moved)))) else None
    else if IsLoadPath(p) then
      if c.Plain? then Some(Plain(moved(c.text))) else None
    else Some(c)
  }

  function PortFile(p: Path, c: Content, corpora: seq<string>, port: int,
      setPort: (Value, int) -> Option<Value>): Option<Content>
  {
    if exists corpus | corpus in corpora :: Matches(p, corpus, "ftw", ".yaml") then
      if c.Yaml? then
        match setPort(c.value, port)
        case Some(v) => Some(Yaml(v))
        case None => None
      else None
    else Some(c)
  }

  /** One rewriting of every file: all of it, or nothing. */
  function Rewritten(files: Files, rewrite: (Path, Content) -> Option<Content>): Result<Files, Error> {
    if forall p | p in files :: rewrite(p, files[p]).Some? then Ok(map p | p in files :: rewrite(p, files[p]).value)
    else Err(InvalidDocument)
  }

  /** The loop that rewrites the staged files in place, in whatever order they are listed. */
  method RewriteAll(files: Files, rewrite: (Path, Content) -> Option<Content>) returns (r: Result<Files, Error>)
    ensures r == Rewritten(files, rewrite)
  {
    var todo, now := files.Keys, files;
    while todo != {}
      invariant todo <= files.Keys == now.Keys
      invariant forall p | p in files :: if p in todo then now[p] == files[p]
                                         else rewrite(p, files[p]) == Some(now[p])
      decreases |todo|
    {
      var p :| p in todo;
      var c := rewrite(p, now[p]);
      if c.None? { return Err(InvalidDocument); }
      now := now[p := c.value];
      todo := todo - {p};
    }
    assert now == map p | p in files :: rewrite(p, files[p]).value;
    r := Ok(now);
  }

  // ---- Verification ----

  function VerifyPackage(
    files: Files, root: Path, corpora: seq<string>, sources: string, definitions: Definitions, tools: Tools)
    : Result<Manifest, Error>
  {
    if MANIFEST !in files || !files[MANIFEST].ManifestDoc? then Err(NoManifest)
    else
      var m := files[MANIFEST].manifest;
      if m.schema != 1 || m.root != root || m.status != "validated" || m.importStatus != "passed"
         || m.validationStatus != "passed" || m.corpora != corpora || m.sources != sources
      then Err(IdentityMismatch)
      else if m.artifacts != ArtifactHashes(files, tools.hash) then Err(ArtifactMismatch)
      else if m.definitions != definitions then Err(DefinitionMismatch)
      else
        var ids :- CaseIds(files, corpora, tools.loadCases);
        if m.caseIds != ids then Err(CaseIdMismatch)
        else
          var _ :- CheckCollisions(files, corpora, tools.ruleIds);
          Ok(m)
  }

  ghost predicate Injective(hash: Content -> Digest) {
    forall a, b :: hash(a) == hash(b) ==> a == b
  }

  lemma EqualHashesEqualFiles(a: Files, b: Files, hash: Content -> Digest)
    requires Injective(hash) && ArtifactHashes(a, hash) == ArtifactHashes(b, hash)
    ensures forall p | p != MANIFEST :: (p in a <==> p in b) && (p in a ==> a[p] == b[p])
  {
    var ha, hb := ArtifactHashes(a, hash), ArtifactHashes(b, hash);
    forall p | p != MANIFEST
      ensures (p in a <==> p in b) && (p in a ==> a[p] == b[p])
    {
      assert p in a <==> p in ha;
      assert p in b <==> p in hb;
      if p in a { assert hash(a[p]) == ha[p] == hb[p] == hash(b[p]); }
    }
  }

  /**
    No artifact can be added, removed or changed: two packages with one manifest file that both verify,
    under whatever selections, are the same package.
   */
  lemma TamperingIsRejected(
    a: Files, b: Files, root: Path, corpora: seq<string>, sources: string, definitions: Definitions, tools: Tools,
    otherRoot: Path, otherCorpora: seq<string>, otherSources: string, otherDefinitions: Definitions)
    requires Injective(tools.hash)
    requires VerifyPackage(a, root, corpora, sources, definitions, tools).Ok?
    requires VerifyPackage(b, otherRoot, otherCorpora, otherSources, otherDefinitions, tools).Ok?
    requires a[MANIFEST] == b[MANIFEST]
    ensures a == b
  {
    hide CaseIds, CheckCollisions, Injective;
    assert ArtifactHashes(a, tools.hash) == ArtifactHashes(b, tools.hash);
    EqualHashesEqualFiles(a, b, tools.hash);
    assert a.Keys == b.Keys by {
      forall p ensures p in a <==> p in b { if p == MANIFEST {} }
    }
  }

  // ---- Preparation ----

  /** What preparation observes: identities and definitions before and after, and what was staged, if anything was. */
  datatype Observed = Observed(
    sources: string, sourcesAfter: string, definitions: Definitions, definitionsAfter: Definitions,
        staged: Option<Files>)

  function NewManifest(target: Path, corpora: seq<string>, o: Observed, ids: seq<string>, artifacts: Hashes): Manifest {
    Manifest(1, target, "validated", "passed", "passed", o.sources, corpora, o.definitions, ids, artifacts)
  }

  /** The files to publish: ids and collisions are checked before the paths are rewritten. */
  function Prepared(target: Path, corpora: seq<string>, o: Observed, moved: string -> string,
      tools: Tools): Result<Files, Error>
  {
    if o.staged.None? then Err(StagingFailed)
    else
      var stage := o.staged.value;
      var _ :- CheckCollisions(stage, corpora, tools.ruleIds);
      var ids :- CaseIds(stage, corpora, tools.loadCases);
      var files :- Rewritten(stage, (p, c) => RewriteFile(p, c, moved));
      var m := NewManifest(target, corpora, o, ids, ArtifactHashes(files, tools.hash));
      if o.sourcesAfter != o.sources then Err(SourcesChanged)
      else if o.definitionsAfter != o.definitions then Err(DefinitionsChanged)
      else Ok(files[MANIFEST := ManifestDoc(m)])
  }

  lemma RulesAreNeverRewritten(p: Path, corpus: string)
    requires Matches(p, corpus, "rules", ".conf")
    ensures !IsCasePath(p) && !IsLoadPath(p) && p != MANIFEST
  {
    assert p[|p| - 2] == "rules" && "rules" != "framework-cases";
    var name := p[2];
    assert name[|name| - 1] == name[|name| - 5..][4] == 'f';
    assert "mrts.load"[|"mrts.load"| - 1] == 'd';
  }

  lemma ManifestIsOutside(files: Files, c: Content, corpus: string, directory: string, suffix: string)
    ensures Matching(files[MANIFEST := c], corpus, directory, suffix) == Matching(files, corpus, directory, suffix)
  {
    assert !Matches(MANIFEST, corpus, directory, suffix);
    hide Matches;
  }

  lemma {:induction false} SameCasesSameNames(a: Files, b: Files, corpora: seq<string>,
      loadCases: Files -> Option<seq<string>>)
    requires forall c | c in corpora ::
               var x, y := Matching(a, c, "framework-cases", ".yaml"), Matching(b, c, "framework-cases", ".yaml");
               (x == map[] <==> y == map[]) && loadCases(x) == loadCases(y)
    ensures LoadedNames(a, corpora, loadCases) == LoadedNames(b, corpora, loadCases)
    ensures CaseIds(a, corpora, loadCases) == CaseIds(b, corpora, loadCases)
    decreases |corpora|
  {
    hide Matching, Distinct;
    if corpora != [] {
      assert corpora[|corpora| - 1] in corpora;
      SameCasesSameNames(a, b, corpora[..|corpora| - 1], loadCases);
    }
  }

  lemma SameRulesSameCollisions(a: Files, b: Files, corpora: seq<string>, ruleIds: Content -> set<string>)
    requires forall c :: Matching(a, c, "rules", ".conf") == Matching(b, c, "rules", ".conf")
    ensures CheckCollisions(a, corpora, ruleIds) == CheckCollisions(b, corpora, ruleIds)
  {
    forall c
      ensures CorpusRuleIds(a, c, ruleIds) == CorpusRuleIds(b, c, ruleIds)
    {
      hide Matching;
      assert Matching(a, c, "rules", ".conf") == Matching(b, c, "rules", ".conf");
    }
    hide CorpusRuleIds, Matching;
  }

  lemma ManifestHashesNothing(files: Files, c: Content, hash: Content -> Digest)
    ensures ArtifactHashes(files[MANIFEST := c], hash) == ArtifactHashes(files, hash)
  {
  }

  /** Adding the manifest changes no selection. */
  lemma ManifestChangesNothing(files: Files, c: Content, corpora: seq<string>, tools: Tools)
    ensures CaseIds(files[MANIFEST := c], corpora, tools.loadCases) == CaseIds(files, corpora, tools.loadCases)
    ensures CheckCollisions(files[MANIFEST := c], corpora, tools.ruleIds)
         == CheckCollisions(files, corpora, tools.ruleIds)
    ensures ArtifactHashes(files[MANIFEST := c], tools.hash) == ArtifactHashes(files, tools.hash)
  {
    hide Matching, CaseIds, CheckCollisions, ArtifactHashes;
    forall corpus
      ensures Matching(files[MANIFEST := c], corpus, "rules", ".conf") == Matching(files, corpus, "rules", ".conf")
      ensures Matching(files[MANIFEST := c], corpus, "framework-cases", ".yaml")
           == Matching(files, corpus, "framework-cases", ".yaml")
    {
      ManifestIsOutside(files, c, corpus, "rules", ".conf");
      ManifestIsOutside(files, c, corpus, "framework-cases", ".yaml");
    }
    SameCasesSameNames(files[MANIFEST := c], files, corpora, tools.loadCases);
    SameRulesSameCollisions(files[MANIFEST := c], files, corpora, tools.ruleIds);
    ManifestHashesNothing(files, c, tools.hash);
  }

  lemma RewritingKeepsRules(stage: Files, files: Files, moved: string -> string, corpora: seq<string>, tools: Tools)
    requires Rewritten(stage, (p, c) => RewriteFile(p, c, moved)) == Ok(files)
    ensures CheckCollisions(files, corpora, tools.ruleIds) == CheckCollisions(stage, corpora, tools.ruleIds)
  {
    forall c
      ensures Matching(files, c, "rules", ".conf") == Matching(stage, c, "rules", ".conf")
    {
      RewritingKeepsRulesOf(stage, files, moved, c);
    }
    hide Matching, CheckCollisions;
    SameRulesSameCollisions(files, stage, corpora, tools.ruleIds);
  }

  lemma RewritingKeepsRulesOf(stage: Files, files: Files, moved: string -> string, c: string)
    requires Rewritten(stage, (p, c) => RewriteFile(p, c, moved)) == Ok(files)
    ensures Matching(files, c, "rules", ".conf") == Matching(stage, c, "rules", ".conf")
  {
    hide Matches, IsCasePath, IsLoadPath;
    assert files.Keys == stage.Keys;
    forall p | p in stage && Matches(p, c, "rules", ".conf")
      ensures files[p] == stage[p]
    {
      RulesAreNeverRewritten(p, c);
    }
  }

  /**
    A prepared package, while sources and definitions are unchanged, verifies exactly when rewriting
    the paths left the case ids alone: they are recorded before it and compared after it.
   */
  lemma PreparedVerifiesExactlyWhen(target: Path, corpora: seq<string>, o: Observed, moved: string -> string,
      tools: Tools)
    requires Prepared(target, corpora, o, moved, tools).Ok?
    ensures var p := Prepared(target, corpora, o, moved, tools).value;
            && o.staged.Some? && CaseIds(o.staged.value, corpora, tools.loadCases).Ok?
            && (VerifyPackage(p, target, corpora, o.sources, o.definitions, tools).Ok? <==>
                  CaseIds(p, corpora, tools.loadCases) == CaseIds(o.staged.value, corpora, tools.loadCases))
  {
    hide CaseIds, CheckCollisions, ArtifactHashes, RewriteFile;
    var stage := o.staged.value;
    var files := Rewritten(stage, (p, c) => RewriteFile(p, c, moved)).value;
    var ids := CaseIds(stage, corpora, tools.loadCases).value;
    var m := NewManifest(target, corpora, o, ids, ArtifactHashes(files, tools.hash));
    ManifestChangesNothing(files, ManifestDoc(m), corpora, tools);
    RewritingKeepsRules(stage, files, moved, corpora, tools);
    hide Rewritten;
  }

  /** A loader that does not look at the provenance a rewriting changes. */
  ghost predicate IgnoresProvenance(loadCases: Files -> Option<seq<string>>, moved: string -> string) {
    forall cases: Files, after: Files | Rewritten(cases, (p, c) => RewriteFile(p, c, moved)) == Ok(after) ::
      loadCases(after) == loadCases(cases)
  }

  lemma RewritingSelects(stage: Files, files: Files, rewrite: (Path, Content) -> Option<Content>, corpus: string)
    requires Rewritten(stage, rewrite) == Ok(files)
    ensures var a, b := Matching(stage, corpus, "framework-cases", ".yaml"),
             Matching(files, corpus, "framework-cases", ".yaml");
            Rewritten(a, rewrite) == Ok(b) && (a == map[] <==> b == map[])
  {
    hide Matches;
    assert files.Keys == stage.Keys;
    var a, b := Matching(stage, corpus, "framework-cases", ".yaml"),
        Matching(files, corpus, "framework-cases", ".yaml");
    assert a.Keys == b.Keys;
    forall p | p in a
      ensures rewrite(p, a[p]) == Some(b[p])
    {
      assert p in stage && a[p] == stage[p] && b[p] == files[p];
    }
    assert b == map p | p in a :: rewrite(p, a[p]).value;
    NoKeys(a, b);
  }

  lemma NoKeys(a: Files, b: Files)
    requires a.Keys == b.Keys
    ensures a == map[] <==> b == map[]
  {
    assert a == map[] <==> a.Keys == {};
    assert b == map[] <==> b.Keys == {};
  }

  /** With such a loader every prepared package verifies. */
  lemma PreparedVerifies(target: Path, corpora: seq<string>, o: Observed, moved: string -> string, tools: Tools)
    requires Prepared(target, corpora, o, moved, tools).Ok? && IgnoresProvenance(tools.loadCases, moved)
    ensures VerifyPackage(Prepared(target, corpora, o, moved, tools).value, target, corpora, o.sources,
             o.definitions, tools).Ok?
  {
    PreparedVerifiesExactlyWhen(target, corpora, o, moved, tools);
    var stage := o.staged.value;
    var files := Rewritten(stage, (p, c) => RewriteFile(p, c, moved)).value;
    var ids := CaseIds(stage, corpora, tools.loadCases).value;
    var m := NewManifest(target, corpora, o, ids, ArtifactHashes(files, tools.hash));
    ManifestChangesNothing(files, ManifestDoc(m), corpora, tools);
    hide CaseIds, CheckCollisions, ArtifactHashes, RewriteFile, VerifyPackage, Matching;
    forall c | c in corpora
      ensures var x, y := Matching(stage, c, "framework-cases", ".yaml"),
               Matching(files, c, "framework-cases", ".yaml");
              (x == map[] <==> y == map[]) && tools.loadCases(x) == tools.loadCases(y)
    {
      RewritingSelects(stage, files, (p, c) => RewriteFile(p, c, moved), c);
    }
    SameCasesSameNames(stage, files, corpora, tools.loadCases);
  }

  // ---- The repository's loader ----

  /** The field is there and shows as more than white space. */
  predicate Shows(fields: map<string, Value>, key: string) {
    key in fields && (fields[key].Text? ==> !Blank(fields[key].text))
  }

  predicate OriginItemOk(x: Value) {
    x.Dict? && Shows(x.fields, "repo") && Shows(x.fields, "path") && Shows(x.fields, "reason")
  }

  /** What the loader asks of `origin`: nothing, or a list of mappings with three fields that show. */
  predicate OriginOk(v: Value) {
    v.Null? || (v.List? && forall x | x in v.items :: OriginItemOk(x))
  }

  /** All the loader reads of a case: every field but the provenance, and whether `origin` is in order. */
  datatype CaseView = CaseView(fields: map<string, Value>, originOk: bool) | NoCase

  function ViewOf(c: Content): CaseView {
    if c.Yaml? && c.value.Dict? then
      var f := c.value.fields;
      CaseView(map k | k in f && k != "metadata" && k != "origin" :: f[k], "origin" in f ==> OriginOk(f["origin"]))
    else NoCase
  }

  function Views(files: Files): map<Path, CaseView> {
    map p | p in files :: ViewOf(files[p])
  }

  /** A loader that reads its case files through that view only. */
  ghost predicate ReadsThroughView(loadCases: Files -> Option<seq<string>>) {
    forall a: Files, b: Files | Views(a) == Views(b) :: loadCases(a) == loadCases(b)
  }

  /** Moving a text never makes it blank, nor the other way round. */
  ghost predicate KeepsShowing(moved: string -> string) {
    forall s :: Blank(moved(s)) <==> Blank(s)
  }

  lemma RelocatedShows(v: Value, moved: string -> string)
    requires KeepsShowing(moved)
    ensures Relocate(v, moved).Text? <==> v.Text?
    ensures v.Text? ==> (Blank(Relocate(v, moved).text) <==> Blank(v.text))
    ensures v.Dict? <==> Relocate(v, moved).Dict?
    ensures v.Dict? ==> v.fields.Keys == Relocate(v, moved).fields.Keys
    ensures v.Dict? ==> forall k | k in v.fields :: Relocate(v, moved).fields[k] == Relocate(v.fields[k], moved)
  {
    hide Blank;
  }

  lemma ItemShows(x: Value, key: string, moved: string -> string)
    requires KeepsShowing(moved) && x.Dict?
    ensures Relocate(x, moved).Dict? && (Shows(Relocate(x, moved).fields, key) <==> Shows(x.fields, key))
  {
    hide Blank;
    RelocatedShows(x, moved);
    if key in x.fields { RelocatedShows(x.fields[key], moved); }
  }

  lemma ItemStaysOk(x: Value, moved: string -> string)
    requires KeepsShowing(moved)
    ensures OriginItemOk(Relocate(x, moved)) <==> OriginItemOk(x)
  {
    RelocatedShows(x, moved);
    hide Relocate, Shows, KeepsShowing;
    if x.Dict? {
      ItemShows(x, "repo", moved);
      ItemShows(x, "path", moved);
      ItemShows(x, "reason", moved);
    }
  }

  lemma AllItems(a: seq<Value>, b: seq<Value>)
    requires |a| == |b| && forall i | 0 <= i < |a| :: OriginItemOk(a[i]) <==> OriginItemOk(b[i])
    ensures (forall x | x in a :: OriginItemOk(x)) ==> forall y | y in b :: OriginItemOk(y)
  {
    hide OriginItemOk;
    forall y | y in b && forall x | x in a :: OriginItemOk(x)
      ensures OriginItemOk(y)
    {
      var i :| 0 <= i < |b| && b[i] == y;
      assert a[i] in a;
    }
  }

  lemma OriginStaysOk(v: Value, moved: string -> string)
    requires KeepsShowing(moved)
    ensures OriginOk(Relocate(v, moved)) <==> OriginOk(v)
  {
    if v.List? {
      var now := Relocate(v, moved);
      assert |now.items| == |v.items| && forall i | 0 <= i < |v.items| :: now.items[i] == Relocate(v.items[i], moved);
      hide Relocate, OriginItemOk, KeepsShowing;
      forall i | 0 <= i < |v.items|
        ensures OriginItemOk(now.items[i]) <==> OriginItemOk(v.items[i])
      {
        ItemStaysOk(v.items[i], moved);
      }
      AllItems(v.items, now.items);
      AllItems(now.items, v.items);
    }
  }

  lemma RewritingKeepsView(p: Path, c: Content, moved: string -> string)
    requires KeepsShowing(moved) && RewriteFile(p, c, moved).Some?
    ensures ViewOf(RewriteFile(p, c, moved).value) == ViewOf(c)
  {
    hide IsCasePath, IsLoadPath, OriginOk, Relocate;
    if IsCasePath(p) && "origin" in c.value.fields { OriginStaysOk(c.value.fields["origin"], moved); }
  }

  /** The repository's loader cannot tell a rewritten case from the staged one. */
  lemma ViewLoaderIgnoresProvenance(loadCases: Files -> Option<seq<string>>, moved: string -> string)
    requires ReadsThroughView(loadCases) && KeepsShowing(moved)
    ensures IgnoresProvenance(loadCases, moved)
  {
    hide Rewritten, Views, ViewOf, RewriteFile, KeepsShowing;
    forall cases: Files, after: Files | Rewritten(cases, (p, c) => RewriteFile(p, c, moved)) == Ok(after)
      ensures loadCases(after) == loadCases(cases)
    {
      RewritingKeepsViews(cases, after, moved);
    }
  }

  lemma RewritingKeepsViews(cases: Files, after: Files, moved: string -> string)
    requires KeepsShowing(moved) && Rewritten(cases, (p, c) => RewriteFile(p, c, moved)) == Ok(after)
    ensures Views(after) == Views(cases)
  {
    hide RewriteFile, ViewOf, KeepsShowing;
    assert after.Keys == cases.Keys;
    forall p | p in cases
      ensures ViewOf(after[p]) == ViewOf(cases[p])
    {
      RewritingKeepsView(p, cases[p], moved);
    }
  }

  // ---- Publication ----

  datatype Node = Directory | File(content: Content)

  type Tree = map<Path, Node>

  /** Something at the path, or below it. */
  predicate Exists(fs: Tree, root: Path) {
    exists p | p in fs :: root <= p
  }

  function FileAt(fs: Tree, p: Path): Option<Content> {
    if p in fs && fs[p].File? then Some(fs[p].content) else None
  }

  function Inside(fs: Tree, root: Path): (r: set<Path>)
    ensures forall rel :: rel in r <==> rel != [] && FileAt(fs, root + rel).Some?
  {
    var r := set p | p in fs && root < p && fs[p].File? :: p[|root|..];
    assert forall rel | rel != [] && FileAt(fs, root + rel).Some? :: rel in r by {
      forall rel | rel != [] && FileAt(fs, root + rel).Some?
        ensures rel in r
      {
        assert root < root + rel && (root + rel)[|root|..] == rel;
      }
    }
    assert forall rel | rel in r :: rel != [] && FileAt(fs, root + rel).Some? by {
      forall rel | rel in r
        ensures rel != [] && FileAt(fs, root + rel).Some?
      {
        var p :| p in fs && root < p && fs[p].File? && p[|root|..] == rel;
        assert root + rel == p;
      }
    }
    r
  }

  /** The files below a root, by relative path. */
  function Package(fs: Tree, root: Path): Files {
    map rel | rel in Inside(fs, root) :: FileAt(fs, root + rel).value
  }

  /** Missing parent directories are created. */
  function WithParents(fs: Tree, target: Path): Tree
    decreases |target|
  {
    if target == [] then fs
    else
      var parent := target[..|target| - 1];
      WithParents(if parent in fs then fs else fs[parent := Directory], parent)
  }

  /** A staged package renamed to its target. */
  function Placed(fs: Tree, target: Path, stage: Files): Tree {
    fs[target := Directory] + (map p | p in (set rel | rel in stage :: target + rel) && p[|target|..] in stage ::
        File(stage[p[|target|..]]))
  }

  ghost predicate SameFiles(a: Tree, b: Tree) {
    forall p :: FileAt(a, p) == FileAt(b, p)
  }

  lemma {:induction false} ParentsAreNoFiles(fs: Tree, target: Path)
    ensures SameFiles(WithParents(fs, target), fs)
    ensures forall p | p in WithParents(fs, target) :: p in fs || p < target
    decreases |target|
  {
    if target != [] {
      var parent := target[..|target| - 1];
      ParentsAreNoFiles(if parent in fs then fs else fs[parent := Directory], parent);
    }
  }

  /** Creating the parents does not create the target. */
  lemma ParentsAreAbove(fs: Tree, target: Path)
    ensures Exists(WithParents(fs, target), target) <==> Exists(fs, target)
  {
    ParentsAreNoFiles(fs, target);
    ParentsAreKept(fs, target);
    hide WithParents;
  }

  lemma {:induction false} ParentsAreKept(fs: Tree, target: Path)
    ensures forall p | p in fs :: p in WithParents(fs, target)
    decreases |target|
  {
    if target != [] {
      var parent := target[..|target| - 1];
      ParentsAreKept(if parent in fs then fs else fs[parent := Directory], parent);
    }
  }

  lemma SameFilesSamePackage(a: Tree, b: Tree, root: Path)
    requires forall rel | rel != [] :: FileAt(a, root + rel) == FileAt(b, root + rel)
    ensures Package(a, root) == Package(b, root)
  {
    hide FileAt;
  }

  lemma PlacedFile(fs: Tree, target: Path, stage: Files, p: Path)
    requires [] !in stage && !Exists(fs, target)
    ensures target < p ==> FileAt(Placed(fs, target, stage), p) ==
                           if p[|target|..] in stage then Some(stage[p[|target|..]]) else None
    ensures !(target <= p) ==> FileAt(Placed(fs, target, stage), p) == FileAt(fs, p)
  {
    var paths := set rel | rel in stage :: target + rel;
    assert forall q | q in paths :: target <= q;
    if target < p {
      var rel := p[|target|..];
      assert p == target + rel && p != target;
      assert rel in stage ==> target + rel in paths;
      hide Exists;
    } else {
      hide Exists;
      assert !(target <= p) ==> p !in paths;
    }
  }

  /** A published target holds the staged files and nothing else. */
  lemma PublishedIsComplete(fs: Tree, target: Path, stage: Files)
    requires [] !in stage && !Exists(fs, target)
    ensures Package(Placed(fs, target, stage), target) == stage
  {
    var after := Placed(fs, target, stage);
    forall rel | rel != []
      ensures FileAt(after, target + rel) == if rel in stage then Some(stage[rel]) else None
    {
      PlacedFile(fs, target, stage, target + rel);
      assert (target + rel)[|target|..] == rel;
    }
    hide Placed, Exists, FileAt;
  }

  /** Publishing leaves every package beside the target as it was. */
  lemma PublishingLeavesOthers(fs: Tree, target: Path, stage: Files, root: Path)
    requires [] !in stage && !Exists(fs, target) && !(target <= root) && !(root <= target)
    ensures Package(Placed(fs, target, stage), root) == Package(fs, root)
  {
    hide Placed, Exists, FileAt, Package;
    forall rel | rel != []
      ensures FileAt(Placed(fs, target, stage), root + rel) == FileAt(fs, root + rel)
    {
      if target <= root + rel { PrefixesOfOne(root, target, root + rel); }
      PlacedFile(fs, target, stage, root + rel);
    }
    SameFilesSamePackage(Placed(fs, target, stage), fs, root);
  }

  // ---- Materialization ----

  /** A private run copy: what was copied must be what was verified; then paths and ports are rewritten. */
  function Materialized(
    m: Manifest, manifestFile: Content, copied: Files, corpora: seq<string>, port: int, moved: string -> string,
        tools: Tools)
    : Result<Files, Error>
  {
    if ArtifactHashes(copied, tools.hash) != m.artifacts then Err(ChangedDuringCopy)
    else
      var files :- Rewritten(copied, (p, c) => RewriteFile(p, c, moved));
      var ported :- Rewritten(files, (p, c) => PortFile(p, c, corpora, port, tools.setPort));
      var _ :- CaseIds(ported, corpora, tools.loadCases);
      Ok(ported[NOTE := NoteDoc(Note(tools.hash(manifestFile), port, ArtifactHashes(ported, tools.hash)))])
  }

  /** Whatever the copy read, a materialized run started from the very artifacts that were verified. */
  lemma CopyIsTheVerifiedPackage(
    files: Files, root: Path, corpora: seq<string>, sources: string, definitions: Definitions, copied: Files, port: int,
    moved: string -> string, tools: Tools)
    requires Injective(tools.hash) && VerifyPackage(files, root, corpora, sources, definitions, tools).Ok?
    requires Materialized(VerifyPackage(files, root, corpora, sources, definitions, tools).value, files[MANIFEST],
             copied,
                          corpora, port, moved, tools).Ok?
    ensures forall p | p != MANIFEST :: (p in copied <==> p in files) && (p in copied ==> copied[p] == files[p])
  {
    hide CaseIds, CheckCollisions, Rewritten, Injective;
    assert ArtifactHashes(copied, tools.hash) == ArtifactHashes(files, tools.hash);
    EqualHashesEqualFiles(copied, files, tools.hash);
  }

  /** The note of a run lists the digest of every file of the run but the manifest and itself. */
  lemma NoteDescribesTheRun(
    m: Manifest, manifestFile: Content, copied: Files, corpora: seq<string>, port: int, moved: string -> string,
        tools: Tools)
    requires NOTE !in copied && Materialized(m, manifestFile, copied, corpora, port, moved, tools).Ok?
    ensures var run := Materialized(m, manifestFile, copied, corpora, port, moved, tools).value;
            && NOTE in run && run[NOTE].NoteDoc?
            && run[NOTE].note.artifacts == (map p | p in run && p != MANIFEST && p != NOTE :: tools.hash(run[p]))
            && run.Keys == copied.Keys + {NOTE}
  {
    hide CaseIds, RewriteFile, PortFile, Rewritten, ArtifactHashes, NOTE, MANIFEST;
    var files := Rewritten(copied, (p, c) => RewriteFile(p, c, moved)).value;
    var ported := Rewritten(files, (p, c) => PortFile(p, c, corpora, port, tools.setPort)).value;
    RewritingKeepsPaths(copied, (p, c) => RewriteFile(p, c, moved));
    RewritingKeepsPaths(files, (p, c) => PortFile(p, c, corpora, port, tools.setPort));
    NoteAdded(ported, NoteDoc(Note(tools.hash(manifestFile), port, ArtifactHashes(ported, tools.hash))), tools.hash);
  }

  lemma NoteAdded(files: Files, note: Content, hash: Content -> Digest)
    requires NOTE !in files
    ensures var run := files[NOTE := note];
            && run.Keys == files.Keys + {NOTE}
            && ArtifactHashes(files, hash) == (map p | p in run && p != MANIFEST && p != NOTE :: hash(run[p]))
  {
  }

  /** The build directory packages are published in; staging happens in a private directory that is always removed. */
  class BuildTree {
    var fs: Tree

    constructor (fs: Tree)
      ensures this.fs == fs
    {
      this.fs := fs;
    }

    method Publish(stage: Files, target: Path) returns (r: Result<(), Error>)
      modifies this
      ensures r.Ok? <==> !Exists(old(fs), target)
      ensures target in old(fs) ==> r.Err?
      ensures fs == if r.Ok? then Placed(old(fs), target, stage) else old(fs)
    {
      if Exists(fs, target) { return Err(DestinationExists); }
      fs := Placed(fs, target, stage);
      r := Ok(());
    }

    /** The target is complete or as absent as before; nothing beside it changes. */
    method Prepare(target: Path, corpora: seq<string>, o: Observed, moved: string -> string, tools: Tools)
      returns (r: Result<Path, Error>)
      requires o.staged.Some? ==> [] !in o.staged.value
      modifies this
      ensures r.Ok? <==> !Exists(old(fs), target) && Prepared(target, corpora, o, moved, tools).Ok?
      ensures r.Ok? ==> r.value == target && Package(fs, target) == Prepared(target, corpora, o, moved, tools).value
      ensures r.Err? ==> SameFiles(fs, old(fs)) && (Exists(fs, target) <==> Exists(old(fs), target))
      ensures forall root | !(target <= root) && !(root <= target) :: Package(fs, root) == Package(old(fs), root)
    {
      hide Package, Placed, Exists, SameFiles, WithParents, CheckCollisions, CaseIds, ArtifactHashes, Rewritten;
      SameAsItself(fs);
      if Exists(fs, target) { return Err(DestinationExists); }
      ParentsAreAbove(fs, target);
      ParentsAreNoFiles(fs, target);
      SamePackages(WithParents(fs, target), fs);
      fs := WithParents(fs, target);
      if o.staged.None? { return Err(StagingFailed); }
      var stage := o.staged.value;
      var collisions := CheckCollisions(stage, corpora, tools.ruleIds);
      if collisions.Err? { return Err(collisions.error); }
      var ids := CaseIds(stage, corpora, tools.loadCases);
      if ids.Err? { return Err(ids.error); }
      var files := RewriteAll(stage, (p, c) => RewriteFile(p, c, moved));
      if files.Err? { return Err(files.error); }
      RewritingKeepsPaths(stage, (p, c) => RewriteFile(p, c, moved));
      var manifest := NewManifest(target, corpora, o, ids.value, ArtifactHashes(files.value, tools.hash));
      var complete := files.value[MANIFEST := ManifestDoc(manifest)];
      if o.sourcesAfter != o.sources { return Err(SourcesChanged); }
      if o.definitionsAfter != o.definitions { return Err(DefinitionsChanged); }
      PublishedIsComplete(fs, target, complete);
      OthersAreLeft(fs, target, complete);
      var done := Publish(complete, target);
      r := Ok(target);
    }

    /** The source package stays what it was, so it verifies as before; the run is complete or nothing was created. */
    method Materialize(source: Path, target: Path, corpora: seq<string>, sources: string,
                       definitions: Definitions, port: int, copied: Files, moved: string -> string, tools: Tools)
      returns (r: Result<Path, Error>)
      requires [] !in copied
      modifies this
      ensures Package(fs, source) == Package(old(fs), source)
      ensures VerifyPackage(Package(fs, source), source, corpora, sources, definitions, tools)
           == VerifyPackage(Package(old(fs), source), source, corpora, sources, definitions, tools)
      ensures var package := Package(old(fs), source);
              var verified := VerifyPackage(package, source, corpora, sources, definitions, tools);
              && (r.Ok? <==> && verified.Ok? && !Exists(old(fs), target) && !(source <= target) && !(target <= source)
                             && Materialized(verified.value, package[MANIFEST], copied, corpora, port, moved,
                                 tools).Ok?)
              && (r.Ok? ==> && r.value == target
                            && Package(fs, target)
                               == Materialized(verified.value, package[MANIFEST], copied, corpora, port, moved,
                                   tools).value)
      ensures r.Err? ==> SameFiles(fs, old(fs)) && (Exists(fs, target) <==> Exists(old(fs), target))
    {
      hide Package, Placed, Exists, SameFiles, WithParents, CheckCollisions, CaseIds, ArtifactHashes, Rewritten,
          VerifyPackage;
      SameAsItself(fs);
      var package := Package(fs, source);
      var verified := VerifyPackage(package, source, corpora, sources, definitions, tools);
      if verified.Err? { return Err(verified.error); }
      VerifiedHasManifest(package, source, corpora, sources, definitions, tools);
      if Exists(fs, target) || source <= target || target <= source { return Err(NotIndependent); }
      ParentsAreAbove(fs, target);
      ParentsAreNoFiles(fs, target);
      SamePackages(WithParents(fs, target), fs);
      fs := WithParents(fs, target);
      if ArtifactHashes(copied, tools.hash) != verified.value.artifacts { return Err(ChangedDuringCopy); }
      var files := RewriteAll(copied, (p, c) => RewriteFile(p, c, moved));
      if files.Err? { return Err(files.error); }
      var ported := RewriteAll(files.value, (p, c) => PortFile(p, c, corpora, port, tools.setPort));
      if ported.Err? { return Err(ported.error); }
      var ids := CaseIds(ported.value, corpora, tools.loadCases);
      if ids.Err? { return Err(ids.error); }
      RewritingKeepsPaths(copied, (p, c) => RewriteFile(p, c, moved));
      RewritingKeepsPaths(files.value, (p, c) => PortFile(p, c, corpora, port, tools.setPort));
      var note := Note(tools.hash(package[MANIFEST]), port, ArtifactHashes(ported.value, tools.hash));
      var complete := ported.value[NOTE := NoteDoc(note)];
      PublishedIsComplete(fs, target, complete);
      OthersAreLeft(fs, target, complete);
      var done := Publish(complete, target);
      r := Ok(target);
    }
  }

  lemma SameAsItself(fs: Tree)
    ensures SameFiles(fs, fs)
  {
  }

  lemma SamePackages(a: Tree, b: Tree)
    requires SameFiles(a, b)
    ensures forall root :: Package(a, root) == Package(b, root)
  {
    forall root
      ensures Package(a, root) == Package(b, root)
    {
      SameFilesSamePackage(a, b, root);
    }
  }

  lemma OthersAreLeft(fs: Tree, target: Path, stage: Files)
    requires [] !in stage && !Exists(fs, target)
    ensures forall root | !(target <= root) && !(root <= target) ::
             Package(Placed(fs, target, stage), root) == Package(fs, root)
  {
    forall root | !(target <= root) && !(root <= target)
      ensures Package(Placed(fs, target, stage), root) == Package(fs, root)
    {
      PublishingLeavesOthers(fs, target, stage, root);
    }
  }

  lemma RewritingKeepsPaths(files: Files, rewrite: (Path, Content) -> Option<Content>)
    requires Rewritten(files, rewrite).Ok?
    ensures Rewritten(files, rewrite).value.Keys == files.Keys
  {
  }

  lemma VerifiedHasManifest(
    files: Files, root: Path, corpora: seq<string>, sources: string, definitions: Definitions, tools: Tools)
    requires VerifyPackage(files, root, corpora, sources, definitions, tools).Ok?
    ensures MANIFEST in files
  {
  }
}
