/** What verification, preparation and materialization accept, in terms of paths, names and single files. */
module PackageMeaning {
  import opened Wrappers
  import opened Collections
  import opened TextLines
  import opened MrtsPackage

  // ---- Names and paths ----

  ghost predicate RulesFile(p: Path, corpus: string) {
    exists stem: string :: p == [corpus, "rules", stem + ".conf"]
  }

  ghost predicate CaseFile(p: Path, corpus: string) {
    exists stem: string :: p == [corpus, "framework-cases", stem + ".yaml"]
  }

  ghost predicate TestFile(p: Path, corpus: string) {
    exists stem: string :: p == [corpus, "ftw", stem + ".yaml"]
  }

  lemma EndsWithMeans(name: string, suffix: string)
    ensures EndsWith(name, suffix) <==> exists stem: string :: name == stem + suffix
  {
    if EndsWith(name, suffix) { assert name == name[..|name| - |suffix|] + suffix; }
    if stem: string :| name == stem + suffix { assert name[|name| - |suffix|..] == suffix; }
  }

  lemma MatchesMeans(p: Path, corpus: string, directory: string, suffix: string)
    ensures Matches(p, corpus, directory, suffix) <==> exists stem: string :: p == [corpus, directory, stem + suffix]
  {
    hide EndsWith;
    if |p| == 3 {
      EndsWithMeans(p[2], suffix);
      if stem: string :| p[2] == stem + suffix {
        if p[0] == corpus && p[1] == directory { assert p == [corpus, directory, stem + suffix]; }
      }
    }
  }

  lemma RulesFilesMatch(p: Path, corpus: string)
    ensures Matches(p, corpus, "rules", ".conf") <==> RulesFile(p, corpus)
  {
    hide Matches;
    MatchesMeans(p, corpus, "rules", ".conf");
  }

  lemma CaseFilesMatch(p: Path, corpus: string)
    ensures Matches(p, corpus, "framework-cases", ".yaml") <==> CaseFile(p, corpus)
  {
    hide Matches;
    MatchesMeans(p, corpus, "framework-cases", ".yaml");
  }

  lemma TestFilesMatch(p: Path, corpus: string)
    ensures Matches(p, corpus, "ftw", ".yaml") <==> TestFile(p, corpus)
  {
    hide Matches;
    MatchesMeans(p, corpus, "ftw", ".yaml");
  }

  /** Provenance is rewritten in the YAML files of any directory of that name, whatever lies above it. */
  lemma CasePathMeans(p: Path)
    ensures IsCasePath(p) <==>
            exists above: Path, stem: string ::
              p == above + ["framework-cases", stem + ".yaml"] && exists c | c in stem :: c != '.'
  {
    hide EndsWith;
    if IsCasePath(p) {
      var name := p[|p| - 1];
      EndsWithMeans(name, ".yaml");
      var stem: string :| name == stem + ".yaml";
      var i :| 0 <= i < |name| - 5 && name[i] != '.';
      assert stem[i] == name[i] && stem[i] in stem;
      assert p == p[..|p| - 2] + ["framework-cases", stem + ".yaml"];
    }
    if above: Path, stem: string :|
        p == above + ["framework-cases", stem + ".yaml"] && exists c | c in stem :: c != '.' {
      EndsWithMeans(stem + ".yaml", ".yaml");
      var c :| c in stem && c != '.';
      var i :| 0 <= i < |stem| && stem[i] == c;
      assert (stem + ".yaml")[i] == c;
    }
  }

  // ---- Collisions and case ids ----

  ghost predicate Declares(files: Files, p: Path, id: string, ruleIds: Content -> set<string>) {
    p in files && id in ruleIds(files[p])
  }

  ghost predicate RuleOf(files: Files, corpus: string, id: string, ruleIds: Content -> set<string>) {
    exists p :: RulesFile(p, corpus) && Declares(files, p, id, ruleIds)
  }

  lemma CorpusRulesAre(files: Files, corpus: string, ruleIds: Content -> set<string>)
    ensures forall id :: id in CorpusRuleIds(files, corpus, ruleIds) <==> RuleOf(files, corpus, id, ruleIds)
  {
    hide Matches, RulesFile;
    forall id
      ensures id in CorpusRuleIds(files, corpus, ruleIds) <==> RuleOf(files, corpus, id, ruleIds)
    {
      if id in CorpusRuleIds(files, corpus, ruleIds) {
        var p :| p in Matching(files, corpus, "rules", ".conf") && id in ruleIds(files[p]);
        RulesFilesMatch(p, corpus);
        assert Declares(files, p, id, ruleIds);
      }
      if RuleOf(files, corpus, id, ruleIds) {
        var p :| RulesFile(p, corpus) && Declares(files, p, id, ruleIds);
        RulesFilesMatch(p, corpus);
        assert p in Matching(files, corpus, "rules", ".conf");
      }
    }
  }

  /** Every corpus declares a rule, and of two corpora no rule id is declared in both. */
  lemma CollisionsExactlyWhen(files: Files, corpora: seq<string>, ruleIds: Content -> set<string>)
    ensures CheckCollisions(files, corpora, ruleIds).Ok? <==>
            && (forall c | c in corpora :: exists id :: RuleOf(files, c, id, ruleIds))
            && (|corpora| == 2 ==>
                  !exists id :: RuleOf(files, corpora[0], id, ruleIds) && RuleOf(files, corpora[1], id, ruleIds))
  {
    hide CorpusRuleIds, RuleOf;
    forall c
      ensures CorpusRuleIds(files, c, ruleIds) == {} <==> !exists id :: RuleOf(files, c, id, ruleIds)
    {
      CorpusRulesAre(files, c, ruleIds);
      if CorpusRuleIds(files, c, ruleIds) != {} { var id :| id in CorpusRuleIds(files, c, ruleIds); }
    }
    if |corpora| == 2 { CommonRules(files, corpora[0], corpora[1], ruleIds); }
  }

  lemma CommonRules(files: Files, a: string, b: string, ruleIds: Content -> set<string>)
    ensures CorpusRuleIds(files, a, ruleIds) * CorpusRuleIds(files, b, ruleIds) != {} <==>
            exists id :: RuleOf(files, a, id, ruleIds) && RuleOf(files, b, id, ruleIds)
  {
    hide CorpusRuleIds, RuleOf;
    CorpusRulesAre(files, a, ruleIds);
    CorpusRulesAre(files, b, ruleIds);
    var both := CorpusRuleIds(files, a, ruleIds) * CorpusRuleIds(files, b, ruleIds);
    assert forall id | RuleOf(files, a, id, ruleIds) && RuleOf(files, b, id, ruleIds) :: id in both;
    if both != {} {
      var id :| id in both;
      assert RuleOf(files, a, id, ruleIds) && RuleOf(files, b, id, ruleIds);
    }
  }

  ghost function CasesOf(files: Files, corpus: string): Files {
    map p | p in files && CaseFile(p, corpus) :: files[p]
  }

  lemma CasesAreMatching(files: Files, corpus: string)
    ensures Matching(files, corpus, "framework-cases", ".yaml") == CasesOf(files, corpus)
  {
    hide Matches, CaseFile;
    forall p
      ensures Matches(p, corpus, "framework-cases", ".yaml") <==> CaseFile(p, corpus)
    {
      CaseFilesMatch(p, corpus);
    }
  }

  /** Each corpus has case files, and the names are those its loader reads, corpus by corpus. */
  ghost predicate NamedBy(files: Files, corpora: seq<string>, names: seq<string>,
      loadCases: Files -> Option<seq<string>>)
    decreases |corpora|
  {
    if corpora == [] then names == []
    else
      var cases := CasesOf(files, corpora[|corpora| - 1]);
      && cases.Keys != {} && loadCases(cases).Some?
      && exists before :: NamedBy(files, corpora[..|corpora| - 1], before, loadCases)
                          && names == before + loadCases(cases).value
  }

  lemma NothingIn(files: Files)
    ensures files == map[] <==> files.Keys == {}
  {
  }

  lemma {:induction false} LoadedNamesAre(files: Files, corpora: seq<string>, names: seq<string>,
      loadCases: Files -> Option<seq<string>>)
    ensures LoadedNames(files, corpora, loadCases) == Ok(names) <==> NamedBy(files, corpora, names, loadCases)
    decreases |corpora|
  {
    if corpora != [] {
      var init, last := corpora[..|corpora| - 1], corpora[|corpora| - 1];
      CasesAreMatching(files, last);
      var cases := Matching(files, last, "framework-cases", ".yaml");
      NothingIn(cases);
      hide CasesOf, Matching;
      if LoadedNames(files, init, loadCases).Ok? {
        LoadedNamesAre(files, init, LoadedNames(files, init, loadCases).value, loadCases);
      }
      forall before | NamedBy(files, init, before, loadCases)
        ensures LoadedNames(files, init, loadCases) == Ok(before)
      {
        LoadedNamesAre(files, init, before, loadCases);
      }
    }
  }

  /** The case ids are accepted exactly when every corpus is named and no name occurs twice. */
  lemma CaseIdsExactlyWhen(files: Files, corpora: seq<string>, names: seq<string>,
      loadCases: Files -> Option<seq<string>>)
    ensures CaseIds(files, corpora, loadCases) == Ok(names) <==>
            NamedBy(files, corpora, names, loadCases) && Distinct(names)
  {
    hide LoadedNames, NamedBy, Distinct;
    LoadedNamesAre(files, corpora, names, loadCases);
  }

  // ---- Verification ----

  lemma VerifiedManifest(files: Files, root: Path, corpora: seq<string>, sources: string, definitions: Definitions,
      tools: Tools)
    requires VerifyPackage(files, root, corpora, sources, definitions, tools).Ok?
    ensures ["manifest.json"] in files && CaseIds(files, corpora, tools.loadCases).Ok?
            && CheckCollisions(files, corpora, tools.ruleIds).Ok?
    ensures VerifyPackage(files, root, corpora, sources, definitions, tools).value
         == Manifest(1, root, "validated", "passed", "passed", sources, corpora, definitions,
                     CaseIds(files, corpora, tools.loadCases).value, ArtifactHashes(files, tools.hash))
    ensures files[["manifest.json"]] ==
            ManifestDoc(VerifyPackage(files, root, corpora, sources, definitions, tools).value)
  {
    hide CaseIds, CheckCollisions, ArtifactHashes;
  }

  /**
    ONE MANIFEST.  Of all manifests that could stand in a verified package exactly the one that is there
    verifies: none of its fields can be changed, and what it says is what was asked for.
   */
  lemma OnlyOneManifestVerifies(files: Files, root: Path, corpora: seq<string>, sources: string,
      definitions: Definitions, tools: Tools, m: Manifest)
    requires VerifyPackage(files, root, corpora, sources, definitions, tools).Ok?
    ensures VerifyPackage(files[["manifest.json"] := ManifestDoc(m)], root, corpora, sources, definitions, tools).Ok?
       <==> m == VerifyPackage(files, root, corpora, sources, definitions, tools).value
  {
    hide CaseIds, CheckCollisions, ArtifactHashes;
    VerifiedManifest(files, root, corpora, sources, definitions, tools);
    ManifestChangesNothing(files, ManifestDoc(m), corpora, tools);
    var changed := files[["manifest.json"] := ManifestDoc(m)];
    if VerifyPackage(changed, root, corpora, sources, definitions, tools).Ok? {
      VerifiedManifest(changed, root, corpora, sources, definitions, tools);
    } else {
      assert m != VerifyPackage(files, root, corpora, sources, definitions, tools).value;
    }
  }

  // ---- Preparation ----

  /** A package is prepared exactly when it was staged, is in order, can be rewritten, and nothing changed meanwhile. */
  lemma PreparedExactlyWhen(target: Path, corpora: seq<string>, o: Observed, moved: string -> string, tools: Tools)
    ensures Prepared(target, corpora, o, moved, tools).Ok? <==>
            && o.staged.Some?
            && CheckCollisions(o.staged.value, corpora, tools.ruleIds).Ok?
            && CaseIds(o.staged.value, corpora, tools.loadCases).Ok?
            && (forall p | p in o.staged.value :: RewriteFile(p, o.staged.value[p], moved).Some?)
            && o.sourcesAfter == o.sources && o.definitionsAfter == o.definitions
    ensures Prepared(target, corpora, o, moved, tools).Ok? ==>
              var package, stage := Prepared(target, corpora, o, moved, tools).value, o.staged.value;
              && package.Keys == stage.Keys + {["manifest.json"]}
              && (forall p | p in stage && p != ["manifest.json"] ::
                    RewriteFile(p, stage[p], moved) == Some(package[p]))
  {
    hide CheckCollisions, CaseIds, RewriteFile, ArtifactHashes;
  }

  /**
    A PREPARED PACKAGE VERIFIES ONLY FOR WHAT IT WAS PREPARED FOR: for its own root, corpora, sources and
    definitions, and then exactly when rewriting left the case ids alone.
   */
  lemma PreparedVerifiesOnlyForItsOwn(target: Path, corpora: seq<string>, o: Observed, moved: string -> string,
      tools: Tools, root: Path, others: seq<string>, sources: string, definitions: Definitions)
    requires Prepared(target, corpora, o, moved, tools).Ok?
    ensures var package := Prepared(target, corpora, o, moved, tools).value;
            && o.staged.Some?
            && (VerifyPackage(package, root, others, sources, definitions, tools).Ok? <==>
                  && root == target && others == corpora && sources == o.sources && definitions == o.definitions
                  && CaseIds(package, corpora, tools.loadCases)
                     == CaseIds(o.staged.value, corpora, tools.loadCases))
  {
    hide CaseIds, CheckCollisions, ArtifactHashes, VerifyPackage;
    var package := Prepared(target, corpora, o, moved, tools).value;
    PreparedVerifiesExactlyWhen(target, corpora, o, moved, tools);
    PreparedManifest(target, corpora, o, moved, tools);
    if VerifyPackage(package, root, others, sources, definitions, tools).Ok? {
      VerifiedManifest(package, root, others, sources, definitions, tools);
    }
  }

  lemma PreparedManifest(target: Path, corpora: seq<string>, o: Observed, moved: string -> string, tools: Tools)
    requires Prepared(target, corpora, o, moved, tools).Ok?
    ensures var package := Prepared(target, corpora, o, moved, tools).value;
            && ["manifest.json"] in package && package[["manifest.json"]].ManifestDoc?
            && var m := package[["manifest.json"]].manifest;
               && m.root == target && m.corpora == corpora && m.sources == o.sources && m.definitions == o.definitions
               && m.schema == 1 && m.status == "validated" && m.importStatus == "passed"
               && m.validationStatus == "passed"
  {
    hide CaseIds, CheckCollisions, ArtifactHashes, RewriteFile;
  }

  // ---- Rewriting one file ----

  /** All texts of a value, at any depth. */
  function Texts(v: Value): set<string> {
    match v
    case Text(s) => {s}
    case Null => {}
    case Scalar(_) => {}
    case List(items) => set i, t | 0 <= i < |items| && t in Texts(items[i]) :: t
    case Dict(fields) => set k, t | k in fields && t in Texts(fields[k]) :: t
  }

  /** The value with every text blanked: its shape, its keys and its other scalars. */
  function Shape(v: Value): Value {
    match v
    case Text(_) => Text("")
    case Null => v
    case Scalar(_) => v
    case List(items) => List(seq(|items|, i requires 0 <= i < |items| => Shape(items[i])))
    case Dict(fields) => Dict(map k | k in fields :: Shape(fields[k]))
  }

  lemma {:induction false} RelocationKeepsShape(v: Value, moved: string -> string)
    ensures Shape(Relocate(v, moved)) == Shape(v)
    decreases v
  {
    match v
    case Text(_) =>
    case Null =>
    case Scalar(_) =>
    case List(items) =>
      forall i | 0 <= i < |items|
        ensures Shape(Relocate(items[i], moved)) == Shape(items[i])
      {
        RelocationKeepsShape(items[i], moved);
      }
      assert Shape(Relocate(v, moved)).items == Shape(v).items;
    case Dict(fields) =>
      forall k | k in fields
        ensures Shape(Relocate(fields[k], moved)) == Shape(fields[k])
      {
        RelocationKeepsShape(fields[k], moved);
      }
      assert Shape(Relocate(v, moved)).fields == Shape(v).fields;
  }

  lemma {:induction false} RelocationMovesTexts(v: Value, moved: string -> string, t: string)
    ensures t in Texts(Relocate(v, moved)) <==> exists s :: s in Texts(v) && t == moved(s)
    decreases v
  {
    match v
    case Text(s) => assert s in Texts(v);
    case Null =>
    case Scalar(_) =>
    case List(items) =>
      var now := Relocate(v, moved).items;
      forall i | 0 <= i < |items|
        ensures t in Texts(now[i]) <==> exists s :: s in Texts(items[i]) && t == moved(s)
      {
        RelocationMovesTexts(items[i], moved, t);
      }
    case Dict(fields) =>
      var now := Relocate(v, moved).fields;
      forall k | k in fields
        ensures t in Texts(now[k]) <==> exists s :: s in Texts(fields[k]) && t == moved(s)
      {
        RelocationMovesTexts(fields[k], moved, t);
      }
  }

  /** What rewriting the paths makes of one file. */
  lemma RewriteMeans(p: Path, c: Content, moved: string -> string)
    ensures IsCasePath(p) ==>
              && (RewriteFile(p, c, moved).Some? <==> c.Yaml? && c.value.Dict?)
              && (c.Yaml? && c.value.Dict? ==>
                    var now, f := RewriteFile(p, c, moved).value, c.value.fields;
                    && now.Yaml? && now.value.Dict? && now.value.fields.Keys == f.Keys
                    && forall k | k in f ::
                         now.value.fields[k] == if k in {"metadata", "origin"} then Relocate(f[k], moved) else f[k])
    ensures !IsCasePath(p) && p != [] && p[|p| - 1] == "mrts.load" ==>
              RewriteFile(p, c, moved) == if c.Plain? then Some(Plain(moved(c.text))) else None
    ensures !IsCasePath(p) && (p == [] || p[|p| - 1] != "mrts.load") ==> RewriteFile(p, c, moved) == Some(c)
  {
    hide IsCasePath, Relocate;
  }

  /** Ports are set in the YAML test files of the selected corpora and nowhere else. */
  lemma PortMeans(p: Path, c: Content, corpora: seq<string>, port: int, setPort: (Value, int) -> Option<Value>)
    ensures (exists corpus | corpus in corpora :: TestFile(p, corpus)) ==>
              && (PortFile(p, c, corpora, port, setPort).Some? <==> c.Yaml? && setPort(c.value, port).Some?)
              && (c.Yaml? && setPort(c.value, port).Some? ==>
                    PortFile(p, c, corpora, port, setPort) == Some(Yaml(setPort(c.value, port).value)))
    ensures (forall corpus | corpus in corpora :: !TestFile(p, corpus)) ==>
              PortFile(p, c, corpora, port, setPort) == Some(c)
  {
    hide Matches, TestFile;
    forall corpus | corpus in corpora
      ensures Matches(p, corpus, "ftw", ".yaml") <==> TestFile(p, corpus)
    {
      TestFilesMatch(p, corpus);
    }
  }

  // ---- Materialization ----

  /** A run exists exactly when the copy is what was verified and every file could be rewritten and read again. */
  lemma MaterializedExactlyWhen(m: Manifest, manifestFile: Content, copied: Files, corpora: seq<string>, port: int,
      moved: string -> string, tools: Tools, run: Files)
    requires ["materialization.json"] !in copied && run.Keys == copied.Keys
    requires forall p | p in copied ::
               exists c :: RewriteFile(p, copied[p], moved) == Some(c)
                           && PortFile(p, c, corpora, port, tools.setPort) == Some(run[p])
    ensures Materialized(m, manifestFile, copied, corpora, port, moved, tools).Ok? <==>
            ArtifactHashes(copied, tools.hash) == m.artifacts && CaseIds(run, corpora, tools.loadCases).Ok?
    ensures Materialized(m, manifestFile, copied, corpora, port, moved, tools).Ok? ==>
              Materialized(m, manifestFile, copied, corpora, port, moved, tools).value
              == run[["materialization.json"] :=
                       NoteDoc(Note(tools.hash(manifestFile), port, ArtifactHashes(run, tools.hash)))]
  {
    hide RewriteFile, PortFile, CaseIds, ArtifactHashes;
    var files := map p | p in copied :: RewriteFile(p, copied[p], moved).value;
    RewrittenTo(copied, (p, c) => RewriteFile(p, c, moved), files);
    RewrittenTo(files, (p, c) => PortFile(p, c, corpora, port, tools.setPort), run);
    hide Rewritten;
  }

  lemma RewrittenTo(files: Files, rewrite: (Path, Content) -> Option<Content>, after: Files)
    requires after.Keys == files.Keys && forall p | p in files :: rewrite(p, files[p]) == Some(after[p])
    ensures Rewritten(files, rewrite) == Ok(after)
  {
    assert after == map p | p in files :: rewrite(p, files[p]).value;
  }

  lemma NotRewritten(files: Files, rewrite: (Path, Content) -> Option<Content>, p: Path)
    requires p in files && rewrite(p, files[p]).None?
    ensures Rewritten(files, rewrite).Err?
  {
  }

  lemma RewrittenEach(files: Files, rewrite: (Path, Content) -> Option<Content>)
    ensures Rewritten(files, rewrite).Ok? ==>
              Rewritten(files, rewrite).value.Keys == files.Keys
              && forall p | p in files :: rewrite(p, files[p]) == Some(Rewritten(files, rewrite).value[p])
  {
  }

  /** No run exists when a file cannot be rewritten. */
  lemma UnrewritableIsRefused(m: Manifest, manifestFile: Content, copied: Files, corpora: seq<string>, port: int,
      moved: string -> string, tools: Tools, p: Path)
    requires p in copied
    requires RewriteFile(p, copied[p], moved).None?
             || PortFile(p, RewriteFile(p, copied[p], moved).value, corpora, port, tools.setPort).None?
    ensures Materialized(m, manifestFile, copied, corpora, port, moved, tools).Err?
  {
    hide RewriteFile, PortFile, CaseIds, ArtifactHashes, Rewritten;
    if RewriteFile(p, copied[p], moved).None? {
      NotRewritten(copied, (p, c) => RewriteFile(p, c, moved), p);
    } else {
      RewrittenEach(copied, (p, c) => RewriteFile(p, c, moved));
      var files := Rewritten(copied, (p, c) => RewriteFile(p, c, moved));
      if files.Ok? { NotRewritten(files.value, (p, c) => PortFile(p, c, corpora, port, tools.setPort), p); }
    }
  }

  /** Artifacts are all files but the one named manifest.json at the root. */
  lemma ArtifactsMean(files: Files, hash: Content -> Digest)
    ensures ArtifactHashes(files, hash).Keys == files.Keys - {["manifest.json"]}
    ensures forall p | p in files && p != ["manifest.json"] :: ArtifactHashes(files, hash)[p] == hash(files[p])
  {
  }

  // ---- What a loader reads of `origin` ----

  lemma ShowsMeans(fields: map<string, Value>, key: string)
    ensures Shows(fields, key) <==>
            key in fields && (fields[key].Text? ==> exists c :: c in fields[key].text && !IsSpace(c))
  {
    hide IsSpace;
    if key in fields && fields[key].Text? {
      var text := fields[key].text;
      assert forall i | 0 <= i < |text| :: text[i] in text;
    }
  }

  /** `origin` is empty, or a list of mappings that each name a repository, a path and a reason. */
  lemma OriginMeans(v: Value)
    ensures OriginOk(v) <==>
            || v == Null
            || (v.List? && forall x | x in v.items ::
                  x.Dict? && Shows(x.fields, "repo") && Shows(x.fields, "path") && Shows(x.fields, "reason"))
  {
    hide Shows;
  }
}
