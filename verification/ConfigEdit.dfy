/**
 * The two transactional edits of a configuration layer: the console writes, validates and rolls
 * back (riglib/config_web.py), the command line validates in memory and then writes (riglib/cli.py).
 */
module ConfigEdit {
  import opened Text
  import opened ConfigTree
  import opened ConfigLoad

  datatype Owner = GLOBAL | REPO

  /**
   * Everything the two front ends share: file locations, the option registry, the serializer and the
   * later validation stages.
   */
  datatype Env = Env(
    globalPath: Path,
    repoPath: Path,
    besideGlobal: Path,
    isOption: string -> bool,
    globalOnly: set<string>,
    coerceOption: (string, string) -> Option<Tree>,
    coerceScalar: string -> Tree,
    parse: string -> File,
    render: (Owner, Entries) -> string,
    validate: Entries -> bool,
    plan: Loaded -> bool,
    pinsSource: Entries -> bool,
    planAlone: Loaded -> bool)

  /** What is written is read back. */
  ghost predicate Faithful(env: Env) {
    forall owner, d :: env.parse(env.render(owner, d)) == Parsed(d)
  }

  /** The global file, the repository file and a `rig.yaml` beside the global file are three files. */
  predicate DistinctPaths(env: Env) {
    env.globalPath != env.repoPath && env.besideGlobal != env.globalPath
  }

  // ---- keys and their owners ----

  /** `key.split(".", 1)[0]`. */
  function Category(key: string): string {
    Split(key, '.')[0]
  }

  /** `writable_layer_for_category`. */
  function WritableLayer(env: Env, category: string): Owner {
    if category in env.globalOnly then GLOBAL else REPO
  }

  /** The layer of an option is that of its category. */
  function OwnerOf(env: Env, key: string): Owner {
    WritableLayer(env, Category(key))
  }

  /** Registered keys are written the way paths are, and none of them belongs to the removed `scope`. */
  ghost predicate SoundRegistry(env: Env) {
    forall key :: env.isOption(key) ==> Canonical(key) && Category(key) != "scope"
  }

  predicate Canonical(key: string) {
    SplitPath(key).Some? && Join(SplitPath(key).value, '.') == key
  }

  predicate ScopePath(path: string) {
    path == "scope" || "scope." <= path
  }

  /** The textual test for the removed setting is a test of the category. */
  lemma ScopePathIsCategory(path: string)
    ensures ScopePath(path) <==> Category(path) == "scope"
  {
    StartsWithFirst(path, "scope");
    assert "scope" + ['.'] == "scope.";
  }

  lemma StartsWithFirst(path: string, first: string)
    requires '.' !in first
    ensures path == first || first + ['.'] <= path <==> Split(path, '.')[0] == first
  {
    if path == first {
      SplitPlain(first, '.');
    } else if first + ['.'] <= path {
      assert path == first + ['.'] + path[|first| + 1..];
      SplitAtSeparator(first, path[|first| + 1..], '.');
    }
    JoinSplit(path, '.');
  }

  type Texts = map<Path, string>

  function Target(env: Env, owner: Owner): Path {
    if owner == GLOBAL then env.globalPath else env.repoPath
  }

  // ---- the gates ----

  function FilesOf(env: Env, texts: Texts): map<Path, File> {
    map p | p in texts :: env.parse(texts[p])
  }

  function CascadeRequest(env: Env, texts: Texts, overrides: map<Path, Entries>, includeRepo: bool): Request {
    Request(FilesOf(env, texts), overrides, env.globalPath, env.repoPath, None, true, includeRepo)
  }

  function IsolationRequest(env: Env, texts: Texts, overrides: map<Path, Entries>): Request {
    Request(FilesOf(env, texts), overrides, env.globalPath, env.besideGlobal, Some(env.globalPath), false, true)
  }

  function PlanGate(env: Env, texts: Texts, overrides: map<Path, Entries>, includeRepo: bool): bool {
    var r := LoadOf(CascadeRequest(env, texts, overrides, includeRepo), env.validate);
    r.Ok? && env.plan(r.value)
  }

  /** `_validate_layer_in_isolation`: the global file alone. */
  function IsolationGate(env: Env, texts: Texts, overrides: map<Path, Entries>): bool {
    var r := LoadOf(IsolationRequest(env, texts, overrides), env.validate);
    r.Ok? && (!env.pinsSource(r.value.data) || env.planAlone(r.value))
  }

  function Gates(env: Env, texts: Texts, overrides: map<Path, Entries>, owner: Owner, includeRepo: bool): bool {
    (owner == GLOBAL ==> IsolationGate(env, texts, overrides)) && PlanGate(env, texts, overrides, includeRepo)
  }

  // ---- the edited tree ----

  /** The owning file alone, without the removed `scope` key; `None` when it cannot be read. */
  function ReadTarget(env: Env, texts: Texts, target: Path): Option<Entries> {
    if target !in texts then Some(map[])
    else
      match env.parse(texts[target])
      case Broken => None
      case Parsed(d) => Some(d - {"scope"})
  }

  /** The whole edited layer, once it passed schema validation. */
  function Edited(env: Env, texts: Texts, owner: Owner, key: string, value: Tree): Option<Entries> {
    var read := ReadTarget(env, texts, Target(env, owner));
    if read.None? || SplitPath(key).None? then None
    else
      assert Segments(SplitPath(key).value) by { SplitPathSegments(key); }
      match Put(read.value, SplitPath(key).value, value)
      case None => None
      case Some(d) => if env.validate(d) then Some(d) else None
  }

  /** A repository layer has to exist before it can be edited. */
  predicate MayEdit(env: Env, texts: Texts, owner: Owner) {
    owner == REPO ==> env.repoPath in texts
  }

  /** The layer the console would write for a registered option; `None` when it rejects the edit before. */
  function WebEdit(env: Env, texts: Texts, key: string, raw: string): Option<Entries> {
    if !env.isOption(key) || env.coerceOption(key, raw) == None || !MayEdit(env, texts, OwnerOf(env, key)) then None
    else Edited(env, texts, OwnerOf(env, key), key, env.coerceOption(key, raw).value)
  }

  /** The command line refuses global-only categories without `--global`, and the removed setting. */
  predicate Refused(env: Env, owner: Owner, path: string) {
    (owner != GLOBAL && WritableLayer(env, Category(path)) == GLOBAL) || ScopePath(path)
  }

  /** A registered option is coerced to its kind, and any other value as a scalar. */
  function CliValue(env: Env, path: string, raw: string): Option<Tree> {
    if env.isOption(path) then env.coerceOption(path, raw) else Some(env.coerceScalar(raw))
  }

  /** The layer the command line would write, `owner` standing for `--global` or its absence. */
  function CliEdit(env: Env, texts: Texts, owner: Owner, dotted: string, raw: string): Option<Entries> {
    if SplitPath(dotted) == None then None
    else
      var path := Join(SplitPath(dotted).value, '.');
      if Refused(env, owner, path) || !MayEdit(env, texts, owner) || CliValue(env, path, raw) == None then None
      else Edited(env, texts, owner, path, CliValue(env, path, raw).value)
  }

  /** The console accepts: the gates pass on the files as they are after the write. */
  ghost predicate WebAccepts(env: Env, texts: Texts, key: string, raw: string, includeRepo: bool) {
    var owner, edit := OwnerOf(env, key), WebEdit(env, texts, key, raw);
    edit.Some? && Gates(env, Rewritten(env, texts, owner, edit.value), map[], owner, includeRepo)
  }

  /** The command line accepts: the gates pass in memory, on the files as they are before the write. */
  ghost predicate CliAccepts(env: Env, texts: Texts, owner: Owner, dotted: string, raw: string) {
    var edit := CliEdit(env, texts, owner, dotted, raw);
    edit.Some? && Gates(env, texts, map[Target(env, owner) := edit.value], owner, true)
  }

  /** The files after a successful edit: the owning layer is rewritten whole. */
  function Rewritten(env: Env, texts: Texts, owner: Owner, d: Entries): Texts {
    texts[Target(env, owner) := env.render(owner, d)]
  }

  // ---- what an edit does to the file ----

  /** What the file at `p` says: nothing where there is no file. */
  function Held(env: Env, texts: Texts, p: Path): Entries {
    if p in texts && env.parse(texts[p]).Parsed? then env.parse(texts[p]).entries else map[]
  }

  /**
   * `now` is `was` with `v` set at `parts`: a path beside the edited one reads as before, and the removed
   * `scope` is gone.
   */
  ghost predicate OnlySets(was: Entries, now: Entries, parts: seq<string>, v: Tree)
    requires parts != []
  {
    && Lookup(now, parts) == Some(v)
    && (parts[0] != "scope" ==> "scope" !in now)
    && forall q: seq<string> | q != [] && q[0] != "scope" && Beside(parts, q) :: Lookup(now, q) == Lookup(was, q)
  }

  /** The file at `target` could be read, and after the edit it can be read and differs at `parts` only. */
  ghost predicate FileSets(env: Env, before: Texts, after: Texts, target: Path, parts: seq<string>, v: Tree)
    requires parts != []
  {
    && (target in before ==> env.parse(before[target]).Parsed?)
    && target in after && env.parse(after[target]).Parsed?
    && OnlySets(Held(env, before, target), env.parse(after[target]).entries, parts, v)
  }

  /** The value that the text `raw` stands for at the path `parts`: that of a registered option, or a scalar. */
  function ValueFor(env: Env, parts: seq<string>, raw: string): Option<Tree> {
    var key := Join(parts, '.');
    if env.isOption(key) then env.coerceOption(key, raw) else Some(env.coerceScalar(raw))
  }

  lemma PutOnlySets(was: Entries, parts: seq<string>, v: Tree)
    requires parts != [] && Put(was - {"scope"}, parts, v).Some?
    ensures OnlySets(was, Put(was - {"scope"}, parts, v).value, parts, v)
  {
    var base := was - {"scope"};
    var now := Put(base, parts, v).value;
    PutReads(base, parts, v);
    forall q: seq<string> | q != [] && q[0] != "scope" && Beside(parts, q)
      ensures Lookup(now, q) == Lookup(was, q)
    {
      PutIsLocal(base, parts, v, q);
      LookupBesideScope(was, q);
    }
  }

  /** Writing the edited layer sets the one path in the owning file. */
  lemma EditedSets(env: Env, texts: Texts, owner: Owner, key: string, value: Tree)
    requires Faithful(env) && Edited(env, texts, owner, key, value).Some?
    ensures SplitPath(key).Some? && SplitPath(key).value != []
    ensures FileSets(env, texts, Rewritten(env, texts, owner, Edited(env, texts, owner, key, value).value),
      Target(env, owner), SplitPath(key).value, value)
  {
    SplitPathSegments(key);
    var target, parts := Target(env, owner), SplitPath(key).value;
    var was := Held(env, texts, target);
    assert ReadTarget(env, texts, target).value == was - {"scope"};
    PutOnlySets(was, parts, value);
    var d := Edited(env, texts, owner, key, value).value;
    assert env.parse(env.render(owner, d)) == Parsed(d);
  }

  /** A successful edit of the console sets the registered option in the file that owns it. */
  ghost predicate WebSets(env: Env, before: Texts, after: Texts, key: string, raw: string) {
    && env.isOption(key) && env.coerceOption(key, raw).Some?
    && SplitPath(key).Some? && SplitPath(key).value != []
    && FileSets(env, before, after, if Category(key) in env.globalOnly then env.globalPath else env.repoPath,
         SplitPath(key).value, env.coerceOption(key, raw).value)
  }

  /** A successful edit of the command line sets the path, which is not below `scope`, in the file of the layer. */
  ghost predicate CliSets(env: Env, before: Texts, after: Texts, owner: Owner, dotted: string, raw: string) {
    && SplitPath(dotted).Some? && SplitPath(dotted).value != [] && SplitPath(dotted).value[0] != "scope"
    && ValueFor(env, SplitPath(dotted).value, raw).Some?
    && FileSets(env, before, after, if owner == GLOBAL then env.globalPath else env.repoPath,
         SplitPath(dotted).value, ValueFor(env, SplitPath(dotted).value, raw).value)
  }

  /** The category of a registered key is its first segment, and not the removed setting. */
  lemma RegisteredBesideScope(env: Env, key: string)
    requires SoundRegistry(env)
    ensures env.isOption(key) ==>
      SplitPath(key).Some? && SplitPath(key).value != [] && SplitPath(key).value[0] == Category(key) != "scope"
  {
    if env.isOption(key) {
      SplitPathSegments(key);
      SplitJoin(SplitPath(key).value, '.');
    }
  }

  lemma WebEditSets(env: Env, texts: Texts, key: string, raw: string)
    requires Faithful(env) && WebEdit(env, texts, key, raw).Some?
    ensures WebSets(env, texts, Rewritten(env, texts, OwnerOf(env, key), WebEdit(env, texts, key, raw).value), key, raw)
  {
    EditedSets(env, texts, OwnerOf(env, key), key, env.coerceOption(key, raw).value);
  }

  lemma CliEditSets(env: Env, texts: Texts, owner: Owner, dotted: string, raw: string)
    requires Faithful(env) && CliEdit(env, texts, owner, dotted, raw).Some?
    ensures CliSets(env, texts, Rewritten(env, texts, owner, CliEdit(env, texts, owner, dotted, raw).value), owner, dotted, raw)
  {
    var parts := SplitPath(dotted).value;
    var path := Join(parts, '.');
    SplitPathSegments(dotted);
    CanonicalPath(dotted);
    EditedSets(env, texts, owner, path, CliValue(env, path, raw).value);
    ScopePathIsCategory(path);
    SplitJoin(parts, '.');
  }

  // ---- which edits get as far as the gates ----

  lemma OnlySetsIsUnique(was: Entries, a: Entries, b: Entries, parts: seq<string>, v: Tree)
    requires parts != [] && parts[0] != "scope" && OnlySets(was, a, parts, v) && OnlySets(was, b, parts, v)
    ensures a == b
  {
    forall q: seq<string> | q != [] && Beside(parts, q) ensures Lookup(a, q) == Lookup(b, q) {
      if q[0] == "scope" {
        assert Lookup(a, q) == None && Lookup(b, q) == None;
      } else {
        assert Lookup(a, q) == Lookup(was, q) == Lookup(b, q);
      }
    }
    SameBesideIsSame(a, b, parts, v);
  }

  /** The file can be read, and nothing but mappings stands on the way to the path. */
  predicate CanSet(env: Env, texts: Texts, target: Path, parts: seq<string>)
    requires parts != []
  {
    (target in texts ==> env.parse(texts[target]).Parsed?) && !Breaks(Held(env, texts, target), parts)
  }

  lemma HeldIsRead(env: Env, texts: Texts, target: Path)
    requires target in texts ==> env.parse(texts[target]).Parsed?
    ensures ReadTarget(env, texts, target) == Some(Held(env, texts, target) - {"scope"})
  {
    if target !in texts {
      var none: Entries := map[];
      assert none - {"scope"} == none;
    }
  }

  lemma EditedDecides(env: Env, texts: Texts, owner: Owner, key: string, value: Tree, d: Entries)
    requires SplitPath(key).Some? && SplitPath(key).value != [] && SplitPath(key).value[0] != "scope"
    ensures var parts := SplitPath(key).value;
      Edited(env, texts, owner, key, value) == Some(d) <==> FileTakes(env, texts, owner, parts, value, d)
  {
    var target, parts := Target(env, owner), SplitPath(key).value;
    var was := Held(env, texts, target);
    SplitPathSegments(key);
    PutFails(was - {"scope"}, parts, value);
    assert Breaks(was - {"scope"}, parts) == Breaks(was, parts);
    if CanSet(env, texts, target, parts) {
      HeldIsRead(env, texts, target);
      var put := Put(was - {"scope"}, parts, value).value;
      PutOnlySets(was, parts, value);
      if OnlySets(was, d, parts, value) {
        OnlySetsIsUnique(was, d, put, parts, value);
      }
    }
  }

  /** The guards of the command line, by the first segment of the path. */
  lemma CliGuarded(env: Env, texts: Texts, owner: Owner, dotted: string, raw: string)
    requires SplitPath(dotted).Some? && SplitPath(dotted).value != []
    ensures var parts := SplitPath(dotted).value;
      CliEdit(env, texts, owner, dotted, raw) ==
        if CliPermits(env, texts, owner, parts, raw) then Edited(env, texts, owner, Join(parts, '.'), ValueFor(env, parts, raw).value)
        else None
  {
    var parts := SplitPath(dotted).value;
    SplitPathSegments(dotted);
    ScopePathIsCategory(Join(parts, '.'));
    SplitJoin(parts, '.');
  }

  predicate CliPermits(env: Env, texts: Texts, owner: Owner, parts: seq<string>, raw: string)
    requires parts != []
  {
    && parts[0] != "scope" && (parts[0] in env.globalOnly ==> owner == GLOBAL)
    && (owner == REPO ==> env.repoPath in texts) && ValueFor(env, parts, raw).Some?
  }

  /** The file of the layer takes the path, and `d`, the file with that one path set, is valid. */
  ghost predicate FileTakes(env: Env, texts: Texts, owner: Owner, parts: seq<string>, v: Tree, d: Entries)
    requires parts != []
  {
    var target := if owner == GLOBAL then env.globalPath else env.repoPath;
    CanSet(env, texts, target, parts) && OnlySets(Held(env, texts, target), d, parts, v) && env.validate(d)
  }

  /**
   * The command line takes an edit to its gates exactly when the path is one, outside the removed setting
   * and not global-only without `--global`, the value can be read, a repository layer exists where one is
   * edited, the file can take the path, and `d`, the file with that one path set, is valid.
   */
  lemma CliEditDecides(env: Env, texts: Texts, owner: Owner, dotted: string, raw: string, d: Entries)
    ensures CliEdit(env, texts, owner, dotted, raw) == Some(d) <==>
      SplitPath(dotted).Some? && CliTakes(env, texts, owner, SplitPath(dotted).value, raw, d)
  {
    if SplitPath(dotted).Some? {
      var parts := SplitPath(dotted).value;
      SplitPathSegments(dotted);
      CanonicalPath(dotted);
      CliGuarded(env, texts, owner, dotted, raw);
      if CliPermits(env, texts, owner, parts, raw) {
        EditedDecides(env, texts, owner, Join(parts, '.'), ValueFor(env, parts, raw).value, d);
      }
    }
  }

  ghost predicate CliTakes(env: Env, texts: Texts, owner: Owner, parts: seq<string>, raw: string, d: Entries) {
    && parts != [] && CliPermits(env, texts, owner, parts, raw)
    && FileTakes(env, texts, owner, parts, ValueFor(env, parts, raw).value, d)
  }

  // ---- what the gates demand ----

  /** The global layer `d` as it loads when there is no other file. */
  function Alone(env: Env, d: Entries): Loaded {
    Loaded(d - {"scope"}, [(ConfigLabel, env.globalPath)], map k | k in d && k != "scope" :: env.globalPath)
  }

  /** The files load, by what they say, and the result can be planned. */
  ghost predicate LoadsAndPlans(env: Env, r: Request) {
    exists loaded :: env.plan(loaded) && MeetsFiles(r, env.validate, Result.Ok(loaded))
  }

  lemma IsolationMeans(env: Env, texts: Texts, d: Entries)
    requires DistinctPaths(env)
    ensures IsolationGate(env, texts, map[env.globalPath := d]) <==>
      env.validate(d) && (env.pinsSource(d - {"scope"}) ==> env.planAlone(Alone(env, d)))
  {
    var r := IsolationRequest(env, texts, map[env.globalPath := d]);
    var layer := Layer(ConfigLabel, env.globalPath, d);
    assert Layers(r) == Ok([layer]) by {
      assert [] + [layer] == [layer];
    }
    FoldOne([layer]);
    var loaded := LoadOf(r, env.validate);
    if env.validate(d) {
      LoadIsUnique(r, env.validate, loaded);
      LoadMeetsFiles(r, env.validate, loaded);
      AloneSources(env, r, d, loaded.value);
    }
  }

  lemma AloneSources(env: Env, r: Request, d: Entries, loaded: Loaded)
    requires FromGlobal(r) == map[] && FromRepo(r) == d && RepoFile(r) == env.globalPath
    requires FilesRead(r) == [(ConfigLabel, env.globalPath)]
    requires loaded.layers == FilesRead(r) && AttributedToFiles(r, loaded.keySources) && loaded.data == d - {"scope"}
    ensures loaded == Alone(env, d)
  {
    SourcesDecide(r, loaded.keySources, Alone(env, d).keySources);
  }

  /**
   * The gates let the layer `d` pass exactly when the cascade of the files with `d` in place loads and can
   * be planned, and a global layer is besides valid alone and, where it pins a source, can be planned alone.
   */
  lemma GatesMean(env: Env, texts: Texts, owner: Owner, d: Entries, includeRepo: bool)
    requires DistinctPaths(env)
    ensures var overrides := map[Target(env, owner) := d];
      Gates(env, texts, overrides, owner, includeRepo) <==>
        && (owner == GLOBAL ==> env.validate(d) && (env.pinsSource(d - {"scope"}) ==> env.planAlone(Alone(env, d))))
        && LoadsAndPlans(env, CascadeRequest(env, texts, overrides, includeRepo))
  {
    var r := CascadeRequest(env, texts, map[Target(env, owner) := d], includeRepo);
    PlanMeans(env, r);
    if owner == GLOBAL {
      IsolationMeans(env, texts, d);
    }
  }

  lemma PlanMeans(env: Env, r: Request)
    ensures var result := LoadOf(r, env.validate);
      result.Ok? && env.plan(result.value) <==> LoadsAndPlans(env, r)
  {
    forall loaded ensures MeetsFiles(r, env.validate, Result.Ok(loaded)) <==> LoadOf(r, env.validate) == Result.Ok(loaded) {
      FilesDecide(r, env.validate, Result.Ok(loaded));
      LoadIsUnique(r, env.validate, Result.Ok(loaded));
    }
  }

  // ---- reading back what was written is the same as overriding it in memory ----

  /** The two requests see the same at `p`. */
  ghost predicate SameAt(x: Request, y: Request, p: Path) {
    && (Present(x, p) <==> Present(y, p))
    && (Present(x, p) ==> forall tag :: ReadLayer(x, tag, p) == ReadLayer(y, tag, p))
  }

  ghost predicate SameQuestion(x: Request, y: Request) {
    && x.globalPath == y.globalPath && x.repoPath == y.repoPath && x.explicit == y.explicit
    && x.includeGlobal == y.includeGlobal && x.includeRepo == y.includeRepo
  }

  lemma SameLayersLoadTheSame(x: Request, y: Request, validate: Entries -> bool)
    requires SameQuestion(x, y) && SameAt(x, y, x.globalPath) && SameAt(x, y, RepoFile(x))
    ensures LoadOf(x, validate) == LoadOf(y, validate)
  {
    assert GlobalLayers(x) == GlobalLayers(y);
    assert RepoTag(x) == RepoTag(y) && RepoFile(x) == RepoFile(y);
    assert RepoLayers(x) == RepoLayers(y);
  }

  lemma WrittenIsOverridden(env: Env, texts: Texts, target: Path, text: string, d: Entries, x: Request, y: Request, p: Path)
    requires env.parse(text) == Parsed(d)
    requires x.files == FilesOf(env, texts[target := text]) && x.overrides == map[]
    requires y.files == FilesOf(env, texts) && y.overrides == map[target := d]
    ensures SameAt(x, y, p)
  {
  }

  lemma DiskIsMemory(env: Env, texts: Texts, owner: Owner, d: Entries, includeRepo: bool)
    requires Faithful(env)
    ensures var target := Target(env, owner);
      Gates(env, texts[target := env.render(owner, d)], map[], owner, includeRepo)
      == Gates(env, texts, map[target := d], owner, includeRepo)
  {
    var target, text := Target(env, owner), env.render(owner, d);
    var x := CascadeRequest(env, texts[target := text], map[], includeRepo);
    var y := CascadeRequest(env, texts, map[target := d], includeRepo);
    WrittenIsOverridden(env, texts, target, text, d, x, y, x.globalPath);
    WrittenIsOverridden(env, texts, target, text, d, x, y, RepoFile(x));
    SameLayersLoadTheSame(x, y, env.validate);
    var u := IsolationRequest(env, texts[target := text], map[]);
    var w := IsolationRequest(env, texts, map[target := d]);
    WrittenIsOverridden(env, texts, target, text, d, u, w, u.globalPath);
    SameLayersLoadTheSame(u, w, env.validate);
  }

  /** For a registered key the two front ends would write the same layer. */
  lemma SameEdit(env: Env, texts: Texts, key: string, raw: string)
    requires SoundRegistry(env) && env.isOption(key)
    ensures CliEdit(env, texts, OwnerOf(env, key), key, raw) == WebEdit(env, texts, key, raw)
  {
    ScopePathIsCategory(key);
  }

  /**
   * With the repository layer included, the console accepts exactly the edits of registered keys that
   * the command line accepts for the layer that owns the key, and both would write the same.
   */
  lemma WebRefinesCli(env: Env, texts: Texts, key: string, raw: string)
    requires Faithful(env) && SoundRegistry(env)
    ensures WebAccepts(env, texts, key, raw, true) <==>
      env.isOption(key) && CliAccepts(env, texts, OwnerOf(env, key), key, raw)
    ensures WebAccepts(env, texts, key, raw, true) ==>
      CliEdit(env, texts, OwnerOf(env, key), key, raw) == WebEdit(env, texts, key, raw)
  {
    if env.isOption(key) {
      SameEdit(env, texts, key, raw);
      var e := WebEdit(env, texts, key, raw);
      if e.Some? {
        DiskIsMemory(env, texts, OwnerOf(env, key), e.value, true);
      }
    }
  }

  /** No environment makes the command line accept the removed setting, or a global-only key without `--global`. */
  lemma CliGuards(env: Env, texts: Texts, owner: Owner, dotted: string, raw: string)
    requires SplitPath(dotted).Some?
    requires var c := Category(Join(SplitPath(dotted).value, '.')); c == "scope" || (c in env.globalOnly && owner == REPO)
    ensures !CliAccepts(env, texts, owner, dotted, raw)
  {
    ScopePathIsCategory(Join(SplitPath(dotted).value, '.'));
  }

  lemma NoRepoFile(env: Env, texts: Texts, d: Entries)
    requires DistinctPaths(env)
    ensures var overrides := map[env.globalPath := d];
      PlanGate(env, texts, overrides, false) == PlanGate(env, texts - {env.repoPath}, overrides, true)
  {
    var overrides := map[env.globalPath := d];
    var x := CascadeRequest(env, texts, overrides, false);
    var y := CascadeRequest(env, texts - {env.repoPath}, overrides, true);
    assert GlobalLayers(x) == GlobalLayers(y);
    assert RepoLayers(x) == Ok([]) && RepoLayers(y) == Ok([]);
  }

  lemma NoRepoFileAlone(env: Env, texts: Texts, d: Entries)
    ensures var overrides := map[env.globalPath := d];
      IsolationGate(env, texts, overrides) == IsolationGate(env, texts - {env.repoPath}, overrides)
  {
    var overrides := map[env.globalPath := d];
    var x := IsolationRequest(env, texts, overrides);
    var y := IsolationRequest(env, texts - {env.repoPath}, overrides);
    assert SameAt(x, y, env.globalPath);
    assert RepoLayers(x) == RepoLayers(y);
  }

  /** On the Global tab the console decides as the command line would where no repository file exists. */
  lemma GlobalTabIgnoresTheRepo(env: Env, texts: Texts, key: string, raw: string)
    requires Faithful(env) && SoundRegistry(env) && DistinctPaths(env) && OwnerOf(env, key) == GLOBAL
    ensures WebAccepts(env, texts, key, raw, false) <==>
      env.isOption(key) && CliAccepts(env, texts - {env.repoPath}, GLOBAL, key, raw)
    ensures WebAccepts(env, texts, key, raw, false) ==>
      CliEdit(env, texts - {env.repoPath}, GLOBAL, key, raw) == WebEdit(env, texts, key, raw)
  {
    if env.isOption(key) {
      SameEdit(env, texts - {env.repoPath}, key, raw);
      SameGlobalEdit(env, texts, key, raw);
      var e := WebEdit(env, texts, key, raw);
      if e.Some? {
        DiskIsMemory(env, texts, GLOBAL, e.value, false);
        NoRepoFile(env, texts, e.value);
        NoRepoFileAlone(env, texts, e.value);
      }
    }
  }

  lemma SameGlobalEdit(env: Env, texts: Texts, key: string, raw: string)
    requires DistinctPaths(env) && OwnerOf(env, key) == GLOBAL
    ensures WebEdit(env, texts, key, raw) == WebEdit(env, texts - {env.repoPath}, key, raw)
  {
    assert ReadTarget(env, texts, env.globalPath) == ReadTarget(env, texts - {env.repoPath}, env.globalPath);
  }

  // ---- the edits ----

  datatype Outcome = Success | Preview | Rejected | IoError

  class ConfigFiles {
    const env: Env
    var texts: Texts
    ghost var faults: nat

    constructor (env: Env, texts: Texts)
      ensures this.env == env && this.texts == texts && faults == 0
    {
      this.env, this.texts, faults := env, texts, 0;
    }

    /** A write that fails is a fault, and may leave anything in the file, or nothing. */
    method WriteText(target: Path, text: string) returns (ok: bool)
      modifies this
      ensures texts - {target} == old(texts) - {target}
      ensures ok ==> texts == old(texts)[target := text]
      ensures faults >= old(faults) && (!ok ==> faults > old(faults))
    {
      ok := *;
      if ok {
        texts := texts[target := text];
      } else {
        faults := faults + 1;
        var partial: Option<string> := *;
        texts := if partial.Some? then texts[target := partial.value] else texts;
      }
    }

    /** `_rollback`: put the saved text back, or remove the file that was created. */
    method Rollback(target: Path, original: Option<string>) returns (restored: bool)
      modifies this
      ensures texts - {target} == old(texts) - {target}
      ensures restored && original.Some? ==> texts == old(texts)[target := original.value]
      ensures restored && original.None? ==> texts == old(texts) - {target}
      ensures faults >= old(faults) && (!restored ==> faults > old(faults))
    {
      match original
      case Some(text) =>
        restored := WriteText(target, text);
      case None =>
        restored := *;
        if restored {
          texts := texts - {target};
        } else {
          faults := faults + 1;
        }
    }

    lemma RestoredExactly(before: Texts, after: Texts, target: Path)
      requires after - {target} == before - {target}
      ensures target in before ==> after[target := before[target]] == before
      ensures target !in before ==> after - {target} == before
    {
      assert forall p :: p != target ==> (p in before <==> p in before - {target}) && (p in after <==> p in after - {target});
      assert forall p :: p in before && p != target ==> before[p] == (before - {target})[p] == (after - {target})[p] == after[p];
    }

    /** `apply_edit`. A rollback that fails surfaces as the I/O error that it is. */
    method ApplyEdit(key: string, raw: string, includeRepo: bool) returns (outcome: Outcome, restored: bool)
      requires Faithful(env)
      modifies this
      ensures outcome != Preview
      ensures texts - {Target(env, OwnerOf(env, key))} == old(texts) - {Target(env, OwnerOf(env, key))}
      ensures outcome == Success ==> WebAccepts(env, old(texts), key, raw, includeRepo)
      ensures outcome == Success ==>
        texts == Rewritten(env, old(texts), OwnerOf(env, key), WebEdit(env, old(texts), key, raw).value)
      ensures outcome == Success ==> WebSets(env, old(texts), texts, key, raw)
      ensures outcome == Rejected ==> !WebAccepts(env, old(texts), key, raw, includeRepo) && restored
      ensures !env.isOption(key) ==> outcome == Rejected
      ensures outcome != Success && restored ==> texts == old(texts)
      ensures outcome == IoError || !restored ==> faults > old(faults)
    {
      restored := true;
      if !env.isOption(key) {
        return Rejected, restored;
      }
      var value := env.coerceOption(key, raw);
      if value == None {
        return Rejected, restored;
      }
      var owner := OwnerOf(env, key);
      var target := Target(env, owner);
      if owner == REPO && target !in texts {
        return Rejected, restored;
      }
      var data := Edited(env, texts, owner, key, value.value);
      if data == None {
        return Rejected, restored;
      }
      var original := if target in texts then Some(texts[target]) else None;
      ghost var before := texts;
      var written := WriteText(target, env.render(owner, data.value));
      RestoredExactly(before, texts, target);
      if !written {
        restored := Rollback(target, original);
        return IoError, restored;
      }
      var accepted := Gates(env, texts, map[], owner, includeRepo);
      if !accepted {
        restored := Rollback(target, original);
        return if restored then Rejected else IoError, restored;
      }
      WebEditSets(env, before, key, raw);
      outcome := Success;
    }

    /** The guards and the edit in memory of `config set`. */
    method PrepareEdit(owner: Owner, dotted: string, raw: string) returns (data: Option<Entries>)
      ensures data == CliEdit(env, texts, owner, dotted, raw)
    {
      var split := SplitPath(dotted);
      if split == None {
        return None;
      }
      var path := Join(split.value, '.');
      if owner != GLOBAL && WritableLayer(env, Category(path)) == GLOBAL {
        return None;
      }
      if owner == REPO && Target(env, owner) !in texts {
        return None;
      }
      if path == "scope" || "scope." <= path {
        return None;
      }
      var value := if env.isOption(path) then env.coerceOption(path, raw) else Some(env.coerceScalar(raw));
      if value == None {
        return None;
      }
      data := Edited(env, texts, owner, path, value.value);
    }

    /** `config set`; `owner` stands for `--global` or its absence, `commit` for either of `--commit` and `--no-apply`. */
    method ConfigSet(owner: Owner, dotted: string, raw: string, commit: bool) returns (outcome: Outcome, restored: bool)
      modifies this
      ensures texts - {Target(env, owner)} == old(texts) - {Target(env, owner)}
      ensures outcome == Success || outcome == Preview ==> CliAccepts(env, old(texts), owner, dotted, raw)
      ensures outcome == Success ==>
        commit && texts == Rewritten(env, old(texts), owner, CliEdit(env, old(texts), owner, dotted, raw).value)
      ensures outcome == Success && Faithful(env) ==> CliSets(env, old(texts), texts, owner, dotted, raw)
      ensures outcome == Rejected ==> !CliAccepts(env, old(texts), owner, dotted, raw)
      ensures outcome == Preview || outcome == Rejected || !commit ==> texts == old(texts)
      ensures outcome != Success && restored ==> texts == old(texts)
      ensures outcome == Preview ==> !commit
      ensures outcome == IoError ==> commit
      ensures outcome == IoError || !restored ==> faults > old(faults)
    {
      restored := true;
      var data := PrepareEdit(owner, dotted, raw);
      if data == None {
        return Rejected, restored;
      }
      var target := Target(env, owner);
      if !Gates(env, texts, map[target := data.value], owner, true) {
        return Rejected, restored;
      }
      if !commit {
        return Preview, restored;
      }
      var original := if target in texts then Some(texts[target]) else None;
      ghost var before := texts;
      var written := WriteText(target, env.render(owner, data.value));
      RestoredExactly(before, texts, target);
      if !written {
        restored := Rollback(target, original);
        return IoError, restored;
      }
      if Faithful(env) {
        CliEditSets(env, before, owner, dotted, raw);
      }
      outcome := Success;
    }

    /** `handle_edit`: the Global tab edits global options only, and whatever happens leaves the repository file alone. */
    method HandleEdit(globalTab: bool, key: string, raw: string) returns (outcome: Outcome, restored: bool)
      requires Faithful(env) && SoundRegistry(env) && DistinctPaths(env)
      modifies this
      ensures globalTab && OwnerOf(env, key) == REPO ==> outcome == Rejected && texts == old(texts)
      ensures globalTab ==> texts - {env.globalPath} == old(texts) - {env.globalPath}
      ensures outcome == Success ==> env.isOption(key)
      ensures outcome == Success && globalTab ==> CliAccepts(env, old(texts) - {env.repoPath}, GLOBAL, key, raw)
      ensures outcome == Success && !globalTab ==> CliAccepts(env, old(texts), OwnerOf(env, key), key, raw)
      ensures outcome == Success && !globalTab ==>
        texts == Rewritten(env, old(texts), OwnerOf(env, key), CliEdit(env, old(texts), OwnerOf(env, key), key, raw).value)
      ensures outcome == Success && globalTab ==>
        texts == Rewritten(env, old(texts), GLOBAL, CliEdit(env, old(texts) - {env.repoPath}, GLOBAL, key, raw).value)
      ensures outcome == Success ==>
        WebSets(env, old(texts), texts, key, raw) && SplitPath(key).value[0] == Category(key) != "scope"
      ensures outcome == Rejected && !globalTab ==>
        !(env.isOption(key) && CliAccepts(env, old(texts), OwnerOf(env, key), key, raw))
      ensures outcome == Rejected && globalTab && OwnerOf(env, key) == GLOBAL ==>
        !(env.isOption(key) && CliAccepts(env, old(texts) - {env.repoPath}, GLOBAL, key, raw))
      ensures outcome != Success && restored ==> texts == old(texts)
      ensures outcome != Preview && (outcome == IoError || !restored ==> faults > old(faults))
    {
      if globalTab && env.isOption(key) && OwnerOf(env, key) != GLOBAL {
        return Rejected, true;
      }
      outcome, restored := ApplyEdit(key, raw, !globalTab);
      WebRefinesCli(env, old(texts), key, raw);
      RegisteredBesideScope(env, key);
      if OwnerOf(env, key) == GLOBAL {
        GlobalTabIgnoresTheRepo(env, old(texts), key, raw);
      }
    }
  }
}
