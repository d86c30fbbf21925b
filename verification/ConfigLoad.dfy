/** The configuration cascade and its provenance (riglib/config.py). */
module ConfigLoad {
  import opened Text
  import opened ConfigTree

  type Path = string

  /** A file on disk: its parsed mapping, or unreadable / malformed. */
  datatype File = Broken | Parsed(entries: Entries)

  datatype Label = GlobalLabel | RepoLabel | ConfigLabel

  datatype Layer = Layer(tag: Label, path: Path, entries: Entries)

  datatype Failure = Unreadable(path: Path) | ModeInRepo(path: Path) | MissingExplicit(path: Path) | Invalid

  datatype Result<+T> = Ok(value: T) | Err(failure: Failure)

  datatype Loaded = Loaded(data: Entries, layers: seq<(Label, Path)>, keySources: map<string, Path>)

  /** The arguments of `load` and the files it can see; `overrides` stand in for the files they name. */
  datatype Request = Request(
    files: map<Path, File>,
    overrides: map<Path, Entries>,
    globalPath: Path,
    repoPath: Path,
    explicit: Option<Path>,
    includeGlobal: bool,
    includeRepo: bool)

  // ---- what the cascade is ----

  predicate Present(r: Request, p: Path) {
    p in r.files || p in r.overrides
  }

  function ReadLayer(r: Request, tag: Label, p: Path): Result<Layer>
    requires Present(r, p)
  {
    if p !in r.overrides && r.files[p].Broken? then Err(Unreadable(p))
    else
      var entries := if p in r.overrides then r.overrides[p] else r.files[p].entries;
      if tag == RepoLabel && "mode" in entries then Err(ModeInRepo(p)) else Ok(Layer(tag, p, entries))
  }

  function GlobalLayers(r: Request): Result<seq<Layer>> {
    if r.includeGlobal && Present(r, r.globalPath) then
      match ReadLayer(r, GlobalLabel, r.globalPath)
      case Ok(l) => Ok([l])
      case Err(e) => Err(e)
    else Ok([])
  }

  function RepoTag(r: Request): Label {
    if r.explicit.Some? && r.explicit.value != r.repoPath then ConfigLabel else RepoLabel
  }

  function RepoFile(r: Request): Path {
    if r.explicit.Some? then r.explicit.value else r.repoPath
  }

  function RepoLayers(r: Request): Result<seq<Layer>> {
    if !r.includeRepo then Ok([])
    else if Present(r, RepoFile(r)) then
      match ReadLayer(r, RepoTag(r), RepoFile(r))
      case Ok(l) => Ok([l])
      case Err(e) => Err(e)
    else if r.explicit.Some? then Err(MissingExplicit(RepoFile(r)))
    else Ok([])
  }

  /** The layers of the cascade, global first. */
  function Layers(r: Request): Result<seq<Layer>> {
    match GlobalLayers(r)
    case Err(e) => Err(e)
    case Ok(g) =>
      match RepoLayers(r)
      case Err(e) => Err(e)
      case Ok(h) => Ok(g + h)
  }

  /** The left fold of the layers. */
  function Fold(layers: seq<Layer>): Entries {
    if layers == [] then map[] else Merge(Fold(layers[..|layers| - 1]), layers[|layers| - 1].entries)
  }

  /** The index of the last layer that declares the top-level key `k`, or `-1`. */
  function LastDeclaring(layers: seq<Layer>, k: string): (i: int)
    ensures -1 <= i < |layers|
    ensures i >= 0 ==> k in layers[i].entries
    ensures forall j :: i < j < |layers| ==> k !in layers[j].entries
  {
    if layers == [] then -1
    else if k in layers[|layers| - 1].entries then |layers| - 1
    else LastDeclaring(layers[..|layers| - 1], k)
  }

  function Tags(layers: seq<Layer>): seq<(Label, Path)> {
    seq(|layers|, i requires 0 <= i < |layers| => (layers[i].tag, layers[i].path))
  }

  /** `loaded` is the validated fold of `layers`, and every key is attributed to the last layer declaring it. */
  ghost predicate IsCascade(loaded: Loaded, layers: seq<Layer>) {
    && loaded.data == Fold(layers) - {"scope"}
    && loaded.layers == Tags(layers)
    && loaded.keySources.Keys == loaded.data.Keys
    && forall k :: k in loaded.keySources ==>
      LastDeclaring(layers, k) >= 0 && loaded.keySources[k] == layers[LastDeclaring(layers, k)].path
  }

  /** What `load` has to return. */
  ghost predicate IsLoad(r: Request, validate: Entries -> bool, result: Result<Loaded>) {
    match Layers(r)
    case Err(e) => result == Err(e)
    case Ok(layers) =>
      if validate(Fold(layers)) then result.Ok? && IsCascade(result.value, layers) else result == Err(Invalid)
  }

  function Attributions(layers: seq<Layer>): map<string, Path> {
    map k | k in Fold(layers) - {"scope"} && LastDeclaring(layers, k) >= 0 :: layers[LastDeclaring(layers, k)].path
  }

  function LoadOf(r: Request, validate: Entries -> bool): Result<Loaded> {
    match Layers(r)
    case Err(e) => Err(e)
    case Ok(layers) =>
      if validate(Fold(layers)) then Ok(Loaded(Fold(layers) - {"scope"}, Tags(layers), Attributions(layers))) else Err(Invalid)
  }

  /** The specification of `load` leaves no freedom. */
  lemma LoadIsUnique(r: Request, validate: Entries -> bool, result: Result<Loaded>)
    ensures IsLoad(r, validate, result) <==> result == LoadOf(r, validate)
  {
    if Layers(r).Ok? {
      CascadeIsUnique(Layers(r).value);
      if result.Ok? && IsCascade(result.value, Layers(r).value) {
        assert result.value.keySources == Attributions(Layers(r).value);
      }
    }
  }

  lemma CascadeIsUnique(layers: seq<Layer>)
    ensures IsCascade(Loaded(Fold(layers) - {"scope"}, Tags(layers), Attributions(layers)), layers)
  {
    forall k | k in Fold(layers) ensures LastDeclaring(layers, k) >= 0 {
      FoldKeys(layers, k);
    }
  }

  // ---- the accumulating loader ----

  ghost predicate Attributed(keySources: map<string, Path>, layers: seq<Layer>) {
    && keySources.Keys == Fold(layers).Keys
    && forall k :: k in keySources ==>
      LastDeclaring(layers, k) >= 0 && keySources[k] == layers[LastDeclaring(layers, k)].path
  }

  function Attribute(entries: Entries, path: Path): map<string, Path> {
    map k | k in entries :: path
  }

  lemma FoldAppend(layers: seq<Layer>, l: Layer)
    ensures Fold(layers + [l]) == Merge(Fold(layers), l.entries)
    ensures Tags(layers + [l]) == Tags(layers) + [(l.tag, l.path)]
  {
    assert (layers + [l])[..|layers|] == layers;
  }

  lemma LastDeclaringAppend(layers: seq<Layer>, l: Layer, k: string)
    ensures LastDeclaring(layers + [l], k) == if k in l.entries then |layers| else LastDeclaring(layers, k)
  {
    assert (layers + [l])[..|layers|] == layers;
  }

  lemma SourceStep(layers: seq<Layer>, l: Layer, keySources: map<string, Path>, k: string)
    requires Attributed(keySources, layers) && k in keySources + Attribute(l.entries, l.path)
    ensures LastDeclaring(layers + [l], k) >= 0
    ensures (keySources + Attribute(l.entries, l.path))[k] == (layers + [l])[LastDeclaring(layers + [l], k)].path
  {
    LastDeclaringAppend(layers, l, k);
  }

  lemma FoldStep(layers: seq<Layer>, l: Layer, keySources: map<string, Path>)
    requires Attributed(keySources, layers)
    ensures Attributed(keySources + Attribute(l.entries, l.path), layers + [l])
  {
    FoldAppend(layers, l);
    var sources := keySources + Attribute(l.entries, l.path);
    assert sources.Keys == Fold(layers + [l]).Keys;
    forall k | k in sources
      ensures LastDeclaring(layers + [l], k) >= 0 && sources[k] == (layers + [l])[LastDeclaring(layers + [l], k)].path
    {
      SourceStep(layers, l, keySources, k);
    }
  }

  lemma CascadeDone(read: seq<Layer>, keySources: map<string, Path>)
    requires Attributed(keySources, read)
    ensures IsCascade(Loaded(Fold(read) - {"scope"}, Tags(read), keySources - {"scope"}), read)
  {
  }

  // ---- what the files decide ----

  /** The mapping at `p` as `load` sees it: an override before the file, and nothing where neither can be read. */
  function Contents(r: Request, p: Path): Option<Entries> {
    if p in r.overrides then Some(r.overrides[p])
    else if p in r.files && r.files[p].Parsed? then Some(r.files[p].entries)
    else None
  }

  /** What the global file has to say: nothing when it is left out, absent or unreadable. */
  function FromGlobal(r: Request): Entries {
    if r.includeGlobal && Contents(r, r.globalPath).Some? then Contents(r, r.globalPath).value else map[]
  }

  /** What the repository file, or the file named by `--config`, has to say. */
  function FromRepo(r: Request): Entries {
    if r.includeRepo && Contents(r, RepoFile(r)).Some? then Contents(r, RepoFile(r)).value else map[]
  }

  /**
   * `path` in two files: `near` decides where it declares the path or breaks a mapping above it, two
   * mappings merge, and `far` decides everything else.
   */
  function Overlaid(far: Entries, near: Entries, path: seq<string>): Option<Tree>
    requires path != []
  {
    match Lookup(near, path)
    case None => if Breaks(near, path) then None else Lookup(far, path)
    case Some(t) =>
      match Lookup(far, path)
      case Some(u) => Some(if t.Mapping? && u.Mapping? then Mapping(Merge(u.entries, t.entries)) else t)
      case None => Some(t)
  }

  /** Every lookup outside `scope` is decided by the repository file over the global one, and nothing is under `scope`. */
  ghost predicate DecidedByFiles(r: Request, data: Entries) {
    forall path: seq<string> | path != [] ::
      Lookup(data, path) == if path[0] == "scope" then None else Overlaid(FromGlobal(r), FromRepo(r), path)
  }

  /** A top-level key is attributed to the repository file exactly when that declares it, else to the global file. */
  ghost predicate AttributedToFiles(r: Request, keySources: map<string, Path>) {
    forall k ::
      && (k in keySources <==> k != "scope" && (k in FromGlobal(r) || k in FromRepo(r)))
      && (k in keySources ==> keySources[k] == if k in FromRepo(r) then RepoFile(r) else r.globalPath)
  }

  function GlobalRead(r: Request): seq<(Label, Path)> {
    if r.includeGlobal && Present(r, r.globalPath) then [(GlobalLabel, r.globalPath)] else []
  }

  function RepoRead(r: Request): seq<(Label, Path)> {
    if r.includeRepo && Present(r, RepoFile(r)) then [(RepoTag(r), RepoFile(r))] else []
  }

  /** The files that were read, in the order of the cascade. */
  function FilesRead(r: Request): seq<(Label, Path)> {
    GlobalRead(r) + RepoRead(r)
  }

  predicate Unparsable(r: Request, p: Path) {
    p !in r.overrides && p in r.files && r.files[p].Broken?
  }

  /** The reason, if any, why the second file stops the load. */
  function RepoRefusal(r: Request): Option<Failure> {
    if !r.includeRepo then None
    else if Unparsable(r, RepoFile(r)) then Some(Unreadable(RepoFile(r)))
    else if r.explicit.Some? && !Present(r, r.explicit.value) then Some(MissingExplicit(r.explicit.value))
    else if "mode" in FromRepo(r) && RepoTag(r) == RepoLabel then Some(ModeInRepo(RepoFile(r)))
    else None
  }

  /** The first reason not to load, before the merged configuration is validated. */
  function Refusal(r: Request): Option<Failure> {
    if r.includeGlobal && Unparsable(r, r.globalPath) then Some(Unreadable(r.globalPath)) else RepoRefusal(r)
  }

  lemma FoldOfTwo(g: seq<Layer>, h: seq<Layer>)
    requires |g| <= 1 && |h| <= 1
    ensures Fold(g + h) == Merge(Fold(g), Fold(h)) && Tags(g + h) == Tags(g) + Tags(h)
  {
    if h == [] {
      assert g + h == g;
      MergeEmpty(Fold(g));
    } else {
      assert h == [h[0]];
      FoldAppend(g, h[0]);
      FoldOne(h);
    }
  }

  lemma FoldOne(layers: seq<Layer>)
    ensures |layers| <= 1 ==> Fold(layers) == if layers == [] then map[] else layers[0].entries
  {
    if |layers| == 1 {
      assert layers[..0] == [];
      MergeEmpty(layers[0].entries);
    }
  }

  lemma LastDeclaringOfTwo(g: seq<Layer>, h: seq<Layer>, k: string)
    requires |g| <= 1 && |h| <= 1
    ensures var i := LastDeclaring(g + h, k);
      if h != [] && k in h[0].entries then i >= 0 && (g + h)[i] == h[0]
      else if g != [] && k in g[0].entries then i >= 0 && (g + h)[i] == g[0]
      else i == -1
  {
    assert g != [] ==> g[..0] == [];
    if h == [] {
      assert g + h == g;
    } else {
      assert h == [h[0]];
      LastDeclaringAppend(g, h[0], k);
    }
  }

  lemma LayerOfGlobal(r: Request)
    ensures match GlobalLayers(r)
      case Err(e) => r.includeGlobal && Unparsable(r, r.globalPath) && e == Unreadable(r.globalPath)
      case Ok(g) =>
        && !(r.includeGlobal && Unparsable(r, r.globalPath)) && |g| <= 1
        && (g == [] ==> FromGlobal(r) == map[] && !(r.includeGlobal && Present(r, r.globalPath)))
        && (g != [] ==> r.includeGlobal && Present(r, r.globalPath) && g[0] == Layer(GlobalLabel, r.globalPath, FromGlobal(r)))
  {
  }

  lemma LayerOfRepo(r: Request)
    ensures match RepoLayers(r)
      case Err(e) => RepoRefusal(r) == Some(e)
      case Ok(h) =>
        && RepoRefusal(r) == None && |h| <= 1
        && (h == [] ==> FromRepo(r) == map[] && !(r.includeRepo && Present(r, RepoFile(r))))
        && (h != [] ==> r.includeRepo && Present(r, RepoFile(r)) && h[0] == Layer(RepoTag(r), RepoFile(r), FromRepo(r)))
  {
  }

  lemma FoldOfGlobal(r: Request)
    requires GlobalLayers(r).Ok?
    ensures var g := GlobalLayers(r).value;
      |g| <= 1 && Fold(g) == FromGlobal(r) && Tags(g) == GlobalRead(r)
  {
    LayerOfGlobal(r);
    FoldOne(GlobalLayers(r).value);
  }

  lemma FoldOfRepo(r: Request)
    requires RepoLayers(r).Ok?
    ensures var h := RepoLayers(r).value;
      |h| <= 1 && Fold(h) == FromRepo(r) && Tags(h) == RepoRead(r)
  {
    LayerOfRepo(r);
    FoldOne(RepoLayers(r).value);
  }

  lemma LayersOfFiles(r: Request)
    ensures match Layers(r)
      case Err(e) => Refusal(r) == Some(e)
      case Ok(layers) =>
        Refusal(r) == None && Fold(layers) == Merge(FromGlobal(r), FromRepo(r)) && Tags(layers) == FilesRead(r)
  {
    LayerOfGlobal(r);
    LayerOfRepo(r);
    if Layers(r).Ok? {
      FoldOfGlobal(r);
      FoldOfRepo(r);
      FoldOfTwo(GlobalLayers(r).value, RepoLayers(r).value);
    }
  }

  lemma KeyOfFiles(r: Request, layers: seq<Layer>, k: string)
    requires Layers(r) == Ok(layers)
    ensures var i := LastDeclaring(layers, k);
      if k in FromRepo(r) then i >= 0 && layers[i].path == RepoFile(r)
      else if k in FromGlobal(r) then i >= 0 && layers[i].path == r.globalPath
      else i == -1
  {
    LayerOfGlobal(r);
    LayerOfRepo(r);
    LastDeclaringOfTwo(GlobalLayers(r).value, RepoLayers(r).value, k);
  }

  /** What a successful load yields, from the two files. */
  lemma LoadedFromFiles(r: Request, layers: seq<Layer>, loaded: Loaded)
    requires Layers(r) == Ok(layers) && IsCascade(loaded, layers)
    ensures loaded.layers == FilesRead(r) && DecidedByFiles(r, loaded.data) && AttributedToFiles(r, loaded.keySources)
  {
    LayersOfFiles(r);
    var both := Merge(FromGlobal(r), FromRepo(r));
    forall path: seq<string> | path != []
      ensures Lookup(loaded.data, path) == if path[0] == "scope" then None else Overlaid(FromGlobal(r), FromRepo(r), path)
    {
      LookupBesideScope(both, path);
      MergeLookup(FromGlobal(r), FromRepo(r), path);
    }
    SourcesFromFiles(r, layers, loaded);
  }

  lemma SourceFromFiles(r: Request, layers: seq<Layer>, loaded: Loaded, k: string)
    requires Layers(r) == Ok(layers) && IsCascade(loaded, layers)
    ensures k in loaded.keySources <==> k != "scope" && (k in FromGlobal(r) || k in FromRepo(r))
    ensures k in loaded.keySources ==> loaded.keySources[k] == if k in FromRepo(r) then RepoFile(r) else r.globalPath
  {
    KeyOfFiles(r, layers, k);
    if k != "scope" {
      KeyIsResponsible(loaded, layers, k);
    }
  }

  lemma SourcesFromFiles(r: Request, layers: seq<Layer>, loaded: Loaded)
    requires Layers(r) == Ok(layers) && IsCascade(loaded, layers)
    ensures AttributedToFiles(r, loaded.keySources)
  {
    forall k
      ensures k in loaded.keySources <==> k != "scope" && (k in FromGlobal(r) || k in FromRepo(r))
      ensures k in loaded.keySources ==> loaded.keySources[k] == if k in FromRepo(r) then RepoFile(r) else r.globalPath
    {
      SourceFromFiles(r, layers, loaded, k);
    }
  }

  lemma LookupBesideScope(t: Entries, path: seq<string>)
    requires path != []
    ensures Lookup(t - {"scope"}, path) == if path[0] == "scope" then None else Lookup(t, path)
  {
  }

  /** `load` as its two files decide it. */
  ghost predicate MeetsFiles(r: Request, validate: Entries -> bool, result: Result<Loaded>) {
    match Refusal(r)
    case Some(e) => result == Err(e)
    case None =>
      if validate(Merge(FromGlobal(r), FromRepo(r))) then
        result.Ok? && result.value.layers == FilesRead(r)
        && DecidedByFiles(r, result.value.data) && AttributedToFiles(r, result.value.keySources)
      else result == Err(Invalid)
  }

  /** Every load is the one its two files decide. */
  lemma LoadMeetsFiles(r: Request, validate: Entries -> bool, result: Result<Loaded>)
    requires IsLoad(r, validate, result)
    ensures MeetsFiles(r, validate, result)
  {
    LayersOfFiles(r);
    if result.Ok? {
      LoadedFromFiles(r, Layers(r).value, result.value);
    }
  }

  lemma SourcesDecide(r: Request, a: map<string, Path>, b: map<string, Path>)
    requires AttributedToFiles(r, a) && AttributedToFiles(r, b)
    ensures a == b
  {
    forall k ensures k in a <==> k in b
      ensures k in a ==> a[k] == b[k]
    {
    }
  }

  /** The two files leave no freedom either: what meets them is the one result of `load`. */
  lemma FilesDecide(r: Request, validate: Entries -> bool, result: Result<Loaded>)
    ensures MeetsFiles(r, validate, result) <==> IsLoad(r, validate, result)
  {
    var answer := LoadOf(r, validate);
    LoadIsUnique(r, validate, answer);
    LoadMeetsFiles(r, validate, answer);
    if MeetsFiles(r, validate, result) && result.Ok? {
      var a, b := result.value, answer.value;
      LookupsDecide(a.data, b.data);
      SourcesDecide(r, a.keySources, b.keySources);
    }
    LoadIsUnique(r, validate, result);
    if IsLoad(r, validate, result) {
      LoadMeetsFiles(r, validate, result);
    }
  }

  class Cascade {
    const request: Request
    var merged: Entries
    var layers: seq<(Label, Path)>
    var keySources: map<string, Path>
    ghost var read: seq<Layer>

    constructor (request: Request)
      ensures this.request == request && Valid() && read == []
    {
      this.request := request;
      merged, layers, keySources, read := map[], [], map[], [];
    }

    ghost predicate Valid()
      reads this
    {
      merged == Fold(read) && layers == Tags(read) && Attributed(keySources, read)
    }

    /** `_merge_layer`: read one present file and merge it over what was read before. */
    method MergeLayer(path: Path, tag: Label) returns (failure: Option<Failure>)
      requires Valid() && Present(request, path)
      modifies this
      ensures Valid()
      ensures match ReadLayer(request, tag, path)
        case Err(e) => failure == Some(e)
        case Ok(l) => failure == None && read == old(read) + [l]
    {
      if path !in request.overrides && request.files[path].Broken? {
        return Some(Unreadable(path));
      }
      var data := if path in request.overrides then request.overrides[path] else request.files[path].entries;
      if tag == RepoLabel && "mode" in data {
        return Some(ModeInRepo(path));
      }
      FoldAppend(read, Layer(tag, path, data));
      FoldStep(read, Layer(tag, path, data), keySources);
      merged := DeepMerge(merged, data);
      keySources := keySources + Attribute(data, path);
      layers := layers + [(tag, path)];
      read := read + [Layer(tag, path, data)];
      return None;
    }

    /** The first half of `load`: read the files that are included and present, the global one first. */
    method ReadFiles() returns (failure: Option<Failure>)
      requires Valid() && read == []
      modifies this
      ensures Valid()
      ensures match Layers(request)
        case Err(e) => failure == Some(e)
        case Ok(layers) => failure == None && read == layers
    {
      failure := None;
      if request.includeGlobal && Present(request, request.globalPath) {
        failure := MergeLayer(request.globalPath, GlobalLabel);
        if failure.Some? {
          return;
        }
        assert read == [ReadLayer(request, GlobalLabel, request.globalPath).value];
      }
      assert GlobalLayers(request) == Ok(read);
      ghost var g := read;
      if request.includeRepo {
        var rpath := if request.explicit.Some? then request.explicit.value else request.repoPath;
        if Present(request, rpath) {
          var tag := if request.explicit.Some? && rpath != request.repoPath then ConfigLabel else RepoLabel;
          failure := MergeLayer(rpath, tag);
          if failure.Some? {
            return;
          }
        } else if request.explicit.Some? {
          return Some(MissingExplicit(rpath));
        }
      }
      assert RepoLayers(request).Ok? && read == g + RepoLayers(request).value;
    }

    method Load(validate: Entries -> bool) returns (result: Result<Loaded>)
      requires Valid() && read == []
      modifies this
      ensures IsLoad(request, validate, result)
      ensures MeetsFiles(request, validate, result)
    {
      var failure := ReadFiles();
      if failure.Some? {
        result := Err(failure.value);
      } else if !validate(merged) {
        result := Err(Invalid);
      } else {
        CascadeDone(read, keySources);
        result := Ok(Loaded(merged - {"scope"}, layers, keySources - {"scope"}));
      }
      LoadMeetsFiles(request, validate, result);
    }
  }

  /** The part of a dotted key before its first dot. */
  function TopKey(dotted: string): string {
    Split(dotted, '.')[0]
  }

  /** `source_for_key`, with `primary` as the fallback. */
  function SourceForKey(loaded: Loaded, primary: Path, dotted: string): Path {
    if TopKey(dotted) in loaded.keySources then loaded.keySources[TopKey(dotted)] else primary
  }

  // ---- what the attribution means ----

  lemma {:induction false} FoldKeys(layers: seq<Layer>, k: string)
    ensures k in Fold(layers) <==> exists i :: 0 <= i < |layers| && k in layers[i].entries
  {
    if layers != [] {
      var front := layers[..|layers| - 1];
      FoldKeys(front, k);
      if i :| 0 <= i < |layers| && k in layers[i].entries {
        assert i < |front| ==> front[i] == layers[i];
      }
    }
  }

  /** Dropping the layers after the last one that declares `k` does not change what is loaded for `k`. */
  lemma {:induction false} LastDeclaringDecides(layers: seq<Layer>, k: string)
    requires LastDeclaring(layers, k) >= 0
    ensures var upTo := layers[..LastDeclaring(layers, k) + 1];
      k in Fold(layers) && k in Fold(upTo) && Fold(layers)[k] == Fold(upTo)[k]
  {
    var front, last := layers[..|layers| - 1], layers[|layers| - 1];
    assert Fold(layers) == Merge(Fold(front), last.entries);
    if k in last.entries {
      assert layers[..LastDeclaring(layers, k) + 1] == layers;
    } else {
      LastDeclaringDecides(front, k);
      assert front[..LastDeclaring(front, k) + 1] == layers[..LastDeclaring(layers, k) + 1];
      assert Fold(layers)[k] == MergeAt(Fold(front), last.entries, k);
    }
  }

  ghost predicate Declares(layers: seq<Layer>, i: int, k: string) {
    0 <= i < |layers| && k in layers[i].entries
  }

  /** Layer `i` declares `k`, no later layer does, and without the later layers `k` would load the same. */
  ghost predicate Responsible(layers: seq<Layer>, i: int, k: string) {
    && Declares(layers, i, k)
    && (forall j :: i < j < |layers| ==> !Declares(layers, j, k))
    && k in Fold(layers) && k in Fold(layers[..i + 1]) && Fold(layers)[k] == Fold(layers[..i + 1])[k]
  }

  lemma KeyIsResponsible(loaded: Loaded, layers: seq<Layer>, k: string)
    requires IsCascade(loaded, layers) && k != "scope"
    ensures var i := LastDeclaring(layers, k);
      if i >= 0 then Responsible(layers, i, k) && k in loaded.keySources && loaded.keySources[k] == layers[i].path
        && k in loaded.data && loaded.data[k] == Fold(layers)[k]
      else k !in loaded.keySources && k !in loaded.data
  {
    FoldKeys(layers, k);
    if LastDeclaring(layers, k) >= 0 {
      LastDeclaringDecides(layers, k);
    }
  }

  /** The file named for a declared key is the responsible one; a key that no layer declares falls back. */
  lemma SourceIsResponsible(loaded: Loaded, layers: seq<Layer>, primary: Path, dotted: string)
    requires IsCascade(loaded, layers) && TopKey(dotted) != "scope"
    ensures var i := LastDeclaring(layers, TopKey(dotted));
      if i >= 0 then Responsible(layers, i, TopKey(dotted)) && SourceForKey(loaded, primary, dotted) == layers[i].path
      else SourceForKey(loaded, primary, dotted) == primary && TopKey(dotted) !in loaded.data
  {
    KeyIsResponsible(loaded, layers, TopKey(dotted));
  }

  /**
   * The file named for a setting is the repository file where that declares the first segment of the key,
   * else the global file where that does, else the fallback.
   */
  lemma SourceOfFiles(r: Request, validate: Entries -> bool, loaded: Loaded, primary: Path, parts: seq<string>)
    requires MeetsFiles(r, validate, Ok(loaded))
    requires parts != [] && Free(parts, '.') && parts[0] != "scope"
    ensures SourceForKey(loaded, primary, Join(parts, '.')) ==
      if parts[0] in FromRepo(r) then RepoFile(r) else if parts[0] in FromGlobal(r) then r.globalPath else primary
  {
    SplitJoin(parts, '.');
  }
}
