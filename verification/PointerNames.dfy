/** Exactly which names a schema pointer can carry (riglib/config_schema.py). */
module PointerNames {
  import opened Text
  import opened JsonSchema
  import opened ConfigSchema
  import opened SchemaPointers

  /** The names on the pointer for a dotted path. */
  function NamesFor(r: Registry, dotted: string): Option<seq<string>> {
    var parts := Split(dotted, '.');
    if parts[0] in r.topLeaves then Some([parts[0]])
    else if parts[0] in r.blocks then Some([parts[0]] + Inside(r.blocks[parts[0]], parts[1..]))
    else None
  }

  lemma PointerOfNames(r: Registry, dotted: string)
    ensures PointerFor(r, dotted) ==
      if NamesFor(r, dotted).Some? then Some(PointerText(NamesFor(r, dotted).value)) else None
  {
  }

  /** No raw keyword hides the properties of the block or of a nested one. */
  predicate Regular(b: Block) {
    "properties" !in b.schemaExtra && forall name :: name in b.nested ==> Regular(b.nested[name])
  }

  predicate RegularRegistry(r: Registry) {
    HasMode(r) && "scope" !in r.blocks && "scope" !in r.topLeaves && forall name :: name in r.blocks ==> Regular(r.blocks[name])
  }

  /** In every regular registry, a pointer made of these names resolves to the node it is meant for. */
  ghost predicate ReadEverywhere(names: seq<string>) {
    forall r, dotted :: RegularRegistry(r) && NamesFor(r, dotted) == Some(names) ==> ResolvesToTarget(r, dotted)
  }

  ghost predicate ResolvesToTarget(r: Registry, dotted: string)
    requires HasMode(r) && NamesFor(r, dotted).Some?
  {
    Resolve(Document(r), PointerText(NamesFor(r, dotted).value)) == Some(TargetOf(r, dotted))
  }

  // ---- names that can be carried are read ----

  lemma {:induction false} CarriedAlong(b: Block, parts: seq<string>)
    requires Regular(b) && VerbatimAll(Inside(b, parts))
    ensures AddressableAlong(b, parts)
    decreases |parts|
  {
    var names := Inside(b, parts);
    if names != [] {
      assert names[0] in names;
      if StepsInto(b, parts) {
        var later := Inside(b.nested[parts[0]], parts[1..]);
        assert names == [parts[0]] + later && forall n :: n in later ==> n in names;
        CarriedAlong(b.nested[parts[0]], parts[1..]);
      }
    }
  }

  lemma CarriedNames(r: Registry, dotted: string)
    requires RegularRegistry(r) && NamesFor(r, dotted).Some? && VerbatimAll(NamesFor(r, dotted).value)
    ensures ResolvesToTarget(r, dotted)
  {
    var parts, names := Split(dotted, '.'), NamesFor(r, dotted).value;
    assert names[0] in names && names[0] == parts[0];
    if parts[0] !in r.topLeaves {
      var inside := Inside(r.blocks[parts[0]], parts[1..]);
      assert forall n :: n in inside ==> n in names;
      CarriedAlong(r.blocks[parts[0]], parts[1..]);
    }
    PointerResolves(r, dotted);
    PointerOfNames(r, dotted);
  }

  // ---- a registry that has just these names ----

  const LEAF := Leaf(One("string"), "", [], None, None, None, "", [], "", "", "")

  function Only(leaves: map<string, Leaf>, nested: map<string, Block>): Block {
    Block("", leaves, nested, "", "", None, [], None, map[], true, false)
  }

  /** Nested blocks with one child each, and a leaf under the last name. */
  function Tower(names: seq<string>): Block
    requires names != []
  {
    if |names| == 1 then Only(map[names[0] := LEAF], map[]) else Only(map[], map[names[0] := Tower(names[1..])])
  }

  function Witness(names: seq<string>): Registry
    requires names != []
  {
    var mode: map<string, Leaf> := if names[0] == "mode" then map[] else map["mode" := LEAF];
    if |names| == 1 then Registry(mode[names[0] := LEAF], map[]) else Registry(mode, map[names[0] := Tower(names[1..])])
  }

  lemma {:induction false} TowerIsRegular(names: seq<string>)
    requires names != []
    ensures Regular(Tower(names))
  {
    if |names| > 1 {
      TowerIsRegular(names[1..]);
    }
  }

  lemma {:induction false} TowerInside(names: seq<string>)
    requires names != []
    ensures Inside(Tower(names), names) == names
    decreases |names|
  {
    if |names| == 1 {
      assert names == [names[0]];
    } else {
      TowerInside(names[1..]);
      assert names == [names[0]] + names[1..];
    }
  }

  lemma WitnessFits(names: seq<string>)
    requires names != [] && Free(names, '.') && names[0] != "scope"
    ensures RegularRegistry(Witness(names)) && NamesFor(Witness(names), Join(names, '.')) == Some(names)
  {
    SplitJoin(names, '.');
    if |names| == 1 {
      assert names == [names[0]];
    } else {
      TowerIsRegular(names[1..]);
      TowerInside(names[1..]);
      assert names == [names[0]] + names[1..];
    }
  }

  // ---- what is read for a name that cannot be carried ----

  /** The tokens of a pointer: those of the good names, then the piece that is read for the bad one. */
  lemma {:induction false} TokensAtBadName(names: seq<string>, j: nat) returns (piece: string, more: seq<string>)
    requires j < |names| && VerbatimAll(names[..j])
    ensures Split(PointerText(names), '/') == [""] + (Interleave(names[..j]) + (["properties", piece] + more))
    ensures Unescape(piece) == names[j] <==> Verbatim(names[j])
    decreases j
  {
    var later := PointerText(names[1..]);
    PointerTextStep(names);
    Slashes();
    if j == 0 {
      StartsWithSlash(names[1..]);
      FirstPiece(names[0], later);
      var pieces := Split(names[0] + later, '/');
      piece, more := pieces[0], pieces[1..];
      SplitStep("properties", names[0] + later, pieces);
      FirstTokens("properties", names[0], later, pieces);
      assert Interleave(names[..0]) + (["properties", piece] + more) == ["properties", piece] + more;
    } else {
      assert names[..j][0] == names[0] && names[..j][0] in names[..j];
      assert names[..j][1..] == names[1..][..j - 1];
      assert forall n :: n in names[1..][..j - 1] ==> n in names[..j];
      piece, more := TokensAtBadName(names[1..], j - 1);
      var tokens := Interleave(names[1..][..j - 1]) + (["properties", piece] + more);
      SplitPointerStep("properties", names[0], later, tokens);
      PairThen("properties", names[0], Interleave(names[1..][..j - 1]), ["properties", piece] + more);
    }
  }

  lemma StartsWithSlash(names: seq<string>)
    ensures PointerText(names) == "" || PointerText(names)[0] == '/'
  {
    if names != [] {
      PointerTextStep(names);
    }
  }

  lemma FirstTokens(q: string, name: string, later: string, pieces: seq<string>)
    requires pieces != [] && Split(['/'] + q + ['/'] + (name + later), '/') == [""] + ([q] + pieces)
    ensures Split(['/'] + q + ['/'] + name + later, '/') == [""] + ([q, pieces[0]] + pieces[1..])
  {
    assert ['/'] + q + ['/'] + name + later == ['/'] + q + ['/'] + (name + later);
    assert [q] + pieces == [q, pieces[0]] + pieces[1..];
  }

  /** In a tower there is nothing else to find. */
  lemma {:induction false} TowerDangles(names: seq<string>, j: nat, node: Json, piece: string, more: seq<string>)
    requires j < |names| && VerbatimAll(names[..j]) && HasProps(node, Tower(names)) && Unescape(piece) != names[j]
    ensures Follow(node, Interleave(names[..j]) + (["properties", piece] + more)) == None
    decreases j
  {
    if j == 0 {
      PropsKeys(Tower(names));
      assert Interleave(names[..0]) + (["properties", piece] + more) == ["properties", piece] + more;
      MissingProperty(node, Props(Tower(names)), piece, more);
    } else {
      GoodPrefix(names, j);
      TowerChild(names);
      var child := JObj(BlockNode(Tower(names[1..])));
      TowerDangles(names[1..], j - 1, child, piece, more);
      OneDown(node, Props(Tower(names)), child, names, j, ["properties", piece] + more);
    }
  }

  lemma TowerChild(names: seq<string>)
    requires |names| > 1
    ensures names[0] in Props(Tower(names)) && Props(Tower(names))[names[0]] == JObj(BlockNode(Tower(names[1..])))
    ensures HasProps(JObj(BlockNode(Tower(names[1..]))), Tower(names[1..]))
  {
    PropsLookup(Tower(names), names[0]);
    TowerIsRegular(names[1..]);
    BlockProperties(Tower(names[1..]));
  }

  lemma GoodPrefix(names: seq<string>, j: nat)
    requires 0 < j <= |names| && VerbatimAll(names[..j])
    ensures Verbatim(names[0]) && VerbatimAll(names[1..][..j - 1])
  {
    assert names[..j] == [names[0]] + names[1..][..j - 1];
    assert names[0] in names[..j];
  }

  /** One good name further, the same is found. */
  lemma OneDown(node: Json, props: Node, child: Json, names: seq<string>, j: nat, tokens: seq<string>)
    requires 0 < j <= |names| && Verbatim(names[0])
    requires node.JObj? && "properties" in node.members && node.members["properties"] == JObj(props)
    requires names[0] in props && props[names[0]] == child
    ensures Follow(node, Interleave(names[..j]) + tokens) == Follow(child, Interleave(names[1..][..j - 1]) + tokens)
  {
    var later := names[1..][..j - 1];
    assert names[..j] == [names[0]] + later;
    assert ([names[0]] + later)[1..] == later;
    FollowProperty(node, props, names[0], Interleave(later) + tokens);
    PairThen("properties", names[0], Interleave(later), tokens);
  }

  lemma MissingProperty(node: Json, props: Node, piece: string, more: seq<string>)
    requires node.JObj? && "properties" in node.members && node.members["properties"] == JObj(props)
    requires Unescape(piece) !in props
    ensures Follow(node, ["properties", piece] + more) == None
  {
    PropertiesIsPlain();
    assert ["properties", piece] + more == ["properties"] + ([piece] + more);
    FollowToken(node.members, "properties", [piece] + more);
  }

  lemma {:induction false} TowerTarget(names: seq<string>, node: Json)
    requires names != []
    ensures Target(Tower(names), names, node) == JObj(LeafNode(LEAF))
    decreases |names|
  {
    if |names| > 1 {
      TowerTarget(names[1..], JObj(BlockNode(Tower(names[1..]))));
    }
  }

  lemma LeafTarget(r: Registry, name: string)
    requires '.' !in name && name != "scope" && name != "mode" && name in r.topLeaves && name !in r.blocks && r.topLeaves[name] == LEAF
    ensures PointerFor(r, name).Some? && TargetOf(r, name) == JObj(LeafNode(LEAF))
  {
    SplitPlain(name, '.');
  }

  lemma BlockTarget(r: Registry, names: seq<string>)
    requires |names| > 1 && Free(names, '.') && names[0] !in r.topLeaves && names[0] in r.blocks
    requires r.blocks[names[0]] == Tower(names[1..])
    ensures PointerFor(r, Join(names, '.')).Some? && TargetOf(r, Join(names, '.')) == JObj(LeafNode(LEAF))
  {
    SplitJoin(names, '.');
    TowerTarget(names[1..], RootNode(r, names[0]));
  }

  /** The leaf that the names lead to is `LEAF`. */
  predicate LeadsToLeaf(r: Registry, names: seq<string>)
    requires names != []
  {
    if |names| == 1 then
      names[0] != "mode" && names[0] in r.topLeaves && names[0] !in r.blocks && r.topLeaves[names[0]] == LEAF
    else names[0] !in r.topLeaves && names[0] in r.blocks && r.blocks[names[0]] == Tower(names[1..])
  }

  lemma WitnessLeads(names: seq<string>)
    requires names != [] && (|names| == 1 ==> names[0] != "mode")
    ensures LeadsToLeaf(Witness(names), names)
  {
  }

  lemma TargetIsLeaf(r: Registry, names: seq<string>)
    requires names != [] && Free(names, '.') && names[0] != "scope" && LeadsToLeaf(r, names)
    ensures PointerFor(r, Join(names, '.')).Some? && TargetOf(r, Join(names, '.')) == JObj(LeafNode(LEAF))
  {
    if |names| == 1 {
      assert names[0] in names;
      LeafTarget(r, names[0]);
    } else {
      BlockTarget(r, names);
    }
  }

  /** A node whose members are neither mappings nor lists. */
  predicate Flat(d: Json) {
    d.JObj? && forall k :: k in d.members ==> !d.members[k].JObj? && !d.members[k].JArr?
  }

  lemma BelowFlat(d: Json, more: seq<string>)
    requires Flat(d) && more != []
    ensures Follow(d, more) == None || !Follow(d, more).value.JObj?
  {
    var token := Unescape(more[0]);
    if token in d.members {
      var below := d.members[token];
      assert Follow(d, more) == Follow(below, more[1..]);
    }
  }

  /** The other two nodes at the top of a witness are no leaves of its kind, nor is anything below them. */
  lemma OtherTops(more: seq<string>)
    ensures Follow(SCOPE_NODE, more) != Some(JObj(LeafNode(LEAF)))
    ensures Follow(Marked(LeafNode(LEAF)), more) != Some(JObj(LeafNode(LEAF)))
  {
    var leaf := LeafNode(LEAF);
    assert "x-rig-global-only" !in leaf && "deprecated" !in leaf;
    if more != [] {
      BelowFlat(SCOPE_NODE, more);
      BelowFlat(Marked(leaf), more);
    } else {
      assert "x-rig-global-only" in Marked(leaf).members && "deprecated" in SCOPE_NODE.members;
    }
  }

  /** The first name is read as another one. */
  lemma WitnessTop(names: seq<string>, piece: string, more: seq<string>)
    requires names != [] && names[0] != "scope" && names[0] != "mode" && Unescape(piece) != names[0]
    ensures Follow(Document(Witness(names)), ["properties", piece] + more) != Some(JObj(LeafNode(LEAF)))
  {
    WitnessRoots(names, Unescape(piece));
    OtherTops(more);
    TopDangles(Document(Witness(names)), RootProps(Witness(names)), piece, more);
  }

  /** Besides its first name, a witness has two names at the top. */
  lemma WitnessRoots(names: seq<string>, found: string)
    requires names != [] && names[0] != "scope" && names[0] != "mode" && found != names[0]
    ensures found in RootProps(Witness(names)) ==>
      RootProps(Witness(names))[found] == SCOPE_NODE || RootProps(Witness(names))[found] == Marked(LeafNode(LEAF))
  {
    RootLookup(Witness(names), found);
  }

  lemma TopDangles(doc: Json, props: Node, piece: string, more: seq<string>)
    requires doc.JObj? && "properties" in doc.members && doc.members["properties"] == JObj(props)
    requires Unescape(piece) in props ==> props[Unescape(piece)] == SCOPE_NODE || props[Unescape(piece)] == Marked(LeafNode(LEAF))
    requires Follow(SCOPE_NODE, more) != Some(JObj(LeafNode(LEAF)))
    requires Follow(Marked(LeafNode(LEAF)), more) != Some(JObj(LeafNode(LEAF)))
    ensures Follow(doc, ["properties", piece] + more) != Some(JObj(LeafNode(LEAF)))
  {
    if Unescape(piece) in props {
      PresentProperty(doc, props, piece, more);
    } else {
      MissingProperty(doc, props, piece, more);
    }
  }

  lemma PresentProperty(node: Json, props: Node, piece: string, more: seq<string>)
    requires node.JObj? && "properties" in node.members && node.members["properties"] == JObj(props)
    requires Unescape(piece) in props
    ensures Follow(node, ["properties", piece] + more) == Follow(props[Unescape(piece)], more)
  {
    PropertiesIsPlain();
    assert ["properties", piece] + more == ["properties"] + ([piece] + more);
    FollowToken(node.members, "properties", [piece] + more);
    assert ([piece] + more)[1..] == more;
  }

  /** Behind a good first name, the tower has nothing for the bad one. */
  lemma WitnessBelow(names: seq<string>, j: nat, piece: string, more: seq<string>)
    requires 0 < j < |names| && names[0] != "scope" && VerbatimAll(names[..j]) && Unescape(piece) != names[j]
    ensures Follow(Document(Witness(names)), Interleave(names[..j]) + (["properties", piece] + more)) == None
  {
    var r := Witness(names);
    TowerIsRegular(names[1..]);
    RootHasProps(r, names[0]);
    RootLookup(r, names[0]);
    BelowTower(Document(r), RootProps(r), RootNode(r, names[0]), names, j, piece, more);
  }

  lemma BelowTower(doc: Json, props: Node, node: Json, names: seq<string>, j: nat, piece: string, more: seq<string>)
    requires 0 < j < |names| && VerbatimAll(names[..j]) && Unescape(piece) != names[j]
    requires doc.JObj? && "properties" in doc.members && doc.members["properties"] == JObj(props)
    requires names[0] in props && props[names[0]] == node && HasProps(node, Tower(names[1..]))
    ensures Follow(doc, Interleave(names[..j]) + (["properties", piece] + more)) == None
  {
    GoodPrefix(names, j);
    TowerDangles(names[1..], j - 1, node, piece, more);
    OneDown(doc, props, node, names, j, ["properties", piece] + more);
  }

  lemma {:induction false} FirstBad(names: seq<string>) returns (j: nat)
    requires !VerbatimAll(names)
    ensures j < |names| && VerbatimAll(names[..j]) && !Verbatim(names[j])
    decreases |names|
  {
    if !Verbatim(names[0]) {
      j := 0;
    } else {
      assert names == [names[0]] + names[1..];
      j := FirstBad(names[1..]);
      j := j + 1;
      assert names[..j] == [names[0]] + names[1..][..j - 1];
    }
  }

  lemma WitnessMisleads(names: seq<string>)
    requires names != [] && Free(names, '.') && names[0] != "scope" && !VerbatimAll(names)
    ensures !ReadEverywhere(names)
  {
    var j := FirstBad(names);
    var piece, more := TokensAtBadName(names, j);
    var r, dotted := Witness(names), Join(names, '.');
    WitnessFits(names);
    ModeIsVerbatim();
    WitnessLeads(names);
    TargetIsLeaf(r, names);
    PointerTextStep(names);
    ResolveTokens(Document(r), PointerText(names), Interleave(names[..j]) + (["properties", piece] + more));
    if j == 0 {
      assert Interleave(names[..0]) + (["properties", piece] + more) == ["properties", piece] + more;
      WitnessTop(names, piece, more);
    } else {
      WitnessBelow(names, j, piece, more);
    }
    assert !ResolvesToTarget(r, dotted);
  }

  lemma ModeIsVerbatim()
    ensures Verbatim("mode")
  {
  }

  /**
   * A pointer made of these names resolves to the node it is meant for, in every regular registry that has
   * them, exactly when all of them are free of `/`, `~0` and `~1`.
   */
  lemma NamesResolveExactly(names: seq<string>)
    requires names != [] && Free(names, '.') && names[0] != "scope"
    ensures ReadEverywhere(names) <==> VerbatimAll(names)
  {
    if VerbatimAll(names) {
      forall r, dotted | RegularRegistry(r) && NamesFor(r, dotted) == Some(names) ensures ResolvesToTarget(r, dotted) {
        CarriedNames(r, dotted);
      }
    } else {
      WitnessMisleads(names);
    }
  }
}
