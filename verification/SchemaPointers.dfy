/** The published document and the pointers into it (riglib/config_schema.py). */
module SchemaPointers {
  import opened Text
  import opened JsonSchema
  import opened ConfigSchema

  datatype Registry = Registry(topLeaves: map<string, Leaf>, blocks: map<string, Block>)

  const SCOPE_NODE: Json := JObj(map[
    "type" := JStr("string"),
    "description" := JStr("removed legacy key (tolerated, ignored)"),
    "deprecated" := JBool(true)])

  /** The emission annotates "mode", so the registry has to declare it. */
  predicate HasMode(r: Registry) {
    "mode" in r.blocks || "mode" in r.topLeaves
  }

  function Marked(node: Node): Json {
    JObj(node["x-rig-global-only" := JBool(true)])
  }

  /** A block wins over a leaf of the same name. */
  function PlainRootNode(r: Registry, key: string): Node
    requires key in r.blocks || key in r.topLeaves
  {
    if key in r.blocks then BlockNode(r.blocks[key]) else LeafNode(r.topLeaves[key])
  }

  function PlainRoot(r: Registry): Node {
    map key | key in r.topLeaves.Keys + r.blocks.Keys :: JObj(PlainRootNode(r, key))
  }

  function RootProps(r: Registry): Node
    requires HasMode(r)
  {
    PlainRoot(r)["mode" := Marked(PlainRootNode(r, "mode"))]["scope" := SCOPE_NODE]
  }

  function RootNode(r: Registry, key: string): Json
    requires key == "scope" || key in r.blocks || key in r.topLeaves
  {
    if key == "scope" then SCOPE_NODE
    else if key == "mode" then Marked(PlainRootNode(r, key))
    else JObj(PlainRootNode(r, key))
  }

  lemma RootLookup(r: Registry, key: string)
    requires HasMode(r)
    ensures key in RootProps(r) <==> key == "scope" || key in r.blocks || key in r.topLeaves
    ensures key in RootProps(r) ==> RootProps(r)[key] == RootNode(r, key)
  {
  }

  const DESCRIPTION :=
    "The committed source of truth for a repo's setup (and ~/.config/rig/config.yaml). "
    + "See docs/config-schema.md for the human-readable reference."

  function RootKeywords(props: Node): Node {
    map[
      "$schema" := JStr("http://json-schema.org/draft-07/schema#"),
      "$id" := JStr("https://github.com/alex-mextner/rig-cli/blob/main/schema/rig.schema.json"),
      "title" := JStr("rig.yaml \U{2014} rig-cli declarative config"),
      "description" := JStr(DESCRIPTION),
      "type" := JStr("object"),
      "additionalProperties" := JBool(false),
      "properties" := JObj(props)]
  }

  function Document(r: Registry): Json
    requires HasMode(r)
  {
    JObj(RootKeywords(RootProps(r)))
  }

  /** The properties after the leaves, and after the blocks except `todo`. */
  ghost predicate RootFilled(r: Registry, props: Node, todo: set<string>) {
    && props.Keys == r.topLeaves.Keys + (r.blocks.Keys - todo)
    && forall name :: name in props ==>
      if name in todo then props[name] == JObj(LeafNode(r.topLeaves[name]))
      else props[name] == JObj(PlainRootNode(r, name))
  }

  lemma RootFilledStep(r: Registry, props: Node, todo: set<string>, name: string, node: Node)
    requires todo <= r.blocks.Keys && RootFilled(r, props, todo) && name in todo && node == BlockNode(r.blocks[name])
    ensures RootFilled(r, props[name := JObj(node)], todo - {name})
  {
  }

  lemma RootFilledAll(r: Registry, props: Node)
    requires RootFilled(r, props, {})
    ensures props == PlainRoot(r)
  {
  }

  /** `json_schema()`. */
  method JsonSchemaDocument(r: Registry) returns (doc: Json)
    requires HasMode(r)
    ensures doc == Document(r)
  {
    var props: Node := map name | name in r.topLeaves :: JObj(LeafNode(r.topLeaves[name]));
    var todo := r.blocks.Keys;
    while todo != {}
      invariant todo <= r.blocks.Keys && RootFilled(r, props, todo)
      decreases todo
    {
      var name :| name in todo;
      var node := ToNode(r.blocks[name]);
      RootFilledStep(r, props, todo, name, node);
      props := props[name := JObj(node)];
      todo := todo - {name};
    }
    RootFilledAll(r, props);
    props := props["mode" := Marked(props["mode"].members)];
    props := props["scope" := SCOPE_NODE];
    doc := JObj(RootKeywords(props));
  }

  // ---- the document means what the registry says ----

  ghost predicate KeyAccepts(search: Search, r: Registry, k: string, v: Json) {
    if k == "scope" then v.JStr?
    else if k in r.blocks then BlockAccepts(search, r.blocks[k], [], v)
    else k in r.topLeaves && LeafAccepts(search, r.topLeaves[k], v)
  }

  /** What the registry says about a whole configuration. */
  ghost predicate RegistryAccepts(search: Search, r: Registry, d: Json) {
    d.JObj? && forall k :: k in d.members ==> KeyAccepts(search, r, k, d.members[k])
  }

  /** An annotation that is no keyword changes nothing. */
  lemma AnnotationIsIgnored(search: Search, m: Node, d: Json)
    ensures Validates(search, Marked(m), d) <==> Validates(search, JObj(m), d)
  {
    var n := Marked(m).members;
    assert PlainRules(search, n, d) <==> PlainRules(search, m, d);
    assert ItemRules(search, JObj(n), d) <==> ItemRules(search, JObj(m), d);
    assert MemberRules(search, JObj(n), d) <==> MemberRules(search, JObj(m), d);
    assert LogicRules(search, JObj(n), d) <==> LogicRules(search, JObj(m), d);
  }

  lemma PlainRootMeans(search: Search, r: Registry, k: string, v: Json)
    requires k != "scope" && (k in r.blocks || k in r.topLeaves)
    ensures Validates(search, JObj(PlainRootNode(r, k)), v) <==> KeyAccepts(search, r, k, v)
  {
    if k in r.blocks {
      BlockNodeMeans(search, r.blocks[k], [], v);
    } else {
      LeafNodeMeans(search, r.topLeaves[k], v);
    }
  }

  lemma ScopeNodeMeans(search: Search, v: Json)
    ensures Validates(search, SCOPE_NODE, v) <==> v.JStr?
  {
    NodeMembers(search, SCOPE_NODE.members, v);
  }

  lemma RootNodeMeans(search: Search, r: Registry, k: string, v: Json)
    requires HasMode(r)
    ensures k in RootProps(r) && Validates(search, RootProps(r)[k], v) <==> KeyAccepts(search, r, k, v)
  {
    RootLookup(r, k);
    if k == "scope" {
      ScopeNodeMeans(search, v);
    } else if k in r.blocks || k in r.topLeaves {
      PlainRootMeans(search, r, k, v);
      AnnotationIsIgnored(search, PlainRootNode(r, k), v);
    }
  }

  lemma ClosedObjectMeans(search: Search, props: Node, d: Json)
    ensures Validates(search, JObj(RootKeywords(props)), d) <==>
      d.JObj? && forall k :: k in d.members ==> k in props && Validates(search, props[k], d.members[k])
  {
    NodeMembers(search, RootKeywords(props), d);
    RootRules(search, props, d);
    if d.JObj? {
      forall k | k in d.members
        ensures NodeMember(search, RootKeywords(props), k, d.members[k]) <==> k in props && Validates(search, props[k], d.members[k])
      {
        RootMember(search, props, k, d.members[k]);
      }
    }
  }

  lemma RootRules(search: Search, props: Node, d: Json)
    ensures PlainRules(search, RootKeywords(props), d) <==> d.JObj?
    ensures ItemRules(search, JObj(RootKeywords(props)), d) && LogicRules(search, JObj(RootKeywords(props)), d)
  {
  }

  lemma RootMember(search: Search, props: Node, k: string, v: Json)
    ensures NodeMember(search, RootKeywords(props), k, v) <==> k in props && Validates(search, props[k], v)
  {
  }

  /** The published document accepts a configuration exactly when the registry does. */
  lemma DocumentMeans(search: Search, r: Registry, d: Json)
    requires HasMode(r)
    ensures Validates(search, Document(r), d) <==> RegistryAccepts(search, r, d)
  {
    ClosedObjectMeans(search, RootProps(r), d);
    if d.JObj? {
      forall k | k in d.members
        ensures k in RootProps(r) && Validates(search, RootProps(r)[k], d.members[k]) <==> KeyAccepts(search, r, k, d.members[k])
      {
        RootNodeMeans(search, r, k, d.members[k]);
      }
    }
  }

  // ---- JSON pointers, RFC 6901 ----

  /** Section 4: `~1` stands for `/` and `~0` for `~`. */
  function Unescape(token: string): string {
    if token == "" then ""
    else if |token| >= 2 && token[0] == '~' && token[1] == '1' then ['/'] + Unescape(token[2..])
    else if |token| >= 2 && token[0] == '~' && token[1] == '0' then ['~'] + Unescape(token[2..])
    else [token[0]] + Unescape(token[1..])
  }

  function Index(token: string): nat {
    if token == "" || !('0' <= token[|token| - 1] <= '9') then 0
    else 10 * Index(token[..|token| - 1]) + (token[|token| - 1] as int - '0' as int)
  }

  predicate IsIndex(token: string) {
    token != "" && (token[0] != '0' || token == "0") && forall i :: 0 <= i < |token| ==> '0' <= token[i] <= '9'
  }

  function Follow(doc: Json, tokens: seq<string>): Option<Json> {
    if tokens == [] then Some(doc)
    else
      var token := Unescape(tokens[0]);
      match doc
      case JObj(m) => if token in m then Follow(m[token], tokens[1..]) else None
      case JArr(items) => if IsIndex(token) && Index(token) < |items| then Follow(items[Index(token)], tokens[1..]) else None
      case _ => None
  }

  function Resolve(doc: Json, pointer: string): Option<Json> {
    if pointer == "" then Some(doc)
    else
      var parts := Split(pointer, '/');
      if parts[0] == "" then Follow(doc, parts[1..]) else None
  }

  // ---- schema_pointer_for ----

  /** `"/properties/" + "/properties/".join(names)`. */
  function PointerText(names: seq<string>): string {
    if names == [] then "" else "/properties/" + names[0] + PointerText(names[1..])
  }

  /** The names a pointer continues with inside a block. */
  function Inside(b: Block, parts: seq<string>): seq<string> {
    if parts == [] then []
    else if parts[0] in b.leaves then [parts[0]]
    else if b.openMap != "" && parts[0] == b.openMap then [parts[0]]
    else if parts[0] in b.nested then [parts[0]] + Inside(b.nested[parts[0]], parts[1..])
    else if b.openMap != "" then [b.openMap]
    else []
  }

  function PointerFor(r: Registry, dotted: string): Option<string> {
    var parts := Split(dotted, '.');
    if parts[0] in r.topLeaves then Some(PointerText([parts[0]]))
    else if parts[0] in r.blocks then Some(PointerText([parts[0]] + Inside(r.blocks[parts[0]], parts[1..])))
    else None
  }

  /** One segment of the walk inside a block. */
  lemma InsideNext(b: Block, parts: seq<string>, i: nat)
    requires i < |parts|
    ensures Inside(b, parts[i..]) ==
      if parts[i] in b.leaves || (b.openMap != "" && parts[i] == b.openMap) then [parts[i]]
      else if parts[i] in b.nested then [parts[i]] + Inside(b.nested[parts[i]], parts[i + 1..])
      else if b.openMap != "" then [b.openMap]
      else []
  {
    assert parts[i..][0] == parts[i] && parts[i..][1..] == parts[i + 1..];
  }

  method SchemaPointerFor(r: Registry, dotted: string) returns (p: Option<string>)
    ensures p == PointerFor(r, dotted)
  {
    var parts := Split(dotted, '.');
    var top := parts[0];
    if top in r.topLeaves {
      return Some(PointerText([top]));
    }
    if top !in r.blocks {
      return None;
    }
    var names := WalkPointer(r.blocks[top], top, parts);
    p := Some(PointerText(names));
  }

  /** The loop over the segments below the top block. */
  method WalkPointer(top: Block, name: string, parts: seq<string>) returns (pointer: seq<string>)
    requires parts != []
    ensures pointer == [name] + Inside(top, parts[1..])
  {
    ghost var goal := [name] + Inside(top, parts[1..]);
    pointer := [name];
    var block := top;
    for i := 1 to |parts|
      invariant goal == pointer + Inside(block, parts[i..])
    {
      InsideNext(block, parts, i);
      var part := parts[i];
      if part in block.leaves || (block.openMap != "" && part == block.openMap) {
        return pointer + [part];
      }
      if part !in block.nested {
        return if block.openMap != "" then pointer + [block.openMap] else pointer;
      }
      Regroup(pointer, part, Inside(block.nested[part], parts[i + 1..]));
      pointer := pointer + [part];
      block := block.nested[part];
    }
  }

  lemma Regroup(x: seq<string>, y: string, z: seq<string>)
    ensures x + ([y] + z) == (x + [y]) + z
  {
  }

  /** Somewhere in the name `~` is followed by `0` or `1`. */
  predicate HasEscape(name: string) {
    exists i :: 0 <= i < |name| - 1 && IsEscape(name, i)
  }

  predicate IsEscape(name: string, i: nat)
    requires i < |name| - 1
  {
    name[i] == '~' && (name[i + 1] == '0' || name[i + 1] == '1')
  }

  /** Names that a pointer can carry as they are; `NamesAreRead` shows that there are no others. */
  predicate Verbatim(name: string) {
    '/' !in name && !HasEscape(name)
  }

  /** The walk of a pointer goes on inside a nested block. */
  predicate StepsInto(b: Block, parts: seq<string>) {
    parts != [] && parts[0] !in b.leaves && !(b.openMap != "" && parts[0] == b.openMap) && parts[0] in b.nested
  }

  /** The pointer can carry the names it adds, and no raw keyword hides the properties it passes. */
  predicate AddressableAlong(b: Block, parts: seq<string>) {
    Inside(b, parts) != [] ==>
      "properties" !in b.schemaExtra && Verbatim(Inside(b, parts)[0])
      && (StepsInto(b, parts) ==> AddressableAlong(b.nested[parts[0]], parts[1..]))
  }

  predicate Addressable(r: Registry, dotted: string) {
    var parts := Split(dotted, '.');
    && (parts[0] in r.topLeaves ==> Verbatim(parts[0]))
    && (parts[0] !in r.topLeaves && parts[0] in r.blocks ==>
      Verbatim(parts[0]) && AddressableAlong(r.blocks[parts[0]], parts[1..])
      && (parts[0] == "scope" ==> Inside(r.blocks[parts[0]], parts[1..]) == []))
  }

  function Interleave(names: seq<string>): seq<string> {
    if names == [] then [] else ["properties", names[0]] + Interleave(names[1..])
  }

  ghost predicate VerbatimAll(names: seq<string>) {
    forall n :: n in names ==> Verbatim(n)
  }

  lemma {:induction false} UnescapeExact(name: string)
    ensures |Unescape(name)| <= |name|
    ensures Unescape(name) == name <==> !HasEscape(name)
  {
    if name != "" {
      if |name| >= 2 && IsEscape(name, 0) {
        UnescapeExact(name[2..]);
      } else {
        UnescapeExact(name[1..]);
        assert name == [name[0]] + name[1..];
        assert forall i :: 0 <= i < |name| - 2 ==> (IsEscape(name[1..], i) <==> IsEscape(name, i + 1));
        if HasEscape(name) {
          var i :| 0 <= i < |name| - 1 && IsEscape(name, i);
          assert IsEscape(name[1..], i - 1);
        }
      }
    }
  }

  lemma {:induction false} SplitPointer(names: seq<string>)
    requires Free(names, '/')
    ensures Split(PointerText(names), '/') == [""] + Interleave(names)
  {
    if names != [] {
      assert names[0] in names;
      assert Free(names[1..], '/');
      SplitPointer(names[1..]);
      SplitPointerStep("properties", names[0], PointerText(names[1..]), Interleave(names[1..]));
      Slashes();
    }
  }

  // ---- exactly which names survive ----

  function UnescapeAll(tokens: seq<string>): (r: seq<string>)
    ensures |r| == |tokens| && forall i :: 0 <= i < |r| ==> r[i] == Unescape(tokens[i])
  {
    seq(|tokens|, i requires 0 <= i < |tokens| => Unescape(tokens[i]))
  }

  lemma {:induction false} SplitCounts(s: string, sep: char)
    ensures |Split(s, sep)| == 1 + multiset(s)[sep]
  {
    if s != "" {
      SplitCounts(s[1..], sep);
      assert s == [s[0]] + s[1..];
    }
  }

  lemma {:induction false} SlashesOf(names: seq<string>)
    ensures multiset(PointerText(names))['/'] >= 2 * |names|
    ensures multiset(PointerText(names))['/'] == 2 * |names| <==> Free(names, '/')
  {
    if names != [] {
      SlashesOf(names[1..]);
      PointerTextStep(names);
      Slashes();
      SlashesOfFirst("properties", names[0], PointerText(names[1..]));
      FreeStep(names, '/');
    }
  }

  lemma PointerTextStep(names: seq<string>)
    requires names != []
    ensures PointerText(names) == ['/'] + "properties" + ['/'] + names[0] + PointerText(names[1..])
  {
    Slashes();
  }

  lemma FreeStep(names: seq<string>, sep: char)
    requires names != []
    ensures Free(names, sep) <==> sep !in names[0] && Free(names[1..], sep)
  {
    assert names == [names[0]] + names[1..];
  }

  lemma {:induction false} InterleaveLength(names: seq<string>)
    ensures |Interleave(names)| == 2 * |names|
  {
    if names != [] {
      InterleaveLength(names[1..]);
    }
  }

  lemma SlashesOfFirst(q: string, name: string, rest: string)
    requires '/' !in q
    ensures
      multiset(['/'] + q + ['/'] + name + rest)['/'] == 2 + multiset(name)['/'] + multiset(rest)['/']
    ensures multiset(name)['/'] == 0 <==> '/' !in name
  {
    assert multiset(q)['/'] == 0;
    assert ['/'] + q + ['/'] + name + rest == ((['/'] + q) + ['/']) + (name + rest);
  }

  /** Unescaping changes none of the tokens. */
  ghost predicate Stable(tokens: seq<string>) {
    forall t :: t in tokens ==> Unescape(t) == t
  }

  ghost predicate NoEscapes(names: seq<string>) {
    forall n :: n in names ==> !HasEscape(n)
  }

  lemma {:induction false} InterleaveMembers(names: seq<string>)
    ensures Stable(Interleave(names)) <==> NoEscapes(names)
  {
    if names != [] {
      InterleaveMembers(names[1..]);
      PropertiesIsPlain();
      PairAndRest("properties", names[0], Interleave(names[1..]));
      FirstEscape(names);
    }
  }

  lemma FirstEscape(names: seq<string>)
    requires names != []
    ensures NoEscapes(names) <==> Unescape(names[0]) == names[0] && NoEscapes(names[1..])
  {
    UnescapeExact(names[0]);
    assert names == [names[0]] + names[1..];
  }

  lemma PairAndRest(q: string, n: string, rest: seq<string>)
    requires Unescape(q) == q
    ensures Stable([q, n] + rest) <==> Unescape(n) == n && Stable(rest)
  {
    assert q in [q, n] + rest && n in [q, n] + rest;
    assert forall t :: t in rest ==> t in [q, n] + rest;
  }

  lemma NoTilde(token: string)
    requires '~' !in token
    ensures Unescape(token) == token
  {
    UnescapeExact(token);
  }

  lemma PropertiesIsPlain()
    ensures Unescape("properties") == "properties"
  {
    assert '~' !in "properties";
    NoTilde("properties");
  }

  /**
   * The pointer is read back, by the splitting and unescaping of RFC 6901, as the names it was made of
   * exactly when every name is free of `/` and of escape sequences.
   */
  lemma NamesAreRead(names: seq<string>)
    ensures UnescapeAll(Split(PointerText(names), '/')) == [""] + Interleave(names) <==> VerbatimAll(names)
  {
    var tokens := Split(PointerText(names), '/');
    SplitCounts(PointerText(names), '/');
    SlashesOf(names);
    InterleaveLength(names);
    if Free(names, '/') {
      SplitPointer(names);
      InterleaveMembers(names);
      UnescapedMembers(Interleave(names));
    }
  }

  /** Section 3 of RFC 6901 allows `~` in a pointer only as the start of an escape sequence. */
  predicate Proper(token: string) {
    forall i :: 0 <= i < |token| && token[i] == '~' ==> i < |token| - 1 && IsEscape(token, i)
  }

  /** For a reader that refuses every other `~`, exactly the names without `/` and `~` survive. */
  lemma StrictNames(name: string)
    ensures Verbatim(name) && Proper(name) <==> '/' !in name && '~' !in name
  {
    if '~' in name {
      var i :| 0 <= i < |name| && name[i] == '~';
      assert Proper(name) ==> IsEscape(name, i);
    }
  }

  lemma UnescapedMembers(tokens: seq<string>)
    ensures UnescapeAll([""] + tokens) == [""] + tokens <==> Stable(tokens)
  {
    var all := [""] + tokens;
    if Stable(tokens) {
      forall i | 0 <= i < |all| ensures UnescapeAll(all)[i] == all[i] {
        assert i > 0 ==> all[i] == tokens[i - 1] && all[i] in tokens;
      }
    }
    if UnescapeAll(all) == all {
      forall t | t in tokens ensures Unescape(t) == t {
        var i :| 0 <= i < |tokens| && tokens[i] == t;
        assert all[i + 1] == t && UnescapeAll(all)[i + 1] == all[i + 1];
      }
    }
  }

  lemma Slashes()
    ensures "/properties/" == ['/'] + "properties" + ['/'] && '/' !in "properties"
  {
  }

  lemma SplitPointerStep(q: string, name: string, rest: string, tokens: seq<string>)
    requires '/' !in q && '/' !in name && Split(rest, '/') == [""] + tokens
    ensures Split(['/'] + q + ['/'] + name + rest, '/') == [""] + ([q, name] + tokens)
  {
    SplitPlainThen(name, rest, tokens);
    SplitStep(q, name + rest, [name] + tokens);
    assert ['/'] + q + ['/'] + name + rest == ['/'] + q + ['/'] + (name + rest);
    assert [q] + ([name] + tokens) == [q, name] + tokens;
  }

  lemma SplitStep(q: string, rest: string, tokens: seq<string>)
    requires '/' !in q && Split(rest, '/') == tokens
    ensures Split(['/'] + q + ['/'] + rest, '/') == [""] + ([q] + tokens)
  {
    SplitAtSeparator(q, rest, '/');
    SplitAtSeparator("", q + ['/'] + rest, '/');
    assert ['/'] + q + ['/'] + rest == "" + ['/'] + (q + ['/'] + rest);
  }

  lemma SplitPlainThen(name: string, rest: string, tokens: seq<string>)
    requires '/' !in name && Split(rest, '/') == [""] + tokens
    ensures Split(name + rest, '/') == [name] + tokens
  {
    JoinSplit(rest, '/');
    SplitIsFree(rest, '/');
    if tokens == [] {
      assert name + rest == name;
      SplitPlain(name, '/');
    } else {
      var tail := Join(tokens, '/');
      assert ([""] + tokens)[1..] == tokens;
      assert rest == ['/'] + tail;
      assert Free(tokens, '/') by {
        assert forall t :: t in tokens ==> t in [""] + tokens;
      }
      SplitJoin(tokens, '/');
      SplitAtSeparator(name, tail, '/');
      assert name + rest == name + ['/'] + tail;
    }
  }

  /** The node the last name of `Inside` stands for; `node` when there is none. */
  function Target(b: Block, parts: seq<string>, node: Json): Json {
    if parts == [] then node
    else if parts[0] in b.leaves then if b.openMap != "" && parts[0] == b.openMap then OpenMapNode(b) else FixedNode(b, parts[0])
    else if b.openMap != "" && parts[0] == b.openMap then OpenMapNode(b)
    else if parts[0] in b.nested then Target(b.nested[parts[0]], parts[1..], JObj(BlockNode(b.nested[parts[0]])))
    else if b.openMap != "" then OpenMapNode(b)
    else node
  }

  /** One reference token. */
  lemma FollowToken(m: Node, token: string, rest: seq<string>)
    requires Unescape(token) == token && token in m
    ensures Follow(JObj(m), [token] + rest) == Follow(m[token], rest)
  {
    assert ([token] + rest)[1..] == rest;
  }

  lemma FollowTwo(m: Node, holder: string, props: Node, name: string, rest: seq<string>)
    requires Unescape(holder) == holder && holder in m && m[holder] == JObj(props)
    requires Unescape(name) == name && name in props
    ensures Follow(JObj(m), [holder, name] + rest) == Follow(props[name], rest)
  {
    FollowToken(m, holder, [name] + rest);
    FollowToken(props, name, rest);
    assert [holder, name] + rest == [holder] + ([name] + rest);
  }

  lemma FollowProperty(node: Json, props: Node, name: string, rest: seq<string>)
    requires node.JObj? && "properties" in node.members && node.members["properties"] == JObj(props)
    requires !HasEscape(name) && name in props
    ensures Follow(node, ["properties", name] + rest) == Follow(props[name], rest)
  {
    UnescapeExact(name);
    PropertiesIsPlain();
    FollowTwo(node.members, "properties", props, name, rest);
  }

  lemma BlockProperties(b: Block)
    requires "properties" !in b.schemaExtra
    ensures "properties" in BlockNode(b) && BlockNode(b)["properties"] == JObj(Props(b))
    ensures Props(b).Keys == ChildKeys(b)
  {
  }

  /** The node carries the compiled properties of the block. */
  predicate HasProps(node: Json, b: Block) {
    node.JObj? && "properties" in node.members && node.members["properties"] == JObj(Props(b))
  }

  lemma {:induction false} FollowInside(b: Block, parts: seq<string>, node: Json)
    requires AddressableAlong(b, parts)
    requires Inside(b, parts) != [] ==> HasProps(node, b)
    ensures VerbatimAll(Inside(b, parts))
    ensures Follow(node, Interleave(Inside(b, parts))) == Some(Target(b, parts, node))
    decreases |parts|
  {
    if parts != [] {
      var p := parts[0];
      PropsLookup(b, p);
      PropsLookup(b, b.openMap);
      if p in b.leaves || (b.openMap != "" && p == b.openMap) {
        FollowProperty(node, Props(b), p, []);
        assert Interleave([p]) == ["properties", p] + [];
      } else if p in b.nested {
        var child := JObj(BlockNode(b.nested[p]));
        var names := Inside(b.nested[p], parts[1..]);
        if names != [] {
          BlockProperties(b.nested[p]);
        }
        FollowInside(b.nested[p], parts[1..], child);
        FollowProperty(node, Props(b), p, Interleave(names));
        assert Inside(b, parts)[1..] == names;
      } else if b.openMap != "" {
        FollowProperty(node, Props(b), b.openMap, []);
        assert Interleave([b.openMap]) == ["properties", b.openMap] + [];
      }
    }
  }

  /** The descriptor's node that a dotted path leads to. */
  function TargetOf(r: Registry, dotted: string): Json
    requires PointerFor(r, dotted).Some?
  {
    var parts := Split(dotted, '.');
    if parts[0] in r.topLeaves then RootNode(r, parts[0])
    else Target(r.blocks[parts[0]], parts[1..], RootNode(r, parts[0]))
  }

  /**
   * For every registry and dotted path whose names need no escaping, the pointer resolves in the published
   * document, to the node of the deepest descriptor on the path; `None` exactly for an unknown top key.
   */
  lemma PointerResolves(r: Registry, dotted: string)
    requires HasMode(r) && Addressable(r, dotted)
    ensures PointerFor(r, dotted).None? <==> Split(dotted, '.')[0] !in r.topLeaves.Keys + r.blocks.Keys
    ensures PointerFor(r, dotted).Some? ==>
      Resolve(Document(r), PointerFor(r, dotted).value) == Some(TargetOf(r, dotted))
  {
    var parts := Split(dotted, '.');
    if parts[0] in r.topLeaves {
      FollowTopLeaf(r, parts[0]);
    } else if parts[0] in r.blocks {
      FollowTopBlock(r, parts[0], parts[1..]);
    }
  }

  lemma FollowTopLeaf(r: Registry, top: string)
    requires HasMode(r) && top in r.topLeaves && Verbatim(top)
    ensures Resolve(Document(r), PointerText([top])) == Some(RootNode(r, top))
  {
    FollowRoot(r, top, []);
    assert [top] + [] == [top];
  }

  lemma FollowTopBlock(r: Registry, top: string, parts: seq<string>)
    requires HasMode(r) && top in r.blocks && Verbatim(top) && AddressableAlong(r.blocks[top], parts)
    requires top == "scope" ==> Inside(r.blocks[top], parts) == []
    ensures Resolve(Document(r), PointerText([top] + Inside(r.blocks[top], parts)))
      == Some(Target(r.blocks[top], parts, RootNode(r, top)))
  {
    var b := r.blocks[top];
    if Inside(b, parts) != [] {
      RootHasProps(r, top);
    }
    FollowInside(b, parts, RootNode(r, top));
    FollowRoot(r, top, Inside(b, parts));
  }

  lemma FollowRoot(r: Registry, top: string, names: seq<string>)
    requires HasMode(r)
    requires top in r.topLeaves || top in r.blocks
    requires Verbatim(top) && VerbatimAll(names)
    ensures Resolve(Document(r), PointerText([top] + names)) == Follow(RootNode(r, top), Interleave(names))
  {
    RootLookup(r, top);
    FollowFromTop(Document(r), RootProps(r), top, names);
  }

  lemma FollowFromTop(doc: Json, props: Node, top: string, names: seq<string>)
    requires doc.JObj? && "properties" in doc.members && doc.members["properties"] == JObj(props) && top in props
    requires Verbatim(top) && VerbatimAll(names)
    ensures Resolve(doc, PointerText([top] + names)) == Follow(props[top], Interleave(names))
  {
    var all := [top] + names;
    assert all[0] == top && all[1..] == names;
    SplitPointer(all);
    assert Interleave(all) == ["properties", top] + Interleave(names);
    ResolveTokens(doc, PointerText(all), Interleave(all));
    FollowProperty(doc, props, top, Interleave(names));
  }

  lemma ResolveTokens(doc: Json, pointer: string, tokens: seq<string>)
    requires pointer != "" && Split(pointer, '/') == [""] + tokens
    ensures Resolve(doc, pointer) == Follow(doc, tokens)
  {
    assert ([""] + tokens)[1..] == tokens;
  }

  // ---- where pointers dangle ----

  /** What the reader takes for the name: everything up to its first `/`. */
  lemma FirstPiece(name: string, rest: string)
    requires rest == "" || rest[0] == '/'
    ensures var piece := Split(name + rest, '/')[0];
      && (piece == name <==> '/' !in name)
      && (Unescape(piece) == name <==> Verbatim(name))
  {
    if '/' in name {
      var i := FirstSlash(name);
      CutPiece(name, rest, i);
      UnescapeExact(name[..i]);
    } else {
      WholePiece(name, rest);
      UnescapeExact(name);
    }
  }

  lemma {:induction false} FirstSlash(name: string) returns (i: nat)
    requires '/' in name
    ensures i < |name| && name[i] == '/' && '/' !in name[..i]
  {
    if name[0] == '/' {
      i := 0;
    } else {
      assert name == [name[0]] + name[1..];
      i := FirstSlash(name[1..]);
      i := i + 1;
      assert name[..i] == [name[0]] + name[1..][..i - 1];
    }
  }

  lemma CutPiece(name: string, rest: string, i: nat)
    requires i < |name| && name[i] == '/' && '/' !in name[..i]
    ensures Split(name + rest, '/')[0] == name[..i]
  {
    assert name + rest == name[..i] + ['/'] + (name[i + 1..] + rest);
    SplitAtSeparator(name[..i], name[i + 1..] + rest, '/');
  }

  lemma WholePiece(name: string, rest: string)
    requires '/' !in name && (rest == "" || rest[0] == '/')
    ensures Split(name + rest, '/')[0] == name
  {
    if rest == "" {
      assert name + rest == name;
      SplitPlain(name, '/');
    } else {
      assert name + rest == name + ['/'] + rest[1..];
      SplitAtSeparator(name, rest[1..], '/');
    }
  }

  /**
   * A name that cannot be carried: the pointer to a top-level leaf dangles unless the piece that is read
   * for its name happens to be a top-level name as well.
   */
  lemma UnescapedNameDangles(r: Registry, name: string)
    requires HasMode(r) && name in r.topLeaves && '.' !in name && !Verbatim(name)
    requires Unescape(Split(name, '/')[0]) !in RootProps(r)
    ensures PointerFor(r, name).Some?
    ensures Resolve(Document(r), PointerFor(r, name).value) == None
  {
    SplitPlain(name, '.');
    DanglingFromTop(Document(r), RootProps(r), name);
  }

  lemma DanglingFromTop(doc: Json, props: Node, name: string)
    requires doc.JObj? && "properties" in doc.members && doc.members["properties"] == JObj(props)
    requires Unescape(Split(name, '/')[0]) !in props
    ensures Resolve(doc, PointerText([name])) == None
  {
    var pieces := Split(name, '/');
    Slashes();
    SplitStep("properties", name, pieces);
    PointerTextStep([name]);
    assert PointerText([name]) == ['/'] + "properties" + ['/'] + name;
    ResolveTokens(doc, PointerText([name]), ["properties"] + pieces);
    PropertiesIsPlain();
    FollowToken(doc.members, "properties", pieces);
  }

  // ---- raw `properties` keywords ----

  /** The block that a path of nested names leads to. */
  function BlockAt(b: Block, path: seq<string>): Option<Block> {
    if path == [] then Some(b)
    else if StepsInto(b, path) then BlockAt(b.nested[path[0]], path[1..])
    else None
  }

  /** No block on the way, the last one apart, has a raw `properties` keyword. */
  predicate Unhidden(b: Block, path: seq<string>) {
    path != [] && StepsInto(b, path) ==> "properties" !in b.schemaExtra && Unhidden(b.nested[path[0]], path[1..])
  }

  lemma {:induction false} InsidePath(b: Block, path: seq<string>, rest: seq<string>)
    requires BlockAt(b, path).Some?
    ensures Inside(b, path + rest) == path + Inside(BlockAt(b, path).value, rest)
    decreases |path|
  {
    if path == [] {
      assert path + rest == rest;
    } else {
      var more := path[1..];
      assert (path + rest)[0] == path[0] && (path + rest)[1..] == more + rest;
      InsidePath(b.nested[path[0]], more, rest);
      assert path == [path[0]] + more;
    }
  }

  lemma {:induction false} FollowPath(b: Block, path: seq<string>, node: Json, more: seq<string>)
    requires BlockAt(b, path).Some? && Unhidden(b, path) && VerbatimAll(path)
    requires path != [] ==> HasProps(node, b)
    ensures Follow(node, Interleave(path) + more)
      == Follow(if path == [] then node else JObj(BlockNode(BlockAt(b, path).value)), more)
    decreases |path|
  {
    if path == [] {
      assert Interleave(path) + more == more;
    } else {
      var name, later := path[0], path[1..];
      var child := b.nested[name];
      PropsLookup(b, name);
      assert name in path && forall n :: n in later ==> n in path;
      if later != [] {
        BlockProperties(child);
      }
      FollowPath(child, later, JObj(BlockNode(child)), more);
      FollowProperty(node, Props(b), name, Interleave(later) + more);
      PairThen("properties", name, Interleave(later), more);
    }
  }

  lemma PairThen(q: string, name: string, x: seq<string>, y: seq<string>)
    ensures ([q, name] + x) + y == [q, name] + (x + y)
  {
  }

  lemma {:induction false} InterleaveAppend(x: seq<string>, y: seq<string>)
    ensures Interleave(x + y) == Interleave(x) + Interleave(y)
    decreases |x|
  {
    if x == [] {
      assert x + y == y;
    } else {
      InterleaveAppend(x[1..], y);
      assert (x + y)[0] == x[0] && (x + y)[1..] == x[1..] + y;
      PairThen("properties", x[0], Interleave(x[1..]), Interleave(y));
    }
  }

  /**
   * Once the walk enters a block with a raw `properties` keyword, however deep, the rest of the pointer is
   * looked up in the raw value, and resolves to nothing when that is an object without the next name.
   */
  lemma RawPropertiesDecide(r: Registry, dotted: string, top: string, path: seq<string>, rest: seq<string>)
    requires HasMode(r) && top in r.blocks && top !in r.topLeaves && top != "scope" && Split(dotted, '.') == [top] + (path + rest)
    requires BlockAt(r.blocks[top], path).Some? && Unhidden(r.blocks[top], path)
    requires var c := BlockAt(r.blocks[top], path).value;
      "properties" in c.schemaExtra && Inside(c, rest) != [] && VerbatimAll([top] + path + Inside(c, rest))
    ensures PointerFor(r, dotted).Some?
    ensures
      var c := BlockAt(r.blocks[top], path).value;
      var raw, names := c.schemaExtra["properties"], Inside(c, rest);
      var found := Resolve(Document(r), PointerFor(r, dotted).value);
      found == Follow(raw, [names[0]] + Interleave(names[1..])) && (raw.JObj? && names[0] !in raw.members ==> found == None)
  {
    var c := BlockAt(r.blocks[top], path).value;
    var names := Inside(c, rest);
    assert ([top] + (path + rest))[1..] == path + rest;
    InsidePath(r.blocks[top], path, rest);
    VerbatimParts(top, path, names);
    RawBelowTop(r, top, path, names, c.schemaExtra["properties"]);
  }

  lemma VerbatimParts(top: string, path: seq<string>, names: seq<string>)
    requires VerbatimAll([top] + path + names)
    ensures Verbatim(top) && VerbatimAll(path) && VerbatimAll(names) && VerbatimAll(path + names)
  {
    var all := [top] + path + names;
    assert top in all && (forall n :: n in path ==> n in all) && forall n :: n in names ==> n in all;
  }

  lemma RawBelowTop(r: Registry, top: string, path: seq<string>, names: seq<string>, raw: Json)
    requires HasMode(r) && top in r.blocks && top != "scope" && Verbatim(top) && VerbatimAll(path) && VerbatimAll(path + names)
    requires BlockAt(r.blocks[top], path).Some? && Unhidden(r.blocks[top], path) && names != [] && Verbatim(names[0])
    requires var c := BlockAt(r.blocks[top], path).value; "properties" in c.schemaExtra && raw == c.schemaExtra["properties"]
    ensures Resolve(Document(r), PointerText([top] + (path + names))) == Follow(raw, [names[0]] + Interleave(names[1..]))
    ensures raw.JObj? && names[0] !in raw.members ==> Follow(raw, [names[0]] + Interleave(names[1..])) == None
  {
    FollowRoot(r, top, path + names);
    InterleaveAppend(path, names);
    if path == [] {
      RootKeepsRaw(r, top);
    } else {
      RootHasProps(r, top);
    }
    FollowPath(r.blocks[top], path, RootNode(r, top), Interleave(names));
    var c := BlockAt(r.blocks[top], path).value;
    FollowRaw(if path == [] then RootNode(r, top) else JObj(BlockNode(c)), raw, names);
  }

  lemma FollowRaw(node: Json, raw: Json, names: seq<string>)
    requires node.JObj? && "properties" in node.members && node.members["properties"] == raw
    requires names != [] && Verbatim(names[0])
    ensures Follow(node, Interleave(names)) == Follow(raw, [names[0]] + Interleave(names[1..]))
    ensures raw.JObj? && names[0] !in raw.members ==> Follow(raw, [names[0]] + Interleave(names[1..])) == None
  {
    PropertiesIsPlain();
    UnescapeExact(names[0]);
    FollowHolder(node.members, "properties", names[0], Interleave(names[1..]));
  }

  lemma FollowHolder(m: Node, holder: string, name: string, more: seq<string>)
    requires holder in m && Unescape(holder) == holder && Unescape(name) == name
    ensures Follow(JObj(m), [holder, name] + more) == Follow(m[holder], [name] + more)
    ensures m[holder].JObj? && name !in m[holder].members ==> Follow(m[holder], [name] + more) == None
  {
    assert [holder, name] + more == [holder] + ([name] + more);
    FollowToken(m, holder, [name] + more);
  }

  lemma RootKeepsRaw(r: Registry, top: string)
    requires top in r.blocks && top != "scope" && "properties" in r.blocks[top].schemaExtra
    ensures RootNode(r, top).JObj? && "properties" in RootNode(r, top).members
    ensures RootNode(r, top).members["properties"] == r.blocks[top].schemaExtra["properties"]
  {
  }

  /** A block named `scope` is replaced in the document, so every pointer into it dangles. */
  lemma ScopeBlockDangles(r: Registry, dotted: string)
    requires HasMode(r) && "scope" in r.blocks && "scope" !in r.topLeaves
    requires Split(dotted, '.')[0] == "scope"
    requires var names := Inside(r.blocks["scope"], Split(dotted, '.')[1..]); names != [] && VerbatimAll(names)
    ensures PointerFor(r, dotted).Some?
    ensures Resolve(Document(r), PointerFor(r, dotted).value) == None
  {
    var names := Inside(r.blocks["scope"], Split(dotted, '.')[1..]);
    ScopeIsVerbatim();
    FollowRoot(r, "scope", names);
    NothingBelowScope(names);
  }

  lemma ScopeIsVerbatim()
    ensures Verbatim("scope")
  {
  }

  lemma NothingBelowScope(names: seq<string>)
    requires names != []
    ensures Follow(SCOPE_NODE, Interleave(names)) == None
  {
    PropertiesIsPlain();
  }

  // ---- block_child_keys ----

  function KeysInside(b: Block, parts: seq<string>): Option<set<string>> {
    if parts == [] then Some(ChildKeys(b))
    else if b.openMap != "" && parts[0] == b.openMap && b.openMapItem.Some? then KeysInside(b.openMapItem.value, parts[1..])
    else if parts[0] in b.nested then KeysInside(b.nested[parts[0]], parts[1..])
    else None
  }

  function KeysAt(r: Registry, path: string): Option<set<string>> {
    var parts := Split(path, '.');
    if path != "" && parts[0] in r.blocks then KeysInside(r.blocks[parts[0]], parts[1..]) else None
  }

  /** `c` is the block that `name` leads to inside `b`: the item of the open map, else a nested block. */
  predicate IsInside(b: Block, name: string, c: Block) {
    if b.openMap != "" && name == b.openMap && b.openMapItem.Some? then c == b.openMapItem.value
    else name in b.nested && c == b.nested[name]
  }

  /** `blocks` are the blocks that the names lead through, one inside the other. */
  ghost predicate LeadsThrough(b: Block, parts: seq<string>, blocks: seq<Block>) {
    && |blocks| == |parts| + 1 && blocks[0] == b
    && forall i :: 0 <= i < |parts| ==> IsInside(blocks[i], parts[i], blocks[i + 1])
  }

  /** The names lead from block to block, and the last block has these keys. */
  ghost predicate LeadsToKeys(b: Block, parts: seq<string>, keys: set<string>) {
    exists blocks :: LeadsThrough(b, parts, blocks) && keys == ChildKeys(blocks[|parts|])
  }

  lemma {:induction false} KeysInsideMeans(b: Block, parts: seq<string>, blocks: seq<Block>)
    requires LeadsThrough(b, parts, blocks)
    ensures KeysInside(b, parts) == Some(ChildKeys(blocks[|parts|]))
    decreases |parts|
  {
    if parts != [] {
      assert IsInside(blocks[0], parts[0], blocks[1]);
      forall i | 0 <= i < |parts[1..]| ensures IsInside(blocks[1..][i], parts[1..][i], blocks[1..][i + 1]) {
        assert IsInside(blocks[i + 1], parts[i + 1], blocks[i + 2]);
      }
      KeysInsideMeans(blocks[1], parts[1..], blocks[1..]);
    }
  }

  lemma {:induction false} BlocksOnTheWay(b: Block, parts: seq<string>) returns (blocks: seq<Block>)
    requires KeysInside(b, parts).Some?
    ensures LeadsThrough(b, parts, blocks)
    decreases |parts|
  {
    if parts == [] {
      return [b];
    }
    var c := if b.openMap != "" && parts[0] == b.openMap && b.openMapItem.Some? then b.openMapItem.value else b.nested[parts[0]];
    var rest := BlocksOnTheWay(c, parts[1..]);
    blocks := [b] + rest;
    forall i | 0 <= i < |parts| ensures IsInside(blocks[i], parts[i], blocks[i + 1]) {
      if i > 0 {
        assert IsInside(rest[i - 1], parts[1..][i - 1], rest[i]);
      }
    }
  }

  /** A path of any depth has keys exactly when its names lead from block to block, and then those of the last block. */
  lemma KeysOfPath(r: Registry, path: string, keys: set<string>)
    requires path != ""
    ensures var parts := Split(path, '.');
      KeysAt(r, path) == Some(keys) <==> parts[0] in r.blocks && LeadsToKeys(r.blocks[parts[0]], parts[1..], keys)
  {
    var parts := Split(path, '.');
    if parts[0] in r.blocks {
      var b := r.blocks[parts[0]];
      forall blocks | LeadsThrough(b, parts[1..], blocks) ensures KeysAt(r, path) == Some(ChildKeys(blocks[|parts[1..]|])) {
        KeysInsideMeans(b, parts[1..], blocks);
      }
      if KeysAt(r, path).Some? {
        var blocks := BlocksOnTheWay(b, parts[1..]);
      }
    }
  }

  method BlockChildKeys(r: Registry, path: string) returns (keys: Option<set<string>>)
    ensures keys == KeysAt(r, path)
  {
    if path == "" {
      return None;
    }
    var parts := Split(path, '.');
    if parts[0] !in r.blocks {
      return None;
    }
    var block := r.blocks[parts[0]];
    for i := 1 to |parts|
      invariant KeysAt(r, path) == KeysInside(block, parts[i..])
    {
      var part := parts[i];
      assert parts[i..][1..] == parts[i + 1..];
      if block.openMap != "" && part == block.openMap && block.openMapItem.Some? {
        block := block.openMapItem.value;
        continue;
      }
      if part !in block.nested {
        return None;
      }
      block := block.nested[part];
    }
    return Some(ChildKeys(block));
  }

  /** The node below `doc` that these member names lead to, read as they are. */
  function At(doc: Json, keys: seq<string>): Option<Json> {
    if keys == [] then Some(doc)
    else if doc.JObj? && keys[0] in doc.members then At(doc.members[keys[0]], keys[1..])
    else None
  }

  /** The path of a block in the published document, below the node of its top block. */
  function BlockKeys(b: Block, parts: seq<string>): seq<string>
    requires KeysInside(b, parts).Some?
  {
    if parts == [] then []
    else if b.openMap != "" && parts[0] == b.openMap && b.openMapItem.Some? then
      ["properties", parts[0]] + (["additionalProperties"] + BlockKeys(b.openMapItem.value, parts[1..]))
    else ["properties", parts[0]] + BlockKeys(b.nested[parts[0]], parts[1..])
  }

  /** No raw keyword hides properties on the way, and no open map hides a nested block. */
  predicate Published(b: Block, parts: seq<string>)
    requires KeysInside(b, parts).Some?
  {
    && "properties" !in b.schemaExtra
    && (parts != [] && b.openMap != "" && parts[0] == b.openMap ==>
          b.openMapItem.Some? && Published(b.openMapItem.value, parts[1..]))
    && (parts != [] && !(b.openMap != "" && parts[0] == b.openMap) ==> Published(b.nested[parts[0]], parts[1..]))
  }

  ghost predicate HasProperties(node: Json, names: set<string>) {
    node.JObj? && "properties" in node.members && node.members["properties"].JObj?
      && node.members["properties"].members.Keys == names
  }

  lemma ItemProperties(item: Block, required: seq<string>)
    requires "properties" !in item.schemaExtra
    ensures "properties" in ItemNode(item, required) && ItemNode(item, required)["properties"] == JObj(Props(item))
  {
  }

  lemma AtTwo(m: Node, holder: string, props: Node, name: string, rest: seq<string>)
    requires holder in m && m[holder] == JObj(props) && name in props
    ensures At(JObj(m), [holder, name] + rest) == At(props[name], rest)
  {
    assert ([holder, name] + rest)[1..] == [name] + rest;
    assert ([name] + rest)[1..] == rest;
  }

  lemma AtAdditional(b: Block, rest: seq<string>)
    requires b.openMapItem.Some?
    ensures At(OpenMapNode(b), ["additionalProperties"] + rest)
      == At(JObj(ItemNode(b.openMapItem.value, b.openMapItemRequired)), rest)
  {
    assert (["additionalProperties"] + rest)[1..] == rest;
  }

  lemma {:induction false} AtBlock(b: Block, parts: seq<string>, node: Json)
    requires KeysInside(b, parts).Some? && Published(b, parts)
    requires HasProps(node, b)
    ensures var found := At(node, BlockKeys(b, parts));
      found.Some? && HasProperties(found.value, KeysInside(b, parts).value)
    decreases |parts|
  {
    if parts == [] {
      BlockProperties(b);
    } else {
      var p, rest := parts[0], parts[1..];
      PropsLookup(b, p);
      if b.openMap != "" && p == b.openMap && b.openMapItem.Some? {
        var item := b.openMapItem.value;
        ItemProperties(item, b.openMapItemRequired);
        AtBlock(item, rest, JObj(ItemNode(item, b.openMapItemRequired)));
        AtAdditional(b, BlockKeys(item, rest));
        AtTwo(node.members, "properties", Props(b), p, ["additionalProperties"] + BlockKeys(item, rest));
      } else {
        BlockProperties(b.nested[p]);
        AtBlock(b.nested[p], rest, JObj(BlockNode(b.nested[p])));
        AtTwo(node.members, "properties", Props(b), p, BlockKeys(b.nested[p], rest));
      }
    }
  }

  predicate PublishedBlock(r: Registry, path: string) {
    var parts := Split(path, '.');
    KeysAt(r, path).Some? && parts[0] != "scope" && Published(r.blocks[parts[0]], parts[1..])
  }

  lemma RootHasProps(r: Registry, top: string)
    requires HasMode(r) && top in r.blocks && top != "scope" && "properties" !in r.blocks[top].schemaExtra
    ensures HasProps(RootNode(r, top), r.blocks[top])
  {
    BlockProperties(r.blocks[top]);
  }

  lemma AtTop(r: Registry, top: string, rest: seq<string>)
    requires HasMode(r) && top in r.blocks
    ensures At(Document(r), ["properties", top] + rest) == At(RootNode(r, top), rest)
  {
    RootLookup(r, top);
    AtTwo(Document(r).members, "properties", RootProps(r), top, rest);
  }

  /** The keys suggested for a block path are the property names of the published node of that block, whatever the names. */
  lemma ChildKeysAreProperties(r: Registry, path: string)
    requires HasMode(r) && PublishedBlock(r, path)
    ensures var parts := Split(path, '.');
      var found := At(Document(r), ["properties", parts[0]] + BlockKeys(r.blocks[parts[0]], parts[1..]));
      found.Some? && HasProperties(found.value, KeysAt(r, path).value)
  {
    var parts := Split(path, '.');
    var b := r.blocks[parts[0]];
    RootHasProps(r, parts[0]);
    AtBlock(b, parts[1..], RootNode(r, parts[0]));
    AtTop(r, parts[0], BlockKeys(b, parts[1..]));
  }

  lemma PropsKeys(b: Block)
    ensures Props(b).Keys == ChildKeys(b)
  {
  }

  /** The keys of a block are the property names of its own node exactly when no raw keyword says otherwise. */
  lemma OwnKeysAreProperties(b: Block, required: seq<string>)
    ensures HasProperties(JObj(ItemNode(b, required)), ChildKeys(b)) <==>
      ("properties" in b.schemaExtra ==>
        b.schemaExtra["properties"].JObj? && b.schemaExtra["properties"].members.Keys == ChildKeys(b))
  {
    NodeLookup(b, required, "properties");
    PropsKeys(b);
  }

  /** A nested block behind an open map of the same name without an item has keys, but no published properties. */
  lemma HiddenBlockHasNoProperties(b: Block, node: Json)
    requires b.openMap != "" && b.openMap in b.nested && b.openMapItem.None? && HasProps(node, b)
    ensures KeysInside(b, [b.openMap]) == Some(ChildKeys(b.nested[b.openMap]))
    ensures var found := At(node, BlockKeys(b, [b.openMap]));
      found.Some? && forall names :: !HasProperties(found.value, names)
  {
    var rest: seq<string> := [];
    assert [b.openMap][1..] == rest;
    PropsLookup(b, b.openMap);
    AtTwo(node.members, "properties", Props(b), b.openMap, rest);
    assert BlockKeys(b, [b.openMap]) == ["properties", b.openMap] + rest;
  }

  /** Nor does a block named `scope`. */
  lemma ScopeBlockHasNoProperties(r: Registry)
    requires HasMode(r) && "scope" in r.blocks
    ensures At(Document(r), ["properties", "scope"] + []) == Some(SCOPE_NODE)
    ensures forall names :: !HasProperties(SCOPE_NODE, names)
  {
    AtTop(r, "scope", []);
  }
}
