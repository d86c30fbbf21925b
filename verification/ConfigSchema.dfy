/** The block registry and its compilation to JSON Schema (riglib/config_schema.py). */
module ConfigSchema {
  import opened Text
  import opened JsonSchema

  // ---- descriptors; an absent or empty optional string is "" ----

  datatype LeafType = One(name: string) | Union(names: seq<string>)

  datatype Leaf = Leaf(
    kind: LeafType,
    doc: string,
    choices: seq<Json>,
    default: Option<Json>,
    minimum: Option<int>,
    maximum: Option<int>,
    itemsType: string,
    itemsEnum: seq<string>,
    itemsPattern: string,
    additionalPropertiesType: string,
    notPattern: string)

  datatype Block = Block(
    doc: string,
    leaves: map<string, Leaf>,
    nested: map<string, Block>,
    openMap: string,
    openMapDoc: string,
    openMapItem: Option<Block>,
    openMapItemRequired: seq<string>,
    additionalProperties: Option<Json>,
    schemaExtra: map<string, Json>,
    closed: bool,
    nullable: bool)

  // ---- the compiled node ----

  type Node = map<string, Json>

  function Strings(xs: seq<string>): Json {
    JArr(seq(|xs|, i requires 0 <= i < |xs| => JStr(xs[i])))
  }

  function TypeNode(kind: LeafType): Json {
    match kind
    case One(name) => JStr(name)
    case Union(names) => Strings(names)
  }

  /** `if condition: node[key] = value`. */
  function With(node: Node, condition: bool, key: string, value: Json): Node {
    if condition then node[key := value] else node
  }

  function Bound(n: Option<int>): Json {
    if n.Some? then JNum(n.value as real) else JNull
  }

  function ItemsNode(l: Leaf): Node {
    var n1 := map["type" := JStr(l.itemsType)];
    var n2 := With(n1, l.minimum.Some?, "minimum", Bound(l.minimum));
    var n3 := With(n2, l.maximum.Some?, "maximum", Bound(l.maximum));
    var n4 := With(n3, l.itemsEnum != [], "enum", Strings(l.itemsEnum));
    With(n4, l.itemsPattern != "", "pattern", JStr(l.itemsPattern))
  }

  /** The keywords of every kind of leaf. */
  function LeafBase(l: Leaf): Node {
    var scalar := l.kind != One("array");
    var n0: Node := map["type" := TypeNode(l.kind), "description" := JStr(l.doc)];
    var n1 := With(n0, l.choices != [], "enum", JArr(l.choices));
    var n2 := With(n1, l.default.Some?, "default", if l.default.Some? then l.default.value else JNull);
    var n3 := With(n2, l.minimum.Some? && scalar, "minimum", Bound(l.minimum));
    With(n3, l.maximum.Some? && scalar, "maximum", Bound(l.maximum))
  }

  function LeafNode(l: Leaf): Node {
    var n5 := With(LeafBase(l), l.kind == One("array") && l.itemsType != "", "items", JObj(ItemsNode(l)));
    var n6 := With(n5, l.kind == One("object") && l.additionalPropertiesType != "", "additionalProperties",
      JObj(map["type" := JStr(l.additionalPropertiesType)]));
    With(n6, l.kind == One("string") && l.notPattern != "", "not", JObj(map["pattern" := JStr(l.notPattern)]))
  }

  function ChildKeys(b: Block): set<string> {
    b.leaves.Keys + b.nested.Keys + if b.openMap != "" then {b.openMap} else {}
  }

  /** The emitted node of a fixed child: a nested block wins over a leaf of the same name. */
  function FixedNode(b: Block, name: string): Json
    requires name in b.leaves || name in b.nested
    decreases b, 0
  {
    if name in b.nested then JObj(BlockNode(b.nested[name])) else JObj(LeafNode(b.leaves[name]))
  }

  function ItemNode(item: Block, required: seq<string>): Node
    decreases item, 4
  {
    With(BlockNode(item), required != [], "required", Strings(required))
  }

  function OpenMapNodeWith(b: Block, additional: Json): Json {
    var doc := if b.openMapDoc != "" then b.openMapDoc else "per-item overrides keyed by item name";
    JObj(map["type" := JStr("object"), "description" := JStr(doc), "additionalProperties" := additional])
  }

  function OpenMapNode(b: Block): Json
    decreases b, 0
  {
    OpenMapNodeWith(b,
      if b.openMapItem.Some? then JObj(ItemNode(b.openMapItem.value, b.openMapItemRequired))
      else JObj(map["type" := JStr("object")]))
  }

  function FixedProps(b: Block): Node
    decreases b, 1
  {
    map name | name in b.leaves.Keys + b.nested.Keys :: FixedNode(b, name)
  }

  /** The open map wins over a fixed child of the same name. */
  function Props(b: Block): Node
    decreases b, 2
  {
    With(FixedProps(b), b.openMap != "", b.openMap, OpenMapNode(b))
  }

  function Additional(b: Block): Json {
    if b.additionalProperties.Some? then b.additionalProperties.value else JBool(!b.closed)
  }

  function OwnType(b: Block): Json {
    if b.nullable then Strings(["object", "null"]) else JStr("object")
  }

  function OwnNode(b: Block, props: Node): Node {
    map["type" := OwnType(b), "description" := JStr(b.doc), "properties" := JObj(props), "additionalProperties" := Additional(b)]
  }

  function BlockNode(b: Block): Node
    decreases b, 3
  {
    OwnNode(b, Props(b)) + b.schemaExtra
  }

  /** The properties after the leaves, and after the nested blocks except `todo`. */
  ghost predicate Filled(b: Block, props: Node, todo: set<string>) {
    && props.Keys == b.leaves.Keys + (b.nested.Keys - todo)
    && forall name :: name in props ==>
      props[name] == if name in todo then JObj(LeafNode(b.leaves[name])) else FixedNode(b, name)
  }

  ghost predicate LeavesFilled(b: Block, props: Node, todo: set<string>) {
    && todo <= b.leaves.Keys && props.Keys == b.leaves.Keys - todo
    && forall name :: name in props ==> props[name] == JObj(LeafNode(b.leaves[name]))
  }

  lemma LeavesStep(b: Block, props: Node, todo: set<string>, name: string)
    requires LeavesFilled(b, props, todo) && name in todo
    ensures LeavesFilled(b, props[name := JObj(LeafNode(b.leaves[name]))], todo - {name})
  {
  }

  lemma FilledStart(b: Block, props: Node)
    requires LeavesFilled(b, props, {})
    ensures Filled(b, props, b.nested.Keys)
  {
  }

  lemma FilledStep(b: Block, props: Node, todo: set<string>, name: string, child: Node)
    requires todo <= b.nested.Keys && Filled(b, props, todo) && name in todo && child == BlockNode(b.nested[name])
    ensures Filled(b, props[name := JObj(child)], todo - {name})
  {
  }

  lemma FilledAll(b: Block, props: Node)
    requires Filled(b, props, {})
    ensures props == FixedProps(b)
  {
  }

  lemma OpenMapNodeIs(b: Block, additional: Json)
    requires additional == if b.openMapItem.Some? then JObj(ItemNode(b.openMapItem.value, b.openMapItemRequired))
      else JObj(map["type" := JStr("object")])
    ensures OpenMapNodeWith(b, additional) == OpenMapNode(b)
  {
  }

  lemma PropsWithOpenMap(b: Block, fixed: Node, openMap: Json)
    requires fixed == FixedProps(b) && openMap == OpenMapNode(b) && b.openMap != ""
    ensures fixed[b.openMap := openMap] == Props(b)
  {
  }

  lemma Assembled(b: Block, props: Node)
    requires props == Props(b)
    ensures OwnNode(b, props) + b.schemaExtra == BlockNode(b)
  {
  }

  lemma PropsWithout(b: Block, fixed: Node)
    requires fixed == FixedProps(b) && b.openMap == ""
    ensures fixed == Props(b)
  {
  }

  /** `Block.to_node`: fills the properties one child at a time. */
  method ToNode(b: Block) returns (node: Node)
    ensures node == BlockNode(b)
    decreases b
  {
    var props: Node := map[];
    var todo := b.leaves.Keys;
    while todo != {}
      invariant LeavesFilled(b, props, todo)
      decreases todo
    {
      var name :| name in todo;
      LeavesStep(b, props, todo, name);
      props := props[name := JObj(LeafNode(b.leaves[name]))];
      todo := todo - {name};
    }
    FilledStart(b, props);
    todo := b.nested.Keys;
    while todo != {}
      invariant todo <= b.nested.Keys && Filled(b, props, todo)
      decreases todo
    {
      var name :| name in todo;
      var child := ToNode(b.nested[name]);
      FilledStep(b, props, todo, name, child);
      props := props[name := JObj(child)];
      todo := todo - {name};
    }
    FilledAll(b, props);
    if b.openMap != "" {
      var additional := JObj(map["type" := JStr("object")]);
      if b.openMapItem.Some? {
        var item := ToNode(b.openMapItem.value);
        additional := JObj(With(item, b.openMapItemRequired != [], "required", Strings(b.openMapItemRequired)));
        assert additional == JObj(ItemNode(b.openMapItem.value, b.openMapItemRequired));
      }
      OpenMapNodeIs(b, additional);
      PropsWithOpenMap(b, props, OpenMapNodeWith(b, additional));
      props := props[b.openMap := OpenMapNodeWith(b, additional)];
    } else {
      PropsWithout(b, props);
    }
    Assembled(b, props);
    node := OwnNode(b, props) + b.schemaExtra;
  }

  // ---- the descriptors read directly ----

  predicate InBounds(l: Leaf, d: Json) {
    d.JNum? ==> (l.minimum.Some? ==> l.minimum.value as real <= d.n) && (l.maximum.Some? ==> d.n <= l.maximum.value as real)
  }

  predicate OfKind(kind: LeafType, d: Json) {
    match kind
    case One(name) => HasType(d, name)
    case Union(names) => exists name :: name in names && HasType(d, name)
  }

  predicate ItemAllowed(search: Search, l: Leaf, d: Json) {
    && HasType(d, l.itemsType)
    && InBounds(l, d)
    && (l.itemsEnum != [] ==> d.JStr? && d.s in l.itemsEnum)
    && (l.itemsPattern != "" && d.JStr? ==> search(l.itemsPattern, d.s))
  }

  /** What the fields of a leaf say about a value. */
  predicate LeafAccepts(search: Search, l: Leaf, d: Json) {
    && OfKind(l.kind, d)
    && (l.choices != [] ==> d in l.choices)
    && (if l.kind == One("array") then
          l.itemsType != "" && d.JArr? ==> forall i :: 0 <= i < |d.items| ==> ItemAllowed(search, l, d.items[i])
        else InBounds(l, d))
    && (l.kind == One("object") && l.additionalPropertiesType != "" && d.JObj? ==>
          forall k :: k in d.members ==> HasType(d.members[k], l.additionalPropertiesType))
    && (l.kind == One("string") && l.notPattern != "" && d.JStr? ==> !search(l.notPattern, d.s))
  }

  /** The raw keywords of `schema_extra`, which replace the block's own where they name the same one. */
  function Extra(b: Block, required: seq<string>): Node {
    With(b.schemaExtra, required != [], "required", Strings(required))
  }

  const STRUCTURE := {"type", "description", "properties", "additionalProperties"}

  /** What the fields of a block say about a value; `required` names the keys an open-map item must have. */
  ghost predicate BlockAccepts(search: Search, b: Block, required: seq<string>, d: Json)
    decreases b, 1
  {
    && (if "type" in b.schemaExtra then TypeRule(b.schemaExtra["type"], d) else d.JObj? || (b.nullable && d.JNull?))
    && Validates(search, JObj(Extra(b, required) - STRUCTURE), d)
    && (d.JObj? ==> forall k :: k in d.members ==> MemberAccepts(search, b, k, d.members[k]))
  }

  ghost predicate MemberAccepts(search: Search, b: Block, key: string, v: Json)
    decreases b, 0
  {
    if "properties" in b.schemaExtra then
      if b.schemaExtra["properties"].JObj? && key in b.schemaExtra["properties"].members
      then Validates(search, b.schemaExtra["properties"].members[key], v)
      else UnknownAccepts(search, b, v)
    else if b.openMap != "" && key == b.openMap then
      v.JObj? && forall k :: k in v.members ==>
        if b.openMapItem.Some? then BlockAccepts(search, b.openMapItem.value, b.openMapItemRequired, v.members[k])
        else v.members[k].JObj?
    else if key in b.nested then BlockAccepts(search, b.nested[key], [], v)
    else if key in b.leaves then LeafAccepts(search, b.leaves[key], v)
    else UnknownAccepts(search, b, v)
  }

  ghost predicate UnknownAccepts(search: Search, b: Block, v: Json) {
    if "additionalProperties" in b.schemaExtra then Validates(search, b.schemaExtra["additionalProperties"], v)
    else if b.additionalProperties.Some? then Validates(search, b.additionalProperties.value, v)
    else !b.closed
  }

  // ---- compilation preserves the meaning ----

  lemma StringsMember(xs: seq<string>, d: Json)
    ensures d in Strings(xs).items <==> d.JStr? && d.s in xs
  {
    if d.JStr? && d.s in xs {
      var i :| 0 <= i < |xs| && xs[i] == d.s;
      assert Strings(xs).items[i] == d;
    }
  }

  lemma TypeNodeMeans(kind: LeafType, d: Json)
    ensures TypeRule(TypeNode(kind), d) <==> OfKind(kind, d)
  {
    if kind.Union? {
      forall name | name in kind.names ensures JStr(name) in Strings(kind.names).items {
        StringsMember(kind.names, JStr(name));
      }
      if TypeRule(TypeNode(kind), d) {
        var t :| t in Strings(kind.names).items && t.JStr? && HasType(d, t.s);
        StringsMember(kind.names, t);
      }
    }
  }

  function Get(n: Node, key: string): Option<Json> {
    if key in n then Some(n[key]) else None
  }

  function When(condition: bool, value: Json): Option<Json> {
    if condition then Some(value) else None
  }

  /** The keywords whose arguments are schemas. */
  const HOLDERS := {"items", "properties", "additionalProperties", "not", "anyOf", "oneOf"}

  /** The keywords of the schema compiled for the items of a list. */
  ghost predicate ItemsKeywords(l: Leaf, m: Node) {
    && Get(m, "type") == Some(JStr(l.itemsType))
    && Get(m, "minimum") == When(l.minimum.Some?, Bound(l.minimum))
    && Get(m, "maximum") == When(l.maximum.Some?, Bound(l.maximum))
    && Get(m, "enum") == When(l.itemsEnum != [], Strings(l.itemsEnum))
    && Get(m, "pattern") == When(l.itemsPattern != "", JStr(l.itemsPattern))
    && "required" !in m && m.Keys !! HOLDERS
  }

  lemma ItemsLookup(l: Leaf)
    ensures ItemsKeywords(l, ItemsNode(l))
  {
  }

  lemma ItemsPlain(search: Search, l: Leaf, m: Node, d: Json)
    requires ItemsKeywords(l, m)
    ensures PlainRules(search, m, d) <==> ItemAllowed(search, l, d)
  {
    StringsMember(l.itemsEnum, d);
  }

  lemma NoStructure(search: Search, m: Node, d: Json)
    requires m.Keys !! HOLDERS
    ensures ItemRules(search, JObj(m), d) && MemberRules(search, JObj(m), d) && LogicRules(search, JObj(m), d)
  {
    assert forall k :: k in HOLDERS ==> k !in m;
  }

  lemma ItemsNodeMeans(search: Search, l: Leaf, d: Json)
    ensures Validates(search, JObj(ItemsNode(l)), d) <==> ItemAllowed(search, l, d)
  {
    var m := ItemsNode(l);
    ItemsLookup(l);
    ItemsPlain(search, l, m, d);
    NoStructure(search, m, d);
  }

  /** The keywords of a compiled leaf, one by one. */
  function LeafKeyword(l: Leaf, key: string): Option<Json> {
    if key == "items" then When(l.kind == One("array") && l.itemsType != "", JObj(ItemsNode(l)))
    else if key == "additionalProperties" then
      When(l.kind == One("object") && l.additionalPropertiesType != "", JObj(map["type" := JStr(l.additionalPropertiesType)]))
    else if key == "not" then When(l.kind == One("string") && l.notPattern != "", JObj(map["pattern" := JStr(l.notPattern)]))
    else BaseKeyword(l, key)
  }

  function BaseKeyword(l: Leaf, key: string): Option<Json> {
    var scalar := l.kind != One("array");
    if key == "type" then Some(TypeNode(l.kind))
    else if key == "description" then Some(JStr(l.doc))
    else if key == "enum" then When(l.choices != [], JArr(l.choices))
    else if key == "default" then l.default
    else if key == "minimum" then When(l.minimum.Some? && scalar, Bound(l.minimum))
    else if key == "maximum" then When(l.maximum.Some? && scalar, Bound(l.maximum))
    else None
  }

  lemma GetWith(n: Node, condition: bool, key: string, value: Json, k: string)
    ensures Get(With(n, condition, key, value), k) == if condition && k == key then Some(value) else Get(n, k)
  {
  }

  lemma BaseLookup(l: Leaf, key: string)
    ensures Get(LeafBase(l), key) == BaseKeyword(l, key)
  {
  }

  lemma LeafLookup(l: Leaf, key: string)
    ensures Get(LeafNode(l), key) == LeafKeyword(l, key)
  {
    BaseLookup(l, key);
    var n5 := With(LeafBase(l), l.kind == One("array") && l.itemsType != "", "items", JObj(ItemsNode(l)));
    GetWith(LeafBase(l), l.kind == One("array") && l.itemsType != "", "items", JObj(ItemsNode(l)), key);
    GetWith(n5, l.kind == One("object") && l.additionalPropertiesType != "", "additionalProperties",
      JObj(map["type" := JStr(l.additionalPropertiesType)]), key);
  }

  lemma TypeOnlyMeans(search: Search, name: string, d: Json)
    ensures Validates(search, JObj(map["type" := JStr(name)]), d) <==> HasType(d, name)
  {
  }

  lemma PatternOnlyMeans(search: Search, pattern: string, d: Json)
    ensures Validates(search, JObj(map["pattern" := JStr(pattern)]), d) <==> (d.JStr? ==> search(pattern, d.s))
  {
  }

  lemma LeafBounds(l: Leaf, d: Json)
    ensures var m := LeafNode(l);
      && ("minimum" in m ==> MinimumRule(m["minimum"], d)) && ("maximum" in m ==> MaximumRule(m["maximum"], d))
      <==> (l.kind != One("array") ==> InBounds(l, d))
  {
    LeafLookup(l, "minimum");
    LeafLookup(l, "maximum");
  }

  lemma LeafTypes(l: Leaf, d: Json)
    ensures var m := LeafNode(l);
      && ("type" in m ==> TypeRule(m["type"], d)) && ("enum" in m ==> EnumRule(m["enum"], d))
      <==> OfKind(l.kind, d) && (l.choices != [] ==> d in l.choices)
  {
    LeafLookup(l, "type");
    LeafLookup(l, "enum");
    TypeNodeMeans(l.kind, d);
  }

  lemma LeafPlain(search: Search, l: Leaf, d: Json)
    ensures PlainRules(search, LeafNode(l), d) <==>
      OfKind(l.kind, d) && (l.choices != [] ==> d in l.choices) && (l.kind != One("array") ==> InBounds(l, d))
  {
    LeafTypes(l, d);
    LeafBounds(l, d);
    LeafLookup(l, "pattern");
    LeafLookup(l, "required");
  }

  lemma LeafItems(search: Search, l: Leaf, d: Json)
    ensures ItemRules(search, JObj(LeafNode(l)), d) <==>
      (l.kind == One("array") && l.itemsType != "" && d.JArr? ==> forall i :: 0 <= i < |d.items| ==> ItemAllowed(search, l, d.items[i]))
  {
    LeafLookup(l, "items");
    if d.JArr? {
      forall i | 0 <= i < |d.items|
        ensures Validates(search, JObj(ItemsNode(l)), d.items[i]) <==> ItemAllowed(search, l, d.items[i])
      {
        ItemsNodeMeans(search, l, d.items[i]);
      }
    }
  }

  lemma LeafMembers(search: Search, l: Leaf, d: Json)
    ensures MemberRules(search, JObj(LeafNode(l)), d) <==>
      (l.kind == One("object") && l.additionalPropertiesType != "" && d.JObj? ==>
        forall k :: k in d.members ==> HasType(d.members[k], l.additionalPropertiesType))
  {
    LeafLookup(l, "properties");
    LeafLookup(l, "additionalProperties");
    if d.JObj? {
      forall k | k in d.members {
        TypeOnlyMeans(search, l.additionalPropertiesType, d.members[k]);
      }
    }
  }

  lemma LeafLogic(search: Search, l: Leaf, d: Json)
    ensures LogicRules(search, JObj(LeafNode(l)), d) <==>
      (l.kind == One("string") && l.notPattern != "" ==> d.JStr? && !search(l.notPattern, d.s))
  {
    LeafLookup(l, "not");
    LeafLookup(l, "anyOf");
    LeafLookup(l, "oneOf");
    PatternOnlyMeans(search, l.notPattern, d);
  }

  /** A compiled leaf accepts what the leaf says. */
  lemma LeafNodeMeans(search: Search, l: Leaf, d: Json)
    ensures Validates(search, JObj(LeafNode(l)), d) <==> LeafAccepts(search, l, d)
  {
    LeafPlain(search, l, d);
    LeafItems(search, l, d);
    LeafMembers(search, l, d);
    LeafLogic(search, l, d);
  }

  // ---- blocks ----

  lemma NodeLookup(b: Block, required: seq<string>, key: string)
    ensures Get(ItemNode(b, required), key) ==
      if required != [] && key == "required" then Some(Strings(required))
      else if key in b.schemaExtra then Some(b.schemaExtra[key])
      else Get(OwnNode(b, Props(b)), key)
  {
  }

  /** Outside its structural keywords a compiled block holds the raw keywords and nothing else. */
  lemma ExtraLookup(b: Block, required: seq<string>, key: string)
    requires key !in STRUCTURE
    ensures Get(ItemNode(b, required), key) == Get(Extra(b, required) - STRUCTURE, key)
  {
    NodeLookup(b, required, key);
  }

  lemma OwnTypeMeans(b: Block, d: Json)
    ensures TypeRule(OwnType(b), d) <==> d.JObj? || (b.nullable && d.JNull?)
  {
    if b.nullable {
      TypeNodeMeans(Union(["object", "null"]), d);
      assert OfKind(Union(["object", "null"]), d) <==> HasType(d, "object") || HasType(d, "null") by {
        assert "object" in ["object", "null"] && "null" in ["object", "null"];
      }
    }
  }

  lemma BlockPlain(search: Search, b: Block, required: seq<string>, d: Json)
    ensures PlainRules(search, ItemNode(b, required), d) <==>
      (if "type" in b.schemaExtra then TypeRule(b.schemaExtra["type"], d) else d.JObj? || (b.nullable && d.JNull?))
      && PlainRules(search, Extra(b, required) - STRUCTURE, d)
  {
    NodeLookup(b, required, "type");
    OwnTypeMeans(b, d);
    ExtraLookup(b, required, "enum");
    ExtraLookup(b, required, "minimum");
    ExtraLookup(b, required, "maximum");
    ExtraLookup(b, required, "pattern");
    ExtraLookup(b, required, "required");
  }

  lemma BlockItems(search: Search, b: Block, required: seq<string>, d: Json)
    ensures ItemRules(search, JObj(ItemNode(b, required)), d) <==> ItemRules(search, JObj(Extra(b, required) - STRUCTURE), d)
  {
    ExtraLookup(b, required, "items");
  }

  lemma BlockLogic(search: Search, b: Block, required: seq<string>, d: Json)
    ensures LogicRules(search, JObj(ItemNode(b, required)), d) <==> LogicRules(search, JObj(Extra(b, required) - STRUCTURE), d)
  {
    ExtraLookup(b, required, "not");
    ExtraLookup(b, required, "anyOf");
    ExtraLookup(b, required, "oneOf");
  }

  /** What the compiled block demands of the member `k`. */
  ghost predicate NodeMember(search: Search, m: Node, k: string, v: Json) {
    if "properties" in m && m["properties"].JObj? && k in m["properties"].members
    then Validates(search, m["properties"].members[k], v)
    else "additionalProperties" in m ==> Validates(search, m["additionalProperties"], v)
  }

  lemma NodeMembers(search: Search, m: Node, d: Json)
    ensures MemberRules(search, JObj(m), d) <==> (d.JObj? ==> forall k :: k in d.members ==> NodeMember(search, m, k, d.members[k]))
  {
  }

  lemma PropsLookup(b: Block, k: string)
    ensures Get(Props(b), k) ==
      if b.openMap != "" && k == b.openMap then Some(OpenMapNode(b))
      else if k in b.nested then Some(JObj(BlockNode(b.nested[k])))
      else if k in b.leaves then Some(JObj(LeafNode(b.leaves[k])))
      else None
  {
    var fixed := FixedProps(b);
    assert k in fixed <==> k in b.leaves || k in b.nested;
    if k in fixed {
      assert fixed[k] == FixedNode(b, k);
      assert FixedNode(b, k) == if k in b.nested then JObj(BlockNode(b.nested[k])) else JObj(LeafNode(b.leaves[k]));
    }
    assert Props(b) == With(fixed, b.openMap != "", b.openMap, OpenMapNode(b));
  }

  lemma UnknownMeans(search: Search, b: Block, required: seq<string>, v: Json)
    ensures "additionalProperties" in ItemNode(b, required)
    ensures Validates(search, ItemNode(b, required)["additionalProperties"], v) <==> UnknownAccepts(search, b, v)
  {
    NodeLookup(b, required, "additionalProperties");
  }

  ghost predicate OpenMapMember(search: Search, b: Block, v: Json) {
    if b.openMapItem.Some? then BlockAccepts(search, b.openMapItem.value, b.openMapItemRequired, v) else v.JObj?
  }

  lemma OpenMapMemberMeans(search: Search, b: Block, k: string, v: Json)
    ensures NodeMember(search, OpenMapNode(b).members, k, v) <==> OpenMapMember(search, b, v)
    decreases b, 0
  {
    if b.openMapItem.Some? {
      BlockNodeMeans(search, b.openMapItem.value, b.openMapItemRequired, v);
    } else {
      TypeOnlyMeans(search, "object", v);
    }
  }

  lemma OpenMapMeans(search: Search, b: Block, v: Json)
    ensures Validates(search, OpenMapNode(b), v) <==> v.JObj? && forall k :: k in v.members ==> OpenMapMember(search, b, v.members[k])
    decreases b, 1
  {
    var m := OpenMapNode(b).members;
    NodeMembers(search, m, v);
    assert Validates(search, OpenMapNode(b), v) <==> v.JObj? && MemberRules(search, OpenMapNode(b), v);
    if v.JObj? {
      forall k | k in v.members
        ensures NodeMember(search, m, k, v.members[k]) <==> OpenMapMember(search, b, v.members[k])
      {
        OpenMapMemberMeans(search, b, k, v.members[k]);
      }
    }
  }

  /** A member is governed by the properties in force, or else by the additional schema. */
  lemma NodeMemberIs(search: Search, b: Block, required: seq<string>, k: string, v: Json)
    requires "properties" !in b.schemaExtra
    ensures NodeMember(search, ItemNode(b, required), k, v) <==>
      if k in Props(b) then Validates(search, Props(b)[k], v) else UnknownAccepts(search, b, v)
  {
    NodeLookup(b, required, "properties");
    UnknownMeans(search, b, required, v);
  }

  lemma OverriddenMember(search: Search, b: Block, required: seq<string>, k: string, v: Json)
    requires "properties" in b.schemaExtra
    ensures NodeMember(search, ItemNode(b, required), k, v) <==> MemberAccepts(search, b, k, v)
  {
    NodeLookup(b, required, "properties");
    UnknownMeans(search, b, required, v);
  }

  lemma MemberMeans(search: Search, b: Block, required: seq<string>, k: string, v: Json)
    ensures NodeMember(search, ItemNode(b, required), k, v) <==> MemberAccepts(search, b, k, v)
    decreases b, 2
  {
    if "properties" in b.schemaExtra {
      OverriddenMember(search, b, required, k, v);
    } else {
      NodeMemberIs(search, b, required, k, v);
      PropsLookup(b, k);
      if b.openMap != "" && k == b.openMap {
        OpenMapMeans(search, b, v);
      } else if k in b.nested {
        BlockNodeMeans(search, b.nested[k], [], v);
      } else if k in b.leaves {
        LeafNodeMeans(search, b.leaves[k], v);
      }
    }
  }

  /** The compiled block accepts a document exactly when the descriptors do, for every registry tree and document. */
  lemma {:induction false} BlockNodeMeans(search: Search, b: Block, required: seq<string>, d: Json)
    ensures Validates(search, JObj(ItemNode(b, required)), d) <==> BlockAccepts(search, b, required, d)
    decreases b, 3
  {
    var m, extra := ItemNode(b, required), Extra(b, required) - STRUCTURE;
    BlockPlain(search, b, required, d);
    BlockItems(search, b, required, d);
    BlockLogic(search, b, required, d);
    NodeMembers(search, m, d);
    NodeMembers(search, extra, d);
    if d.JObj? {
      forall k | k in d.members
        ensures NodeMember(search, m, k, d.members[k]) <==> MemberAccepts(search, b, k, d.members[k])
      {
        MemberMeans(search, b, required, k, d.members[k]);
      }
    }
  }
}
