/** Translation of resolved KCL types to JSON Schema, and what a JSON Schema accepts. */
module JsonSchema {
  import opened Text

  /** JSON values. Objects are unordered and numbers are compared by value. */
  datatype Json =
    | Null
    | Bool(b: bool)
    | Num(n: real)
    | Str(s: string)
    | Arr(items: seq<Json>)
    | Obj(members: map<string, Json>)

  // ----- JSON Schema 2020-12, the keywords the translation emits -----

  function Get(o: map<string, Json>, k: string): Option<Json> {
    if k in o then Some(o[k]) else None
  }

  /** Section 6.1.1 of JSON Schema Validation. */
  predicate HasType(name: Json, v: Json) {
    match v
    case Null => name == Str("null")
    case Bool(_) => name == Str("boolean")
    case Num(n) => name == Str("number") || (name == Str("integer") && n == n.Floor as real)
    case Str(_) => name == Str("string")
    case Arr(_) => name == Str("array")
    case Obj(_) => name == Str("object")
  }

  /** Section 6.5.3 of JSON Schema Validation. */
  predicate HasMembers(names: Json, v: Json) {
    names.Arr? && v.Obj? ==>
      forall i :: 0 <= i < |names.items| && names.items[i].Str? ==> names.items[i].s in v.members
  }

  /** Which values a schema accepts; every keyword not named here is an annotation. */
  predicate Validates(schema: Json, v: Json)
    decreases schema, 0
  {
    match schema
    case Bool(b) => b
    case Obj(o) =>
      && (Get(o, "type").Some? ==> HasType(Get(o, "type").value, v))
      && (Get(o, "const").Some? ==> v == Get(o, "const").value)
      && (Get(o, "required").Some? ==> HasMembers(Get(o, "required").value, v))
      && (Get(o, "properties").Some? ==> PropertiesValidate(Get(o, "properties").value, v))
      && (Get(o, "additionalProperties").Some? ==>
            OthersValidate(Get(o, "additionalProperties").value, PropertyNames(o), v))
      && (Get(o, "items").Some? ==> ItemsValidate(Get(o, "items").value, v))
      && (Get(o, "oneOf").Some? ==> ExactlyOneValidates(Get(o, "oneOf").value, v))
    case _ => false
  }

  function PropertyNames(o: map<string, Json>): set<string> {
    if Get(o, "properties").Some? && Get(o, "properties").value.Obj? then Get(o, "properties").value.members.Keys
    else {}
  }

  /** Section 10.3.2.1 of JSON Schema Core. */
  predicate PropertiesValidate(props: Json, v: Json)
    decreases props
  {
    props.Obj? && v.Obj? ==>
      forall k :: k in props.members && k in v.members ==> Validates(props.members[k], v.members[k])
  }

  /** Section 10.3.2.3 of JSON Schema Core. */
  predicate OthersValidate(schema: Json, named: set<string>, v: Json)
    decreases schema, 1
  {
    v.Obj? ==> forall k :: k in v.members && k !in named ==> Validates(schema, v.members[k])
  }

  /** Section 10.3.1.2 of JSON Schema Core. */
  predicate ItemsValidate(schema: Json, v: Json)
    decreases schema, 1
  {
    v.Arr? ==> forall i :: 0 <= i < |v.items| ==> Validates(schema, v.items[i])
  }

  /** Section 10.2.1.3 of JSON Schema Core. */
  predicate ExactlyOneValidates(schemas: Json, v: Json)
    decreases schemas
  {
    schemas.Arr? ==>
      ExactlyOne(seq(|schemas.items|, i requires 0 <= i < |schemas.items| => Validates(schemas.items[i], v)))
  }

  predicate ExactlyOne(bs: seq<bool>) {
    exists i :: 0 <= i < |bs| && bs[i] && forall j :: 0 <= j < |bs| && j != i ==> !bs[j]
  }

  // ----- the KCL side -----

  datatype KclType = KclType(
    kind: string,
    schemaName: string,
    properties: map<string, KclType>,
    required: seq<string>,
    item: Option<KclType>,
    unionTypes: seq<KclType>,
    default: string)

  datatype AttrAst = AttrAst(description: Option<string>, xUi: Option<Json>)

  datatype SchemaAst = SchemaAst(doc: Option<string>, attrs: map<string, AttrAst>)

  type SchemaAstMap = map<string, SchemaAst>

  /** What the number parsers make of a literal. */
  datatype Float = Finite(r: real) | NonFinite

  /** Library routines: integer and float parsing, and the JSON reading of a default. */
  datatype Parsers = Parsers(
    int64: string -> Option<int>,
    float64: string -> Option<Float>,
    json: string -> Option<Json>)

  /** `base(literal)` taken apart. */
  function ParseLiteralType(s: string): Option<(string, string)> {
    var open := IndexOf(s, '(');
    if open == |s| || !EndsWith(s, ")") then None
    else
      assert s[|s| - 1] == ')';
      Some((s[..open], s[open + 1..|s| - 1]))
  }

  /** The arms of the translation's match on the type name. */
  datatype Shape =
    | SchemaShape | StrShape | IntShape | NumberShape | BoolShape
    | ListShape | DictShape | UnionShape | AnyShape
    | IntLiteral(text: string) | NumberLiteral(text: string) | BoolLiteral(text: string) | StrLiteral(text: string)
    | Foreign

  function ShapeOf(kind: string): Shape {
    if kind == "schema" then SchemaShape
    else if kind == "str" then StrShape
    else if kind == "int" then IntShape
    else if kind == "float" || kind == "number" || kind == "number_multiplier" then NumberShape
    else if kind == "bool" then BoolShape
    else if kind == "list" then ListShape
    else if kind == "dict" then DictShape
    else if kind == "union" then UnionShape
    else if kind == "any" then AnyShape
    else match ParseLiteralType(kind)
      case None => Foreign
      case Some((base, lit)) =>
        if base == "int" then IntLiteral(lit)
        else if base == "float" || base == "number" then NumberLiteral(lit)
        else if base == "bool" then BoolLiteral(lit)
        else if base == "str" then StrLiteral(lit)
        else Foreign
  }

  function Lower(c: char): char {
    if 'A' <= c <= 'Z' then (c as int + 32) as char else c
  }

  predicate EqIgnoreCase(a: string, b: string) {
    |a| == |b| && forall i :: 0 <= i < |a| ==> Lower(a[i]) == Lower(b[i])
  }

  function FloatJson(f: Float): Json {
    match f case Finite(r) => Num(r) case NonFinite => Null
  }

  function DefaultToJson(p: Parsers, default: string): Json {
    if default == "True" then Bool(true)
    else if default == "False" then Bool(false)
    else match p.json(default) case Some(j) => j case None => Str(default)
  }

  // ----- the translation -----

  /** A property with the metadata of its attribute. */
  function Decorated(prop: Json, attr: AttrAst): Json {
    match prop
    case Obj(o) =>
      var fills := attr.description.Some? && "description" !in o;
      var o := if fills then o["description" := Str(attr.description.value)] else o;
      Obj(if attr.xUi.Some? then o["x-ui" := attr.xUi.value] else o)
    case _ => prop
  }

  function WithMetadata(props: map<string, Json>, s: Option<SchemaAst>): map<string, Json> {
    if s.None? then props
    else map k | k in props :: if k in s.value.attrs then Decorated(props[k], s.value.attrs[k]) else props[k]
  }

  function AstOf(t: KclType, attrName: string, ast: SchemaAstMap): Option<SchemaAst> {
    if t.schemaName in ast then Some(ast[t.schemaName])
    else if attrName in ast then Some(ast[attrName])
    else None
  }

  function Doc(s: Option<SchemaAst>): Option<string> { if s.Some? then s.value.doc else None }

  function Properties(p: Parsers, t: KclType, ast: SchemaAstMap): map<string, Json>
    decreases t, 0
  {
    map k | k in t.properties :: Translate(p, t.properties[k], k, ast)
  }

  function Variants(p: Parsers, ts: seq<KclType>, attrName: string, ast: SchemaAstMap): seq<Json>
    decreases ts, 0
  {
    seq(|ts|, i requires 0 <= i < |ts| => Translate(p, ts[i], attrName, ast))
  }

  function Strings(names: seq<string>): seq<Json> { seq(|names|, i requires 0 <= i < |names| => Str(names[i])) }

  /** The keywords of a type, without its default. */
  function Keywords(p: Parsers, t: KclType, attrName: string, ast: SchemaAstMap): map<string, Json>
    decreases t, 1
  {
    match ShapeOf(t.kind)
    case SchemaShape =>
      var s := AstOf(t, attrName, ast);
      var o := map["type" := Str("object")];
      var o := if Doc(s).Some? then o["description" := Str(Doc(s).value)] else o;
      var o := if t.properties == map[] then o
               else o["properties" := Obj(WithMetadata(Properties(p, t, ast), s))];
      if t.required == [] then o else o["required" := Arr(Strings(t.required))]
    case StrShape => map["type" := Str("string")]
    case IntShape => map["type" := Str("integer")]
    case NumberShape => map["type" := Str("number")]
    case BoolShape => map["type" := Str("boolean")]
    case ListShape =>
      if t.item.None? then map["type" := Str("array")]
      else map["type" := Str("array"), "items" := Translate(p, t.item.value, attrName, ast)]
    case DictShape =>
      if t.item.None? then map["type" := Str("object")]
      else map["type" := Str("object"), "additionalProperties" := Translate(p, t.item.value, attrName, ast)]
    case UnionShape =>
      if t.unionTypes == [] then map[] else map["oneOf" := Arr(Variants(p, t.unionTypes, attrName, ast))]
    case AnyShape => map[]
    case IntLiteral(lit) =>
      var o := map["type" := Str("integer")];
      if p.int64(lit).Some? then o["const" := Num(p.int64(lit).value as real)] else o
    case NumberLiteral(lit) =>
      var o := map["type" := Str("number")];
      if p.float64(lit).Some? then o["const" := FloatJson(p.float64(lit).value)] else o
    case BoolLiteral(lit) => map["type" := Str("boolean"), "const" := Bool(EqIgnoreCase(lit, "true"))]
    case StrLiteral(lit) => map["type" := Str("string"), "const" := Str(lit)]
    case Foreign => map["x-akua-kcl-type" := Str(t.kind)]
  }

  function Translate(p: Parsers, t: KclType, attrName: string, ast: SchemaAstMap): Json
    decreases t, 2
  {
    var o := Keywords(p, t, attrName, ast);
    Obj(if t.default == "" then o else o["default" := DefaultToJson(p, t.default)])
  }

  // ----- the translation as it runs -----

  method PropertiesToJson(p: Parsers, t: KclType, ast: SchemaAstMap) returns (out: map<string, Json>)
    ensures out == Properties(p, t, ast)
    decreases t, 0
  {
    var props := t.properties;
    out := map[];
    var todo := props.Keys;
    while todo != {}
      invariant todo <= props.Keys
      invariant out.Keys == props.Keys - todo
      invariant forall k :: k in out ==> out[k] == Translate(p, props[k], k, ast)
      decreases |todo|
    {
      var k :| k in todo;
      var prop := KclTypeToJsonSchema(p, props[k], k, ast);
      out := out[k := prop];
      todo := todo - {k};
    }
  }

  method ApplyMetadata(props: map<string, Json>, s: SchemaAst) returns (out: map<string, Json>)
    ensures out == WithMetadata(props, Some(s))
  {
    out := props;
    var todo := props.Keys;
    while todo != {}
      invariant todo <= props.Keys && out.Keys == props.Keys
      invariant forall k :: k in todo ==> out[k] == props[k]
      invariant forall k :: k in props && k !in todo ==> out[k] == WithMetadata(props, Some(s))[k]
      decreases |todo|
    {
      var k :| k in todo;
      todo := todo - {k};
      if k !in s.attrs {
        continue;
      }
      if out[k].Obj? {
        var members := out[k].members;
        if s.attrs[k].description.Some? && "description" !in members {
          members := members["description" := Str(s.attrs[k].description.value)];
        }
        if s.attrs[k].xUi.Some? {
          members := members["x-ui" := s.attrs[k].xUi.value];
        }
        out := out[k := Obj(members)];
      }
    }
  }

  method VariantsToJson(p: Parsers, ts: seq<KclType>, attrName: string, ast: SchemaAstMap) returns (out: seq<Json>)
    ensures out == Variants(p, ts, attrName, ast)
    decreases ts, 0
  {
    out := [];
    var i := 0;
    while i < |ts|
      invariant i <= |ts| && |out| == i
      invariant forall j :: 0 <= j < i ==> out[j] == Translate(p, ts[j], attrName, ast)
    {
      var variant := KclTypeToJsonSchema(p, ts[i], attrName, ast);
      out := out + [variant];
      i := i + 1;
    }
  }

  method KclTypeToJsonSchema(p: Parsers, t: KclType, attrName: string, ast: SchemaAstMap) returns (r: Json)
    ensures r == Translate(p, t, attrName, ast)
    decreases t, 1
  {
    var out: map<string, Json> := map[];
    match ShapeOf(t.kind) {
      case SchemaShape =>
        out := out["type" := Str("object")];
        var s := AstOf(t, attrName, ast);
        if Doc(s).Some? {
          out := out["description" := Str(Doc(s).value)];
        }
        if t.properties != map[] {
          var props := PropertiesToJson(p, t, ast);
          if s.Some? {
            props := ApplyMetadata(props, s.value);
          }
          out := out["properties" := Obj(props)];
        }
        if t.required != [] {
          out := out["required" := Arr(Strings(t.required))];
        }
      case StrShape => out := out["type" := Str("string")];
      case IntShape => out := out["type" := Str("integer")];
      case NumberShape => out := out["type" := Str("number")];
      case BoolShape => out := out["type" := Str("boolean")];
      case ListShape =>
        out := out["type" := Str("array")];
        if t.item.Some? {
          var item := KclTypeToJsonSchema(p, t.item.value, attrName, ast);
          out := out["items" := item];
        }
      case DictShape =>
        out := out["type" := Str("object")];
        if t.item.Some? {
          var item := KclTypeToJsonSchema(p, t.item.value, attrName, ast);
          out := out["additionalProperties" := item];
        }
      case UnionShape =>
        var variants := VariantsToJson(p, t.unionTypes, attrName, ast);
        if variants != [] {
          out := out["oneOf" := Arr(variants)];
        }
      case AnyShape =>
      case IntLiteral(lit) =>
        out := out["type" := Str("integer")];
        if p.int64(lit).Some? {
          out := out["const" := Num(p.int64(lit).value as real)];
        }
      case NumberLiteral(lit) =>
        out := out["type" := Str("number")];
        if p.float64(lit).Some? {
          out := out["const" := FloatJson(p.float64(lit).value)];
        }
      case BoolLiteral(lit) =>
        out := out["type" := Str("boolean")];
        out := out["const" := Bool(EqIgnoreCase(lit, "true"))];
      case StrLiteral(lit) =>
        out := out["type" := Str("string")];
        out := out["const" := Str(lit)];
      case Foreign => out := out["x-akua-kcl-type" := Str(t.kind)];
    }
    if t.default != "" {
      out := out["default" := DefaultToJson(p, t.default)];
    }
    r := Obj(out);
  }
}
