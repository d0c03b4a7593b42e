/** What a translated schema accepts, and how that compares with the values of the KCL type. */
module JsonSchemaProperties {
  import opened Text
  import opened JsonSchema

  predicate IsInteger(v: Json) { v.Num? && v.n == v.n.Floor as real }

  // ----- what the emitted schema accepts -----

  /** The values the schema of `t` accepts, said in terms of the type alone: records are
      open, and a union takes the values of exactly one branch. */
  predicate Accepts(p: Parsers, t: KclType, v: Json)
    decreases t, 0
  {
    match ShapeOf(t.kind)
    case SchemaShape =>
      && v.Obj?
      && (forall i :: 0 <= i < |t.required| ==> t.required[i] in v.members)
      && (forall k :: k in t.properties && k in v.members ==> Accepts(p, t.properties[k], v.members[k]))
    case StrShape => v.Str?
    case IntShape => IsInteger(v)
    case NumberShape => v.Num?
    case BoolShape => v.Bool?
    case ListShape =>
      v.Arr? && (t.item.Some? ==> forall i :: 0 <= i < |v.items| ==> Accepts(p, t.item.value, v.items[i]))
    case DictShape =>
      v.Obj? && (t.item.Some? ==> forall k :: k in v.members ==> Accepts(p, t.item.value, v.members[k]))
    case UnionShape =>
      t.unionTypes != [] ==> ExactlyOne(Verdicts(p, t.unionTypes, v))
    case AnyShape => true
    case IntLiteral(lit) => IsInteger(v) && (p.int64(lit).Some? ==> v == Num(p.int64(lit).value as real))
    case NumberLiteral(lit) => v.Num? && (p.float64(lit).Some? ==> v == FloatJson(p.float64(lit).value))
    case BoolLiteral(lit) => v == Bool(EqIgnoreCase(lit, "true"))
    case StrLiteral(lit) => v == Str(lit)
    case Foreign => true
  }

  function Verdicts(p: Parsers, ts: seq<KclType>, v: Json): seq<bool>
    decreases ts
  {
    seq(|ts|, i requires 0 <= i < |ts| => Accepts(p, ts[i], v))
  }

  predicate IsAnnotation(k: string) { k == "default" || k == "description" || k == "x-ui" || k == "x-akua-kcl-type" }

  /** The assertion keywords of a schema object. */
  datatype Assertions = Assertions(
    kind: Option<Json>, literal: Option<Json>, required: Option<Json>, properties: Option<Json>,
    additional: Option<Json>, items: Option<Json>, oneOf: Option<Json>)

  const NO_ASSERTIONS := Assertions(None, None, None, None, None, None, None)

  function AssertionsOf(o: map<string, Json>): Assertions {
    Assertions(Get(o, "type"), Get(o, "const"), Get(o, "required"), Get(o, "properties"),
      Get(o, "additionalProperties"), Get(o, "items"), Get(o, "oneOf"))
  }

  function Named(props: Option<Json>): set<string> {
    match props case Some(Obj(m)) => m.Keys case _ => {}
  }

  predicate Meets(a: Assertions, v: Json) {
    && (a.kind.Some? ==> HasType(a.kind.value, v))
    && (a.literal.Some? ==> v == a.literal.value)
    && (a.required.Some? ==> HasMembers(a.required.value, v))
    && (a.properties.Some? ==> PropertiesValidate(a.properties.value, v))
    && (a.additional.Some? ==> OthersValidate(a.additional.value, Named(a.properties), v))
    && (a.items.Some? ==> ItemsValidate(a.items.value, v))
    && (a.oneOf.Some? ==> ExactlyOneValidates(a.oneOf.value, v))
  }

  lemma {:induction false} ObjectSchema(o: map<string, Json>, v: Json)
    ensures Validates(Obj(o), v) <==> Meets(AssertionsOf(o), v)
  {
    assert PropertyNames(o) == Named(Get(o, "properties"));
  }

  /** An annotation changes nothing a schema accepts. */
  lemma {:induction false} AnnotationsDoNotMatter(o: map<string, Json>, k: string, j: Json, v: Json)
    requires IsAnnotation(k)
    ensures Validates(Obj(o[k := j]), v) <==> Validates(Obj(o), v)
  {
    assert AssertionsOf(o[k := j]) == AssertionsOf(o);
    ObjectSchema(o[k := j], v);
    ObjectSchema(o, v);
  }

  lemma {:induction false} DecorationDoesNotMatter(prop: Json, attr: AttrAst, v: Json)
    ensures Validates(Decorated(prop, attr), v) <==> Validates(prop, v)
  {
    if prop.Obj? {
      var o := prop.members;
      var fills := attr.description.Some? && "description" !in o;
      var o' := if fills then o["description" := Str(attr.description.value)] else o;
      if attr.description.Some? {
        AnnotationsDoNotMatter(o, "description", Str(attr.description.value), v);
      }
      if attr.xUi.Some? {
        AnnotationsDoNotMatter(o', "x-ui", attr.xUi.value, v);
      }
    }
  }

  // ----- one lemma per arm: which keywords it emits, and what they mean -----

  lemma {:induction false} SchemaAssertions(p: Parsers, t: KclType, attrName: string, ast: SchemaAstMap)
    requires ShapeOf(t.kind) == SchemaShape
    ensures AssertionsOf(Keywords(p, t, attrName, ast)) == NO_ASSERTIONS.(
      kind := Some(Str("object")),
      required := if t.required == [] then None else Some(Arr(Strings(t.required))),
      properties := if t.properties == map[] then None
                    else Some(Obj(WithMetadata(Properties(p, t, ast), AstOf(t, attrName, ast)))))
  {
  }

  lemma {:induction false} ContainerAssertions(p: Parsers, t: KclType, attrName: string, ast: SchemaAstMap)
    ensures ShapeOf(t.kind) == ListShape ==> AssertionsOf(Keywords(p, t, attrName, ast)) == NO_ASSERTIONS.(
      kind := Some(Str("array")),
      items := if t.item.None? then None else Some(Translate(p, t.item.value, attrName, ast)))
    ensures ShapeOf(t.kind) == DictShape ==> AssertionsOf(Keywords(p, t, attrName, ast)) == NO_ASSERTIONS.(
      kind := Some(Str("object")),
      additional := if t.item.None? then None else Some(Translate(p, t.item.value, attrName, ast)))
    ensures ShapeOf(t.kind) == UnionShape ==> AssertionsOf(Keywords(p, t, attrName, ast)) == NO_ASSERTIONS.(
      oneOf := if t.unionTypes == [] then None else Some(Arr(Variants(p, t.unionTypes, attrName, ast))))
  {
  }

  lemma {:induction false} LeafAssertions(p: Parsers, t: KclType, attrName: string, ast: SchemaAstMap)
    requires !(ShapeOf(t.kind).SchemaShape? || ShapeOf(t.kind).ListShape? || ShapeOf(t.kind).DictShape?
               || ShapeOf(t.kind).UnionShape?)
    ensures AssertionsOf(Keywords(p, t, attrName, ast)) == LeafKeywords(p, ShapeOf(t.kind))
  {
    var shape := ShapeOf(t.kind);
    if shape.IntLiteral? || shape.NumberLiteral? || shape.BoolLiteral? || shape.StrLiteral? {
      LiteralAssertions(p, t, attrName, ast);
    } else {
      ScalarAssertions(p, t, attrName, ast);
    }
  }

  lemma {:induction false} ScalarAssertions(p: Parsers, t: KclType, attrName: string, ast: SchemaAstMap)
    requires
      var shape := ShapeOf(t.kind);
      shape.StrShape? || shape.IntShape? || shape.NumberShape? || shape.BoolShape? || shape.AnyShape? || shape.Foreign?
    ensures AssertionsOf(Keywords(p, t, attrName, ast)) == LeafKeywords(p, ShapeOf(t.kind))
  {
  }

  lemma {:induction false} LiteralAssertions(p: Parsers, t: KclType, attrName: string, ast: SchemaAstMap)
    requires
      var shape := ShapeOf(t.kind);
      shape.IntLiteral? || shape.NumberLiteral? || shape.BoolLiteral? || shape.StrLiteral?
    ensures AssertionsOf(Keywords(p, t, attrName, ast)) == LeafKeywords(p, ShapeOf(t.kind))
  {
  }

  function LeafKeywords(p: Parsers, shape: Shape): Assertions {
    match shape
    case StrShape => NO_ASSERTIONS.(kind := Some(Str("string")))
    case IntShape => NO_ASSERTIONS.(kind := Some(Str("integer")))
    case NumberShape => NO_ASSERTIONS.(kind := Some(Str("number")))
    case BoolShape => NO_ASSERTIONS.(kind := Some(Str("boolean")))
    case IntLiteral(lit) => NO_ASSERTIONS.(kind := Some(Str("integer")),
      literal := if p.int64(lit).Some? then Some(Num(p.int64(lit).value as real)) else None)
    case NumberLiteral(lit) => NO_ASSERTIONS.(kind := Some(Str("number")),
      literal := if p.float64(lit).Some? then Some(FloatJson(p.float64(lit).value)) else None)
    case BoolLiteral(lit) =>
      NO_ASSERTIONS.(kind := Some(Str("boolean")), literal := Some(Bool(EqIgnoreCase(lit, "true"))))
    case StrLiteral(lit) => NO_ASSERTIONS.(kind := Some(Str("string")), literal := Some(Str(lit)))
    case _ => NO_ASSERTIONS
  }

  lemma {:induction false} TypeNames(v: Json)
    ensures HasType(Str("string"), v) <==> v.Str?
    ensures HasType(Str("integer"), v) <==> IsInteger(v)
    ensures HasType(Str("number"), v) <==> v.Num?
    ensures HasType(Str("boolean"), v) <==> v.Bool?
    ensures HasType(Str("array"), v) <==> v.Arr?
    ensures HasType(Str("object"), v) <==> v.Obj?
  {
    assert "string"[0] == 's' && "integer"[0] == 'i' && "number"[0] == 'n' && "boolean"[0] == 'b'
        && "array"[0] == 'a' && "object"[0] == 'o' && "null"[0] == 'n' && |"null"| != |"number"|;
  }

  lemma {:induction false} SchemaMeans(p: Parsers, t: KclType, s: Option<SchemaAst>, ast: SchemaAstMap,
                                       a: Assertions, v: Json)
    requires ShapeOf(t.kind) == SchemaShape
    requires a == NO_ASSERTIONS.(
      kind := Some(Str("object")),
      required := if t.required == [] then None else Some(Arr(Strings(t.required))),
      properties := if t.properties == map[] then None else Some(Obj(WithMetadata(Properties(p, t, ast), s))))
    requires forall k :: k in t.properties && v.Obj? && k in v.members ==>
      (Validates(Translate(p, t.properties[k], k, ast), v.members[k]) <==> Accepts(p, t.properties[k], v.members[k]))
    ensures Meets(a, v) <==> Accepts(p, t, v)
  {
    TypeNames(v);
    if v.Obj? {
      RequiredNames(t.required, v);
      PropertyValues(p, t, s, ast, v);
    }
  }

  lemma {:induction false} RequiredNames(names: seq<string>, v: Json)
    requires v.Obj?
    ensures HasMembers(Arr(Strings(names)), v) <==> forall i :: 0 <= i < |names| ==> names[i] in v.members
  {
    var js := Strings(names);
    assert |js| == |names| && forall i :: 0 <= i < |names| ==> js[i] == Str(names[i]);
    if HasMembers(Arr(js), v) {
      forall i | 0 <= i < |names| ensures names[i] in v.members {
        assert js[i].Str?;
      }
    }
  }

  lemma {:induction false} PropertyValues(p: Parsers, t: KclType, s: Option<SchemaAst>, ast: SchemaAstMap, v: Json)
    requires v.Obj?
    requires forall k :: k in t.properties && k in v.members ==>
      (Validates(Translate(p, t.properties[k], k, ast), v.members[k]) <==> Accepts(p, t.properties[k], v.members[k]))
    ensures PropertiesValidate(Obj(WithMetadata(Properties(p, t, ast), s)), v) <==>
      forall k :: k in t.properties && k in v.members ==> Accepts(p, t.properties[k], v.members[k])
  {
    var props := WithMetadata(Properties(p, t, ast), s);
    assert props.Keys == t.properties.Keys;
    forall k | k in t.properties && k in v.members
      ensures Validates(props[k], v.members[k]) <==> Accepts(p, t.properties[k], v.members[k])
    {
      if s.Some? && k in s.value.attrs {
        DecorationDoesNotMatter(Properties(p, t, ast)[k], s.value.attrs[k], v.members[k]);
      }
    }
    assert PropertiesValidate(Obj(props), v) <==>
      forall k :: k in props && k in v.members ==> Validates(props[k], v.members[k]);
  }

  lemma {:induction false} ListMeans(p: Parsers, t: KclType, item: Option<Json>, v: Json)
    requires ShapeOf(t.kind) == ListShape && (item.Some? <==> t.item.Some?)
    requires v.Arr? && t.item.Some? ==> forall i :: 0 <= i < |v.items| ==>
      (Validates(item.value, v.items[i]) <==> Accepts(p, t.item.value, v.items[i]))
    ensures Meets(NO_ASSERTIONS.(kind := Some(Str("array")), items := item), v) <==> Accepts(p, t, v)
  {
    TypeNames(v);
  }

  lemma {:induction false} DictMeans(p: Parsers, t: KclType, item: Option<Json>, v: Json)
    requires ShapeOf(t.kind) == DictShape && (item.Some? <==> t.item.Some?)
    requires v.Obj? && t.item.Some? ==> forall k :: k in v.members ==>
      (Validates(item.value, v.members[k]) <==> Accepts(p, t.item.value, v.members[k]))
    ensures Meets(NO_ASSERTIONS.(kind := Some(Str("object")), additional := item), v) <==> Accepts(p, t, v)
  {
    TypeNames(v);
  }

  lemma {:induction false} UnionMeans(p: Parsers, t: KclType, js: seq<Json>, v: Json)
    requires ShapeOf(t.kind) == UnionShape && |js| == |t.unionTypes|
    requires forall i :: 0 <= i < |js| ==> (Validates(js[i], v) <==> Accepts(p, t.unionTypes[i], v))
    ensures Meets(NO_ASSERTIONS.(oneOf := if t.unionTypes == [] then None else Some(Arr(js))), v) <==> Accepts(p, t, v)
  {
    assert seq(|js|, i requires 0 <= i < |js| => Validates(js[i], v))
        == Verdicts(p, t.unionTypes, v);
  }

  lemma {:induction false} LeafMeans(p: Parsers, t: KclType, v: Json)
    requires !(ShapeOf(t.kind).SchemaShape? || ShapeOf(t.kind).ListShape? || ShapeOf(t.kind).DictShape?
               || ShapeOf(t.kind).UnionShape?)
    ensures Meets(LeafKeywords(p, ShapeOf(t.kind)), v) <==> Accepts(p, t, v)
  {
    TypeNames(v);
    LeafMeets(p, ShapeOf(t.kind), v);
  }

  lemma {:induction false} LeafMeets(p: Parsers, shape: Shape, v: Json)
    requires !(shape.SchemaShape? || shape.ListShape? || shape.DictShape? || shape.UnionShape?)
    ensures
      var a := LeafKeywords(p, shape);
      Meets(a, v) <==> (a.kind.Some? ==> HasType(a.kind.value, v)) && (a.literal.Some? ==> v == a.literal.value)
  {
  }

  /** The emitted schema accepts exactly `Accepts`: neither the attribute's name, nor the
      documentation and `x-ui` metadata, nor any default has a say in it. */
  lemma {:induction false} SchemaAcceptsExactly(p: Parsers, t: KclType, attrName: string, ast: SchemaAstMap, v: Json)
    ensures Validates(Translate(p, t, attrName, ast), v) <==> Accepts(p, t, v)
    decreases t
  {
    var shape := ShapeOf(t.kind);
    var o := Keywords(p, t, attrName, ast);
    ObjectSchema(o, v);
    if shape.SchemaShape? {
      forall k | k in t.properties && v.Obj? && k in v.members
        ensures Validates(Translate(p, t.properties[k], k, ast), v.members[k]) <==>
                Accepts(p, t.properties[k], v.members[k])
      {
        SchemaAcceptsExactly(p, t.properties[k], k, ast, v.members[k]);
      }
      SchemaAssertions(p, t, attrName, ast);
      SchemaMeans(p, t, AstOf(t, attrName, ast), ast, AssertionsOf(o), v);
    } else if shape.ListShape? {
      if v.Arr? && t.item.Some? {
        forall i | 0 <= i < |v.items|
          ensures Validates(Translate(p, t.item.value, attrName, ast), v.items[i]) <==>
                  Accepts(p, t.item.value, v.items[i])
        {
          SchemaAcceptsExactly(p, t.item.value, attrName, ast, v.items[i]);
        }
      }
      ContainerAssertions(p, t, attrName, ast);
      ListMeans(p, t, AssertionsOf(o).items, v);
    } else if shape.DictShape? {
      if v.Obj? && t.item.Some? {
        forall k | k in v.members
          ensures Validates(Translate(p, t.item.value, attrName, ast), v.members[k]) <==>
                  Accepts(p, t.item.value, v.members[k])
        {
          SchemaAcceptsExactly(p, t.item.value, attrName, ast, v.members[k]);
        }
      }
      ContainerAssertions(p, t, attrName, ast);
      DictMeans(p, t, AssertionsOf(o).additional, v);
    } else if shape.UnionShape? {
      forall i | 0 <= i < |t.unionTypes|
        ensures Validates(Translate(p, t.unionTypes[i], attrName, ast), v) <==> Accepts(p, t.unionTypes[i], v)
      {
        SchemaAcceptsExactly(p, t.unionTypes[i], attrName, ast, v);
      }
      ContainerAssertions(p, t, attrName, ast);
      UnionMeans(p, t, Variants(p, t.unionTypes, attrName, ast), v);
    } else {
      LeafAssertions(p, t, attrName, ast);
      LeafMeans(p, t, v);
    }
    AnnotationsDoNotMatter(o, "default", DefaultToJson(p, t.default), v);
  }
}
