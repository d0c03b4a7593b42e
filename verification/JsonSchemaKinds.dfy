/** What is exported for each of KCL's own type names, and the annotations that go with it. */
module JsonSchemaKinds {
  import opened Text
  import opened JsonSchema
  import opened JsonSchemaProperties

  /** The type names the export knows. */
  const NAMES :=
    ["schema", "str", "int", "float", "number", "number_multiplier", "bool", "list", "dict", "union", "any"]

  const BASES := ["int", "float", "number", "bool", "str"]

  function Literal(base: string, lit: string): string { base + "(" + lit + ")" }

  /** The name of a type the export does not know. */
  ghost predicate IsForeign(kind: string) {
    kind !in NAMES && forall base, lit :: base in BASES ==> kind != Literal(base, lit)
  }

  // ----- names with literals -----

  /** Names of types hold no parenthesis. */
  lemma {:induction false} LiteralIsParsed(base: string, lit: string)
    requires base in BASES
    ensures ParseLiteralType(Literal(base, lit)) == Some((base, lit)) && Literal(base, lit) !in NAMES
  {
    var s := Literal(base, lit);
    assert '(' !in base;
    assert forall i :: 0 <= i < |base| ==> s[i] == base[i];
    assert s[|base|] == '(';
    IndexOfUnique(s, '(', |base|);
    assert s[..|base|] == base && s[|base| + 1..|s| - 1] == lit && s[|s| - 1..] == ")";
    forall name | name in NAMES ensures s != name {
      NamesHaveNoParenthesis(name);
      assert '(' in s;
    }
  }

  lemma {:induction false} NamesHaveNoParenthesis(name: string)
    requires name in NAMES
    ensures '(' !in name
  {
  }

  lemma {:induction false} ParsedIsLiteral(s: string)
    requires ParseLiteralType(s).Some?
    ensures s == Literal(ParseLiteralType(s).value.0, ParseLiteralType(s).value.1)
  {
    var open := IndexOf(s, '(');
    assert s[|s| - 1] == ')' by { assert s[|s| - 1..] == ")"; }
    assert s == s[..open] + [s[open]] + s[open + 1..|s| - 1] + [s[|s| - 1]];
  }

  // ----- what is accepted -----

  /** Scalars: text, numbers without a fraction, numbers, truth values, anything. */
  lemma {:induction false} ScalarKinds(p: Parsers, t: KclType, attrName: string, ast: SchemaAstMap, v: Json)
    ensures t.kind == "str" ==> (Validates(Translate(p, t, attrName, ast), v) <==> v.Str?)
    ensures t.kind == "int" ==>
      (Validates(Translate(p, t, attrName, ast), v) <==> v.Num? && v.n == v.n.Floor as real)
    ensures t.kind == "float" || t.kind == "number" || t.kind == "number_multiplier" ==>
      (Validates(Translate(p, t, attrName, ast), v) <==> v.Num?)
    ensures t.kind == "bool" ==> (Validates(Translate(p, t, attrName, ast), v) <==> v.Bool?)
    ensures t.kind == "any" ==> Validates(Translate(p, t, attrName, ast), v)
  {
    SchemaAcceptsExactly(p, t, attrName, ast, v);
  }

  /** Containers, in terms of what is exported for their parts. */
  lemma {:induction false} ContainerKinds(p: Parsers, t: KclType, attrName: string, ast: SchemaAstMap, v: Json)
    ensures t.kind == "list" ==> (Validates(Translate(p, t, attrName, ast), v) <==>
      v.Arr? && (t.item.Some? ==>
        forall i :: 0 <= i < |v.items| ==> Validates(Translate(p, t.item.value, attrName, ast), v.items[i])))
    ensures t.kind == "dict" ==> (Validates(Translate(p, t, attrName, ast), v) <==>
      v.Obj? && (t.item.Some? ==>
        forall k :: k in v.members ==> Validates(Translate(p, t.item.value, attrName, ast), v.members[k])))
  {
    SchemaAcceptsExactly(p, t, attrName, ast, v);
    if t.kind == "list" && t.item.Some? && v.Arr? {
      forall i | 0 <= i < |v.items|
        ensures Validates(Translate(p, t.item.value, attrName, ast), v.items[i]) <==>
                Accepts(p, t.item.value, v.items[i])
      {
        SchemaAcceptsExactly(p, t.item.value, attrName, ast, v.items[i]);
      }
    }
    if t.kind == "dict" && t.item.Some? && v.Obj? {
      forall k | k in v.members
        ensures Validates(Translate(p, t.item.value, attrName, ast), v.members[k]) <==>
                Accepts(p, t.item.value, v.members[k])
      {
        SchemaAcceptsExactly(p, t.item.value, attrName, ast, v.members[k]);
      }
    }
  }

  /** Records: objects with the required members, each declared member as its own type is exported. */
  lemma {:induction false} RecordKind(p: Parsers, t: KclType, attrName: string, ast: SchemaAstMap, v: Json)
    requires t.kind == "schema"
    ensures Validates(Translate(p, t, attrName, ast), v) <==>
      && v.Obj?
      && (forall i :: 0 <= i < |t.required| ==> t.required[i] in v.members)
      && (forall k :: k in t.properties && k in v.members ==>
            Validates(Translate(p, t.properties[k], k, ast), v.members[k]))
  {
    SchemaAcceptsExactly(p, t, attrName, ast, v);
    if v.Obj? {
      forall k | k in t.properties && k in v.members
        ensures Validates(Translate(p, t.properties[k], k, ast), v.members[k]) <==>
                Accepts(p, t.properties[k], v.members[k])
      {
        SchemaAcceptsExactly(p, t.properties[k], k, ast, v.members[k]);
      }
    }
  }

  /** The value is one of exactly one branch. */
  ghost predicate OfOneBranch(p: Parsers, ts: seq<KclType>, attrName: string, ast: SchemaAstMap, v: Json) {
    exists i ::
      && 0 <= i < |ts| && Validates(Translate(p, ts[i], attrName, ast), v)
      && forall j :: 0 <= j < |ts| && j != i ==> !Validates(Translate(p, ts[j], attrName, ast), v)
  }

  lemma {:induction false} UnionKind(p: Parsers, t: KclType, attrName: string, ast: SchemaAstMap, v: Json)
    requires t.kind == "union"
    ensures Validates(Translate(p, t, attrName, ast), v) <==>
      t.unionTypes == [] || OfOneBranch(p, t.unionTypes, attrName, ast, v)
  {
    SchemaAcceptsExactly(p, t, attrName, ast, v);
    OneVerdict(p, t.unionTypes, attrName, ast, v);
  }

  lemma {:induction false} OneVerdict(p: Parsers, ts: seq<KclType>, attrName: string, ast: SchemaAstMap, v: Json)
    ensures ExactlyOne(Verdicts(p, ts, v)) <==> OfOneBranch(p, ts, attrName, ast, v)
  {
    var bs := Verdicts(p, ts, v);
    forall i | 0 <= i < |ts| ensures Validates(Translate(p, ts[i], attrName, ast), v) <==> bs[i] {
      SchemaAcceptsExactly(p, ts[i], attrName, ast, v);
    }
    if ExactlyOne(bs) {
      var i :| 0 <= i < |bs| && bs[i] && forall j :: 0 <= j < |bs| && j != i ==> !bs[j];
      assert Validates(Translate(p, ts[i], attrName, ast), v);
    }
    if i :| && 0 <= i < |ts| && Validates(Translate(p, ts[i], attrName, ast), v)
            && forall j :: 0 <= j < |ts| && j != i ==> !Validates(Translate(p, ts[j], attrName, ast), v)
    {
      assert bs[i];
    }
  }

  lemma {:induction false} ShapeOfLiteral(base: string, lit: string)
    requires base in BASES
    ensures ShapeOf(Literal(base, lit)) == match base
      case "str" => StrLiteral(lit)
      case "int" => IntLiteral(lit)
      case "bool" => BoolLiteral(lit)
      case _ => NumberLiteral(lit)
  {
    LiteralIsParsed(base, lit);
  }

  /** A text literal is the one value of its type. */
  lemma {:induction false} TextLiteralKind(p: Parsers, t: KclType, lit: string, attrName: string,
                                           ast: SchemaAstMap, v: Json)
    requires t.kind == "str(" + lit + ")"
    ensures Validates(Translate(p, t, attrName, ast), v) <==> v == Str(lit)
  {
    SchemaAcceptsExactly(p, t, attrName, ast, v);
    ShapeOfLiteral("str", lit);
    assert Literal("str", lit) == "str(" + lit + ")";
  }

  /** So is an integer literal; one the parser cannot read stands for any integer. */
  lemma {:induction false} IntegerLiteralKind(p: Parsers, t: KclType, lit: string, attrName: string,
                                              ast: SchemaAstMap, v: Json)
    requires t.kind == "int(" + lit + ")"
    ensures Validates(Translate(p, t, attrName, ast), v) <==>
      if p.int64(lit).Some? then v == Num(p.int64(lit).value as real) else v.Num? && v.n == v.n.Floor as real
  {
    SchemaAcceptsExactly(p, t, attrName, ast, v);
    ShapeOfLiteral("int", lit);
    assert Literal("int", lit) == "int(" + lit + ")";
  }

  /** And a number literal, unless it reads as infinite or as no number, which nothing is. */
  lemma {:induction false} NumberLiteralKind(p: Parsers, t: KclType, lit: string, attrName: string,
                                             ast: SchemaAstMap, v: Json)
    requires t.kind == "float(" + lit + ")" || t.kind == "number(" + lit + ")"
    ensures Validates(Translate(p, t, attrName, ast), v) <==> IsNumberLiteral(p, lit, v)
  {
    SchemaAcceptsExactly(p, t, attrName, ast, v);
    NumberShapes(lit);
    NumberAccepts(p, t, lit, v);
  }

  predicate IsNumberLiteral(p: Parsers, lit: string, v: Json) {
    match p.float64(lit)
    case None => v.Num?
    case Some(Finite(r)) => v == Num(r)
    case Some(NonFinite) => false
  }

  lemma {:induction false} NumberAccepts(p: Parsers, t: KclType, lit: string, v: Json)
    requires ShapeOf(t.kind) == NumberLiteral(lit)
    ensures Accepts(p, t, v) <==> IsNumberLiteral(p, lit, v)
  {
  }

  lemma {:induction false} NumberShapes(lit: string)
    ensures ShapeOf("float(" + lit + ")") == NumberLiteral(lit) == ShapeOf("number(" + lit + ")")
  {
    ShapeOfLiteral("float", lit);
    ShapeOfLiteral("number", lit);
    assert Literal("float", lit) == "float(" + lit + ")" && Literal("number", lit) == "number(" + lit + ")";
  }

  /** `True` in whatever case is the one value of its type, and any other literal is `False`. */
  lemma {:induction false} BoolLiteralKind(p: Parsers, t: KclType, lit: string, attrName: string,
                                           ast: SchemaAstMap, v: Json)
    requires t.kind == "bool(" + lit + ")"
    ensures Validates(Translate(p, t, attrName, ast), v) <==>
      v == Bool(|lit| == 4 && lit[0] in "tT" && lit[1] in "rR" && lit[2] in "uU" && lit[3] in "eE")
  {
    SchemaAcceptsExactly(p, t, attrName, ast, v);
    ShapeOfLiteral("bool", lit);
    assert Literal("bool", lit) == "bool(" + lit + ")";
    TrueInAnyCase(lit);
  }

  lemma {:induction false} TrueInAnyCase(lit: string)
    ensures EqIgnoreCase(lit, "true") <==>
      |lit| == 4 && lit[0] in "tT" && lit[1] in "rR" && lit[2] in "uU" && lit[3] in "eE"
  {
    var w := "true";
    assert w[0] == 't' && w[1] == 'r' && w[2] == 'u' && w[3] == 'e';
    if |lit| == 4 {
      LowerIs(lit[0], 't');
      LowerIs(lit[1], 'r');
      LowerIs(lit[2], 'u');
      LowerIs(lit[3], 'e');
    }
  }

  lemma {:induction false} LowerIs(c: char, l: char)
    requires 'a' <= l <= 'z'
    ensures Lower(c) == l <==> c == l || (c as int + 32 == l as int)
  {
  }

  /** A type the export does not know accepts everything, and keeps its name. */
  lemma {:induction false} ForeignKind(p: Parsers, t: KclType, attrName: string, ast: SchemaAstMap, v: Json)
    requires IsForeign(t.kind)
    ensures Validates(Translate(p, t, attrName, ast), v)
    ensures "x-akua-kcl-type" in Translate(p, t, attrName, ast).members
    ensures Translate(p, t, attrName, ast).members["x-akua-kcl-type"] == Str(t.kind)
  {
    SchemaAcceptsExactly(p, t, attrName, ast, v);
    if ParseLiteralType(t.kind).Some? {
      ParsedIsLiteral(t.kind);
    }
  }

  // ----- annotations -----

  /** Every emitted schema is an object; a default stands in it exactly when the type has one:
      the truth values under KCL's names, else what it reads as in JSON, else its text. */
  lemma {:induction false} DefaultIs(p: Parsers, t: KclType, attrName: string, ast: SchemaAstMap)
    ensures Translate(p, t, attrName, ast).Obj?
    ensures
      var o := Translate(p, t, attrName, ast).members;
      && ("default" in o <==> t.default != "")
      && (t.default == "True" ==> o["default"] == Bool(true))
      && (t.default == "False" ==> o["default"] == Bool(false))
      && (t.default !in ["", "True", "False"] ==>
            o["default"] == match p.json(t.default) case Some(j) => j case None => Str(t.default))
  {
    assert "default" !in Keywords(p, t, attrName, ast);
    assert t.default == "True" || t.default == "False" ==> t.default != "";
  }

  /** A record is described by the documentation of its own schema, or of the attribute's. */
  lemma {:induction false} RecordDescription(p: Parsers, t: KclType, attrName: string, ast: SchemaAstMap)
    requires t.kind == "schema"
    ensures Get(Translate(p, t, attrName, ast).members, "description") ==
      var doc := if t.schemaName in ast then ast[t.schemaName].doc
                 else if attrName in ast then ast[attrName].doc
                 else None;
      match doc case Some(text) => Some(Str(text)) case None => None
  {
  }

  /** What the attribute `k` of a record is annotated with. */
  function AttrOf(t: KclType, attrName: string, ast: SchemaAstMap, k: string): Option<AttrAst> {
    if t.schemaName in ast then
      if k in ast[t.schemaName].attrs then Some(ast[t.schemaName].attrs[k]) else None
    else if attrName in ast && k in ast[attrName].attrs then Some(ast[attrName].attrs[k])
    else None
  }

  lemma {:induction false} PropertiesAre(p: Parsers, t: KclType, attrName: string, ast: SchemaAstMap)
    requires t.kind == "schema" && t.properties != map[]
    ensures Get(Translate(p, t, attrName, ast).members, "properties")
         == Some(Obj(WithMetadata(Properties(p, t, ast), AstOf(t, attrName, ast))))
  {
  }

  /** The members `shown` are `own` but for the annotations of an attribute. */
  ghost predicate IsAnnotated(own: map<string, Json>, shown: map<string, Json>, attr: Option<AttrAst>) {
    && (forall w :: w != "x-ui" && w != "description" ==> Get(shown, w) == Get(own, w))
    && Get(shown, "x-ui") == (if attr.Some? && attr.value.xUi.Some? then attr.value.xUi else Get(own, "x-ui"))
    && Get(shown, "description") ==
       if "description" in own || attr.None? || attr.value.description.None? then Get(own, "description")
       else Some(Str(attr.value.description.value))
  }

  lemma {:induction false} DecoratedIs(own: map<string, Json>, attr: AttrAst)
    ensures Decorated(Obj(own), attr).Obj?
    ensures IsAnnotated(own, Decorated(Obj(own), attr).members, Some(attr))
  {
  }

  /** Each property of a record is exported as its own type is, but that `x-ui` is the
      attribute's if it has one, and its description fills in where the type has none. */
  lemma {:induction false} PropertyIs(p: Parsers, t: KclType, attrName: string, ast: SchemaAstMap, k: string)
      returns (props: map<string, Json>)
    requires t.kind == "schema" && k in t.properties
    ensures Get(Translate(p, t, attrName, ast).members, "properties") == Some(Obj(props))
    ensures props.Keys == t.properties.Keys
    ensures props[k].Obj? && Translate(p, t.properties[k], k, ast).Obj?
    ensures IsAnnotated(Translate(p, t.properties[k], k, ast).members, props[k].members, AttrOf(t, attrName, ast, k))
  {
    PropertiesAre(p, t, attrName, ast);
    var s := AstOf(t, attrName, ast);
    props := WithMetadata(Properties(p, t, ast), s);
    assert Properties(p, t, ast)[k] == Translate(p, t.properties[k], k, ast);
    if s.Some? && k in s.value.attrs {
      DecoratedIs(Translate(p, t.properties[k], k, ast).members, s.value.attrs[k]);
    }
  }
}
