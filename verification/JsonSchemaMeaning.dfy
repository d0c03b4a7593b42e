/** Whether the emitted schema means what the KCL type means. */
module JsonSchemaMeaning {
  import opened Text
  import opened JsonSchema
  import opened JsonSchemaOverlap
  import opened JsonSchemaProperties

  /** KCL's own reading of literals, and of the types the translation does not know. */
  datatype Kcl = Kcl(
    intOf: string -> Option<int>,
    floatOf: string -> Option<real>,
    foreign: (string, Json) -> bool)

  /** The values of a KCL type: records are closed, a union takes the values of any branch. */
  predicate Conforms(l: Kcl, t: KclType, v: Json)
    decreases t
  {
    match ShapeOf(t.kind)
    case SchemaShape =>
      && v.Obj?
      && (forall i :: 0 <= i < |t.required| ==> t.required[i] in v.members)
      && (forall k :: k in v.members ==> k in t.properties && Conforms(l, t.properties[k], v.members[k]))
    case StrShape => v.Str?
    case IntShape => IsInteger(v)
    case NumberShape => v.Num?
    case BoolShape => v.Bool?
    case ListShape =>
      v.Arr? && (t.item.Some? ==> forall i :: 0 <= i < |v.items| ==> Conforms(l, t.item.value, v.items[i]))
    case DictShape =>
      v.Obj? && (t.item.Some? ==> forall k :: k in v.members ==> Conforms(l, t.item.value, v.members[k]))
    case UnionShape => exists i :: 0 <= i < |t.unionTypes| && Conforms(l, t.unionTypes[i], v)
    case AnyShape => true
    case IntLiteral(lit) => l.intOf(lit).Some? && v == Num(l.intOf(lit).value as real)
    case NumberLiteral(lit) => l.floatOf(lit).Some? && v == Num(l.floatOf(lit).value)
    case BoolLiteral(lit) => (lit == "True" && v == Bool(true)) || (lit == "False" && v == Bool(false))
    case StrLiteral(lit) => v == Str(lit)
    case Foreign => l.foreign(t.kind, v)
  }

  /** The number parsers and KCL agree wherever both read a literal. */
  ghost predicate Lawful(p: Parsers, l: Kcl) {
    && (forall s :: p.int64(s).Some? && l.intOf(s).Some? ==> p.int64(s) == l.intOf(s))
    && (forall s :: p.float64(s).Some? && l.floatOf(s).Some? ==> p.float64(s).value == Finite(l.floatOf(s).value))
  }

  /** In every union below `t`, the schemas of any two branches accept no common value. */
  ghost predicate Exclusive(p: Parsers, t: KclType)
    decreases t
  {
    match ShapeOf(t.kind)
    case SchemaShape => forall k :: k in t.properties ==> Exclusive(p, t.properties[k])
    case ListShape => t.item.Some? ==> Exclusive(p, t.item.value)
    case DictShape => t.item.Some? ==> Exclusive(p, t.item.value)
    case UnionShape =>
      && (forall i :: 0 <= i < |t.unionTypes| ==> Exclusive(p, t.unionTypes[i]))
      && PairwiseApart(p, t.unionTypes)
    case _ => true
  }

  /** Looking at the types decides whether they are exclusive. */
  lemma {:induction false} SeparateIsExclusive(p: Parsers, t: KclType)
    ensures Separate(p, t) <==> Exclusive(p, t)
    decreases t
  {
    match ShapeOf(t.kind) {
      case SchemaShape => forall k | k in t.properties { SeparateIsExclusive(p, t.properties[k]); }
      case ListShape => if t.item.Some? { SeparateIsExclusive(p, t.item.value); }
      case DictShape => if t.item.Some? { SeparateIsExclusive(p, t.item.value); }
      case UnionShape =>
        forall i | 0 <= i < |t.unionTypes| { SeparateIsExclusive(p, t.unionTypes[i]); }
        if forall i :: 0 <= i < |t.unionTypes| ==> Separate(p, t.unionTypes[i]) {
          OverlapsArePairwise(p, t.unionTypes);
        }
      case _ =>
    }
  }

  lemma {:induction false} OverlapsArePairwise(p: Parsers, ts: seq<KclType>)
    requires forall i :: 0 <= i < |ts| ==> Separate(p, ts[i])
    ensures PairwiseApart(p, ts) <==> forall i, j :: 0 <= i < j < |ts| ==> !Overlaps(p, ts[i], ts[j])
  {
    forall i, j | 0 <= i < j < |ts| ensures Apart(p, ts[i], ts[j]) <==> !Overlaps(p, ts[i], ts[j]) {
      OverlapsExactly(p, ts[i], ts[j]);
    }
  }

  /** Every value of the type validates against the emitted schema, when no two branches of
      a union below it overlap. */
  lemma {:induction false} TranslationPreserves(p: Parsers, l: Kcl, t: KclType, attrName: string,
                                                ast: SchemaAstMap, v: Json)
    requires Lawful(p, l) && Separate(p, t) && Conforms(l, t, v)
    ensures Validates(Translate(p, t, attrName, ast), v)
  {
    ConformingIsAccepted(p, l, t, v);
    SchemaAcceptsExactly(p, t, attrName, ast, v);
  }

  lemma {:induction false} ConformingIsAccepted(p: Parsers, l: Kcl, t: KclType, v: Json)
    requires Lawful(p, l) && Separate(p, t) && Conforms(l, t, v)
    ensures Accepts(p, t, v)
    decreases t
  {
    match ShapeOf(t.kind) {
      case SchemaShape =>
        forall k | k in t.properties && k in v.members ensures Accepts(p, t.properties[k], v.members[k]) {
          ConformingIsAccepted(p, l, t.properties[k], v.members[k]);
        }
      case ListShape =>
        if t.item.Some? {
          forall i | 0 <= i < |v.items| ensures Accepts(p, t.item.value, v.items[i]) {
            ConformingIsAccepted(p, l, t.item.value, v.items[i]);
          }
        }
      case DictShape =>
        if t.item.Some? {
          forall k | k in v.members ensures Accepts(p, t.item.value, v.members[k]) {
            ConformingIsAccepted(p, l, t.item.value, v.members[k]);
          }
        }
      case UnionShape =>
        var i :| 0 <= i < |t.unionTypes| && Conforms(l, t.unionTypes[i], v);
        ConformingIsAccepted(p, l, t.unionTypes[i], v);
        BranchSuffices(p, t, i, v);
      case _ => LeafConforms(p, l, t, v);
    }
  }

  /** Types without parts: what conforms is accepted, and conversely if both sides read the
      literal. */
  lemma {:induction false} LeafConforms(p: Parsers, l: Kcl, t: KclType, v: Json)
    requires Lawful(p, l)
    requires !(ShapeOf(t.kind).SchemaShape? || ShapeOf(t.kind).ListShape? || ShapeOf(t.kind).DictShape?
               || ShapeOf(t.kind).UnionShape?)
    ensures Conforms(l, t, v) ==> Accepts(p, t, v)
    ensures Plain(p, l, t) && Accepts(p, t, v) ==> Conforms(l, t, v)
  {
    CaseOfTrue();
  }

  lemma {:induction false} CaseOfTrue()
    ensures EqIgnoreCase("True", "true") && !EqIgnoreCase("False", "true")
  {
    assert "True"[0] == 'T' && "False"[0] == 'F' && |"False"| != |"true"|;
  }

  /** Built without records and unknown types, with literals both sides read. */
  predicate Plain(p: Parsers, l: Kcl, t: KclType)
    decreases t
  {
    match ShapeOf(t.kind)
    case SchemaShape => false
    case UnionShape => t.unionTypes != [] && forall i :: 0 <= i < |t.unionTypes| ==> Plain(p, l, t.unionTypes[i])
    case Foreign => false
    case ListShape => t.item.Some? ==> Plain(p, l, t.item.value)
    case DictShape => t.item.Some? ==> Plain(p, l, t.item.value)
    case IntLiteral(lit) => p.int64(lit).Some? && l.intOf(lit).Some?
    case NumberLiteral(lit) => p.float64(lit).Some? && l.floatOf(lit).Some?
    case BoolLiteral(lit) => lit == "True" || lit == "False"
    case _ => true
  }

  /** For plain types whose unions are separate the schema and the type have the same values. */
  lemma {:induction false} PlainTypesAreExact(p: Parsers, l: Kcl, t: KclType, attrName: string,
                                              ast: SchemaAstMap, v: Json)
    requires Lawful(p, l) && Plain(p, l, t) && Separate(p, t)
    ensures Validates(Translate(p, t, attrName, ast), v) <==> Conforms(l, t, v)
  {
    PlainAcceptsExactly(p, l, t, v);
    SchemaAcceptsExactly(p, t, attrName, ast, v);
  }

  lemma {:induction false} PlainAcceptsExactly(p: Parsers, l: Kcl, t: KclType, v: Json)
    requires Lawful(p, l) && Plain(p, l, t) && Separate(p, t)
    ensures Accepts(p, t, v) <==> Conforms(l, t, v)
    decreases t
  {
    match ShapeOf(t.kind) {
      case ListShape =>
        if v.Arr? && t.item.Some? {
          forall i | 0 <= i < |v.items|
            ensures Accepts(p, t.item.value, v.items[i]) <==> Conforms(l, t.item.value, v.items[i])
          {
            PlainAcceptsExactly(p, l, t.item.value, v.items[i]);
          }
        }
      case DictShape =>
        if v.Obj? && t.item.Some? {
          forall k | k in v.members
            ensures Accepts(p, t.item.value, v.members[k]) <==> Conforms(l, t.item.value, v.members[k])
          {
            PlainAcceptsExactly(p, l, t.item.value, v.members[k]);
          }
        }
      case UnionShape =>
        forall i | 0 <= i < |t.unionTypes| ensures Accepts(p, t.unionTypes[i], v) <==> Conforms(l, t.unionTypes[i], v) {
          PlainAcceptsExactly(p, l, t.unionTypes[i], v);
        }
        if Accepts(p, t, v) {
          var i := UnionBranch(p, t, v);
        }
        if i :| 0 <= i < |t.unionTypes| && Conforms(l, t.unionTypes[i], v) {
          BranchSuffices(p, t, i, v);
        }
      case _ => LeafConforms(p, l, t, v);
    }
  }

  /** No value of the type is lost. */
  ghost predicate Complete(p: Parsers, l: Kcl, t: KclType) {
    forall v :: Conforms(l, t, v) ==> Accepts(p, t, v)
  }

  /** The `oneOf` of a union of plain types loses no value if and only if no two branches
      overlap. */
  lemma {:induction false} UnionCompleteExactlyWhenApart(p: Parsers, l: Kcl, t: KclType)
    requires Lawful(p, l) && ShapeOf(t.kind) == UnionShape
    requires forall i :: 0 <= i < |t.unionTypes| ==> Plain(p, l, t.unionTypes[i]) && Separate(p, t.unionTypes[i])
    ensures Complete(p, l, t) <==> Separate(p, t)
  {
    if Separate(p, t) {
      forall v | Conforms(l, t, v) ensures Accepts(p, t, v) {
        ConformingIsAccepted(p, l, t, v);
      }
    } else {
      var i, j :| 0 <= i < j < |t.unionTypes| && Overlaps(p, t.unionTypes[i], t.unionTypes[j]);
      var v := OverlapHasValue(p, t.unionTypes[i], t.unionTypes[j]);
      PlainAcceptsExactly(p, l, t.unionTypes[i], v);
      assert Conforms(l, t, v);
      TwoBranchesReject(p, t, i, j, v);
    }
  }

  lemma {:induction false} TwoBranchesReject(p: Parsers, t: KclType, i: nat, j: nat, v: Json)
    requires ShapeOf(t.kind) == UnionShape && i < j < |t.unionTypes|
    requires Accepts(p, t.unionTypes[i], v) && Accepts(p, t.unionTypes[j], v)
    ensures !Accepts(p, t, v)
  {
    var bs := Verdicts(p, t.unionTypes, v);
    NotExactlyOne(bs, i, j);
    UnionAccepts(p, t, v);
  }

  lemma {:induction false} UnionAccepts(p: Parsers, t: KclType, v: Json)
    requires ShapeOf(t.kind) == UnionShape && t.unionTypes != []
    ensures Accepts(p, t, v) <==> ExactlyOne(Verdicts(p, t.unionTypes, v))
  {
  }

  lemma {:induction false} NotExactlyOne(bs: seq<bool>, i: nat, j: nat)
    requires i < j < |bs| && bs[i] && bs[j]
    ensures !ExactlyOne(bs)
  {
    forall k | 0 <= k < |bs| && bs[k] ensures exists m :: 0 <= m < |bs| && m != k && bs[m] {
      assert bs[if k == i then j else i];
    }
  }

  function Leaf(kind: string): KclType { KclType(kind, "", map[], [], None, [], "") }

  function Union(ts: seq<KclType>): KclType { KclType("union", "", map[], [], None, ts, "") }

  /** `int | float` rejects every integer: both branches accept it. */
  lemma {:induction false} IntOrFloatRejectsIntegers(p: Parsers, l: Kcl, attrName: string, ast: SchemaAstMap, v: Json)
    requires IsInteger(v)
    ensures Conforms(l, Union([Leaf("int"), Leaf("float")]), v)
    ensures !Validates(Translate(p, Union([Leaf("int"), Leaf("float")]), attrName, ast), v)
  {
    var t := Union([Leaf("int"), Leaf("float")]);
    assert ShapeOf("union") == UnionShape && ShapeOf("int") == IntShape && ShapeOf("float") == NumberShape;
    assert Conforms(l, t.unionTypes[0], v);
    TwoBranchesReject(p, t, 0, 1, v);
    SchemaAcceptsExactly(p, t, attrName, ast, v);
  }

  /** A union of different string literals, the usual enumeration, is separate. */
  lemma {:induction false} EnumerationsAreExclusive(p: Parsers, t: KclType, texts: seq<string>)
    requires ShapeOf(t.kind) == UnionShape && |texts| == |t.unionTypes|
    requires forall i :: 0 <= i < |texts| ==> ShapeOf(t.unionTypes[i].kind) == StrLiteral(texts[i])
    requires forall i, j :: 0 <= i < j < |texts| ==> texts[i] != texts[j]
    ensures Separate(p, t)
  {
    forall i, j | 0 <= i < j < |texts| ensures !Overlaps(p, t.unionTypes[i], t.unionTypes[j]) {
      assert ScalarOf(p, ShapeOf(t.unionTypes[i].kind)) == Some(Texts(Some(texts[i])));
      assert ScalarOf(p, ShapeOf(t.unionTypes[j].kind)) == Some(Texts(Some(texts[j])));
    }
  }

  /** Records: an undeclared member never makes an accepted value rejected, though the
      closed KCL record has no value with one. */
  lemma {:induction false} RecordsAreOpen(p: Parsers, l: Kcl, t: KclType, attrName: string,
                                          ast: SchemaAstMap, v: Json, k: string, j: Json)
    requires ShapeOf(t.kind) == SchemaShape && k !in t.properties
    requires Validates(Translate(p, t, attrName, ast), v)
    ensures v.Obj? && Validates(Translate(p, t, attrName, ast), Obj(v.members[k := j]))
    ensures !Conforms(l, t, Obj(v.members[k := j]))
  {
    SchemaAcceptsExactly(p, t, attrName, ast, v);
    SchemaAcceptsExactly(p, t, attrName, ast, Obj(v.members[k := j]));
    assert k in v.members[k := j];
  }

  // ----- metadata and defaults -----

  /** The type with every default, at every depth, removed. */
  function WithoutDefaults(t: KclType): KclType
    decreases t
  {
    KclType(t.kind, t.schemaName,
      map k | k in t.properties :: WithoutDefaults(t.properties[k]),
      t.required,
      match t.item case Some(i) => Some(WithoutDefaults(i)) case None => None,
      seq(|t.unionTypes|, i requires 0 <= i < |t.unionTypes| => WithoutDefaults(t.unionTypes[i])),
      "")
  }

  lemma {:induction false} DefaultsDoNotMatter(p: Parsers, t: KclType, v: Json)
    ensures Accepts(p, WithoutDefaults(t), v) <==> Accepts(p, t, v)
    decreases t
  {
    var u := WithoutDefaults(t);
    match ShapeOf(t.kind) {
      case SchemaShape =>
        forall k | v.Obj? && k in t.properties && k in v.members
          ensures Accepts(p, u.properties[k], v.members[k]) <==> Accepts(p, t.properties[k], v.members[k])
        {
          DefaultsDoNotMatter(p, t.properties[k], v.members[k]);
        }
        SameRecord(p, t, u, v);
      case ListShape =>
        forall i | v.Arr? && t.item.Some? && 0 <= i < |v.items|
          ensures Accepts(p, u.item.value, v.items[i]) <==> Accepts(p, t.item.value, v.items[i])
        {
          DefaultsDoNotMatter(p, t.item.value, v.items[i]);
        }
      case DictShape =>
        forall k | v.Obj? && t.item.Some? && k in v.members
          ensures Accepts(p, u.item.value, v.members[k]) <==> Accepts(p, t.item.value, v.members[k])
        {
          DefaultsDoNotMatter(p, t.item.value, v.members[k]);
        }
      case UnionShape =>
        forall i | 0 <= i < |t.unionTypes|
          ensures Accepts(p, u.unionTypes[i], v) <==> Accepts(p, t.unionTypes[i], v)
        {
          DefaultsDoNotMatter(p, t.unionTypes[i], v);
        }
        assert Verdicts(p, u.unionTypes, v) == Verdicts(p, t.unionTypes, v);
      case _ => SameLeaf(p, t, u, v);
    }
  }

  lemma {:induction false} SameRecord(p: Parsers, t: KclType, u: KclType, v: Json)
    requires ShapeOf(t.kind) == SchemaShape && u.kind == t.kind && u.required == t.required
    requires u.properties.Keys == t.properties.Keys
    requires forall k :: v.Obj? && k in t.properties && k in v.members ==>
      (Accepts(p, u.properties[k], v.members[k]) <==> Accepts(p, t.properties[k], v.members[k]))
    ensures Accepts(p, u, v) <==> Accepts(p, t, v)
  {
  }

  lemma {:induction false} SameLeaf(p: Parsers, t: KclType, u: KclType, v: Json)
    requires u.kind == t.kind
    requires !(ShapeOf(t.kind).SchemaShape? || ShapeOf(t.kind).ListShape? || ShapeOf(t.kind).DictShape?
               || ShapeOf(t.kind).UnionShape?)
    ensures Accepts(p, u, v) <==> Accepts(p, t, v)
  {
  }

  /** Documentation, `x-ui` hints, attribute names and defaults never change which values
      validate. */
  lemma {:induction false} MetadataDoesNotMatter(
      p: Parsers, t: KclType, u: KclType, a: string, b: string, ast: SchemaAstMap, other: SchemaAstMap, v: Json)
    requires WithoutDefaults(t) == WithoutDefaults(u)
    ensures Validates(Translate(p, t, a, ast), v) <==> Validates(Translate(p, u, b, other), v)
  {
    SchemaAcceptsExactly(p, t, a, ast, v);
    SchemaAcceptsExactly(p, u, b, other, v);
    DefaultsDoNotMatter(p, t, v);
    DefaultsDoNotMatter(p, u, v);
  }
}
