/** Exactly when a union loses values, records included: when a value of one branch is
    accepted by the schema of another. Decided by looking at the types. */
module JsonSchemaFits {
  import opened Text
  import opened JsonSchema
  import opened JsonSchemaProperties
  import opened JsonSchemaOverlap
  import opened JsonSchemaMeaning

  /** No type below `t` is unknown to the translation. */
  predicate Known(t: KclType)
    decreases t
  {
    match ShapeOf(t.kind)
    case SchemaShape => forall k :: k in t.properties ==> Known(t.properties[k])
    case ListShape => t.item.Some? ==> Known(t.item.value)
    case DictShape => t.item.Some? ==> Known(t.item.value)
    case UnionShape => forall i :: 0 <= i < |t.unionTypes| ==> Known(t.unionTypes[i])
    case Foreign => false
    case _ => true
  }

  // ----- what conforms, by class of type -----

  /** The values of a scalar type, as KCL reads its literal. */
  function MeaningOf(l: Kcl, s: Shape): Option<Scalar> {
    match s
    case StrShape => Some(Texts(None))
    case StrLiteral(lit) => Some(Texts(Some(lit)))
    case BoolShape => Some(Truths(None))
    case BoolLiteral(lit) =>
      if lit == "True" then Some(Truths(Some(true)))
      else if lit == "False" then Some(Truths(Some(false)))
      else Some(Numerals(NoNumber))
    case IntShape => Some(Numerals(Integers))
    case IntLiteral(lit) => Some(Numerals(match l.intOf(lit) case Some(n) => Just(n as real) case None => NoNumber))
    case NumberShape => Some(Numerals(AllNumbers))
    case NumberLiteral(lit) => Some(Numerals(match l.floatOf(lit) case Some(r) => Just(r) case None => NoNumber))
    case _ => None
  }

  lemma {:induction false} ScalarConforms(l: Kcl, t: KclType, v: Json)
    requires MeaningOf(l, ShapeOf(t.kind)).Some?
    ensures Conforms(l, t, v) <==> InScalar(MeaningOf(l, ShapeOf(t.kind)).value, v)
  {
    assert "True"[0] == 'T' && "False"[0] == 'F';
  }

  /** Names a closed record allows; a dictionary allows all. */
  predicate Allows(t: KclType, k: string) { ShapeOf(t.kind).SchemaShape? ==> k in t.properties }

  lemma {:induction false} ObjectConforms(l: Kcl, t: KclType, v: Json)
    requires IsObject(t)
    ensures Conforms(l, t, v) <==>
      && v.Obj? && Needed(t) <= v.members.Keys
      && forall k :: k in v.members ==>
           Allows(t, k) && (MemberOf(t, k).Some? ==> Conforms(l, MemberOf(t, k).value, v.members[k]))
  {
    if v.Obj? && Needed(t) <= v.members.Keys && ShapeOf(t.kind).SchemaShape? {
      forall i | 0 <= i < |t.required| ensures t.required[i] in v.members {
        assert t.required[i] in Needed(t);
      }
    }
  }

  // ----- the decision -----

  /** Whether the type has a value at all. */
  predicate HasValue(l: Kcl, t: KclType)
    decreases t
  {
    if ShapeOf(t.kind).UnionShape? then exists i :: 0 <= i < |t.unionTypes| && HasValue(l, t.unionTypes[i])
    else if IsObject(t) then
      forall k :: k in Needed(t) ==> Allows(t, k) && (MemberOf(t, k).Some? ==> HasValue(l, MemberOf(t, k).value))
    else MeaningOf(l, ShapeOf(t.kind)) != Some(Numerals(NoNumber))
  }

  /** Whether some value of the type `a` is accepted by the schema of `b`. */
  predicate Fits(p: Parsers, l: Kcl, a: KclType, b: KclType)
    decreases a, b
  {
    if ShapeOf(a.kind).UnionShape? then exists i :: 0 <= i < |a.unionTypes| && Fits(p, l, a.unionTypes[i], b)
    else if IsUnion(b) then exists i :: 0 <= i < |b.unionTypes| && Fits(p, l, a, b.unionTypes[i])
    else if ShapeOf(a.kind).AnyShape? then Inhabited(p, b)
    else if IsOpen(b) then HasValue(l, a)
    else if IsObject(a) && IsObject(b) then
      (forall k :: k in Needed(a) + Needed(b) ==> Allows(a, k)) &&
      forall k :: k in Needed(a) + Needed(b) ==>
        match (MemberOf(a, k), MemberOf(b, k))
        case (Some(x), Some(y)) => Fits(p, l, x, y)
        case (Some(x), None) => HasValue(l, x)
        case (None, Some(y)) => Inhabited(p, y)
        case (None, None) => true
    else if ShapeOf(a.kind).ListShape? && ShapeOf(b.kind).ListShape? then true
    else
      var x, y := MeaningOf(l, ShapeOf(a.kind)), ScalarOf(p, ShapeOf(b.kind));
      x.Some? && y.Some? && ScalarsMeet(x.value, y.value)
  }

  ghost predicate Witness(p: Parsers, l: Kcl, a: KclType, b: KclType, v: Json) { Conforms(l, a, v) && Accepts(p, b, v) }

  // ----- a witness is noticed -----

  lemma {:induction false} ConformingHasValue(l: Kcl, t: KclType, v: Json)
    requires Conforms(l, t, v)
    ensures HasValue(l, t)
    decreases t
  {
    if ShapeOf(t.kind).UnionShape? {
      var i :| 0 <= i < |t.unionTypes| && Conforms(l, t.unionTypes[i], v);
      ConformingHasValue(l, t.unionTypes[i], v);
    } else if IsObject(t) {
      ObjectConforms(l, t, v);
      forall k | k in Needed(t) && MemberOf(t, k).Some? ensures HasValue(l, MemberOf(t, k).value) {
        ConformingHasValue(l, MemberOf(t, k).value, v.members[k]);
      }
    } else if MeaningOf(l, ShapeOf(t.kind)).Some? {
      ScalarConforms(l, t, v);
    }
  }

  lemma {:induction false} WitnessFits(p: Parsers, l: Kcl, a: KclType, b: KclType, v: Json)
    requires Known(a) && Witness(p, l, a, b, v)
    ensures Fits(p, l, a, b)
    decreases a, b
  {
    if ShapeOf(a.kind).UnionShape? {
      var i :| 0 <= i < |a.unionTypes| && Conforms(l, a.unionTypes[i], v);
      WitnessFits(p, l, a.unionTypes[i], b, v);
    } else if IsUnion(b) {
      var i := UnionBranch(p, b, v);
      WitnessFits(p, l, a, b.unionTypes[i], v);
    } else if ShapeOf(a.kind).AnyShape? {
      AcceptedInhabits(p, b, v);
    } else if IsOpen(b) {
      ConformingHasValue(l, a, v);
    } else if IsObject(a) && IsObject(b) {
      ObjectConforms(l, a, v);
      ObjectAccepts(p, b, v);
      forall k | k in Needed(a) + Needed(b)
        ensures match (MemberOf(a, k), MemberOf(b, k))
          case (Some(x), Some(y)) => Fits(p, l, x, y)
          case (Some(x), None) => HasValue(l, x)
          case (None, Some(y)) => Inhabited(p, y)
          case (None, None) => true
      {
        match (MemberOf(a, k), MemberOf(b, k)) {
          case (Some(x), Some(y)) => WitnessFits(p, l, x, y, v.members[k]);
          case (Some(x), None) => ConformingHasValue(l, x, v.members[k]);
          case (None, Some(y)) => AcceptedInhabits(p, y, v.members[k]);
          case (None, None) =>
        }
      }
    } else {
      ScalarWitnessFits(p, l, a, b, v);
    }
  }

  lemma {:induction false} ScalarWitnessFits(p: Parsers, l: Kcl, a: KclType, b: KclType, v: Json)
    requires Known(a) && Witness(p, l, a, b, v)
    requires !ShapeOf(a.kind).UnionShape? && !ShapeOf(a.kind).AnyShape? && !IsUnion(b) && !IsOpen(b)
    requires !(IsObject(a) && IsObject(b))
    ensures Fits(p, l, a, b)
  {
    if MeaningOf(l, ShapeOf(a.kind)).Some? && ScalarOf(p, ShapeOf(b.kind)).Some? {
      ScalarConforms(l, a, v);
      ScalarAccepts(p, b, v);
      ScalarsMeetExactly(MeaningOf(l, ShapeOf(a.kind)).value, ScalarOf(p, ShapeOf(b.kind)).value, v);
    }
  }

  // ----- a fit has a witness -----

  ghost predicate MemberFits(p: Parsers, l: Kcl, a: KclType, b: KclType, k: string, v: Json) {
    && (MemberOf(a, k).Some? ==> Conforms(l, MemberOf(a, k).value, v))
    && (MemberOf(b, k).Some? ==> Accepts(p, MemberOf(b, k).value, v))
  }

  lemma {:induction false} MinimalFit(p: Parsers, l: Kcl, a: KclType, b: KclType) returns (v: Json)
    requires IsObject(a) && IsObject(b)
    requires forall k :: k in Needed(a) + Needed(b) ==> Allows(a, k) && exists m :: MemberFits(p, l, a, b, k, m)
    ensures Witness(p, l, a, b, v)
  {
    var keys := Needed(a) + Needed(b);
    v := Obj(map k | k in keys :: (var m :| MemberFits(p, l, a, b, k, m); m));
    forall k | k in v.members ensures MemberFits(p, l, a, b, k, v.members[k]) {
    }
    ObjectConforms(l, a, v);
    ObjectAccepts(p, b, v);
  }

  lemma {:induction false} KnownParts(t: KclType)
    requires Known(t) && IsObject(t)
    ensures forall k :: MemberOf(t, k).Some? ==> Known(MemberOf(t, k).value)
  {
  }

  function AnyObject(): KclType { KclType("dict", "", map[], [], None, [], "") }

  lemma {:induction false} ValueOf(p: Parsers, l: Kcl, t: KclType) returns (v: Json)
    requires Known(t) && HasValue(l, t)
    ensures Conforms(l, t, v)
    decreases t
  {
    if ShapeOf(t.kind).UnionShape? {
      var i :| 0 <= i < |t.unionTypes| && HasValue(l, t.unionTypes[i]);
      v := ValueOf(p, l, t.unionTypes[i]);
    } else if IsObject(t) {
      var free := AnyObject();
      assert ShapeOf(free.kind) == DictShape;
      KnownParts(t);
      forall k | k in Needed(t) + Needed(free) ensures exists m :: MemberFits(p, l, t, free, k, m) {
        var m := ValueOf(p, l, MemberOf(t, k).value);
        assert MemberFits(p, l, t, free, k, m);
      }
      v := MinimalFit(p, l, t, free);
    } else {
      v := LeafMeaning(l, t);
    }
  }

  lemma {:induction false} LeafMeaning(l: Kcl, t: KclType) returns (v: Json)
    requires Known(t) && !ShapeOf(t.kind).UnionShape? && !IsObject(t) && HasValue(l, t)
    ensures Conforms(l, t, v)
  {
    var s := MeaningOf(l, ShapeOf(t.kind));
    if s.Some? {
      v := ScalarWitness(s.value, s.value);
      ScalarsMeetExactly(s.value, s.value, v);
      ScalarConforms(l, t, v);
    } else {
      v := Arr([]);
    }
  }

  lemma {:induction false} FitHasWitness(p: Parsers, l: Kcl, a: KclType, b: KclType) returns (v: Json)
    requires Known(a) && Separate(p, b) && Fits(p, l, a, b)
    ensures Witness(p, l, a, b, v)
    decreases a, b
  {
    SeparateParts(p, b);
    if ShapeOf(a.kind).UnionShape? {
      var i :| 0 <= i < |a.unionTypes| && Fits(p, l, a.unionTypes[i], b);
      v := FitHasWitness(p, l, a.unionTypes[i], b);
    } else if IsUnion(b) {
      var i :| 0 <= i < |b.unionTypes| && Fits(p, l, a, b.unionTypes[i]);
      v := FitHasWitness(p, l, a, b.unionTypes[i]);
      BranchSuffices(p, b, i, v);
    } else if ShapeOf(a.kind).AnyShape? {
      v := InhabitedHasValue(p, b);
    } else if IsOpen(b) {
      v := ValueOf(p, l, a);
    } else if IsObject(a) && IsObject(b) {
      KnownParts(a);
      forall k | k in Needed(a) + Needed(b) ensures exists m :: MemberFits(p, l, a, b, k, m) {
        match (MemberOf(a, k), MemberOf(b, k)) {
          case (Some(x), Some(y)) =>
            var m := FitHasWitness(p, l, x, y);
            assert MemberFits(p, l, a, b, k, m);
          case (Some(x), None) =>
            var m := ValueOf(p, l, x);
            assert MemberFits(p, l, a, b, k, m);
          case (None, Some(y)) =>
            var m := InhabitedHasValue(p, y);
            assert MemberFits(p, l, a, b, k, m);
          case (None, None) => assert MemberFits(p, l, a, b, k, Null);
        }
      }
      v := MinimalFit(p, l, a, b);
    } else {
      v := LeafFit(p, l, a, b);
    }
  }

  lemma {:induction false} LeafFit(p: Parsers, l: Kcl, a: KclType, b: KclType) returns (v: Json)
    requires Known(a) && !ShapeOf(a.kind).UnionShape? && !ShapeOf(a.kind).AnyShape? && !IsUnion(b) && !IsOpen(b)
    requires !(IsObject(a) && IsObject(b)) && Fits(p, l, a, b)
    ensures Witness(p, l, a, b, v)
  {
    if ShapeOf(a.kind).ListShape? && ShapeOf(b.kind).ListShape? {
      v := Arr([]);
    } else {
      var x, y := MeaningOf(l, ShapeOf(a.kind)).value, ScalarOf(p, ShapeOf(b.kind)).value;
      v := ScalarWitness(x, y);
      ScalarsMeetExactly(x, y, v);
      ScalarConforms(l, a, v);
      ScalarAccepts(p, b, v);
    }
  }

  // ----- when a union loses values -----

  /** A union of known types, records and nested unions among them, loses no value if and only
      if no value of one branch fits the schema of another. */
  lemma {:induction false} UnionLosesExactlyWhatFitsTwice(p: Parsers, l: Kcl, t: KclType)
    requires Lawful(p, l) && ShapeOf(t.kind) == UnionShape
    requires forall i :: 0 <= i < |t.unionTypes| ==> Known(t.unionTypes[i]) && Separate(p, t.unionTypes[i])
    ensures Complete(p, l, t) <==>
      forall i, j :: 0 <= i < |t.unionTypes| && 0 <= j < |t.unionTypes| && i != j ==>
        !Fits(p, l, t.unionTypes[i], t.unionTypes[j])
  {
    var ts := t.unionTypes;
    if i, j :| 0 <= i < |ts| && 0 <= j < |ts| && i != j && Fits(p, l, ts[i], ts[j]) {
      var v := FitHasWitness(p, l, t.unionTypes[i], t.unionTypes[j]);
      ConformingIsAccepted(p, l, t.unionTypes[i], v);
      TwoBranchesReject(p, t, if i < j then i else j, if i < j then j else i, v);
      assert Conforms(l, t, v);
    } else {
      forall v | Conforms(l, t, v) ensures Accepts(p, t, v) {
        var i :| 0 <= i < |t.unionTypes| && Conforms(l, t.unionTypes[i], v);
        ConformingIsAccepted(p, l, t.unionTypes[i], v);
        OnlyBranch(p, l, t, i, v);
      }
    }
  }

  lemma {:induction false} OnlyBranch(p: Parsers, l: Kcl, t: KclType, i: nat, v: Json)
    requires ShapeOf(t.kind) == UnionShape && i < |t.unionTypes|
    requires Known(t.unionTypes[i]) && Conforms(l, t.unionTypes[i], v) && Accepts(p, t.unionTypes[i], v)
    requires forall j :: 0 <= j < |t.unionTypes| && i != j ==> !Fits(p, l, t.unionTypes[i], t.unionTypes[j])
    ensures Accepts(p, t, v)
  {
    var bs := Verdicts(p, t.unionTypes, v);
    forall j | 0 <= j < |bs| && j != i ensures !bs[j] {
      if bs[j] {
        WitnessFits(p, l, t.unionTypes[i], t.unionTypes[j], v);
      }
    }
    assert bs[i];
    assert ExactlyOne(bs);
  }
}
