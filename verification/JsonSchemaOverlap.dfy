/** Whether two emitted schemas accept a common value, decided by looking at the types. */
module JsonSchemaOverlap {
  import opened Text
  import opened JsonSchema
  import opened JsonSchemaProperties

  ghost predicate Both(p: Parsers, a: KclType, b: KclType, v: Json) { Accepts(p, a, v) && Accepts(p, b, v) }

  ghost predicate Apart(p: Parsers, a: KclType, b: KclType) { forall v :: !Both(p, a, b, v) }

  ghost predicate PairwiseApart(p: Parsers, ts: seq<KclType>) {
    forall i, j :: 0 <= i < j < |ts| ==> Apart(p, ts[i], ts[j])
  }

  // ----- scalars -----

  datatype Extent = NoNumber | Integers | AllNumbers | Just(r: real)

  datatype Scalar = Texts(text: Option<string>) | Truths(truth: Option<bool>) | Numerals(extent: Extent)

  /** What a scalar type accepts; nothing for containers, unions and unconstrained types. */
  function ScalarOf(p: Parsers, s: Shape): Option<Scalar> {
    match s
    case StrShape => Some(Texts(None))
    case StrLiteral(lit) => Some(Texts(Some(lit)))
    case BoolShape => Some(Truths(None))
    case BoolLiteral(lit) => Some(Truths(Some(EqIgnoreCase(lit, "true"))))
    case IntShape => Some(Numerals(Integers))
    case IntLiteral(lit) => Some(Numerals(match p.int64(lit) case Some(n) => Just(n as real) case None => Integers))
    case NumberShape => Some(Numerals(AllNumbers))
    case NumberLiteral(lit) =>
      Some(Numerals(match p.float64(lit)
        case None => AllNumbers
        case Some(Finite(r)) => Just(r)
        case Some(NonFinite) => NoNumber))
    case _ => None
  }

  predicate InExtent(e: Extent, r: real) {
    match e
    case NoNumber => false
    case Integers => r == r.Floor as real
    case AllNumbers => true
    case Just(s) => r == s
  }

  predicate InScalar(s: Scalar, v: Json) {
    match s
    case Texts(t) => v.Str? && (t.Some? ==> v.s == t.value)
    case Truths(t) => v.Bool? && (t.Some? ==> v.b == t.value)
    case Numerals(e) => v.Num? && InExtent(e, v.n)
  }

  predicate ExtentsMeet(d: Extent, e: Extent) {
    match (d, e)
    case (NoNumber, _) => false
    case (_, NoNumber) => false
    case (Just(r), _) => InExtent(e, r)
    case (_, Just(r)) => InExtent(d, r)
    case _ => true
  }

  predicate ScalarsMeet(a: Scalar, b: Scalar) {
    match (a, b)
    case (Texts(t), Texts(u)) => t.None? || u.None? || t == u
    case (Truths(t), Truths(u)) => t.None? || u.None? || t == u
    case (Numerals(d), Numerals(e)) => ExtentsMeet(d, e)
    case _ => false
  }

  function ScalarWitness(a: Scalar, b: Scalar): Json {
    match (a, b)
    case (Texts(t), Texts(u)) => Str(if t.Some? then t.value else if u.Some? then u.value else "")
    case (Truths(t), Truths(u)) => Bool(if t.Some? then t.value else if u.Some? then u.value else true)
    case (Numerals(Just(r)), _) => Num(r)
    case (_, Numerals(Just(r))) => Num(r)
    case _ => Num(0.0)
  }

  lemma {:induction false} ScalarsMeetExactly(a: Scalar, b: Scalar, v: Json)
    ensures ScalarsMeet(a, b) ==> InScalar(a, ScalarWitness(a, b)) && InScalar(b, ScalarWitness(a, b))
    ensures InScalar(a, v) && InScalar(b, v) ==> ScalarsMeet(a, b)
  {
    assert 0.0 == 0.0.Floor as real;
  }

  lemma {:induction false} ScalarAccepts(p: Parsers, t: KclType, v: Json)
    requires ScalarOf(p, ShapeOf(t.kind)).Some?
    ensures Accepts(p, t, v) <==> InScalar(ScalarOf(p, ShapeOf(t.kind)).value, v)
  {
    match ShapeOf(t.kind) {
      case IntLiteral(lit) =>
        if p.int64(lit).Some? {
          var n := p.int64(lit).value;
          assert (n as real).Floor == n;
        }
      case _ =>
    }
  }

  // ----- classes of types -----

  predicate IsUnion(t: KclType) { ShapeOf(t.kind).UnionShape? && t.unionTypes != [] }

  /** Accepts everything. */
  predicate IsOpen(t: KclType) {
    ShapeOf(t.kind).AnyShape? || ShapeOf(t.kind).Foreign? || (ShapeOf(t.kind).UnionShape? && t.unionTypes == [])
  }

  predicate IsObject(t: KclType) { ShapeOf(t.kind).SchemaShape? || ShapeOf(t.kind).DictShape? }

  /** The names an object type insists on. */
  function Needed(t: KclType): set<string> {
    if ShapeOf(t.kind).SchemaShape? then set i | 0 <= i < |t.required| :: t.required[i] else {}
  }

  /** What an object type asks of the member `k`, if it is there. */
  function MemberOf(t: KclType, k: string): Option<KclType> {
    if ShapeOf(t.kind).SchemaShape? then (if k in t.properties then Some(t.properties[k]) else None)
    else t.item
  }

  lemma {:induction false} ObjectAccepts(p: Parsers, t: KclType, v: Json)
    requires IsObject(t)
    ensures Accepts(p, t, v) <==>
      && v.Obj? && Needed(t) <= v.members.Keys
      && forall k :: k in v.members && MemberOf(t, k).Some? ==> Accepts(p, MemberOf(t, k).value, v.members[k])
  {
    if v.Obj? && Needed(t) <= v.members.Keys && ShapeOf(t.kind).SchemaShape? {
      forall i | 0 <= i < |t.required| ensures t.required[i] in v.members {
        assert t.required[i] in Needed(t);
      }
    }
  }

  // ----- the decision -----

  /** Whether anything at all is accepted. */
  predicate Inhabited(p: Parsers, t: KclType)
    decreases t
  {
    if IsUnion(t) then exists i :: 0 <= i < |t.unionTypes| && Inhabited(p, t.unionTypes[i])
    else if IsObject(t) then forall k :: k in Needed(t) && MemberOf(t, k).Some? ==> Inhabited(p, MemberOf(t, k).value)
    else ScalarOf(p, ShapeOf(t.kind)) != Some(Numerals(NoNumber))
  }

  /** Whether some value is accepted by both. */
  predicate Overlaps(p: Parsers, a: KclType, b: KclType)
    decreases a, b
  {
    if IsUnion(a) then exists i :: 0 <= i < |a.unionTypes| && Overlaps(p, a.unionTypes[i], b)
    else if IsUnion(b) then exists i :: 0 <= i < |b.unionTypes| && Overlaps(p, a, b.unionTypes[i])
    else if IsOpen(a) then Inhabited(p, b)
    else if IsOpen(b) then Inhabited(p, a)
    else if IsObject(a) && IsObject(b) then
      forall k :: k in Needed(a) + Needed(b) ==>
        match (MemberOf(a, k), MemberOf(b, k))
        case (Some(x), Some(y)) => Overlaps(p, x, y)
        case (Some(x), None) => Inhabited(p, x)
        case (None, Some(y)) => Inhabited(p, y)
        case (None, None) => true
    else if ShapeOf(a.kind).ListShape? && ShapeOf(b.kind).ListShape? then true
    else
      var x, y := ScalarOf(p, ShapeOf(a.kind)), ScalarOf(p, ShapeOf(b.kind));
      x.Some? && y.Some? && ScalarsMeet(x.value, y.value)
  }

  /** In every union below `t`, no two branches overlap. */
  predicate Separate(p: Parsers, t: KclType)
    decreases t
  {
    match ShapeOf(t.kind)
    case SchemaShape => forall k :: k in t.properties ==> Separate(p, t.properties[k])
    case ListShape => t.item.Some? ==> Separate(p, t.item.value)
    case DictShape => t.item.Some? ==> Separate(p, t.item.value)
    case UnionShape =>
      && (forall i :: 0 <= i < |t.unionTypes| ==> Separate(p, t.unionTypes[i]))
      && (forall i, j :: 0 <= i < j < |t.unionTypes| ==> !Overlaps(p, t.unionTypes[i], t.unionTypes[j]))
    case _ => true
  }

  // ----- a common value is noticed -----

  lemma {:induction false} UnionBranch(p: Parsers, t: KclType, v: Json) returns (i: nat)
    requires IsUnion(t) && Accepts(p, t, v)
    ensures i < |t.unionTypes| && Accepts(p, t.unionTypes[i], v)
  {
    var bs := Verdicts(p, t.unionTypes, v);
    i :| 0 <= i < |bs| && bs[i] && forall j :: 0 <= j < |bs| && j != i ==> !bs[j];
  }

  lemma {:induction false} AcceptedInhabits(p: Parsers, t: KclType, v: Json)
    requires Accepts(p, t, v)
    ensures Inhabited(p, t)
    decreases t
  {
    if IsUnion(t) {
      var i := UnionBranch(p, t, v);
      AcceptedInhabits(p, t.unionTypes[i], v);
    } else if IsObject(t) {
      ObjectAccepts(p, t, v);
      forall k | k in Needed(t) && MemberOf(t, k).Some? ensures Inhabited(p, MemberOf(t, k).value) {
        AcceptedInhabits(p, MemberOf(t, k).value, v.members[k]);
      }
    } else if ScalarOf(p, ShapeOf(t.kind)).Some? {
      ScalarAccepts(p, t, v);
    }
  }

  lemma {:induction false} CommonValueOverlaps(p: Parsers, a: KclType, b: KclType, v: Json)
    requires Both(p, a, b, v)
    ensures Overlaps(p, a, b)
    decreases a, b
  {
    if IsUnion(a) {
      var i := UnionBranch(p, a, v);
      CommonValueOverlaps(p, a.unionTypes[i], b, v);
    } else if IsUnion(b) {
      var i := UnionBranch(p, b, v);
      CommonValueOverlaps(p, a, b.unionTypes[i], v);
    } else if IsOpen(a) {
      AcceptedInhabits(p, b, v);
    } else if IsOpen(b) {
      AcceptedInhabits(p, a, v);
    } else if IsObject(a) && IsObject(b) {
      ObjectAccepts(p, a, v);
      ObjectAccepts(p, b, v);
      forall k | k in Needed(a) + Needed(b)
        ensures match (MemberOf(a, k), MemberOf(b, k))
          case (Some(x), Some(y)) => Overlaps(p, x, y)
          case (Some(x), None) => Inhabited(p, x)
          case (None, Some(y)) => Inhabited(p, y)
          case (None, None) => true
      {
        match (MemberOf(a, k), MemberOf(b, k)) {
          case (Some(x), Some(y)) => CommonValueOverlaps(p, x, y, v.members[k]);
          case (Some(x), None) => AcceptedInhabits(p, x, v.members[k]);
          case (None, Some(y)) => AcceptedInhabits(p, y, v.members[k]);
          case (None, None) =>
        }
      }
    } else {
      CommonScalar(p, a, b, v);
    }
  }

  lemma {:induction false} CommonScalar(p: Parsers, a: KclType, b: KclType, v: Json)
    requires Both(p, a, b, v)
    requires !IsUnion(a) && !IsUnion(b) && !IsOpen(a) && !IsOpen(b) && !(IsObject(a) && IsObject(b))
    ensures Overlaps(p, a, b)
  {
    if ScalarOf(p, ShapeOf(a.kind)).Some? && ScalarOf(p, ShapeOf(b.kind)).Some? {
      ScalarAccepts(p, a, v);
      ScalarAccepts(p, b, v);
      ScalarsMeetExactly(ScalarOf(p, ShapeOf(a.kind)).value, ScalarOf(p, ShapeOf(b.kind)).value, v);
    }
  }

  // ----- an overlap has a common value -----

  /** Accepted by one branch of a separate union, a value is accepted by the union. */
  lemma {:induction false} BranchSuffices(p: Parsers, t: KclType, i: nat, v: Json)
    requires ShapeOf(t.kind).UnionShape? && i < |t.unionTypes| && Accepts(p, t.unionTypes[i], v)
    requires forall i, j :: 0 <= i < j < |t.unionTypes| ==> !Overlaps(p, t.unionTypes[i], t.unionTypes[j])
    ensures Accepts(p, t, v)
  {
    var bs := Verdicts(p, t.unionTypes, v);
    forall j | 0 <= j < |bs| && j != i ensures !bs[j] {
      if bs[j] {
        CommonValueOverlaps(p, t.unionTypes[if i < j then i else j], t.unionTypes[if i < j then j else i], v);
      }
    }
    assert bs[i];
    assert ExactlyOne(bs);
  }

  ghost predicate MemberOk(p: Parsers, a: KclType, b: KclType, k: string, v: Json) {
    && (MemberOf(a, k).Some? ==> Accepts(p, MemberOf(a, k).value, v))
    && (MemberOf(b, k).Some? ==> Accepts(p, MemberOf(b, k).value, v))
  }

  /** An object with just the members that are needed. */
  lemma {:induction false} MinimalObject(p: Parsers, a: KclType, b: KclType) returns (v: Json)
    requires IsObject(a) && IsObject(b)
    requires forall k :: k in Needed(a) + Needed(b) ==> exists m :: MemberOk(p, a, b, k, m)
    ensures Both(p, a, b, v)
  {
    var keys := Needed(a) + Needed(b);
    v := Obj(map k | k in keys :: (var m :| MemberOk(p, a, b, k, m); m));
    forall k | k in v.members ensures MemberOk(p, a, b, k, v.members[k]) {
    }
    ObjectAccepts(p, a, v);
    ObjectAccepts(p, b, v);
  }

  lemma {:induction false} SeparateParts(p: Parsers, t: KclType)
    requires Separate(p, t)
    ensures IsUnion(t) ==> forall i :: 0 <= i < |t.unionTypes| ==> Separate(p, t.unionTypes[i])
    ensures IsObject(t) ==> forall k :: MemberOf(t, k).Some? ==> Separate(p, MemberOf(t, k).value)
  {
  }

  lemma {:induction false} InhabitedHasValue(p: Parsers, t: KclType) returns (v: Json)
    requires Separate(p, t) && Inhabited(p, t)
    ensures Accepts(p, t, v)
    decreases t
  {
    SeparateParts(p, t);
    if IsUnion(t) {
      var i :| 0 <= i < |t.unionTypes| && Inhabited(p, t.unionTypes[i]);
      v := InhabitedHasValue(p, t.unionTypes[i]);
      BranchSuffices(p, t, i, v);
    } else if IsObject(t) {
      forall k | k in Needed(t) + Needed(t) ensures exists m :: MemberOk(p, t, t, k, m) {
        if MemberOf(t, k).Some? {
          var m := InhabitedHasValue(p, MemberOf(t, k).value);
          assert MemberOk(p, t, t, k, m);
        } else {
          assert MemberOk(p, t, t, k, Null);
        }
      }
      v := MinimalObject(p, t, t);
    } else {
      v := LeafValue(p, t);
    }
  }

  lemma {:induction false} LeafValue(p: Parsers, t: KclType) returns (v: Json)
    requires !IsUnion(t) && !IsObject(t) && Inhabited(p, t)
    ensures Accepts(p, t, v)
  {
    var s := ScalarOf(p, ShapeOf(t.kind));
    if s.Some? {
      v := ScalarWitness(s.value, s.value);
      ScalarsMeetExactly(s.value, s.value, v);
      ScalarAccepts(p, t, v);
    } else {
      v := Arr([]);
    }
  }

  lemma {:induction false} OverlapHasValue(p: Parsers, a: KclType, b: KclType) returns (v: Json)
    requires Separate(p, a) && Separate(p, b) && Overlaps(p, a, b)
    ensures Both(p, a, b, v)
    decreases a, b
  {
    SeparateParts(p, a);
    SeparateParts(p, b);
    if IsUnion(a) {
      var i :| 0 <= i < |a.unionTypes| && Overlaps(p, a.unionTypes[i], b);
      v := OverlapHasValue(p, a.unionTypes[i], b);
      BranchSuffices(p, a, i, v);
    } else if IsUnion(b) {
      var i :| 0 <= i < |b.unionTypes| && Overlaps(p, a, b.unionTypes[i]);
      v := OverlapHasValue(p, a, b.unionTypes[i]);
      BranchSuffices(p, b, i, v);
    } else if IsOpen(a) {
      v := InhabitedHasValue(p, b);
    } else if IsOpen(b) {
      v := InhabitedHasValue(p, a);
    } else if IsObject(a) && IsObject(b) {
      forall k | k in Needed(a) + Needed(b) ensures exists m :: MemberOk(p, a, b, k, m) {
        match (MemberOf(a, k), MemberOf(b, k)) {
          case (Some(x), Some(y)) =>
            var m := OverlapHasValue(p, x, y);
            assert MemberOk(p, a, b, k, m);
          case (Some(x), None) =>
            var m := InhabitedHasValue(p, x);
            assert MemberOk(p, a, b, k, m);
          case (None, Some(y)) =>
            var m := InhabitedHasValue(p, y);
            assert MemberOk(p, a, b, k, m);
          case (None, None) => assert MemberOk(p, a, b, k, Null);
        }
      }
      v := MinimalObject(p, a, b);
    } else {
      v := LeafOverlap(p, a, b);
    }
  }

  lemma {:induction false} LeafOverlap(p: Parsers, a: KclType, b: KclType) returns (v: Json)
    requires !IsUnion(a) && !IsUnion(b) && !IsOpen(a) && !IsOpen(b) && !(IsObject(a) && IsObject(b))
    requires Overlaps(p, a, b)
    ensures Both(p, a, b, v)
  {
    if ShapeOf(a.kind).ListShape? && ShapeOf(b.kind).ListShape? {
      v := Arr([]);
    } else {
      var x, y := ScalarOf(p, ShapeOf(a.kind)).value, ScalarOf(p, ShapeOf(b.kind)).value;
      v := ScalarWitness(x, y);
      ScalarsMeetExactly(x, y, v);
      ScalarAccepts(p, a, v);
      ScalarAccepts(p, b, v);
    }
  }

  /** `Overlaps` decides whether two schemas accept a common value. */
  lemma {:induction false} OverlapsExactly(p: Parsers, a: KclType, b: KclType)
    requires Separate(p, a) && Separate(p, b)
    ensures Overlaps(p, a, b) <==> !Apart(p, a, b)
  {
    if Overlaps(p, a, b) {
      var v := OverlapHasValue(p, a, b);
    }
    if v :| Both(p, a, b, v) {
      CommonValueOverlaps(p, a, b, v);
    }
  }
}
