/** The operations a checkout performs, against the files the commit's tree has. */
module GitTrees {
  import opened Text
  import opened GitCheckout

  // ----- the tree of a commit -----

  /** Names are distinct in every directory of the tree, as in every tree git writes. */
  predicate Distinct(entries: seq<Entry>)
    decreases entries
  {
    && (forall i, j :: 0 <= i < j < |entries| ==> entries[i].name != entries[j].name)
    && (forall i :: 0 <= i < |entries| && entries[i].node.Sub? ==> Distinct(entries[i].node.entries))
  }

  /** The contents of the file the tree has at a path, if it has one. */
  function BlobAt(entries: seq<Entry>, path: Path): Option<string>
    decreases entries
  {
    if path == [] || entries == [] then None
    else
      var e := entries[0];
      if e.name != path[0] then BlobAt(entries[1..], path)
      else match e.node
        case Blob(data) => if |path| == 1 then Some(data) else None
        case Sub(children) => BlobAt(children, path[1..])
        case _ => None
  }

  /** Every name is safe and every object there: the tree can be written out in full. */
  predicate Whole(entries: seq<Entry>)
    decreases entries
  {
    forall i :: 0 <= i < |entries| ==>
      && IsSafeComponent(entries[i].name)
      && !entries[i].node.Broken? && !entries[i].node.LostTree?
      && (entries[i].node.Sub? ==> Whole(entries[i].node.entries))
  }

  // ----- operations and blobs -----

  predicate Has(ops: seq<Op>, op: Op) { exists i :: 0 <= i < |ops| && ops[i] == op }

  predicate DistinctPaths(ops: seq<Op>) {
    forall i, j :: 0 <= i < j < |ops| ==> ops[i].path != ops[j].path
  }

  predicate Below(ops: seq<Op>, dest: Path) {
    forall i :: 0 <= i < |ops| ==> |dest| < |ops[i].path| && ops[i].path[..|dest|] == dest
  }

  /** Every operation of `ops` is under one of the entries from `from` on. */
  predicate Under(ops: seq<Op>, dest: Path, entries: seq<Entry>) {
    Below(ops, dest) && forall i :: 0 <= i < |ops| ==> NamesOne(entries, ops[i].path[|dest|])
  }

  predicate NamesOne(entries: seq<Entry>, name: string) {
    exists k :: 0 <= k < |entries| && entries[k].name == name
  }

  /** Whether writing out reached the end is a property of the tree alone. */
  lemma {:induction false} PlanIsWhole(entries: seq<Entry>, dest: Path)
    ensures TreePlan(entries, dest).whole <==> Whole(entries)
    decreases entries
  {
    if entries != [] {
      var e, rest := entries[0], entries[1..];
      PlanIsWhole(rest, dest);
      if e.node.Sub? {
        PlanIsWhole(e.node.entries, dest + [e.name]);
      }
      WholeSplits(entries);
    }
  }

  lemma {:induction false} WholeSplits(entries: seq<Entry>)
    requires entries != []
    ensures
      var e := entries[0];
      Whole(entries) <==>
        (&& Whole(entries[1..]) && IsSafeComponent(e.name) && !e.node.Broken? && !e.node.LostTree?
         && (e.node.Sub? ==> Whole(e.node.entries)))
  {
    var rest := entries[1..];
    assert forall i :: 0 <= i < |rest| ==> rest[i] == entries[i + 1];
    assert forall i :: 0 < i < |entries| ==> entries[i] == rest[i - 1];
  }

  lemma {:induction false} DistinctSplits(entries: seq<Entry>)
    requires Distinct(entries) && entries != []
    ensures Distinct(entries[1..]) && (entries[0].node.Sub? ==> Distinct(entries[0].node.entries))
    ensures !NamesOne(entries[1..], entries[0].name)
  {
    var rest := entries[1..];
    assert forall i :: 0 <= i < |rest| ==> rest[i] == entries[i + 1];
  }

  /** Each operation lies strictly below the destination, under one of the entries. */
  lemma {:induction false} PlanStaysUnder(entries: seq<Entry>, dest: Path)
    ensures Under(TreePlan(entries, dest).ops, dest, entries)
    decreases entries
  {
    if entries != [] && IsSafeComponent(entries[0].name) {
      var e, rest := entries[0], entries[1..];
      assert forall i :: 0 <= i < |rest| ==> rest[i] == entries[i + 1];
      PlanStaysUnder(rest, dest);
      var tail := TreePlan(rest, dest).ops;
      assert Under(tail, dest, entries) by {
        forall i | 0 <= i < |tail| ensures NamesOne(entries, tail[i].path[|dest|]) {
          var k :| 0 <= k < |rest| && rest[k].name == tail[i].path[|dest|];
          assert entries[k + 1].name == tail[i].path[|dest|];
        }
      }
      var head := HeadOps(e, dest);
      HeadUnder(e, dest);
      forall i | 0 <= i < |head| ensures NamesOne(entries, head[i].path[|dest|]) {
        assert entries[0].name == head[i].path[|dest|];
      }
      PlanSplits(entries, dest);
    }
  }

  /** What stands between the separators of a path, Unix's or Windows'. */
  function Components(name: string): (parts: seq<string>)
    ensures parts != []
  {
    if name == "" then [""]
    else
      var rest := Components(name[1..]);
      if name[0] == '/' || name[0] == '\\' then [""] + rest else [[name[0]] + rest[0]] + rest[1..]
  }

  /** One component, which stays where it is and does not climb. */
  predicate IsOrdinary(name: string) { Components(name) == [name] && name != "" && name != "." && name != ".." }

  lemma {:induction false} OneComponentExactly(name: string)
    ensures Components(name) == [name] <==> '/' !in name && '\\' !in name
  {
    if name != "" {
      OneComponentExactly(name[1..]);
      var rest := Components(name[1..]);
      assert name == [name[0]] + name[1..];
      assert rest == [name[1..]] ==> rest[1..] == [];
      assert Components(name) == [name] ==> Components(name)[0] == name && Components(name)[1..] == [];
      assert ([name[0]] + rest[0])[1..] == rest[0] && rest == [rest[0]] + rest[1..];
    }
  }

  lemma {:induction false} SafeNamesAreOrdinary(name: string)
    ensures IsSafeComponent(name) <==> IsOrdinary(name)
  {
    OneComponentExactly(name);
  }

  /** The operations of one entry. */
  function HeadOps(e: Entry, dest: Path): seq<Op> {
    match e.node
    case Blob(data) => [Write(dest + [e.name], data)]
    case Sub(children) => [Mkdir(dest + [e.name])] + TreePlan(children, dest + [e.name]).ops
    case LostTree => [Mkdir(dest + [e.name])]
    case _ => []
  }

  /** No operation climbs out of the destination, or leaves it by a separator in a name. */
  ghost predicate StaysOrdinary(op: Op, dest: Path) {
    dest <= op.path && forall i :: |dest| <= i < |op.path| ==> IsOrdinary(op.path[i])
  }

  lemma {:induction false} PathsStayOrdinary(entries: seq<Entry>, dest: Path, op: Op)
    requires Has(TreePlan(entries, dest).ops, op)
    ensures StaysOrdinary(op, dest)
    decreases entries
  {
    var e, rest := entries[0], entries[1..];
    assert IsSafeComponent(e.name);
    SafeNamesAreOrdinary(e.name);
    PlanSplits(entries, dest);
    HasAppend(HeadOps(e, dest), TreePlan(rest, dest).ops, op);
    if Has(HeadOps(e, dest), op) {
      HeadStaysOrdinary(e, dest, op);
    } else {
      PathsStayOrdinary(rest, dest, op);
    }
  }

  lemma {:induction false} HeadStaysOrdinary(e: Entry, dest: Path, op: Op)
    requires Has(HeadOps(e, dest), op) && IsOrdinary(e.name)
    ensures StaysOrdinary(op, dest)
    decreases e
  {
    var target := dest + [e.name];
    if e.node.Sub? && op != Mkdir(target) {
      HasAppend([Mkdir(target)], TreePlan(e.node.entries, target).ops, op);
      PathsStayOrdinary(e.node.entries, target, op);
    }
  }

  lemma {:induction false} PlanSplits(entries: seq<Entry>, dest: Path)
    requires entries != [] && IsSafeComponent(entries[0].name)
    ensures TreePlan(entries, dest).ops == HeadOps(entries[0], dest) ||
            TreePlan(entries, dest).ops == HeadOps(entries[0], dest) + TreePlan(entries[1..], dest).ops
    ensures TreePlan(entries, dest).whole ==>
            TreePlan(entries, dest).ops == HeadOps(entries[0], dest) + TreePlan(entries[1..], dest).ops
  {
    assert [] + TreePlan(entries[1..], dest).ops == TreePlan(entries[1..], dest).ops;
  }

  lemma {:induction false} HeadUnder(e: Entry, dest: Path)
    ensures Below(HeadOps(e, dest), dest)
    ensures forall i :: 0 <= i < |HeadOps(e, dest)| ==> HeadOps(e, dest)[i].path[|dest|] == e.name
    decreases e, 1
  {
    if e.node.Sub? {
      var target := dest + [e.name];
      var inner := TreePlan(e.node.entries, target).ops;
      PlanStaysUnder(e.node.entries, target);
      forall i | 0 <= i < |inner| ensures inner[i].path[..|dest|] == dest && inner[i].path[|dest|] == e.name {
        assert inner[i].path[..|target|][|dest|] == target[|dest|];
        assert inner[i].path[..|target|][..|dest|] == inner[i].path[..|dest|];
      }
    }
  }

  /** No two operations name the same path. */
  lemma {:induction false} PlanPathsDistinct(entries: seq<Entry>, dest: Path)
    requires Distinct(entries)
    ensures DistinctPaths(TreePlan(entries, dest).ops)
    decreases entries
  {
    if entries != [] && IsSafeComponent(entries[0].name) {
      var e, rest := entries[0], entries[1..];
      DistinctSplits(entries);
      PlanSplits(entries, dest);
      PlanPathsDistinct(rest, dest);
      HeadUnder(e, dest);
      PlanStaysUnder(rest, dest);
      if e.node.Sub? {
        var target := dest + [e.name];
        PlanPathsDistinct(e.node.entries, target);
        PlanStaysUnder(e.node.entries, target);
      }
      ApartPaths(HeadOps(e, dest), TreePlan(rest, dest).ops, dest, e.name, rest);
    }
  }

  lemma {:induction false} ApartPaths(head: seq<Op>, tail: seq<Op>, dest: Path, name: string, rest: seq<Entry>)
    requires DistinctPaths(head) && DistinctPaths(tail)
    requires Below(head, dest) && forall i :: 0 <= i < |head| ==> head[i].path[|dest|] == name
    requires Under(tail, dest, rest) && !NamesOne(rest, name)
    ensures DistinctPaths(head + tail)
  {
    forall i, j | 0 <= i < |head| && 0 <= j < |tail| ensures head[i].path != tail[j].path {
      assert NamesOne(rest, tail[j].path[|dest|]);
    }
  }

  lemma {:induction false} HasAppend(a: seq<Op>, b: seq<Op>, op: Op)
    ensures Has(a + b, op) <==> Has(a, op) || Has(b, op)
  {
    if Has(a, op) {
      var i :| 0 <= i < |a| && a[i] == op;
      assert (a + b)[i] == op;
    }
    if Has(b, op) {
      var i :| 0 <= i < |b| && b[i] == op;
      assert (a + b)[|a| + i] == op;
    }
  }

  /** The files a plan writes are the blobs of the tree. */
  lemma {:induction false} WritesAreBlobs(entries: seq<Entry>, dest: Path, path: Path, data: string)
    requires Distinct(entries) && Whole(entries)
    ensures Has(TreePlan(entries, dest).ops, Write(dest + path, data)) <==> BlobAt(entries, path) == Some(data)
    decreases entries
  {
    var op := Write(dest + path, data);
    PlanStaysUnder(entries, dest);
    if entries == [] {
    } else if path == [] {
      assert dest + path == dest;
    } else {
      var e, rest := entries[0], entries[1..];
      PlanIsWhole(entries, dest);
      WholeSplits(entries);
      DistinctSplits(entries);
      PlanSplits(entries, dest);
      HasAppend(HeadOps(e, dest), TreePlan(rest, dest).ops, op);
      assert (dest + path)[|dest|] == path[0];
      if e.name != path[0] {
        HeadUnder(e, dest);
        WritesAreBlobs(rest, dest, path, data);
      } else {
        PlanStaysUnder(rest, dest);
        assert !Has(TreePlan(rest, dest).ops, op);
        HeadWrites(e, dest, path, data);
        if e.node.Sub? {
          WritesAreBlobs(e.node.entries, dest + [e.name], path[1..], data);
        }
      }
    }
  }

  lemma {:induction false} HeadWrites(e: Entry, dest: Path, path: Path, data: string)
    requires path != [] && e.name == path[0]
    ensures match e.node
      case Blob(d) => Has(HeadOps(e, dest), Write(dest + path, data)) <==> |path| == 1 && d == data
      case Sub(children) => Has(HeadOps(e, dest), Write(dest + path, data)) <==>
        Has(TreePlan(children, dest + [e.name]).ops, Write(dest + [e.name] + path[1..], data))
      case _ => !Has(HeadOps(e, dest), Write(dest + path, data))
  {
    var op := Write(dest + path, data);
    assert dest + path == dest + [e.name] + path[1..];
    match e.node {
      case Blob(d) =>
        assert HeadOps(e, dest)[0] == Write(dest + [e.name], d);
        if |path| == 1 {
          assert path == [e.name];
        } else {
          assert |dest + path| != |dest + [e.name]|;
        }
      case Sub(children) =>
        HasAppend([Mkdir(dest + [e.name])], TreePlan(children, dest + [e.name]).ops, op);
      case _ =>
    }
  }
}
