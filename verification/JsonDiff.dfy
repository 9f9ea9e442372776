/** The structural diff: which pointers differ between two JSON documents. */
module JsonDiff {
  import opened Text
  import opened JsonPointer

  /** Parsed JSON as Python holds it.  Integers and binary64 numbers are
      different types there, and so they are here. */
  datatype Json =
    | JNull
    | JBool(b: bool)
    | JInt(i: int)
    | JFloat(r: real)
    | JStr(s: string)
    | JArr(items: seq<Json>)
    | JObj(members: map<string, Json>)

  predicate SameType(a: Json, b: Json) {
    match a
    case JNull => b.JNull?
    case JBool(_) => b.JBool?
    case JInt(_) => b.JInt?
    case JFloat(_) => b.JFloat?
    case JStr(_) => b.JStr?
    case JArr(_) => b.JArr?
    case JObj(_) => b.JObj?
  }

  function Member(pointer: string, key: string): string { pointer + "/" + Escape(key) }

  function Index(pointer: string, i: nat): string { pointer + "/" + Decimal(i) }

  /** The suite's `_changed_json_pointers`. */
  function Changed(before: Json, after: Json, pointer: string): set<string>
    decreases before
  {
    if !SameType(before, after) then {pointer}
    else match before
         case JObj(m) =>
           var n := after.members;
           (set key | key in m.Keys + n.Keys && (key !in m || key !in n) :: Member(pointer, key)) +
           (set key, p | key in m && key in n && p in Changed(m[key], n[key], Member(pointer, key)) :: p)
         case JArr(xs) =>
           var ys := after.items;
           if |xs| != |ys| then {pointer}
           else set i, p | 0 <= i < |xs| && p in Changed(xs[i], ys[i], Index(pointer, i)) :: p
         case _ =>
           if before == after then {} else {pointer}
  }

  // ----- what an empty diff means -----

  lemma {:induction false} SameUnchanged(a: Json, pointer: string)
    ensures Changed(a, a, pointer) == {}
    decreases a
  {
    match a
    case JObj(m) =>
      forall key | key in m { SameUnchanged(m[key], Member(pointer, key)); }
    case JArr(xs) =>
      forall i | 0 <= i < |xs| { SameUnchanged(xs[i], Index(pointer, i)); }
    case _ =>
  }

  lemma {:induction false} UnchangedSame(a: Json, b: Json, pointer: string)
    requires Changed(a, b, pointer) == {}
    ensures a == b
    decreases a
  {
    var changed := Changed(a, b, pointer);
    assert pointer !in changed;
    match a
    case JObj(m) =>
      var n := b.members;
      forall key | key in m.Keys + n.Keys
        ensures key in m && key in n && m[key] == n[key]
      {
        assert Member(pointer, key) !in changed;
        assert forall p :: key in m && key in n && p in Changed(m[key], n[key], Member(pointer, key)) ==> p in changed;
        UnchangedSame(m[key], n[key], Member(pointer, key));
      }
      assert m.Keys == n.Keys;
    case JArr(xs) =>
      forall i | 0 <= i < |xs|
        ensures xs[i] == b.items[i]
      {
        assert forall p :: p in Changed(xs[i], b.items[i], Index(pointer, i)) ==> p in changed;
        UnchangedSame(xs[i], b.items[i], Index(pointer, i));
      }
    case _ =>
  }

  /** The diff is empty exactly for equal documents, scalar types included. */
  lemma EmptyDiff(a: Json, b: Json, pointer: string)
    ensures Changed(a, b, pointer) == {} <==> a == b
  {
    SameUnchanged(a, pointer);
    if Changed(a, b, pointer) == {} {
      UnchangedSame(a, b, pointer);
    }
  }

  // ----- the diff as a cover -----

  lemma {:induction false} ChangedBelow(a: Json, b: Json, pointer: string, p: string)
    requires p in Changed(a, b, pointer)
    ensures AtOrBelow(p, pointer)
    decreases a
  {
    if SameType(a, b) {
      match a
      case JObj(m) =>
        var n := b.members;
        if key :| key in m && key in n && p in Changed(m[key], n[key], Member(pointer, key)) {
          ChangedBelow(m[key], n[key], Member(pointer, key), p);
          ChildIsBelow(p, pointer, Escape(key));
        } else {
          var key :| key in m.Keys + n.Keys && p == Member(pointer, key);
          ChildIsBelow(p, pointer, Escape(key));
        }
      case JArr(xs) =>
        if |xs| == |b.items| {
          var i :| 0 <= i < |xs| && p in Changed(xs[i], b.items[i], Index(pointer, i));
          ChangedBelow(xs[i], b.items[i], Index(pointer, i), p);
          ChildIsBelow(p, pointer, Decimal(i));
        }
      case _ =>
    }
  }

  /** Some pointer of `roots` is at or above `p`. */
  ghost predicate Covered(p: string, roots: set<string>) {
    exists root :: root in roots && AtOrBelow(p, root)
  }

  lemma CoveredByMore(p: string, few: set<string>, more: set<string>)
    requires Covered(p, few) && few <= more
    ensures Covered(p, more)
  {}

  /** A triangle law: whatever differs between the ends of two steps lies at or
      below something that one of the steps changed. */
  lemma {:induction false} Triangle(a: Json, b: Json, c: Json, pointer: string, p: string)
    requires p in Changed(a, c, pointer)
    ensures Covered(p, Changed(a, b, pointer) + Changed(b, c, pointer))
    decreases a
  {
    var steps := Changed(a, b, pointer) + Changed(b, c, pointer);
    ChangedBelow(a, c, pointer, p);
    if !SameType(a, b) || !SameType(b, c) {
      assert pointer in steps;
    } else {
      match a
      case JObj(m) => TriangleInObject(a, b, c, pointer, p);
      case JArr(xs) => TriangleInArray(a, b, c, pointer, p);
      case _ => assert pointer in steps;
    }
  }

  lemma {:induction false} TriangleInObject(a: Json, b: Json, c: Json, pointer: string, p: string)
    requires a.JObj? && b.JObj? && c.JObj? && p in Changed(a, c, pointer)
    ensures Covered(p, Changed(a, b, pointer) + Changed(b, c, pointer))
    decreases a, 0
  {
    var ma, mb, mc := a.members, b.members, c.members;
    var steps := Changed(a, b, pointer) + Changed(b, c, pointer);
    if key :| key in ma && key in mc && p in Changed(ma[key], mc[key], Member(pointer, key)) {
      var child := Member(pointer, key);
      ChangedBelow(ma[key], mc[key], child, p);
      if key in mb {
        Triangle(ma[key], mb[key], mc[key], child, p);
        var inner := Changed(ma[key], mb[key], child) + Changed(mb[key], mc[key], child);
        assert inner <= steps;
        CoveredByMore(p, inner, steps);
      } else {
        assert child in steps;
      }
    } else {
      var key :| key in ma.Keys + mc.Keys && (key !in ma || key !in mc) && p == Member(pointer, key);
      assert p in steps;
    }
  }

  lemma {:induction false} TriangleInArray(a: Json, b: Json, c: Json, pointer: string, p: string)
    requires a.JArr? && b.JArr? && c.JArr? && p in Changed(a, c, pointer)
    ensures Covered(p, Changed(a, b, pointer) + Changed(b, c, pointer))
    decreases a, 0
  {
    var xs, ys, zs := a.items, b.items, c.items;
    var steps := Changed(a, b, pointer) + Changed(b, c, pointer);
    ChangedBelow(a, c, pointer, p);
    if |xs| == |ys| == |zs| {
      var i :| 0 <= i < |xs| && p in Changed(xs[i], zs[i], Index(pointer, i));
      Triangle(xs[i], ys[i], zs[i], Index(pointer, i), p);
      var inner := Changed(xs[i], ys[i], Index(pointer, i)) + Changed(ys[i], zs[i], Index(pointer, i));
      assert inner <= steps;
      CoveredByMore(p, inner, steps);
    } else {
      assert pointer in steps;
    }
  }

  // ----- the mocks' diff -----

  /** The mocks' own `_changed_json_pointers`: arrays of different lengths are
      compared element by element instead of being reported whole. */
  function ChangedElementwise(before: Json, after: Json, pointer: string): set<string>
    decreases before
  {
    if !SameType(before, after) then {pointer}
    else match before
         case JObj(m) =>
           var n := after.members;
           (set key | key in m.Keys + n.Keys && (key !in m || key !in n) :: Member(pointer, key)) +
           (set key, p | key in m && key in n && p in ChangedElementwise(m[key], n[key], Member(pointer, key)) :: p)
         case JArr(xs) =>
           var ys := after.items;
           (set i | 0 <= i < |xs| + |ys| && (|xs| <= i < |ys| || |ys| <= i < |xs|) :: Index(pointer, i)) +
           (set i, p | 0 <= i < |xs| && i < |ys| && p in ChangedElementwise(xs[i], ys[i], Index(pointer, i)) :: p)
         case _ =>
           if before == after then {} else {pointer}
  }

  lemma {:induction false} ElementwiseBelow(a: Json, b: Json, pointer: string, p: string)
    requires p in ChangedElementwise(a, b, pointer)
    ensures AtOrBelow(p, pointer)
    decreases a
  {
    if SameType(a, b) {
      match a
      case JObj(m) =>
        var n := b.members;
        if key :| key in m && key in n && p in ChangedElementwise(m[key], n[key], Member(pointer, key)) {
          ElementwiseBelow(m[key], n[key], Member(pointer, key), p);
          ChildIsBelow(p, pointer, Escape(key));
        } else {
          var key :| key in m.Keys + n.Keys && p == Member(pointer, key);
          ChildIsBelow(p, pointer, Escape(key));
        }
      case JArr(xs) =>
        if i :| 0 <= i < |xs| && i < |b.items| && p in ChangedElementwise(xs[i], b.items[i], Index(pointer, i)) {
          ElementwiseBelow(xs[i], b.items[i], Index(pointer, i), p);
          assert AtOrBelow(p, Index(pointer, i));
          ChildIsBelow(p, pointer, Decimal(i));
        } else {
          var j: nat :| j < |xs| + |b.items| && Index(pointer, j) == p;
          ChildIsBelow(Index(pointer, j), pointer, Decimal(j));
        }
      case _ =>
    }
  }

  /** Every pointer the mocks report lies at or below one the suite reports. */
  lemma {:induction false} ElementwiseCovered(a: Json, b: Json, pointer: string, p: string)
    requires p in ChangedElementwise(a, b, pointer)
    ensures Covered(p, Changed(a, b, pointer))
    decreases a
  {
    ElementwiseBelow(a, b, pointer, p);
    if SameType(a, b) {
      match a
      case JObj(m) =>
        var n := b.members;
        if key :| key in m && key in n && p in ChangedElementwise(m[key], n[key], Member(pointer, key)) {
          var child := Member(pointer, key);
          ElementwiseCovered(m[key], n[key], child, p);
          assert Changed(m[key], n[key], child) <= Changed(a, b, pointer);
          CoveredByMore(p, Changed(m[key], n[key], child), Changed(a, b, pointer));
        } else {
          assert p in Changed(a, b, pointer);
        }
      case JArr(xs) =>
        if |xs| == |b.items| {
          var i :| 0 <= i < |xs| && p in ChangedElementwise(xs[i], b.items[i], Index(pointer, i));
          var child := Index(pointer, i);
          ElementwiseCovered(xs[i], b.items[i], child, p);
          assert Changed(xs[i], b.items[i], child) <= Changed(a, b, pointer);
          CoveredByMore(p, Changed(xs[i], b.items[i], child), Changed(a, b, pointer));
        } else {
          assert pointer in Changed(a, b, pointer);
        }
      case _ =>
    }
  }

  // ----- the two edit checks -----

  /** conformance/check.py: no changed path outside `editable_paths`. */
  predicate SuiteEditAllowed(base: Json, candidate: Json, editable: seq<string>) {
    forall p :: p in Changed(base, candidate, "") ==> exists allowed :: allowed in editable && AtOrBelow(p, allowed)
  }

  /** The mocks' `_path_is_editable`. */
  predicate PathIsEditable(path: string, editable: seq<string>) {
    exists allowed :: allowed in editable && (path == allowed || allowed == "" || allowed + "/" <= path)
  }

  predicate MockEditAllowed(base: Json, candidate: Json, editable: seq<string>) {
    forall p :: p in ChangedElementwise(base, candidate, "") ==> PathIsEditable(p, editable)
  }

  /** What the suite lets through, the mocks let through. */
  lemma SuiteEditImpliesMockEdit(base: Json, candidate: Json, editable: seq<string>)
    requires SuiteEditAllowed(base, candidate, editable)
    ensures MockEditAllowed(base, candidate, editable)
  {
    forall p | p in ChangedElementwise(base, candidate, "")
      ensures PathIsEditable(p, editable)
    {
      ElementwiseCovered(base, candidate, "", p);
      var root :| root in Changed(base, candidate, "") && AtOrBelow(p, root);
      var allowed :| allowed in editable && AtOrBelow(root, allowed);
      AtOrBelowTransitive(p, root, allowed);
    }
  }

  /** The outermost arrays whose length changes. */
  function Resized(before: Json, after: Json, pointer: string): set<string>
    decreases before
  {
    if !SameType(before, after) then {}
    else match before
         case JObj(m) =>
           var n := after.members;
           set key, p | key in m && key in n && p in Resized(m[key], n[key], Member(pointer, key)) :: p
         case JArr(xs) =>
           var ys := after.items;
           if |xs| != |ys| then {pointer}
           else set i, p | 0 <= i < |xs| && p in Resized(xs[i], ys[i], Index(pointer, i)) :: p
         case _ => {}
  }

  /** What the suite reports is what the mocks report, and the resized arrays. */
  lemma {:induction false} ChangedIsElementwiseOrResized(a: Json, b: Json, pointer: string)
    ensures Changed(a, b, pointer) <= ChangedElementwise(a, b, pointer) + Resized(a, b, pointer)
    ensures Resized(a, b, pointer) <= Changed(a, b, pointer)
    decreases a
  {
    if SameType(a, b) {
      match a
      case JObj(m) =>
        forall key | key in m && key in b.members {
          ChangedIsElementwiseOrResized(m[key], b.members[key], Member(pointer, key));
        }
      case JArr(xs) =>
        forall i | 0 <= i < |xs| && i < |b.items| {
          ChangedIsElementwiseOrResized(xs[i], b.items[i], Index(pointer, i));
        }
      case _ =>
    }
  }

  lemma BelowIsEditable(p: string, root: string, allowed: string, editable: seq<string>)
    requires allowed in editable && AtOrBelow(root, allowed) && AtOrBelow(p, root)
    ensures PathIsEditable(p, editable)
  {
    AtOrBelowTransitive(p, root, allowed);
  }

  lemma ChangedHasEditable(base: Json, candidate: Json, p: string, editable: seq<string>)
    requires p in Changed(base, candidate, "") && PathIsEditable(p, editable)
    ensures exists allowed :: allowed in editable && AtOrBelow(p, allowed)
  {
    var allowed :| allowed in editable && (p == allowed || allowed == "" || allowed + "/" <= p);
    ChangedBelow(base, candidate, "", p);
    assert AtOrBelow(p, allowed);
  }

  /** The suite allows exactly those edits that the mocks allow and that resize
      no array outside the editable paths. */
  lemma EditChecksAgree(base: Json, candidate: Json, editable: seq<string>)
    ensures SuiteEditAllowed(base, candidate, editable) <==>
            MockEditAllowed(base, candidate, editable)
            && forall p :: p in Resized(base, candidate, "") ==> PathIsEditable(p, editable)
  {
    ChangedIsElementwiseOrResized(base, candidate, "");
    if SuiteEditAllowed(base, candidate, editable) {
      SuiteEditImpliesMockEdit(base, candidate, editable);
      forall p | p in Resized(base, candidate, "")
        ensures PathIsEditable(p, editable)
      {
        var allowed :| allowed in editable && AtOrBelow(p, allowed);
        BelowIsEditable(p, p, allowed, editable);
      }
    }
    if MockEditAllowed(base, candidate, editable)
       && forall p :: p in Resized(base, candidate, "") ==> PathIsEditable(p, editable) {
      forall p | p in Changed(base, candidate, "")
        ensures exists allowed :: allowed in editable && AtOrBelow(p, allowed)
      {
        ChangedHasEditable(base, candidate, p, editable);
      }
    }
  }

  /** Appending to an array whose next element is editable passes the mocks'
      check and not the suite's. */
  lemma MockEditIsWeaker()
    ensures MockEditAllowed(JArr([]), JArr([JNull]), ["/0"]) && !SuiteEditAllowed(JArr([]), JArr([JNull]), ["/0"])
  {
    var base, candidate := JArr([]), JArr([JNull]);
    assert Index("", 0) == "/0";
    assert ChangedElementwise(base, candidate, "") == {"/0"};
    assert "/0" in ["/0"];
    assert "" in Changed(base, candidate, "");
    assert !AtOrBelow("", "/0");
  }
}
