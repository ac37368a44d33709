/**
  What a condition answers, said of the values its path leads to: equality, order,
  membership, presence and the connectives, on evaluated nodes.
 */
module EngineMeaning {
  import opened Engine
  import opened Json
  import opened Ordering
  import opened Wrappers

  predicate Leaf(v: Json) {
    !v.List? && !v.Dict?
  }

  predicate NumberIs(v: Json, x: real) {
    v == Num(x) || (v == Bool(true) && x == 1.0) || (v == Bool(false) && x == 0.0)
  }

  /** The same value, or the same number. */
  ghost predicate Same(a: Json, b: Json) {
    a == b || exists x :: NumberIs(a, x) && NumberIs(b, x)
  }

  lemma {:induction false} LeavesEqualExactly(a: Json, b: Json)
    requires Leaf(a)
    ensures Equal(a, b) <==> Same(a, b)
  {
    if IsNumber(a) && IsNumber(b) {
      assert NumberIs(a, AsNumber(a)) && NumberIs(b, AsNumber(b));
    }
  }

  /** Every value equals itself. */
  lemma {:induction false} EqualIsReflexive(v: Json)
    ensures Equal(v, v)
  {
    match v
    case List(items) =>
      forall i | 0 <= i < |items| ensures Equal(items[i], items[i]) { EqualIsReflexive(items[i]); }
    case Dict(entries) =>
      forall k | k in entries ensures Equal(entries[k], entries[k]) { EqualIsReflexive(entries[k]); }
    case _ =>
  }

  predicate NumberFree(v: Json) {
    match v
    case Bool(_) => false
    case Num(_) => false
    case List(items) => forall i | 0 <= i < |items| :: NumberFree(items[i])
    case Dict(entries) => forall k | k in entries :: NumberFree(entries[k])
    case _ => true
  }

  /** Apart from numbers, values are equal exactly when they are the same all the way down. */
  lemma {:induction false} NumberFreeEqualExactly(a: Json, b: Json)
    requires NumberFree(a)
    ensures Equal(a, b) <==> a == b
    decreases a
  {
    if a == b {
      EqualIsReflexive(a);
    } else if a.List? && b.List? && |a.items| == |b.items| {
      var i :| 0 <= i < |a.items| && a.items[i] != b.items[i];
      NumberFreeEqualExactly(a.items[i], b.items[i]);
    } else if a.Dict? && b.Dict? && a.entries.Keys == b.entries.Keys {
      var k :| k in a.entries && a.entries[k] != b.entries[k];
      NumberFreeEqualExactly(a.entries[k], b.entries[k]);
    }
  }

  /** Lists are ordered by their first items that differ, and a list before any that continues it. */
  lemma {:induction false} ListOrderMeans(a: seq<Json>, b: seq<Json>, i: nat)
    requires i <= |a| && i <= |b| && forall j | 0 <= j < i :: Equal(a[j], b[j])
    ensures i == |a| || i == |b| ==> LessThan(List(a), List(b)) == Ok(|a| < |b|)
    ensures i < |a| && i < |b| && !Equal(a[i], b[i]) ==> LessThan(List(a), List(b)) == LessThan(a[i], b[i])
    decreases i
  {
    if i > 0 {
      ListOrderMeans(a[1..], b[1..], i - 1);
      assert LessThan(List(a[1..]), List(b[1..])) == ListLessThan(a[1..], b[1..]);
    }
  }

  ghost predicate Framed(before: string, part: string, after: string, whole: string) {
    whole == before + part + after
  }

  lemma {:induction false} SubstringExactly(part: string, whole: string)
    ensures Substring(part, whole) <==> exists before, after :: Framed(before, part, after, whole)
  {
    if Substring(part, whole) {
      var i :| 0 <= i <= |whole| && OccursAt(part, whole, i);
      assert Framed(whole[..i], part, whole[i + |part|..], whole);
    }
    if before, after :| Framed(before, part, after, whole) {
      assert whole[|before|..|before| + |part|] == part;
      assert OccursAt(part, whole, |before|);
    }
  }

  predicate MayHold(container: Json, x: Json) {
    Leaf(x) && (container.List? || container.Dict? || (container.Str? && x.Str?))
  }

  /** An item of a list, a part of a string, a key of a dictionary. */
  ghost predicate Holds(container: Json, x: Json) {
    match container
    case List(items) => exists i :: 0 <= i < |items| && Same(x, items[i])
    case Str(s) => x.Str? && exists before, after :: Framed(before, x.s, after, s)
    case Dict(entries) => x.Str? && x.s in entries
    case _ => false
  }

  lemma {:induction false} ContainsExactly(container: Json, x: Json)
    requires MayHold(container, x)
    ensures Contains(container, x) == Ok(Holds(container, x))
  {
    match container
    case List(items) =>
      forall i | 0 <= i < |items| ensures Equal(x, items[i]) <==> Same(x, items[i]) { LeavesEqualExactly(x, items[i]); }
    case Str(s) => SubstringExactly(x.s, s);
    case Dict(_) =>
  }

  // ---------------------------------------------------------------------------
  // Comparisons
  // ---------------------------------------------------------------------------

  const EQUALS := {"eq", "equals"}
  const DIFFERS := {"ne", "neq", "not_equals"}
  const COMPARES := {"eq", "equals", "ne", "neq", "not_equals", "gt", "gte", "lt", "lte", "in", "contains"}

  /** The node compares what its path leads to with a literal. */
  predicate Compares(node: Json, op: string, path: string, value: Json) {
    && node.Dict? && "op" in node.entries && node.entries["op"] == Str(op)
    && "path" in node.entries && node.entries["path"] == Str(path)
    && "value" in node.entries && node.entries["value"] == value && op in COMPARES
  }

  lemma {:induction false} NoConnective(node: Json, op: string, path: string, value: Json)
    requires Compares(node, op, path, value)
    ensures forall other :: HasOp(node, other) <==> other == op
    ensures op !in {"exists", "not_exists", "not", "and", "or"}
  {
  }

  /** Such a node is evaluated by its comparison; it is unknown exactly where the path leads nowhere or to "not_sure". */
  lemma {:induction false} UnknownExactly(node: Json, op: string, path: string, value: Json, context: Attributes,
                                          ps: Predicates)
    requires Compares(node, op, path, value)
    ensures EvaluateDsl(node, context, ps).Unknown? <==>
              Resolve(path, context) == None || Resolve(path, context) == Some(Str("not_sure"))
  {
    NoConnective(node, op, path, value);
    assert EvaluateDsl(node, context, ps) == Comparison(node, context);
    assert Lookup(node, context) == Ok(Resolve(path, context));
  }

  lemma {:induction false} ComparedWith(node: Json, op: string, path: string, value: Json, context: Attributes,
                                        ps: Predicates, left: Json)
    requires Compares(node, op, path, value) && Resolve(path, context) == Some(left) && left != Str("not_sure")
    ensures EvaluateDsl(node, context, ps) == FromResult(Compare(Some(Str(op)), left, node))
    ensures Field(node, "value") == Some(value)
  {
    NoConnective(node, op, path, value);
  }

  /** A leaf equals the literal exactly when they are the same value or the same number; otherwise it differs. */
  lemma {:induction false} EqualityMeans(node: Json, op: string, path: string, value: Json, context: Attributes,
                                         ps: Predicates, left: Json)
    requires Compares(node, op, path, value) && Resolve(path, context) == Some(left) && left != Str("not_sure")
    requires Leaf(left) || left == value
    ensures op in EQUALS ==> EvaluateDsl(node, context, ps) == if Same(left, value) then True else False
    ensures op in DIFFERS ==> EvaluateDsl(node, context, ps) == if Same(left, value) then False else True
  {
    ComparedWith(node, op, path, value, context, ps, left);
    if Leaf(left) { LeavesEqualExactly(left, value); } else { EqualIsReflexive(left); }
  }

  /** Numbers are ordered as numbers, with True as one and False as zero. */
  lemma {:induction false} NumberOrderMeans(node: Json, op: string, path: string, value: Json, context: Attributes,
                                            ps: Predicates, left: Json, x: real, y: real)
    requires Compares(node, op, path, value) && Resolve(path, context) == Some(left)
    requires NumberIs(left, x) && NumberIs(value, y)
    ensures op == "gt" ==> EvaluateDsl(node, context, ps) == if x > y then True else False
    ensures op == "gte" ==> EvaluateDsl(node, context, ps) == if x >= y then True else False
    ensures op == "lt" ==> EvaluateDsl(node, context, ps) == if x < y then True else False
    ensures op == "lte" ==> EvaluateDsl(node, context, ps) == if x <= y then True else False
  {
    ComparedWith(node, op, path, value, context, ps, left);
    assert AsNumber(left) == x && AsNumber(value) == y;
  }

  /** a comes before b in the dictionary. */
  ghost predicate Precedes(a: string, b: string) {
    exists i: nat :: SmallerAt(a, b, i)
  }

  /** Strings are ordered as in a dictionary. */
  lemma {:induction false} TextOrderMeans(node: Json, op: string, path: string, a: string, b: string,
                                          context: Attributes, ps: Predicates)
    requires Compares(node, op, path, Str(b)) && Resolve(path, context) == Some(Str(a)) && a != "not_sure"
    ensures op == "gt" ==> EvaluateDsl(node, context, ps) == if Precedes(b, a) then True else False
    ensures op == "gte" ==> EvaluateDsl(node, context, ps) == if Precedes(b, a) || a == b then True else False
    ensures op == "lt" ==> EvaluateDsl(node, context, ps) == if Precedes(a, b) then True else False
    ensures op == "lte" ==> EvaluateDsl(node, context, ps) == if Precedes(a, b) || a == b then True else False
  {
    ComparedWith(node, op, path, Str(b), context, ps, Str(a));
    LessExactly(a, b);
    LessExactly(b, a);
    LessIsTotal(a, b);
  }

  /** `in` asks whether the literal holds the value found, `contains` whether the value found holds the literal. */
  lemma {:induction false} MembershipMeans(node: Json, op: string, path: string, value: Json, context: Attributes,
                                           ps: Predicates, left: Json)
    requires Compares(node, op, path, value) && Resolve(path, context) == Some(left) && left != Str("not_sure")
    ensures op == "in" && MayHold(value, left) ==>
              EvaluateDsl(node, context, ps) == if Holds(value, left) then True else False
    ensures op == "contains" && MayHold(left, value) ==>
              EvaluateDsl(node, context, ps) == if Holds(left, value) then True else False
  {
    ComparedWith(node, op, path, value, context, ps, left);
    if op == "in" && MayHold(value, left) { ContainsExactly(value, left); }
    if op == "contains" && MayHold(left, value) { ContainsExactly(left, value); }
  }

  /** Something is there exactly when the path leads to a value other than null and the empty string. */
  lemma {:induction false} PresenceMeans(node: Json, path: string, context: Attributes, ps: Predicates)
    requires node.Dict? && "op" in node.entries && "path" in node.entries && node.entries["path"] == Str(path)
    ensures var there := exists v :: Resolve(path, context) == Some(v) && v != Null && v != Str("");
            && (node.entries["op"] == Str("exists") ==> EvaluateDsl(node, context, ps) == if there then True else False)
            && (node.entries["op"] == Str("not_exists") ==>
                  EvaluateDsl(node, context, ps) == if there then False else True)
  {
    var found := Resolve(path, context);
    if found.Some? && Leaf(found.value) { LeavesEqualExactly(found.value, Str("")); }
  }

  /** A null condition does not hold, a name or a callable answers as its predicate, an unknown name raises. */
  lemma {:induction false} ConditionMeans(condition: Json, context: Attributes, ps: Predicates)
    ensures var o := EvaluateCondition(condition, context, ps);
            && (condition.Null? ==> o == False)
            && (condition.Str? ==> if condition.s !in ps.named then o == Error("ValueError")
                                   else o == if ps.named[condition.s](context) then True else False)
            && (condition.Callable? ==> o == if ps.callables(condition.id)(context) then True else False)
            && (condition.List? || IsNumber(condition) ==> o == Error("ValueError"))
            && (condition.Dict? ==> o == EvaluateDsl(condition, context, ps))
  {
  }

  // ---------------------------------------------------------------------------
  // Connectives
  // ---------------------------------------------------------------------------

  /** A not swaps True and False of the node under it, and leaves an unknown or an error as it is. */
  lemma {:induction false} NotMeans(node: Json, context: Attributes, ps: Predicates)
    requires node.Dict? && "op" in node.entries && node.entries["op"] == Str("not") && "condition" in node.entries
    ensures var child, o := EvaluateDsl(node.entries["condition"], context, ps), EvaluateDsl(node, context, ps);
            && (o.True? <==> child.False?) && (o.False? <==> child.True?)
            && (child.Unknown? || child.Error? ==> o == child)
  {
    assert HasOp(node, "not") && !HasOp(node, "exists") && !HasOp(node, "not_exists");
  }

  function Children(node: Json): seq<Json> {
    if node.Dict? && "conditions" in node.entries && node.entries["conditions"].List?
    then node.entries["conditions"].items else []
  }

  /** Child i has this outcome, and no earlier one raises or has the outcome that decides. */
  ghost predicate FirstToDecide(conditions: seq<Json>, i: nat, outcome: Outcome, decisive: Outcome, context: Attributes,
                                ps: Predicates)
  {
    && i < |conditions| && EvaluateCondition(conditions[i], context, ps) == outcome
    && forall j | 0 <= j < i ::
         !EvaluateCondition(conditions[j], context, ps).Error? && EvaluateCondition(conditions[j], context, ps) != decisive
  }

  lemma {:induction false} AndFirst(os: seq<Outcome>, i: nat)
    requires i < |os| && (os[i].False? || os[i].Error?) && forall j | 0 <= j < i :: os[j].True? || os[j].Unknown?
    ensures And(os) == os[i]
  {
    if i > 0 { AndFirst(os[1..], i - 1); }
  }

  lemma {:induction false} OrFirst(os: seq<Outcome>, i: nat)
    requires i < |os| && (os[i].True? || os[i].Error?) && forall j | 0 <= j < i :: os[j].False? || os[j].Unknown?
    ensures Or(os) == os[i]
  {
    if i > 0 { OrFirst(os[1..], i - 1); }
  }

  lemma {:induction false} AndUndecided(os: seq<Outcome>)
    requires forall j | 0 <= j < |os| :: os[j].True? || os[j].Unknown?
    ensures And(os) == if exists j :: 0 <= j < |os| && os[j].Unknown? then Unknown else True
  {
    AndAfter(os, |os|);
  }

  lemma {:induction false} OrUndecided(os: seq<Outcome>)
    requires forall j | 0 <= j < |os| :: os[j].False? || os[j].Unknown?
    ensures Or(os) == if exists j :: 0 <= j < |os| && os[j].Unknown? then Unknown else False
  {
    OrAfter(os, |os|);
  }

  /** The first False child or the first to raise decides an and; if none does, one unknown child leaves it unknown. */
  lemma {:induction false} AndMeans(node: Json, context: Attributes, ps: Predicates)
    requires node.Dict? && "op" in node.entries && node.entries["op"] == Str("and")
    requires "conditions" in node.entries ==> node.entries["conditions"].List?
    ensures forall i: nat, o | FirstToDecide(Children(node), i, o, False, context, ps) && (o.False? || o.Error?) ::
              EvaluateDsl(node, context, ps) == o
    ensures (forall i | 0 <= i < |Children(node)| :: EvaluateCondition(Children(node)[i], context, ps).True?)
       ==> EvaluateDsl(node, context, ps).True?
    ensures (forall i | 0 <= i < |Children(node)| ::
               var o := EvaluateCondition(Children(node)[i], context, ps); o.True? || o.Unknown?)
            && (exists i :: 0 <= i < |Children(node)| && EvaluateCondition(Children(node)[i], context, ps).Unknown?)
       ==> EvaluateDsl(node, context, ps).Unknown?
  {
    var os := EvaluateAll(Children(node), context, ps);
    assert EvaluateDsl(node, context, ps) == And(os);
    forall i: nat, o | FirstToDecide(Children(node), i, o, False, context, ps) && (o.False? || o.Error?)
      ensures And(os) == o
    {
      AndFirst(os, i);
    }
    if forall j | 0 <= j < |os| :: os[j].True? || os[j].Unknown? { AndUndecided(os); }
  }

  /** And the first True child or the first to raise decides an or. */
  lemma {:induction false} OrMeans(node: Json, context: Attributes, ps: Predicates)
    requires node.Dict? && "op" in node.entries && node.entries["op"] == Str("or")
    requires "conditions" in node.entries ==> node.entries["conditions"].List?
    ensures forall i: nat, o | FirstToDecide(Children(node), i, o, True, context, ps) && (o.True? || o.Error?) ::
              EvaluateDsl(node, context, ps) == o
    ensures (forall i | 0 <= i < |Children(node)| :: EvaluateCondition(Children(node)[i], context, ps).False?)
       ==> EvaluateDsl(node, context, ps).False?
    ensures (forall i | 0 <= i < |Children(node)| ::
               var o := EvaluateCondition(Children(node)[i], context, ps); o.False? || o.Unknown?)
            && (exists i :: 0 <= i < |Children(node)| && EvaluateCondition(Children(node)[i], context, ps).Unknown?)
       ==> EvaluateDsl(node, context, ps).Unknown?
  {
    var os := EvaluateAll(Children(node), context, ps);
    assert EvaluateDsl(node, context, ps) == Or(os);
    forall i: nat, o | FirstToDecide(Children(node), i, o, True, context, ps) && (o.True? || o.Error?)
      ensures Or(os) == o
    {
      OrFirst(os, i);
    }
    if forall j | 0 <= j < |os| :: os[j].False? || os[j].Unknown? { OrUndecided(os); }
  }
}
