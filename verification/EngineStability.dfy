/**
  How an answer depends on the context: it reads only the paths the engine reports as source
  fields, and once definite it survives any further information.
 */
module EngineStability {
  import opened Engine
  import opened EngineLaws
  import opened Json
  import opened Ordering
  import opened Wrappers

  // ---------------------------------------------------------------------------
  // Information monotonicity
  // ---------------------------------------------------------------------------

  /** No named predicates, callables, exists or not_exists; compared paths that resolve end at a leaf. */
  ghost predicate Monotone(condition: Json, context: Attributes)
    decreases condition, 1
  {
    match condition
    case Null => true
    case Dict(entries) =>
      if HasOp(condition, "not") then "condition" in entries && Monotone(entries["condition"], context)
      else if IsJunction(condition) then
        "conditions" in entries && entries["conditions"].List? && AllMonotone(entries["conditions"].items, context)
      else
        && !HasOp(condition, "exists") && !HasOp(condition, "not_exists")
        && var found := Lookup(condition, context);
           !(found.Ok? && found.value.Some? && found.value.value.Dict?)
    case _ => false
  }

  ghost predicate AllMonotone(conditions: seq<Json>, context: Attributes)
    decreases conditions, 0
  {
    forall i | 0 <= i < |conditions| :: Monotone(conditions[i], context)
  }

  /** A definite answer is kept, unless the new information makes the evaluation raise. */
  predicate Keeps(before: Outcome, after: Outcome) {
    Definite(before) ==> after == before || after.Error?
  }

  lemma {:induction false} JunctionsKeep(os: seq<Outcome>, qs: seq<Outcome>)
    requires |os| == |qs| && forall i | 0 <= i < |os| :: Keeps(os[i], qs[i])
    ensures Keeps(And(os), And(qs)) && Keeps(Or(os), Or(qs))
  {
    if os != [] {
      JunctionsKeep(os[1..], qs[1..]);
    }
  }

  lemma {:induction false} ComparisonKeeps(node: Json, c: Attributes, d: Attributes)
    requires Informs(Dict(c), Dict(d))
    requires var found := Lookup(node, c); !(found.Ok? && found.value.Some? && found.value.value.Dict?)
    ensures Keeps(Comparison(node, c), Comparison(node, d))
  {
    var found := Lookup(node, c);
    if found.Ok? && found.value.Some? {
      var path := Field(node, "path").value.s;
      WalkInforms(Dict(c), Dict(d), PathParts(path));
    }
  }

  lemma {:induction false} DefiniteIsKept(condition: Json, c: Attributes, d: Attributes, ps: Predicates)
    requires Monotone(condition, c) && Informs(Dict(c), Dict(d))
    ensures Keeps(EvaluateCondition(condition, c, ps), EvaluateCondition(condition, d, ps))
    decreases condition, 1
  {
    if condition.Dict? {
      if HasOp(condition, "not") {
        NotOutcome(condition, c, ps);
        NotOutcome(condition, d, ps);
        DefiniteIsKept(condition.entries["condition"], c, d, ps);
      } else if IsJunction(condition) {
        var op := if HasOp(condition, "and") then "and" else "or";
        JunctionOutcome(condition, op, c, ps);
        JunctionOutcome(condition, op, d, ps);
        DefiniteAreKept(condition.entries["conditions"].items, c, d, ps);
      } else {
        ComparisonKeeps(condition, c, d);
      }
    }
  }

  lemma {:induction false} DefiniteAreKept(conditions: seq<Json>, c: Attributes, d: Attributes, ps: Predicates)
    requires AllMonotone(conditions, c) && Informs(Dict(c), Dict(d))
    ensures Keeps(And(EvaluateAll(conditions, c, ps)), And(EvaluateAll(conditions, d, ps)))
    ensures Keeps(Or(EvaluateAll(conditions, c, ps)), Or(EvaluateAll(conditions, d, ps)))
    decreases conditions, 0
  {
    forall i | 0 <= i < |conditions|
      ensures Keeps(EvaluateCondition(conditions[i], c, ps), EvaluateCondition(conditions[i], d, ps))
    {
      DefiniteIsKept(conditions[i], c, d, ps);
    }
    JunctionsKeep(EvaluateAll(conditions, c, ps), EvaluateAll(conditions, d, ps));
  }

  // ---------------------------------------------------------------------------
  // When a comparison raises
  // ---------------------------------------------------------------------------

  /** Values of types Python orders: two numbers, two strings, or two lists whose first difference is such a pair. */
  predicate Comparable(a: Json, b: Json) {
    || (IsNumber(a) && IsNumber(b))
    || (a.Str? && b.Str?)
    || (a.List? && b.List? && ListsComparable(a.items, b.items))
  }

  predicate ListsComparable(a: seq<Json>, b: seq<Json>) {
    a == [] || b == [] || if Equal(a[0], b[0]) then ListsComparable(a[1..], b[1..]) else Comparable(a[0], b[0])
  }

  /** Whether `x in container` is defined for the types of both. */
  predicate Searchable(container: Json, x: Json) {
    container.List? || (container.Str? && x.Str?) || (container.Dict? && !x.List? && !x.Dict?)
  }

  /** The operator is a known one, there is a literal, and the operator accepts their types. */
  predicate FitsOperator(node: Json, left: Json) {
    var op, literal := Field(node, "op"), Field(node, "value");
    && op.Some? && op.value.Str? && literal.Some?
    && (|| op.value.s in {"eq", "equals", "ne", "neq", "not_equals"}
        || (op.value.s in {"gt", "lte"} && Comparable(literal.value, left))
        || (op.value.s in {"gte", "lt"} && Comparable(left, literal.value))
        || (op.value.s == "in" && Searchable(literal.value, left))
        || (op.value.s == "contains" && Searchable(left, literal.value)))
  }

  /** The node names a path, and a value found there, unless it is "not_sure", is one its operator accepts. */
  predicate ComparisonFits(node: Json, context: Attributes) {
    var found := Lookup(node, context);
    found.Ok? && (found.value.Some? && !Equal(found.value.value, NOT_SURE) ==> FitsOperator(node, found.value.value))
  }

  lemma {:induction false} OrderingRaisesExactly(a: Json, b: Json)
    ensures LessThan(a, b).Ok? <==> Comparable(a, b)
    decreases a, 1
  {
    if a.List? && b.List? {
      ListOrderingRaisesExactly(a.items, b.items);
    }
  }

  lemma {:induction false} ListOrderingRaisesExactly(a: seq<Json>, b: seq<Json>)
    ensures ListLessThan(a, b).Ok? <==> ListsComparable(a, b)
    decreases a, 0
  {
    if a != [] && b != [] {
      if Equal(a[0], b[0]) {
        ListOrderingRaisesExactly(a[1..], b[1..]);
      } else {
        OrderingRaisesExactly(a[0], b[0]);
      }
    }
  }

  /** A comparison raises if and only if it does not fit. */
  lemma {:induction false} ComparisonRaisesExactly(node: Json, context: Attributes)
    ensures Comparison(node, context).Error? <==> !ComparisonFits(node, context)
  {
    var found := Lookup(node, context);
    if found.Ok? && found.value.Some? && Field(node, "value").Some? {
      OrderingRaisesExactly(found.value.value, Field(node, "value").value);
      OrderingRaisesExactly(Field(node, "value").value, found.value.value);
    }
  }

  /** A child that decides an and or an or, so that later ones are not looked at. */
  predicate Decides(op: string, o: Outcome) {
    if op == "and" then o.False? else o.True?
  }

  /** Evaluation, short-circuiting as it does, comes to a comparison that does not fit, or to a malformed node. */
  ghost predicate ReachesMisfit(condition: Json, context: Attributes, ps: Predicates)
    decreases condition, 1
  {
    match condition
    case Null => false
    case Dict(entries) =>
      if HasOp(condition, "not") then
        !("condition" in entries && entries["condition"].Dict? && !ReachesMisfit(entries["condition"], context, ps))
      else if IsListJunction(condition, "and") then AnyReachesMisfit("and", entries["conditions"].items, context, ps)
      else if IsListJunction(condition, "or") then AnyReachesMisfit("or", entries["conditions"].items, context, ps)
      else !ComparisonFits(condition, context)
    case _ => true
  }

  ghost predicate AnyReachesMisfit(op: string, conditions: seq<Json>, context: Attributes, ps: Predicates)
    decreases conditions, 0
  {
    exists i | 0 <= i < |conditions| ::
      && ReachesMisfit(conditions[i], context, ps)
      && forall j | 0 <= j < i :: !Decides(op, EvaluateCondition(conditions[j], context, ps))
  }

  lemma {:induction false} JunctRaisesExactly(op: string, os: seq<Outcome>)
    requires op in {"and", "or"}
    ensures Junct(op, os).Error? <==>
              exists i | 0 <= i < |os| :: os[i].Error? && forall j | 0 <= j < i :: !Decides(op, os[j])
  {
    if os != [] {
      var rest := os[1..];
      JunctRaisesExactly(op, rest);
      assert forall i | 0 <= i < |rest| :: rest[i] == os[i + 1];
      if Junct(op, rest).Error? && !Decides(op, os[0]) {
        var i :| 0 <= i < |rest| && rest[i].Error? && forall j | 0 <= j < i :: !Decides(op, rest[j]);
        assert forall j | 1 <= j < i + 1 :: os[j] == rest[j - 1];
        assert os[i + 1].Error?;
      }
      if i :| 0 < i < |os| && os[i].Error? && forall j | 0 <= j < i :: !Decides(op, os[j]) {
        assert rest[i - 1].Error?;
      }
    }
  }

  /** A condition raises if and only if its evaluation reaches a misfit. */
  lemma {:induction false} RaisesExactly(condition: Json, c: Attributes, d: Attributes, ps: Predicates)
    requires Monotone(condition, c)
    ensures EvaluateCondition(condition, d, ps).Error? <==> ReachesMisfit(condition, d, ps)
    decreases condition, 1
  {
    if condition.Dict? {
      if HasOp(condition, "not") {
        NotOutcome(condition, d, ps);
        RaisesExactly(condition.entries["condition"], c, d, ps);
      } else if IsJunction(condition) {
        var op := if HasOp(condition, "and") then "and" else "or";
        JunctionOutcome(condition, op, d, ps);
        AnyRaisesExactly(op, condition.entries["conditions"].items, c, d, ps);
      } else {
        ComparisonRaisesExactly(condition, d);
      }
    }
  }

  lemma {:induction false} AnyRaisesExactly(op: string, conditions: seq<Json>, c: Attributes, d: Attributes, ps: Predicates)
    requires op in {"and", "or"} && AllMonotone(conditions, c)
    ensures Junct(op, EvaluateAll(conditions, d, ps)).Error? <==> AnyReachesMisfit(op, conditions, d, ps)
    decreases conditions, 0
  {
    var os := EvaluateAll(conditions, d, ps);
    forall i | 0 <= i < |conditions| ensures os[i].Error? <==> ReachesMisfit(conditions[i], d, ps) {
      RaisesExactly(conditions[i], c, d, ps);
    }
    JunctRaisesExactly(op, os);
  }

  /** As information arrives, a definite answer is lost if and only if the evaluation now reaches a misfit. */
  lemma {:induction false} DefiniteIsLostExactly(condition: Json, c: Attributes, d: Attributes, ps: Predicates)
    requires Monotone(condition, c) && Informs(Dict(c), Dict(d))
    requires Definite(EvaluateCondition(condition, c, ps))
    ensures EvaluateCondition(condition, d, ps) != EvaluateCondition(condition, c, ps) <==> ReachesMisfit(condition, d, ps)
  {
    DefiniteIsKept(condition, c, d, ps);
    RaisesExactly(condition, c, d, ps);
  }

  /** Every comparison anywhere in the condition fits the context, and every node is well formed: types alone. */
  ghost predicate AllFit(condition: Json, context: Attributes)
    decreases condition, 1
  {
    match condition
    case Null => true
    case Dict(entries) =>
      if HasOp(condition, "not") then
        "condition" in entries && entries["condition"].Dict? && AllFit(entries["condition"], context)
      else if IsListJunction(condition, "and") || IsListJunction(condition, "or") then
        EachFits(entries["conditions"].items, context)
      else ComparisonFits(condition, context)
    case _ => false
  }

  ghost predicate EachFits(conditions: seq<Json>, context: Attributes)
    decreases conditions, 0
  {
    forall i | 0 <= i < |conditions| :: AllFit(conditions[i], context)
  }

  lemma {:induction false} FittingReachesNoMisfit(condition: Json, context: Attributes, ps: Predicates)
    requires AllFit(condition, context)
    ensures !ReachesMisfit(condition, context, ps)
    decreases condition, 1
  {
    if condition.Dict? {
      if HasOp(condition, "not") {
        FittingReachesNoMisfit(condition.entries["condition"], context, ps);
      } else if IsListJunction(condition, "and") || IsListJunction(condition, "or") {
        NoneReachesMisfit(condition.entries["conditions"].items, context, ps);
      }
    }
  }

  lemma {:induction false} NoneReachesMisfit(conditions: seq<Json>, context: Attributes, ps: Predicates)
    requires EachFits(conditions, context)
    ensures forall op :: !AnyReachesMisfit(op, conditions, context, ps)
    decreases conditions, 0
  {
    forall i | 0 <= i < |conditions| ensures !ReachesMisfit(conditions[i], context, ps) {
      FittingReachesNoMisfit(conditions[i], context, ps);
    }
  }

  /** Where every comparison fits the new context, a definite answer is final. */
  lemma {:induction false} DefiniteIsFinal(condition: Json, c: Attributes, d: Attributes, ps: Predicates)
    requires Monotone(condition, c) && AllFit(condition, d) && Informs(Dict(c), Dict(d))
    requires Definite(EvaluateCondition(condition, c, ps))
    ensures EvaluateCondition(condition, d, ps) == EvaluateCondition(condition, c, ps)
  {
    DefiniteIsLostExactly(condition, c, d, ps);
    FittingReachesNoMisfit(condition, d, ps);
  }

  /** What fits the later context fitted the earlier one: a value found there is found again. */
  lemma {:induction false} FittedBefore(condition: Json, c: Attributes, d: Attributes)
    requires Monotone(condition, c) && AllFit(condition, d) && Informs(Dict(c), Dict(d))
    ensures AllFit(condition, c)
    decreases condition, 1
  {
    if condition.Dict? {
      if HasOp(condition, "not") {
        FittedBefore(condition.entries["condition"], c, d);
      } else if IsJunction(condition) {
        EachFittedBefore(condition.entries["conditions"].items, c, d);
      } else {
        ComparisonFittedBefore(condition, c, d);
      }
    }
  }

  lemma {:induction false} EachFittedBefore(conditions: seq<Json>, c: Attributes, d: Attributes)
    requires AllMonotone(conditions, c) && EachFits(conditions, d) && Informs(Dict(c), Dict(d))
    ensures EachFits(conditions, c)
    decreases conditions, 0
  {
    forall i | 0 <= i < |conditions| ensures AllFit(conditions[i], c) {
      FittedBefore(conditions[i], c, d);
    }
  }

  lemma {:induction false} ComparisonFittedBefore(node: Json, c: Attributes, d: Attributes)
    requires Informs(Dict(c), Dict(d)) && ComparisonFits(node, d)
    requires var found := Lookup(node, c); !(found.Ok? && found.value.Some? && found.value.value.Dict?)
    ensures ComparisonFits(node, c)
  {
    var found := Lookup(node, c);
    if found.Ok? && found.value.Some? {
      WalkInforms(Dict(c), Dict(d), PathParts(Field(node, "path").value.s));
    }
  }

  /** Equality, or membership in a literal list: nothing a context holds can be of the wrong type. */
  predicate PlainComparison(node: Json) {
    && Field(node, "path").Some? && Field(node, "path").value.Str? && Field(node, "value").Some?
    && exists op | op in {"eq", "equals", "ne", "neq", "not_equals", "in"} ::
         HasOp(node, op) && (op == "in" ==> Field(node, "value").value.List?)
  }

  lemma {:induction false} PlainComparisonFits(node: Json, context: Attributes)
    requires PlainComparison(node)
    ensures ComparisonFits(node, context)
  {
  }

  /** A condition of and, or, not and plain comparisons. */
  ghost predicate Plain(condition: Json)
    decreases condition, 1
  {
    match condition
    case Null => true
    case Dict(entries) =>
      if HasOp(condition, "not") then "condition" in entries && entries["condition"].Dict? && Plain(entries["condition"])
      else if IsListJunction(condition, "and") || IsListJunction(condition, "or") then AllPlain(entries["conditions"].items)
      else PlainComparison(condition)
    case _ => false
  }

  ghost predicate AllPlain(conditions: seq<Json>)
    decreases conditions, 0
  {
    forall i | 0 <= i < |conditions| :: Plain(conditions[i])
  }

  lemma {:induction false} PlainFits(condition: Json, context: Attributes)
    requires Plain(condition)
    ensures AllFit(condition, context)
    decreases condition, 1
  {
    if condition.Dict? {
      if HasOp(condition, "not") {
        PlainFits(condition.entries["condition"], context);
      } else if IsListJunction(condition, "and") || IsListJunction(condition, "or") {
        AllPlainFit(condition.entries["conditions"].items, context);
      } else {
        PlainComparisonFits(condition, context);
      }
    }
  }

  lemma {:induction false} AllPlainFit(conditions: seq<Json>, context: Attributes)
    requires AllPlain(conditions)
    ensures EachFits(conditions, context)
    decreases conditions, 0
  {
    forall i | 0 <= i < |conditions| ensures AllFit(conditions[i], context) {
      PlainFits(conditions[i], context);
    }
  }

  /** A definite answer of a plain condition is final, whatever arrives. */
  lemma {:induction false} PlainIsFinal(condition: Json, c: Attributes, d: Attributes, ps: Predicates)
    requires Monotone(condition, c) && Plain(condition) && Informs(Dict(c), Dict(d))
    requires Definite(EvaluateCondition(condition, c, ps))
    ensures EvaluateCondition(condition, d, ps) == EvaluateCondition(condition, c, ps)
  {
    PlainFits(condition, d);
    DefiniteIsFinal(condition, c, d, ps);
  }

  /** An ordering comparison can lose its answer: filling in a value of the wrong type raises. */
  lemma {:induction false} WrongTypeRaises(ps: Predicates)
    ensures var older := Dict(map["op" := Str("gt"), "path" := Str("a"), "value" := Num(1.0)]);
            var n := Junction("and", [older, Null]);
            && Informs(Dict(map[]), Dict(map["a" := Str("x")])) && Monotone(n, map[])
            && EvaluateCondition(n, map[], ps) == False
            && EvaluateCondition(n, map["a" := Str("x")], ps) == Error("TypeError")
  {
    var older := Dict(map["op" := Str("gt"), "path" := Str("a"), "value" := Num(1.0)]);
    var n := Junction("and", [older, Null]);
    var d: Attributes := map["a" := Str("x")];
    SingleStep("a");
    assert Resolve("a", map[]) == None;
    assert Resolve("a", d) == Some(Str("x")) by {
      assert Walk(Str("x"), ["a"][1..]) == Some(Str("x"));
    }
    JunctionOutcome(n, "and", map[], ps);
    JunctionOutcome(n, "and", d, ps);
    var os := EvaluateAll([older, Null], map[], ps);
    assert os[0] == Comparison(older, map[]) == Unknown && os[1] == False;
    assert And(os[1..]) == False;
    assert And(os) == False;
    assert EvaluateAll([older, Null], d, ps)[0] == Comparison(older, d);
    assert Monotone(older, map[]);
  }

  lemma {:induction false} SingleStep(name: string)
    requires |name| == 1 && name[0] != '.'
    ensures PathParts(name) == [name]
  {
    assert |PREFIX| == 11;
    assert Split(name[1..]) == [""];
    assert [name[0]] + "" == name;
  }

  // ---------------------------------------------------------------------------
  // The paths a condition reads
  // ---------------------------------------------------------------------------

  /** The paths occurring anywhere in a nested node. */
  ghost function Paths(node: Json): set<string> {
    match node
    case Dict(entries) =>
      (if "path" in entries && entries["path"].Str? then {entries["path"].s} else {})
      + set k, p | k in entries && p in Paths(entries[k]) :: p
    case List(items) => set i, p | 0 <= i < |items| && p in Paths(items[i]) :: p
    case _ => {}
  }

  datatype Step = Key(key: string) | Index(index: nat)

  /** The node found by following an address down from this one. */
  ghost function At(node: Json, address: seq<Step>): Option<Json>
    decreases |address|
  {
    if address == [] then Some(node)
    else if address[0].Key? && node.Dict? && address[0].key in node.entries
    then At(node.entries[address[0].key], address[1..])
    else if address[0].Index? && node.List? && address[0].index < |node.items|
    then At(node.items[address[0].index], address[1..])
    else None
  }

  ghost predicate HoldsPath(node: Option<Json>, path: string) {
    node.Some? && Field(node.value, "path") == Some(Str(path))
  }

  /** Every path counted sits at some address. */
  lemma {:induction false} PathHasAddress(node: Json, path: string) returns (address: seq<Step>)
    requires path in Paths(node)
    ensures HoldsPath(At(node, address), path)
    decreases node
  {
    if HoldsPath(Some(node), path) {
      address := [];
    } else if node.Dict? {
      var k :| k in node.entries && path in Paths(node.entries[k]);
      var rest := PathHasAddress(node.entries[k], path);
      address := [Key(k)] + rest;
      assert address[1..] == rest;
    } else {
      var i :| 0 <= i < |node.items| && path in Paths(node.items[i]);
      var rest := PathHasAddress(node.items[i], path);
      address := [Index(i)] + rest;
      assert address[1..] == rest;
    }
  }

  /** Every path at some address is counted. */
  lemma {:induction false} AddressedPathCounts(node: Json, address: seq<Step>, path: string)
    requires HoldsPath(At(node, address), path)
    ensures path in Paths(node)
    decreases |address|
  {
    if address != [] {
      if address[0].Key? {
        AddressedPathCounts(node.entries[address[0].key], address[1..], path);
      } else {
        AddressedPathCounts(node.items[address[0].index], address[1..], path);
      }
    }
  }

  /** The list `_collect_paths` passes down and every level appends to. */
  class PathList {
    var paths: seq<string>

    constructor ()
      ensures paths == []
    {
      paths := [];
    }

    method Append(path: string)
      modifies this
      ensures paths == old(paths) + [path]
    {
      paths := paths + [path];
    }
  }

  method CollectInto(node: Json, shared: PathList)
    modifies shared
    ensures old(shared.paths) <= shared.paths
    ensures forall p :: p in shared.paths <==> p in old(shared.paths) || p in Paths(node)
    decreases node
  {
    if node.Dict? {
      if "path" in node.entries && node.entries["path"].Str? {
        shared.Append(node.entries["path"].s);
      }
      var rest := node.entries.Keys;
      while rest != {}
        invariant rest <= node.entries.Keys && old(shared.paths) <= shared.paths
        invariant forall p :: p in shared.paths <==>
                    || p in old(shared.paths) || HoldsPath(Some(node), p)
                    || exists k :: k in node.entries && k !in rest && p in Paths(node.entries[k])
        decreases rest
      {
        var k :| k in rest;
        CollectInto(node.entries[k], shared);
        rest := rest - {k};
      }
    } else if node.List? {
      for i := 0 to |node.items|
        invariant old(shared.paths) <= shared.paths
        invariant forall p :: p in shared.paths <==>
                    || p in old(shared.paths)
                    || exists j :: 0 <= j < i && p in Paths(node.items[j])
      {
        CollectInto(node.items[i], shared);
      }
    }
  }

  /** The strictly sorted set of paths anywhere in the node. */
  method CollectPaths(node: Json) returns (sorted: seq<string>)
    ensures StrictlySorted(sorted)
    ensures forall p :: p in sorted <==> p in Paths(node)
  {
    var shared := new PathList();
    CollectInto(node, shared);
    sorted := SortedSet(shared.paths);
  }

  // ---------------------------------------------------------------------------
  // Read-set completeness
  // ---------------------------------------------------------------------------

  /** Evaluation never reaches a named predicate or a callable. */
  ghost predicate PredicateFree(condition: Json)
    decreases condition, 1
  {
    && !condition.Str? && !condition.Callable?
    && (IsNegation(condition) ==> PredicateFree(condition.entries["condition"]))
    && (IsListJunction(condition, "and") || IsListJunction(condition, "or") ==>
          AllPredicateFree(condition.entries["conditions"].items))
  }

  ghost predicate AllPredicateFree(conditions: seq<Json>)
    decreases conditions, 0
  {
    forall i | 0 <= i < |conditions| :: PredicateFree(conditions[i])
  }

  ghost predicate AgreeOn(paths: set<string>, c: Attributes, d: Attributes) {
    forall p | p in paths :: Resolve(p, c) == Resolve(p, d)
  }

  lemma {:induction false} SamePathsSameOutcome(condition: Json, c: Attributes, d: Attributes, ps: Predicates)
    requires PredicateFree(condition) && AgreeOn(Paths(condition), c, d)
    ensures EvaluateCondition(condition, c, ps) == EvaluateCondition(condition, d, ps)
    decreases condition, 1
  {
    if IsNegation(condition) && !HasOp(condition, "exists") && !HasOp(condition, "not_exists") {
      NotOutcome(condition, c, ps);
      NotOutcome(condition, d, ps);
      var child := condition.entries["condition"];
      assert Paths(child) <= Paths(condition);
      SamePathsSameOutcome(child, c, d, ps);
      DictOutcome(child, c, ps);
      DictOutcome(child, d, ps);
    } else if IsListJunction(condition, "and") || IsListJunction(condition, "or") {
      var op := if IsListJunction(condition, "and") then "and" else "or";
      JunctionOutcome(condition, op, c, ps);
      JunctionOutcome(condition, op, d, ps);
      assert Paths(condition.entries["conditions"]) <= Paths(condition);
      SamePathsSameOutcomes(condition.entries["conditions"].items, c, d, ps);
    } else {
      assert Lookup(condition, c) == Lookup(condition, d);
    }
  }

  lemma {:induction false} DictOutcome(node: Json, context: Attributes, ps: Predicates)
    ensures EvaluateDsl(node, context, ps)
         == if node.Dict? then EvaluateCondition(node, context, ps) else Error("AttributeError")
  {
  }

  lemma {:induction false} SamePathsSameOutcomes(conditions: seq<Json>, c: Attributes, d: Attributes, ps: Predicates)
    requires AllPredicateFree(conditions) && AgreeOn(Paths(List(conditions)), c, d)
    ensures EvaluateAll(conditions, c, ps) == EvaluateAll(conditions, d, ps)
    decreases conditions, 0
  {
    forall i | 0 <= i < |conditions|
      ensures EvaluateCondition(conditions[i], c, ps) == EvaluateCondition(conditions[i], d, ps)
    {
      assert forall p | p in Paths(conditions[i]) :: p in Paths(List(conditions));
      SamePathsSameOutcome(conditions[i], c, d, ps);
    }
  }
}
