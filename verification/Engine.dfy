/**
  The three-valued condition evaluator of the policy engine, over raw condition nodes.
  `EvaluateDsl` is the meaning of a condition; `Dsl` is the engine's own control flow,
  with its short-circuiting loops, proved to compute it.
 */
module Engine {
  import opened Json
  import opened Wrappers

  datatype Outcome = True | False | Unknown | Error(error: string)

  /** Named predicates and Python callables: uninterpreted functions of the context. */
  datatype Predicates = Predicates(named: map<string, Attributes -> bool>, callables: nat -> Attributes -> bool)

  function Truth(b: bool): Outcome {
    if b then True else False
  }

  function FromResult(r: Result<bool>): Outcome {
    match r
    case Ok(value) => Truth(value)
    case Err(error) => Error(error)
  }

  predicate Definite(o: Outcome) {
    o.True? || o.False?
  }

  // ---------------------------------------------------------------------------
  // Connectives
  // ---------------------------------------------------------------------------

  function Not(o: Outcome): Outcome {
    match o
    case True => False
    case False => True
    case _ => o
  }

  /** The first False or error decides; otherwise one unknown leaves it unknown. */
  function And(os: seq<Outcome>): Outcome {
    if os == [] then True
    else
      match os[0]
      case True => And(os[1..])
      case False => False
      case Unknown => var rest := And(os[1..]); if rest.True? then Unknown else rest
      case Error(_) => os[0]
  }

  function Or(os: seq<Outcome>): Outcome {
    if os == [] then False
    else
      match os[0]
      case False => Or(os[1..])
      case True => True
      case Unknown => var rest := Or(os[1..]); if rest.False? then Unknown else rest
      case Error(_) => os[0]
  }

  // ---------------------------------------------------------------------------
  // Conditions
  // ---------------------------------------------------------------------------

  function Field(node: Json, key: string): Option<Json> {
    if node.Dict? && key in node.entries then Some(node.entries[key]) else None
  }

  predicate HasOp(node: Json, op: string) {
    Field(node, "op") == Some(Str(op))
  }

  predicate IsJunction(node: Json) {
    HasOp(node, "and") || HasOp(node, "or")
  }

  /** `self._resolve(node["path"], context)`: the value, missing, or an exception. */
  function Lookup(node: Json, context: Attributes): Result<Option<Json>> {
    match Field(node, "path")
    case None => Err("KeyError")
    case Some(path) => if path.Str? then Ok(Resolve(path.s, context)) else Err("AttributeError")
  }

  function Presence(node: Json, context: Attributes): Result<bool> {
    match Lookup(node, context)
    case Err(error) => Err(error)
    case Ok(found) => Ok(found.Some? && !found.value.Null? && !Equal(found.value, Str("")))
  }

  /** The comparison operators, on a value that was found. */
  function Compare(op: Option<Json>, left: Json, node: Json): Result<bool> {
    if op.None? || op.value.Null? || IsNumber(op.value) || op.value.Callable? then Err("ValueError")
    else if !op.value.Str? then Err("TypeError")
    else if op.value.s !in {"eq", "equals", "ne", "neq", "not_equals", "gt", "gte", "lt", "lte", "in", "contains"}
    then Err("ValueError")
    else
      match Field(node, "value")
      case None => Err("KeyError")
      case Some(value) =>
        var name := op.value.s;
        if name in {"eq", "equals"} then Ok(Equal(left, value))
        else if name in {"ne", "neq", "not_equals"} then Ok(!Equal(left, value))
        else if name == "gt" then LessThan(value, left)
        else if name == "gte" then Negated(LessThan(left, value))
        else if name == "lt" then LessThan(left, value)
        else if name == "lte" then Negated(LessThan(value, left))
        else if name == "in" then Contains(value, left)
        else Contains(left, value)
  }

  function Comparison(node: Json, context: Attributes): Outcome {
    match Lookup(node, context)
    case Err(error) => Error(error)
    case Ok(None) => Unknown
    case Ok(Some(left)) =>
      if Equal(left, NOT_SURE) then Unknown else FromResult(Compare(Field(node, "op"), left, node))
  }

  function EvaluateCondition(condition: Json, context: Attributes, ps: Predicates): Outcome
    decreases condition, 1
  {
    match condition
    case Null => False
    case Callable(id) => Truth(ps.callables(id)(context))
    case Str(name) => if name in ps.named then Truth(ps.named[name](context)) else Error("ValueError")
    case Dict(_) => EvaluateDsl(condition, context, ps)
    case _ => Error("ValueError")
  }

  function EvaluateDsl(node: Json, context: Attributes, ps: Predicates): Outcome
    decreases node, 0
  {
    if !node.Dict? then Error("AttributeError")
    else if HasOp(node, "exists") then FromResult(Presence(node, context))
    else if HasOp(node, "not_exists") then FromResult(Negated(Presence(node, context)))
    else if HasOp(node, "not") then
      if "condition" in node.entries then Not(EvaluateDsl(node.entries["condition"], context, ps))
      else Error("KeyError")
    else if IsJunction(node) then
      if "conditions" !in node.entries then Truth(HasOp(node, "and"))
      else if !node.entries["conditions"].List? then Error("TypeError")
      else
        var outcomes := EvaluateAll(node.entries["conditions"].items, context, ps);
        if HasOp(node, "and") then And(outcomes) else Or(outcomes)
    else Comparison(node, context)
  }

  function EvaluateAll(conditions: seq<Json>, context: Attributes, ps: Predicates): (os: seq<Outcome>)
    ensures |os| == |conditions|
    ensures forall i | 0 <= i < |os| :: os[i] == EvaluateCondition(conditions[i], context, ps)
    decreases conditions, 0
  {
    if conditions == [] then []
    else [EvaluateCondition(conditions[0], context, ps)] + EvaluateAll(conditions[1..], context, ps)
  }

  // ---------------------------------------------------------------------------
  // The engine's control flow
  // ---------------------------------------------------------------------------

  lemma {:induction false} AndAfter(os: seq<Outcome>, i: nat)
    requires i <= |os| && forall j | 0 <= j < i :: os[j].True? || os[j].Unknown?
    ensures And(os) == if (exists j | 0 <= j < i :: os[j].Unknown?) && And(os[i..]).True? then Unknown
                       else And(os[i..])
    decreases i
  {
    if i > 0 {
      AndAfter(os[1..], i - 1);
      assert os[1..][i - 1..] == os[i..];
      assert forall j | 0 <= j < i - 1 :: os[1..][j] == os[j + 1];
      assert forall j | 1 <= j < i :: os[j] == os[1..][j - 1];
    } else {
      assert os[0..] == os;
    }
  }

  lemma {:induction false} OrAfter(os: seq<Outcome>, i: nat)
    requires i <= |os| && forall j | 0 <= j < i :: os[j].False? || os[j].Unknown?
    ensures Or(os) == if (exists j | 0 <= j < i :: os[j].Unknown?) && Or(os[i..]).False? then Unknown
                      else Or(os[i..])
    decreases i
  {
    if i > 0 {
      OrAfter(os[1..], i - 1);
      assert os[1..][i - 1..] == os[i..];
      assert forall j | 0 <= j < i - 1 :: os[1..][j] == os[j + 1];
      assert forall j | 1 <= j < i :: os[j] == os[1..][j - 1];
    } else {
      assert os[0..] == os;
    }
  }

  method Condition(condition: Json, context: Attributes, ps: Predicates) returns (r: Outcome)
    ensures r == EvaluateCondition(condition, context, ps)
    decreases condition, 1
  {
    match condition
    case Null => r := False;
    case Callable(id) => r := Truth(ps.callables(id)(context));
    case Str(name) =>
      r := if name in ps.named then Truth(ps.named[name](context)) else Error("ValueError");
    case Dict(_) => r := Dsl(condition, context, ps);
    case _ => r := Error("ValueError");
  }

  /** Returns at the first child that decides; remembers an unknown one and goes on. */
  method AndLoop(conditions: seq<Json>, context: Attributes, ps: Predicates) returns (r: Outcome)
    ensures r == And(EvaluateAll(conditions, context, ps))
    decreases conditions, 0
  {
    ghost var os := EvaluateAll(conditions, context, ps);
    var hasUnknown := false;
    for i := 0 to |conditions|
      invariant forall j | 0 <= j < i :: os[j].True? || os[j].Unknown?
      invariant hasUnknown <==> exists j | 0 <= j < i :: os[j].Unknown?
    {
      AndAfter(os, i);
      var value := Condition(conditions[i], context, ps);
      if value.Error? {
        return value;
      }
      if value.Unknown? {
        hasUnknown := true;
        continue;
      }
      if value.False? {
        return False;
      }
    }
    AndAfter(os, |conditions|);
    r := if hasUnknown then Unknown else True;
  }

  method OrLoop(conditions: seq<Json>, context: Attributes, ps: Predicates) returns (r: Outcome)
    ensures r == Or(EvaluateAll(conditions, context, ps))
    decreases conditions, 0
  {
    ghost var os := EvaluateAll(conditions, context, ps);
    var hasUnknown := false;
    for i := 0 to |conditions|
      invariant forall j | 0 <= j < i :: os[j].False? || os[j].Unknown?
      invariant hasUnknown <==> exists j | 0 <= j < i :: os[j].Unknown?
    {
      OrAfter(os, i);
      var value := Condition(conditions[i], context, ps);
      if value.Error? {
        return value;
      }
      if value.Unknown? {
        hasUnknown := true;
        continue;
      }
      if value.True? {
        return True;
      }
    }
    OrAfter(os, |conditions|);
    r := if hasUnknown then Unknown else False;
  }

  method Dsl(node: Json, context: Attributes, ps: Predicates) returns (r: Outcome)
    ensures r == EvaluateDsl(node, context, ps)
    decreases node, 0
  {
    if !node.Dict? {
      return Error("AttributeError");
    }
    if HasOp(node, "exists") {
      return FromResult(Presence(node, context));
    }
    if HasOp(node, "not_exists") {
      return FromResult(Negated(Presence(node, context)));
    }
    if HasOp(node, "not") {
      if "condition" !in node.entries {
        return Error("KeyError");
      }
      var child := Dsl(node.entries["condition"], context, ps);
      return Not(child);
    }
    if IsJunction(node) {
      if "conditions" !in node.entries {
        return Truth(HasOp(node, "and"));
      }
      if !node.entries["conditions"].List? {
        return Error("TypeError");
      }
      if HasOp(node, "and") {
        r := AndLoop(node.entries["conditions"].items, context, ps);
      } else {
        r := OrLoop(node.entries["conditions"].items, context, ps);
      }
      return;
    }
    r := Comparison(node, context);
  }
}
