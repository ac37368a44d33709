/**
  What conditions mean: strong Kleene logic over any number of children, and when the order and
  nesting in which a pack writes them makes no difference.
 */
module EngineLaws {
  import opened Engine
  import opened Json

  // ---------------------------------------------------------------------------
  // Strong Kleene minimum and maximum
  // ---------------------------------------------------------------------------

  predicate NoError(os: seq<Outcome>) {
    forall i | 0 <= i < |os| :: !os[i].Error?
  }

  lemma {:induction false} AndIsMinimum(os: seq<Outcome>)
    requires NoError(os)
    ensures And(os) == if False in os then False else if Unknown in os then Unknown else True
  {
    if os != [] {
      AndIsMinimum(os[1..]);
      assert os == [os[0]] + os[1..];
    }
  }

  lemma {:induction false} OrIsMaximum(os: seq<Outcome>)
    requires NoError(os)
    ensures Or(os) == if True in os then True else if Unknown in os then Unknown else False
  {
    if os != [] {
      OrIsMaximum(os[1..]);
      assert os == [os[0]] + os[1..];
    }
  }

  /** Duality holds to the letter, errors included. */
  lemma {:induction false} DeMorgan(os: seq<Outcome>, negated: seq<Outcome>)
    requires |negated| == |os| && forall i | 0 <= i < |os| :: negated[i] == Not(os[i])
    ensures Not(And(os)) == Or(negated) && Not(Or(os)) == And(negated)
  {
    if os != [] {
      DeMorgan(os[1..], negated[1..]);
    }
  }

  lemma {:induction false} AndFlattens(a: seq<Outcome>, b: seq<Outcome>, c: seq<Outcome>)
    ensures And(a + [And(b)] + c) == And(a + b + c)
    decreases |a| + |b|
  {
    if a != [] {
      AndFlattens(a[1..], b, c);
      assert (a + [And(b)] + c)[1..] == a[1..] + [And(b)] + c;
      assert (a + b + c)[1..] == a[1..] + b + c;
    } else if b != [] {
      AndFlattens([], b[1..], c);
      assert (a + b + c)[1..] == [] + b[1..] + c;
      assert (a + [And(b)] + c)[1..] == c && ([] + [And(b[1..])] + c)[1..] == c;
      assert b[0].Unknown? && And(b[1..]).Unknown? ==> And(c) == And(c);
    } else {
      assert (a + [And(b)] + c)[1..] == c && a + b + c == c;
    }
  }

  lemma {:induction false} OrFlattens(a: seq<Outcome>, b: seq<Outcome>, c: seq<Outcome>)
    ensures Or(a + [Or(b)] + c) == Or(a + b + c)
    decreases |a| + |b|
  {
    if a != [] {
      OrFlattens(a[1..], b, c);
      assert (a + [Or(b)] + c)[1..] == a[1..] + [Or(b)] + c;
      assert (a + b + c)[1..] == a[1..] + b + c;
    } else if b != [] {
      OrFlattens([], b[1..], c);
      assert (a + b + c)[1..] == [] + b[1..] + c;
      assert (a + [Or(b)] + c)[1..] == c && ([] + [Or(b[1..])] + c)[1..] == c;
    } else {
      assert (a + [Or(b)] + c)[1..] == c && a + b + c == c;
    }
  }

  // ---------------------------------------------------------------------------
  // Rearranging a condition at any depth
  // ---------------------------------------------------------------------------

  predicate IsListJunction(node: Json, op: string) {
    HasOp(node, op) && "conditions" in node.entries && node.entries["conditions"].List?
  }

  predicate IsNegation(node: Json) {
    HasOp(node, "not") && "condition" in node.entries
  }

  function Junct(op: string, os: seq<Outcome>): Outcome {
    if op == "and" then And(os) else Or(os)
  }

  lemma {:induction false} JunctionOutcome(node: Json, op: string, context: Attributes, ps: Predicates)
    requires op in {"and", "or"} && IsListJunction(node, op)
    ensures EvaluateCondition(node, context, ps)
         == Junct(op, EvaluateAll(node.entries["conditions"].items, context, ps))
  {
  }

  /**
    A way to rewrite a condition: leave it, rewrite under a `not`, or rearrange an and/or, naming for each
    old child the new child it becomes and for each new child the old child it comes from. Children may
    so be permuted, repeated and de-duplicated, at any depth.
   */
  datatype Rewrite =
    | Same
    | Under(inner: Rewrite)
    | Rearrange(becomes: seq<Move>, comesFrom: seq<Move>)

  datatype Move = Move(index: nat, how: Rewrite)

  ghost predicate Takes(r: Rewrite, n: Json, m: Json)
    decreases r
  {
    match r
    case Same => n == m
    case Under(inner) => IsNegation(n) && IsNegation(m) && Takes(inner, n.entries["condition"], m.entries["condition"])
    case Rearrange(becomes, comesFrom) =>
      exists op | op in {"and", "or"} ::
        && IsListJunction(n, op) && IsListJunction(m, op)
        && |becomes| == |n.entries["conditions"].items| && |comesFrom| == |m.entries["conditions"].items|
        && (forall i | 0 <= i < |becomes| ::
              && becomes[i].index < |comesFrom|
              && Takes(becomes[i].how, n.entries["conditions"].items[i], m.entries["conditions"].items[becomes[i].index]))
        && (forall j | 0 <= j < |comesFrom| ::
              && comesFrom[j].index < |becomes|
              && Takes(comesFrom[j].how, n.entries["conditions"].items[comesFrom[j].index], m.entries["conditions"].items[j]))
  }

  /** No child raises; or none decides, and all that raise raise the same. */
  predicate OrderFree(op: string, os: seq<Outcome>) {
    NoError(os) || (Decisive(op) !in os && forall i, j | 0 <= i < j < |os| && os[i].Error? && os[j].Error? :: os[i] == os[j])
  }

  function Decisive(op: string): Outcome {
    if op == "and" then False else True
  }

  /** At every and/or in the condition the order is free. */
  ghost predicate Unordered(n: Json, context: Attributes, ps: Predicates)
    decreases n, 1
  {
    && (IsNegation(n) ==> Unordered(n.entries["condition"], context, ps))
    && forall op | op in {"and", "or"} && IsListJunction(n, op) ::
         && OrderFree(op, EvaluateAll(n.entries["conditions"].items, context, ps))
         && AllUnordered(n.entries["conditions"].items, context, ps)
  }

  ghost predicate AllUnordered(ns: seq<Json>, context: Attributes, ps: Predicates)
    decreases ns, 0
  {
    forall i | 0 <= i < |ns| :: Unordered(ns[i], context, ps)
  }

  lemma {:induction false} NotOutcome(node: Json, context: Attributes, ps: Predicates)
    requires IsNegation(node)
    ensures EvaluateCondition(node, context, ps) == Not(EvaluateDsl(node.entries["condition"], context, ps))
  {
  }

  lemma {:induction false} RewritingKeepsOutcome(r: Rewrite, n: Json, m: Json, context: Attributes, ps: Predicates)
    requires Takes(r, n, m) && Unordered(n, context, ps)
    ensures EvaluateCondition(n, context, ps) == EvaluateCondition(m, context, ps)
    decreases r, 1
  {
    match r
    case Same =>
    case Under(inner) =>
      NotOutcome(n, context, ps);
      NotOutcome(m, context, ps);
      RewritingKeepsOutcome(inner, n.entries["condition"], m.entries["condition"], context, ps);
    case Rearrange(becomes, comesFrom) =>
      var op := if IsListJunction(n, "and") then "and" else "or";
      JunctionOutcome(n, op, context, ps);
      JunctionOutcome(m, op, context, ps);
      RearrangingKeepsOutcome(op, becomes, comesFrom, n.entries["conditions"].items, m.entries["conditions"].items,
                              context, ps);
  }

  lemma {:induction false} RearrangingKeepsOutcome(op: string, becomes: seq<Move>, comesFrom: seq<Move>, ns: seq<Json>,
                                                   ms: seq<Json>, context: Attributes, ps: Predicates)
    requires op in {"and", "or"} && |becomes| == |ns| && |comesFrom| == |ms|
    requires OrderFree(op, EvaluateAll(ns, context, ps)) && forall i | 0 <= i < |ns| :: Unordered(ns[i], context, ps)
    requires forall i | 0 <= i < |ns| :: becomes[i].index < |ms| && Takes(becomes[i].how, ns[i], ms[becomes[i].index])
    requires forall j | 0 <= j < |ms| :: comesFrom[j].index < |ns| && Takes(comesFrom[j].how, ns[comesFrom[j].index], ms[j])
    ensures Junct(op, EvaluateAll(ns, context, ps)) == Junct(op, EvaluateAll(ms, context, ps))
    decreases Rearrange(becomes, comesFrom), 0
  {
    var os, qs := EvaluateAll(ns, context, ps), EvaluateAll(ms, context, ps);
    forall i | 0 <= i < |os| ensures os[i] in qs {
      RewritingKeepsOutcome(becomes[i].how, ns[i], ms[becomes[i].index], context, ps);
      assert os[i] == qs[becomes[i].index];
    }
    forall j | 0 <= j < |qs| ensures qs[j] in os {
      RewritingKeepsOutcome(comesFrom[j].how, ns[comesFrom[j].index], ms[j], context, ps);
      assert qs[j] == os[comesFrom[j].index];
    }
    SameOutcomes(op, os, qs);
  }

  /** Where the order is free, only which outcomes occur matters. */
  lemma {:induction false} SameOutcomes(op: string, os: seq<Outcome>, qs: seq<Outcome>)
    requires op in {"and", "or"} && OrderFree(op, os)
    requires (forall i | 0 <= i < |os| :: os[i] in qs) && (forall j | 0 <= j < |qs| :: qs[j] in os)
    ensures Junct(op, os) == Junct(op, qs)
  {
    if NoError(os) {
      assert NoError(qs);
      AndIsMinimum(os);
      AndIsMinimum(qs);
      OrIsMaximum(os);
      OrIsMaximum(qs);
    } else {
      var i :| 0 <= i < |os| && os[i].Error?;
      OnlyErrorCounts(op, os, os[i]);
      OnlyErrorCounts(op, qs, os[i]);
    }
  }

  /** With no deciding child, the one error is the outcome wherever it stands. */
  lemma {:induction false} OnlyErrorCounts(op: string, os: seq<Outcome>, e: Outcome)
    requires op in {"and", "or"} && Decisive(op) !in os && e.Error? && e in os
    requires forall o | o in os && o.Error? :: o == e
    ensures Junct(op, os) == e
  {
    if os[0] != e {
      assert os == [os[0]] + os[1..];
      OnlyErrorCounts(op, os[1..], e);
    }
  }

  function Front<T>(s: seq<T>, i: nat): (r: seq<T>)
    requires i < |s|
    ensures multiset(r) == multiset(s)
  {
    assert s == s[..i] + [s[i]] + s[i + 1..];
    [s[i]] + s[..i] + s[i + 1..]
  }

  /** Every way to reorder the children gives the same outcome. */
  ghost predicate OrderIrrelevant(op: string, children: seq<Json>, context: Attributes, ps: Predicates) {
    forall ms | multiset(ms) == multiset(children) ::
      EvaluateCondition(Junction(op, ms), context, ps) == EvaluateCondition(Junction(op, children), context, ps)
  }

  /** Exactly when the order of the children makes no difference: none raises, or none decides and all errors agree. */
  lemma {:induction false} OrderIrrelevantExactly(op: string, children: seq<Json>, context: Attributes, ps: Predicates)
    requires op in {"and", "or"}
    ensures OrderIrrelevant(op, children, context, ps) <==> OrderFree(op, EvaluateAll(children, context, ps))
  {
    var os := EvaluateAll(children, context, ps);
    if OrderFree(op, os) {
      forall ms | multiset(ms) == multiset(children)
        ensures EvaluateCondition(Junction(op, ms), context, ps) == EvaluateCondition(Junction(op, children), context, ps)
      {
        ReorderedOutcomes(op, children, ms, context, ps);
      }
    } else {
      var i, j := ConflictingChildren(op, os);
      FrontDecides(op, children, i, context, ps);
      FrontDecides(op, children, j, context, ps);
    }
  }

  lemma {:induction false} ReorderedOutcomes(op: string, ns: seq<Json>, ms: seq<Json>, context: Attributes, ps: Predicates)
    requires op in {"and", "or"} && multiset(ms) == multiset(ns) && OrderFree(op, EvaluateAll(ns, context, ps))
    ensures EvaluateCondition(Junction(op, ms), context, ps) == EvaluateCondition(Junction(op, ns), context, ps)
  {
    var os, qs := EvaluateAll(ns, context, ps), EvaluateAll(ms, context, ps);
    forall i | 0 <= i < |os| ensures os[i] in qs {
      assert ns[i] in multiset(ms);
      var j :| 0 <= j < |ms| && ms[j] == ns[i];
      assert qs[j] == os[i];
    }
    forall j | 0 <= j < |qs| ensures qs[j] in os {
      assert ms[j] in multiset(ns);
      var i :| 0 <= i < |ns| && ns[i] == ms[j];
      assert os[i] == qs[j];
    }
    SameOutcomes(op, os, qs);
    JunctionOutcome(Junction(op, ns), op, context, ps);
    JunctionOutcome(Junction(op, ms), op, context, ps);
  }

  /** Two children that each settle the outcome when they come first, and differently. */
  lemma {:induction false} ConflictingChildren(op: string, os: seq<Outcome>) returns (i: nat, j: nat)
    requires !OrderFree(op, os)
    ensures i < |os| && j < |os| && os[i] != os[j] && os[i].Error? && (os[j].Error? || os[j] == Decisive(op))
  {
    if Decisive(op) in os {
      i :| 0 <= i < |os| && os[i].Error?;
      j :| 0 <= j < |os| && os[j] == Decisive(op);
    } else {
      i, j :| 0 <= i < j < |os| && os[i].Error? && os[j].Error? && os[i] != os[j];
    }
  }

  lemma {:induction false} FrontDecides(op: string, children: seq<Json>, i: nat, context: Attributes, ps: Predicates)
    requires op in {"and", "or"} && i < |children|
    requires var o := EvaluateCondition(children[i], context, ps); o.Error? || o == Decisive(op)
    ensures EvaluateCondition(Junction(op, Front(children, i)), context, ps) == EvaluateCondition(children[i], context, ps)
    ensures multiset(Front(children, i)) == multiset(children)
  {
    var ms := Front(children, i);
    JunctionOutcome(Junction(op, ms), op, context, ps);
    assert EvaluateAll(ms, context, ps)[0] == EvaluateCondition(children[i], context, ps);
  }

  /** With a deciding child and one that raises, a swap changes the outcome. */
  lemma {:induction false} ErrorsMakeOrderMatter(context: Attributes, ps: Predicates)
    ensures var n, m := Junction("and", [Null, Num(0.0)]), Junction("and", [Num(0.0), Null]);
            && Takes(Rearrange([Move(1, Same), Move(0, Same)], [Move(1, Same), Move(0, Same)]), n, m)
            && EvaluateCondition(n, context, ps) == False && EvaluateCondition(m, context, ps).Error?
  {
    var n, m := Junction("and", [Null, Num(0.0)]), Junction("and", [Num(0.0), Null]);
    assert IsListJunction(n, "and") && IsListJunction(m, "and");
    JunctionOutcome(n, "and", context, ps);
    JunctionOutcome(m, "and", context, ps);
  }

  // ---------------------------------------------------------------------------
  // Flattening nested and/or
  // ---------------------------------------------------------------------------

  /** Replace children of the same operator by their own children. */
  function Spliced(op: string, children: seq<Json>): seq<Json> {
    if children == [] then [] else OwnChildren(op, children[0]) + Spliced(op, children[1..])
  }

  function Flattened(node: Json): Json
    decreases node, 1
  {
    if IsNegation(node) then Dict(node.entries["condition" := Flattened(node.entries["condition"])])
    else if IsListJunction(node, "and") then
      Dict(node.entries["conditions" := List(Spliced("and", FlattenedAll(node.entries["conditions"].items)))])
    else if IsListJunction(node, "or") then
      Dict(node.entries["conditions" := List(Spliced("or", FlattenedAll(node.entries["conditions"].items)))])
    else node
  }

  function FlattenedAll(nodes: seq<Json>): (r: seq<Json>)
    ensures |r| == |nodes| && forall i | 0 <= i < |r| :: r[i] == Flattened(nodes[i])
    decreases nodes, 0
  {
    if nodes == [] then [] else [Flattened(nodes[0])] + FlattenedAll(nodes[1..])
  }

  function OwnChildren(op: string, child: Json): seq<Json> {
    if IsListJunction(child, op) then child.entries["conditions"].items else [child]
  }

  lemma {:induction false} EvaluateAppend(a: seq<Json>, b: seq<Json>, context: Attributes, ps: Predicates)
    ensures EvaluateAll(a + b, context, ps) == EvaluateAll(a, context, ps) + EvaluateAll(b, context, ps)
  {
  }

  lemma {:induction false} JunctPrefix(op: string, os: seq<Outcome>, qs: seq<Outcome>)
    requires op in {"and", "or"}
    ensures Junct(op, os + qs) == Junct(op, [Junct(op, os)] + qs)
  {
    assert [] + os + qs == os + qs && [] + [Junct(op, os)] + qs == [Junct(op, os)] + qs;
    if op == "and" { AndFlattens([], os, qs); } else { OrFlattens([], os, qs); }
  }

  lemma {:induction false} OwnOutcome(op: string, child: Json, context: Attributes, ps: Predicates)
    requires op in {"and", "or"}
    ensures Junct(op, EvaluateAll(OwnChildren(op, child), context, ps)) == Junct(op, [EvaluateCondition(child, context, ps)])
  {
    var o := EvaluateCondition(child, context, ps);
    if IsListJunction(child, op) {
      JunctionOutcome(child, op, context, ps);
      JunctPrefix(op, EvaluateAll(OwnChildren(op, child), context, ps), []);
      assert EvaluateAll(OwnChildren(op, child), context, ps) + [] == EvaluateAll(OwnChildren(op, child), context, ps);
      assert [o] + [] == [o];
    } else {
      assert EvaluateAll([child], context, ps) == [o];
    }
  }

  lemma {:induction false} JunctCongruence(op: string, os: seq<Outcome>, ps: seq<Outcome>, qs: seq<Outcome>, rs: seq<Outcome>)
    requires op in {"and", "or"} && Junct(op, os) == Junct(op, ps) && Junct(op, qs) == Junct(op, rs)
    ensures Junct(op, os + qs) == Junct(op, ps + rs)
  {
    JunctPrefix(op, os, qs);
    JunctPrefix(op, ps, rs);
    assert ([Junct(op, os)] + qs)[1..] == qs && ([Junct(op, os)] + rs)[1..] == rs;
  }

  lemma {:induction false} SplicingKeepsOutcome(op: string, children: seq<Json>, context: Attributes, ps: Predicates)
    requires op in {"and", "or"}
    ensures Junct(op, EvaluateAll(Spliced(op, children), context, ps)) == Junct(op, EvaluateAll(children, context, ps))
  {
    if children != [] {
      var own, rest := OwnChildren(op, children[0]), Spliced(op, children[1..]);
      SplicingKeepsOutcome(op, children[1..], context, ps);
      OwnOutcome(op, children[0], context, ps);
      EvaluateAppend(own, rest, context, ps);
      JunctCongruence(op, EvaluateAll(own, context, ps), [EvaluateCondition(children[0], context, ps)],
                      EvaluateAll(rest, context, ps), EvaluateAll(children[1..], context, ps));
      assert Spliced(op, children) == own + rest;
    }
  }

  /** Flattening nested and/or, at every depth, changes no outcome, error or otherwise. */
  lemma {:induction false} FlatteningKeepsOutcome(node: Json, context: Attributes, ps: Predicates)
    ensures EvaluateCondition(Flattened(node), context, ps) == EvaluateCondition(node, context, ps)
    decreases node, 1
  {
    if IsNegation(node) {
      var child := node.entries["condition"];
      FlatteningKeepsOutcome(child, context, ps);
      assert Flattened(child).Dict? <==> child.Dict?;
    } else if IsListJunction(node, "and") {
      FlatteningJunction(node, "and", context, ps);
    } else if IsListJunction(node, "or") {
      FlatteningJunction(node, "or", context, ps);
    }
  }

  lemma {:induction false} FlatteningJunction(node: Json, op: string, context: Attributes, ps: Predicates)
    requires op in {"and", "or"} && IsListJunction(node, op)
    ensures EvaluateCondition(Flattened(node), context, ps) == EvaluateCondition(node, context, ps)
    decreases node, 0
  {
    var children := node.entries["conditions"].items;
    forall i | 0 <= i < |children|
      ensures EvaluateCondition(Flattened(children[i]), context, ps) == EvaluateCondition(children[i], context, ps)
    {
      FlatteningKeepsOutcome(children[i], context, ps);
    }
    assert EvaluateAll(FlattenedAll(children), context, ps) == EvaluateAll(children, context, ps);
    SplicingKeepsOutcome(op, FlattenedAll(children), context, ps);
    JunctionOutcome(node, op, context, ps);
    JunctionOutcome(Flattened(node), op, context, ps);
  }

  /** No and directly under and, no or directly under or. */
  ghost predicate IsFlat(node: Json)
    decreases node
  {
    && (IsNegation(node) ==> IsFlat(node.entries["condition"]))
    && forall op | op in {"and", "or"} && IsListJunction(node, op) ::
         forall i | 0 <= i < |node.entries["conditions"].items| ::
           var child := node.entries["conditions"].items[i];
           IsFlat(child) && !IsListJunction(child, op)
  }

  lemma {:induction false} SplicedIsFlat(op: string, children: seq<Json>)
    requires op in {"and", "or"} && forall i | 0 <= i < |children| :: IsFlat(children[i])
    ensures forall i | 0 <= i < |Spliced(op, children)| ::
              IsFlat(Spliced(op, children)[i]) && !IsListJunction(Spliced(op, children)[i], op)
  {
    if children != [] {
      SplicedIsFlat(op, children[1..]);
    }
  }

  lemma {:induction false} FlattenedIsFlat(node: Json)
    ensures IsFlat(Flattened(node))
    decreases node
  {
    if IsNegation(node) {
      FlattenedIsFlat(node.entries["condition"]);
    } else if IsListJunction(node, "and") || IsListJunction(node, "or") {
      var children := node.entries["conditions"].items;
      forall i | 0 <= i < |children| ensures IsFlat(FlattenedAll(children)[i]) {
        FlattenedIsFlat(children[i]);
      }
      SplicedIsFlat(if IsListJunction(node, "and") then "and" else "or", FlattenedAll(children));
    }
  }

  /** `not` over an and of dict children is the or of their negations, and the other way round. */
  lemma {:induction false} NegationDualizes(children: seq<Json>, context: Attributes, ps: Predicates)
    requires forall i | 0 <= i < |children| :: children[i].Dict?
    ensures EvaluateDsl(Negation(Junction("and", children)), context, ps)
         == EvaluateDsl(Junction("or", Negations(children)), context, ps)
    ensures EvaluateDsl(Negation(Junction("or", children)), context, ps)
         == EvaluateDsl(Junction("and", Negations(children)), context, ps)
  {
    var os, qs := EvaluateAll(children, context, ps), EvaluateAll(Negations(children), context, ps);
    forall i | 0 <= i < |os| ensures qs[i] == Not(os[i]) {
      NegationOutcome(children[i], context, ps);
    }
    DeMorgan(os, qs);
    NegationOutcome(Junction("and", children), context, ps);
    NegationOutcome(Junction("or", children), context, ps);
    JunctionOutcome(Junction("and", children), "and", context, ps);
    JunctionOutcome(Junction("or", children), "or", context, ps);
    JunctionOutcome(Junction("and", Negations(children)), "and", context, ps);
    JunctionOutcome(Junction("or", Negations(children)), "or", context, ps);
  }

  lemma {:induction false} NegationOutcome(child: Json, context: Attributes, ps: Predicates)
    requires child.Dict?
    ensures EvaluateCondition(Negation(child), context, ps) == Not(EvaluateCondition(child, context, ps))
  {
    var n := Negation(child);
    assert HasOp(n, "not") && n.entries["condition"] == child;
  }

  function Negation(child: Json): Json {
    Dict(map["op" := Str("not"), "condition" := child])
  }

  function Junction(op: string, children: seq<Json>): Json {
    Dict(map["op" := Str(op), "conditions" := List(children)])
  }

  function Negations(children: seq<Json>): (r: seq<Json>)
    ensures |r| == |children| && forall i | 0 <= i < |r| :: r[i] == Negation(children[i])
  {
    seq(|children|, i requires 0 <= i < |children| => Negation(children[i]))
  }
}
