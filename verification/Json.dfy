/**
  JSON-shaped Python values, with the comparisons the policy DSL applies to them.
  Comparisons Python refuses are errors here, not excluded inputs.
 */
module Json {
  import opened Ordering
  import opened Wrappers

  datatype Json =
    | Null
    | Bool(b: bool)
    | Num(n: real)
    | Str(s: string)
    | List(items: seq<Json>)
    | Dict(entries: map<string, Json>)
    | Callable(id: nat)

  type Attributes = map<string, Json>

  predicate IsNumber(v: Json) {
    v.Bool? || v.Num?
  }

  /** bool is a subclass of int: True compares as 1. */
  function AsNumber(v: Json): real
    requires IsNumber(v)
  {
    if v.Num? then v.n else if v.b then 1.0 else 0.0
  }

  /** `a == b`. */
  predicate Equal(a: Json, b: Json) {
    if IsNumber(a) && IsNumber(b) then AsNumber(a) == AsNumber(b)
    else
      match a
      case List(items) => b.List? && |items| == |b.items| && forall i | 0 <= i < |items| :: Equal(items[i], b.items[i])
      case Dict(entries) =>
        b.Dict? && entries.Keys == b.entries.Keys && forall k | k in entries :: Equal(entries[k], b.entries[k])
      case _ => a == b
  }

  /** `a < b`, or TypeError. */
  function LessThan(a: Json, b: Json): Result<bool> {
    if IsNumber(a) && IsNumber(b) then Ok(AsNumber(a) < AsNumber(b))
    else if a.Str? && b.Str? then Ok(Less(a.s, b.s))
    else if a.List? && b.List? then ListLessThan(a.items, b.items)
    else Err("TypeError")
  }

  function ListLessThan(a: seq<Json>, b: seq<Json>): Result<bool> {
    if a == [] || b == [] then Ok(b != [])
    else if Equal(a[0], b[0]) then ListLessThan(a[1..], b[1..])
    else LessThan(a[0], b[0])
  }

  function Negated(r: Result<bool>): Result<bool> {
    match r
    case Ok(value) => Ok(!value)
    case Err(error) => r
  }

  predicate OccursAt(part: string, whole: string, i: nat) {
    i + |part| <= |whole| && whole[i..i + |part|] == part
  }

  predicate Substring(part: string, whole: string) {
    exists i | 0 <= i <= |whole| :: OccursAt(part, whole, i)
  }

  /** `x in container`, or TypeError. */
  function Contains(container: Json, x: Json): Result<bool> {
    match container
    case List(items) => Ok(exists i | 0 <= i < |items| :: Equal(x, items[i]))
    case Str(s) => if x.Str? then Ok(Substring(x.s, s)) else Err("TypeError")
    case Dict(entries) => if x.List? || x.Dict? then Err("TypeError") else Ok(x.Str? && x.s in entries)
    case _ => Err("TypeError")
  }

  // ---------------------------------------------------------------------------
  // Dotted paths
  // ---------------------------------------------------------------------------

  /** `s.split(".")`. */
  function Split(s: string): (parts: seq<string>)
    ensures parts != []
  {
    if s == [] then [""]
    else
      var rest := Split(s[1..]);
      if s[0] == '.' then [""] + rest else [[s[0]] + rest[0]] + rest[1..]
  }

  const PREFIX := "attributes."

  function PathParts(path: string): seq<string> {
    Split(if PREFIX <= path then path[|PREFIX|..] else path)
  }

  function Walk(v: Json, parts: seq<string>): Option<Json> {
    if parts == [] then Some(v)
    else if v.Dict? && parts[0] in v.entries then Walk(v.entries[parts[0]], parts[1..])
    else None
  }

  /** The value at a path; None when some step is missing. */
  function Resolve(path: string, context: Attributes): Option<Json> {
    Walk(Dict(context), PathParts(path))
  }

  lemma {:induction false} SplitAtDot(a: string, rest: string)
    requires '.' !in a
    ensures Split(a + "." + rest) == [a] + Split(rest)
  {
    if a == [] {
      assert (a + "." + rest)[1..] == rest;
    } else {
      assert (a + "." + rest)[1..] == a[1..] + "." + rest;
      SplitAtDot(a[1..], rest);
      assert [a[0]] + a[1..] == a;
    }
  }

  lemma {:induction false} SplitWithoutDot(a: string)
    requires '.' !in a
    ensures Split(a) == [a]
  {
    if a != [] {
      SplitWithoutDot(a[1..]);
      assert [a[0]] + a[1..] == a;
    }
  }

  /** Keys in a row, joined by dots. */
  function Dotted(keys: seq<string>): string
    requires keys != []
  {
    if |keys| == 1 then keys[0] else keys[0] + "." + Dotted(keys[1..])
  }

  predicate DotFree(keys: seq<string>) {
    forall i | 0 <= i < |keys| :: '.' !in keys[i]
  }

  lemma {:induction false} SplitDotted(keys: seq<string>)
    requires keys != [] && DotFree(keys)
    ensures Split(Dotted(keys)) == keys
  {
    if |keys| == 1 {
      SplitWithoutDot(keys[0]);
    } else {
      SplitAtDot(keys[0], Dotted(keys[1..]));
      SplitDotted(keys[1..]);
    }
  }

  /** Conversely every string is the dotted form of its parts. */
  lemma {:induction false} DottedSplit(s: string)
    ensures DotFree(Split(s)) && Dotted(Split(s)) == s
  {
    if s != [] {
      DottedSplit(s[1..]);
      var rest := Split(s[1..]);
      assert s == [s[0]] + s[1..];
      if s[0] == '.' {
        assert ([""] + rest)[1..] == rest;
      } else {
        assert ([[s[0]] + rest[0]] + rest[1..])[1..] == rest[1..];
      }
    }
  }

  /** From v, one dictionary entry after the other, the keys lead to the leaf. */
  ghost predicate Leads(v: Json, keys: seq<string>, leaf: Json) {
    exists chain: seq<Json> :: LeadsAlong(chain, v, keys, leaf)
  }

  ghost predicate LeadsAlong(chain: seq<Json>, v: Json, keys: seq<string>, leaf: Json) {
    && |chain| == |keys| + 1 && chain[0] == v && chain[|keys|] == leaf
    && forall i | 0 <= i < |keys| ::
         chain[i].Dict? && keys[i] in chain[i].entries && chain[i].entries[keys[i]] == chain[i + 1]
  }

  lemma {:induction false} WalkLeads(v: Json, keys: seq<string>, leaf: Json)
    ensures Walk(v, keys) == Some(leaf) <==> Leads(v, keys, leaf)
  {
    if keys == [] {
      if v == leaf { assert LeadsAlong([v], v, [], leaf); }
    } else if v.Dict? && keys[0] in v.entries {
      var next := v.entries[keys[0]];
      WalkLeads(next, keys[1..], leaf);
      if Leads(next, keys[1..], leaf) {
        var chain: seq<Json> :| LeadsAlong(chain, next, keys[1..], leaf);
        assert LeadsAlong([v] + chain, v, keys, leaf);
      }
      if Leads(v, keys, leaf) {
        var chain: seq<Json> :| LeadsAlong(chain, v, keys, leaf);
        assert LeadsAlong(chain[1..], next, keys[1..], leaf);
      }
    }
  }

  /** A dotted path, with or without the prefix, resolves to a value exactly when its keys lead there from the context. */
  lemma {:induction false} ResolvesExactly(path: string, keys: seq<string>, context: Attributes, leaf: Json)
    requires keys != [] && DotFree(keys)
    requires path == PREFIX + Dotted(keys) || (path == Dotted(keys) && !(PREFIX <= path))
    ensures Resolve(path, context) == Some(leaf) <==> Leads(Dict(context), keys, leaf)
  {
    SplitDotted(keys);
    WalkLeads(Dict(context), keys, leaf);
    assert path == PREFIX + Dotted(keys) ==> path[|PREFIX|..] == Dotted(keys);
  }

  // ---------------------------------------------------------------------------
  // More information
  // ---------------------------------------------------------------------------

  const NOT_SURE := Str("not_sure")

  /** b says at least as much as a: missing entries filled in, "not_sure" answered, nothing else changed. */
  ghost predicate Informs(a: Json, b: Json) {
    || a == NOT_SURE
    || a == b
    || (a.Dict? && b.Dict? && forall k | k in a.entries :: k in b.entries && Informs(a.entries[k], b.entries[k]))
  }

  lemma {:induction false} WalkInforms(a: Json, b: Json, parts: seq<string>)
    requires Informs(a, b) && Walk(a, parts).Some?
    ensures Walk(b, parts).Some? && Informs(Walk(a, parts).value, Walk(b, parts).value)
    decreases |parts|
  {
    if parts != [] && a != b {
      WalkInforms(a.entries[parts[0]], b.entries[parts[0]], parts[1..]);
    }
  }

  /** Information accumulates: the order is transitive. */
  lemma {:induction false} InformsIsTransitive(a: Json, b: Json, c: Json)
    requires Informs(a, b) && Informs(b, c)
    ensures Informs(a, c)
    decreases a
  {
    if a.Dict? && b.Dict? && c.Dict? && a != b && b != c {
      forall k | k in a.entries ensures k in c.entries && Informs(a.entries[k], c.entries[k]) {
        InformsIsTransitive(a.entries[k], b.entries[k], c.entries[k]);
      }
    }
  }
}
