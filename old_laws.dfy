/** What the 1.2.3 evaluator guarantees: symbol lookup, dynamic scoping of
    closure calls, 32-bit arithmetic, the values `for` and `range` step
    through, and assignment through the global table. */
module OldParenLaws {
  import opened JavaLang
  import opened OldParenReader
  import opened OldParenEval

  /** Nodes that evaluate to themselves without touching the table. */
  predicate Literal(v: OVal) { !v.OSym? && !v.OList? }

  // ---------------------------------------------------------------------------
  // Atoms and symbols

  /** A non-list node evaluates to itself, except a symbol, which evaluates
      to its global binding, else to itself when it names a builtin, else to
      null; the table is unchanged. */
  lemma AtomEvaluation(g: Globals, n: OVal, fuel: nat)
    requires fuel > 0 && !n.OList?
    ensures Eval(g, n, fuel) == Ok(Step(if n.OSym? then Lookup(g, n.name) else n, g))
    ensures n.OSym? && n.name !in g && n.name !in Builtins ==> Eval(g, n, fuel) == Ok(Step(ONull, g))
  {
  }

  /** A call whose head is a name bound to nothing callable fails: an
      unknown symbol evaluates to null, and looking null up in the builtin
      table throws. */
  lemma UnknownFunctionThrows(g: Globals, name: string, items: seq<OVal>, fuel: nat)
    requires fuel > 1 && name !in g && name !in Builtins
    ensures Eval(g, OList([OSym(name)] + items), fuel) == Throw(NullPointer)
  {
    var call := [OSym(name)] + items;
    assert call[0] == OSym(name);
    assert Eval(g, call[0], fuel - 1) == Ok(Step(ONull, g));
  }

  /** A call whose head is a name bound to something that is neither a
      builtin name nor a `(fn ..)` Vector: a non-Vector value fails the
      `(Vector<node>)` cast, a Vector whose first element holds null fails
      the `equals`, and any other Vector is an unknown function giving null
      with the table unchanged. */
  lemma NonCallableHead(g: Globals, name: string, items: seq<OVal>, fuel: nat)
    requires fuel > 1 && name in g
    ensures var v := g[name];
            (v.OInt? || v.ODbl? || v.OBool? || (v.OStr? && v.s !in Builtins) || (v.OSym? && v.name !in Builtins))
            ==> Eval(g, OList([OSym(name)] + items), fuel) == Throw(ClassCast)
    ensures g[name].ONull? ==> Eval(g, OList([OSym(name)] + items), fuel) == Throw(NullPointer)
    ensures var v := g[name];
            v.OList? && |v.items| >= 3 && v.items[0].ONull?
            ==> Eval(g, OList([OSym(name)] + items), fuel) == Throw(NullPointer)
    ensures var v := g[name];
            v.OList? && !(|v.items| >= 3 && (v.items[0].ONull? || IsFnHead(v.items[0])))
            ==> Eval(g, OList([OSym(name)] + items), fuel) == Ok(Step(ONull, g))
  {
    var call := [OSym(name)] + items;
    assert call[0] == OSym(name);
    assert Eval(g, call[0], fuel - 1) == Ok(Step(g[name], g));
  }

  // ---------------------------------------------------------------------------
  // Closure calls

  predicate AllSymbols(syms: seq<OVal>) { forall j :: 0 <= j < |syms| ==> syms[j].OSym? }

  /** The parameter names of a list of symbols. */
  function Params(syms: seq<OVal>): (p: seq<string>)
    requires AllSymbols(syms)
    ensures |p| == |syms| && forall j :: 0 <= j < |syms| ==> p[j] == syms[j].name
  {
    if syms == [] then [] else [syms[0].name] + Params(syms[1..])
  }

  predicate Distinct(p: seq<string>) { forall j, k :: 0 <= j < k < |p| ==> p[j] != p[k] }

  /** The table with parameter i onwards bound to argument i + 1. */
  function BindFrom(g: Globals, p: seq<string>, items: seq<OVal>, i: nat): Globals
    requires |items| > |p|
    decreases |p| - i
  {
    if i >= |p| then g else BindFrom(g[p[i] := items[i + 1]], p, items, i + 1)
  }

  /** The bindings of g under the names p[i..]. */
  function SavedFrom(g: Globals, p: seq<string>, i: nat): Globals
    requires i <= |p|
  {
    map k | k in g && k in p[i..] :: g[k]
  }

  /** The backup after saving the binding of k, if any. */
  function Save(g: Globals, backup: Globals, k: string): Globals
  {
    if k in g then backup[k := g[k]] else backup
  }

  /** One parameter bound to an argument that evaluates to v and leaves the
      table alone. */
  lemma BindStep(g: Globals, backup: Globals, syms: seq<OVal>, items: seq<OVal>, i: nat,
                 names: seq<string>, fuel: nat, v: OVal)
    requires i < |syms| && i + 1 < |items| && syms[i].OSym? && Eval(g, items[i + 1], fuel) == Ok(Step(v, g))
    ensures var k := syms[i].name;
            Bind(g, backup, syms, items, i, names, fuel)
            == Bind(g[k := v], Save(g, backup, k), syms, items, i + 1, names + [k], fuel)
  {
    assert StringValue(syms[i]) == Ok(syms[i].name);
  }

  /** A parameter name does not occur again later in a distinct list. */
  lemma NotLater(p: seq<string>, i: nat)
    requires Distinct(p) && i < |p|
    ensures p[i] !in p[i + 1..] && p[i..] == [p[i]] + p[i + 1..]
  {
    forall m | i + 1 <= m < |p| ensures p[m] != p[i] { }
  }

  /** The saved bindings grow by the one of parameter i. */
  lemma SavedStep(g: Globals, backup: Globals, p: seq<string>, arg: OVal, i: nat)
    requires Distinct(p) && i < |p|
    requires forall k :: k in backup ==> k !in p[i..]
    ensures forall q :: q in Save(g, backup, p[i]) ==> q !in p[i + 1..]
    ensures SavedFrom(g[p[i] := arg], p, i + 1) == SavedFrom(g, p, i + 1)
    ensures Save(g, backup, p[i]) + SavedFrom(g, p, i + 1) == backup + SavedFrom(g, p, i)
  {
    var k := p[i];
    NotLater(p, i);
    SavedUnchanged(g, p, arg, i);
    var lhs := Save(g, backup, k) + SavedFrom(g, p, i + 1);
    var rhs := backup + SavedFrom(g, p, i);
    assert lhs.Keys == rhs.Keys;
    forall q | q in lhs ensures lhs[q] == rhs[q] {
      if q in backup { assert q !in p[i..]; }
    }
  }

  lemma SavedUnchanged(g: Globals, p: seq<string>, arg: OVal, i: nat)
    requires i < |p| && p[i] !in p[i + 1..]
    ensures SavedFrom(g[p[i] := arg], p, i + 1) == SavedFrom(g, p, i + 1)
  {
  }

  /** Binding distinct parameters to arguments that evaluate to themselves
      saves exactly the earlier bindings of those names. */
  lemma {:induction false} BindLiterals(g: Globals, backup: Globals, syms: seq<OVal>, items: seq<OVal>, i: nat,
                                        names: seq<string>, fuel: nat, want: Globals)
    requires fuel > 0 && AllSymbols(syms) && Distinct(Params(syms)) && i <= |syms| < |items|
    requires forall j :: i < j <= |syms| ==> Literal(items[j])
    requires names == Params(syms)[..i]
    requires forall k :: k in backup ==> k !in Params(syms)[i..]
    requires want == backup + SavedFrom(g, Params(syms), i)
    ensures Bind(g, backup, syms, items, i, names, fuel) == Ok(Frame(BindFrom(g, Params(syms), items, i), want, Params(syms)))
    decreases |syms| - i
  {
    if i == |syms| {
      BindDone(g, backup, syms, items, names, fuel);
    } else {
      var k := Params(syms)[i];
      LiteralBind(g, backup, syms, items, i, names, fuel);
      LiteralStep(g, backup, syms, items, i, names);
      BindLiterals(g[k := items[i + 1]], Save(g, backup, k), syms, items, i + 1, names + [k], fuel, want);
    }
  }

  /** Once every parameter is bound, the frame holds the table, the backup
      and all the names. */
  lemma BindDone(g: Globals, backup: Globals, syms: seq<OVal>, items: seq<OVal>,
                 names: seq<string>, fuel: nat)
    requires AllSymbols(syms) && |syms| < |items| && names == Params(syms)[..|syms|]
    ensures var p := Params(syms);
            Bind(g, backup, syms, items, |syms|, names, fuel)
            == Ok(Frame(BindFrom(g, p, items, |syms|), backup + SavedFrom(g, p, |syms|), p))
  {
    var p := Params(syms);
    assert p[..|syms|] == p;
    assert SavedFrom(g, p, |syms|) == map[];
    assert backup + map[] == backup;
  }

  /** One step of BindLiterals: with parameter i bound, the requirements
      for parameter i + 1 hold and the expected result is the same. */
  lemma LiteralStep(g: Globals, backup: Globals, syms: seq<OVal>, items: seq<OVal>, i: nat,
                    names: seq<string>)
    requires AllSymbols(syms) && Distinct(Params(syms)) && i < |syms| < |items|
    requires names == Params(syms)[..i]
    requires forall k :: k in backup ==> k !in Params(syms)[i..]
    ensures var p := Params(syms);
            var k := p[i];
            var g' := g[k := items[i + 1]];
            && names + [k] == p[..i + 1]
            && (forall q :: q in Save(g, backup, k) ==> q !in p[i + 1..])
            && BindFrom(g, p, items, i) == BindFrom(g', p, items, i + 1)
            && backup + SavedFrom(g, p, i) == Save(g, backup, k) + SavedFrom(g', p, i + 1)
  {
    var p := Params(syms);
    assert names + [p[i]] == p[..i + 1];
    SavedStep(g, backup, p, items[i + 1], i);
  }

  /** Binding a parameter to an argument that evaluates to itself. */
  lemma LiteralBind(g: Globals, backup: Globals, syms: seq<OVal>, items: seq<OVal>, i: nat,
                    names: seq<string>, fuel: nat)
    requires fuel > 0 && i < |syms| < |items| && syms[i].OSym? && Literal(items[i + 1])
    ensures var k := syms[i].name;
            Bind(g, backup, syms, items, i, names, fuel)
            == Bind(g[k := items[i + 1]], Save(g, backup, k), syms, items, i + 1, names + [k], fuel)
  {
    AtomEvaluation(g, items[i + 1], fuel);
    BindStep(g, backup, syms, items, i, names, fuel, items[i + 1]);
  }

  /** With distinct parameter names and arguments that evaluate to
      themselves, a closure call runs its body in the table with the
      parameters bound, and afterwards removes the parameters and puts back
      the bindings they had before the call. */
  lemma ClosureCall(g: Globals, f: seq<OVal>, items: seq<OVal>, fuel: nat)
    requires fuel > 0 && |f| >= 3 && f[1].OList? && AllSymbols(f[1].items)
    requires Distinct(Params(f[1].items)) && |f[1].items| < |items|
    requires forall j :: 0 < j <= |f[1].items| ==> Literal(items[j])
    ensures var p := Params(f[1].items);
            ApplyClosure(g, f, items, fuel)
            == (var body :- EvalLast(BindFrom(g, p, items, 0), f, 2, fuel);
                Ok(Step(body.value, Restore(body.globals, p, SavedFrom(g, p, 0)))))
  {
    var syms := f[1].items;
    var p := Params(syms);
    BindAll(g, syms, items, fuel);
    ClosureFrame(g, f, items, fuel, BindFrom(g, p, items, 0), SavedFrom(g, p, 0), p);
  }

  /** Binding all parameters from an empty backup. */
  lemma BindAll(g: Globals, syms: seq<OVal>, items: seq<OVal>, fuel: nat)
    requires fuel > 0 && AllSymbols(syms) && Distinct(Params(syms)) && |syms| < |items|
    requires forall j :: 0 < j <= |syms| ==> Literal(items[j])
    ensures var p := Params(syms);
            Bind(g, map[], syms, items, 0, [], fuel) == Ok(Frame(BindFrom(g, p, items, 0), SavedFrom(g, p, 0), p))
  {
    var p := Params(syms);
    var empty: Globals := map[];
    assert p[..0] == [];
    assert SavedFrom(g, p, 0) == empty + SavedFrom(g, p, 0);
    BindLiterals(g, empty, syms, items, 0, [], fuel, SavedFrom(g, p, 0));
  }

  /** A closure call once its parameters are bound. */
  lemma ClosureFrame(g: Globals, f: seq<OVal>, items: seq<OVal>, fuel: nat,
                     h: Globals, saved: Globals, p: seq<string>)
    requires |f| >= 3 && f[1].OList? && Bind(g, map[], f[1].items, items, 0, [], fuel) == Ok(Frame(h, saved, p))
    ensures ApplyClosure(g, f, items, fuel)
            == (var body :- EvalLast(h, f, 2, fuel);
                Ok(Step(body.value, Restore(body.globals, p, saved))))
  {
  }

  /** After the call every parameter has its binding from before the call
      (or none), and every other name keeps what the body left. */
  lemma ParametersRestored(g: Globals, h: Globals, p: seq<string>)
    ensures forall k :: k in p ==> (k in Restore(h, p, SavedFrom(g, p, 0)) <==> k in g)
    ensures forall k :: k in p && k in g ==> Restore(h, p, SavedFrom(g, p, 0))[k] == g[k]
    ensures forall k :: k !in p ==> (k in Restore(h, p, SavedFrom(g, p, 0)) <==> k in h)
    ensures forall k :: k !in p && k in h ==> Restore(h, p, SavedFrom(g, p, 0))[k] == h[k]
  {
    assert p[0..] == p;
  }

  /** The body sees every parameter bound to its argument, and every other
      name as before the call. */
  lemma {:induction false} BindFromBinds(g: Globals, p: seq<string>, items: seq<OVal>, i: nat)
    requires Distinct(p) && i <= |p| < |items|
    ensures forall j :: i <= j < |p| ==> p[j] in BindFrom(g, p, items, i) && BindFrom(g, p, items, i)[p[j]] == items[j + 1]
    ensures forall k :: k !in p[i..] ==> (k in BindFrom(g, p, items, i) <==> k in g)
    ensures forall k :: k !in p[i..] && k in g ==> BindFrom(g, p, items, i)[k] == g[k]
    decreases |p| - i
  {
    if i < |p| {
      BindFromBinds(g[p[i] := items[i + 1]], p, items, i + 1);
      assert p[i..] == [p[i]] + p[i + 1..];
      forall j | i < j < |p| ensures p[j] != p[i] { }
    }
  }

  /** Arguments are bound one at a time, so a later argument expression
      already sees the earlier parameters: `((fn (a b) b) 1 a)` is 1. */
  lemma LaterArgumentSeesEarlierParameter(g: Globals, fuel: nat)
    requires fuel > 0
    ensures var f := [OSym("fn"), OList([OSym("a"), OSym("b")]), OSym("b")];
            ApplyClosure(g, f, [OList(f), OInt(1), OSym("a")], fuel) == Ok(Step(OInt(1), g))
  {
    var f := [OSym("fn"), OList([OSym("a"), OSym("b")]), OSym("b")];
    var gb := g["a" := OInt(1)]["b" := OInt(1)];
    var b2 := Save(g["a" := OInt(1)], Save(g, map[], "a"), "b");
    assert VectorValue(f[1]) == Ok([OSym("a"), OSym("b")]);
    BindChained(g, f, fuel);
    assert EvalLast(gb, f, 2, fuel) == Ok(Step(OInt(1), gb));
    RestoreChained(g);
  }

  lemma RestoreChained(g: Globals)
    ensures Restore(g["a" := OInt(1)]["b" := OInt(1)], ["a", "b"], Save(g["a" := OInt(1)], Save(g, map[], "a"), "b")) == g
  {
  }

  lemma BindChained(g: Globals, f: seq<OVal>, fuel: nat)
    requires fuel > 0
    ensures var syms := [OSym("a"), OSym("b")];
            Bind(g, map[], syms, [OList(f), OInt(1), OSym("a")], 0, [], fuel)
            == Ok(Frame(g["a" := OInt(1)]["b" := OInt(1)], Save(g["a" := OInt(1)], Save(g, map[], "a"), "b"), ["a", "b"]))
  {
    var syms := [OSym("a"), OSym("b")];
    var items := [OList(f), OInt(1), OSym("a")];
    var ga := g["a" := OInt(1)];
    BindStep(g, map[], syms, items, 0, [], fuel, OInt(1));
    BindStep(ga, Save(g, map[], "a"), syms, items, 1, ["a"], fuel, OInt(1));
    assert [] + ["a"] == ["a"] && ["a"] + ["b"] == ["a", "b"];
  }

  /** With a parameter named twice, the second save records the first
      argument, so the first argument leaks into the table after the call:
      `((fn (x x) x) a b)` returns b and leaves x bound to a. */
  lemma DuplicateParameterLeaks(g: Globals, x: string, a: int, b: int, fuel: nat)
    requires fuel > 0
    ensures var f := [OSym("fn"), OList([OSym(x), OSym(x)]), OSym(x)];
            ApplyClosure(g, f, [OList(f), OInt(a), OInt(b)], fuel) == Ok(Step(OInt(b), g[x := OInt(a)]))
  {
    var f := [OSym("fn"), OList([OSym(x), OSym(x)]), OSym(x)];
    var b2 := Save(g, map[], x)[x := OInt(a)];
    assert VectorValue(f[1]) == Ok([OSym(x), OSym(x)]);
    BindDuplicate(g, f, x, a, b, fuel);
    assert EvalLast(g[x := OInt(b)], f, 2, fuel) == Ok(Step(OInt(b), g[x := OInt(b)]));
    assert Restore(g[x := OInt(b)], [x, x], b2) == g[x := OInt(a)];
  }

  lemma BindDuplicate(g: Globals, f: seq<OVal>, x: string, a: int, b: int, fuel: nat)
    requires fuel > 0
    ensures Bind(g, map[], [OSym(x), OSym(x)], [OList(f), OInt(a), OInt(b)], 0, [], fuel)
            == Ok(Frame(g[x := OInt(b)], Save(g, map[], x)[x := OInt(a)], [x, x]))
  {
    var syms := [OSym(x), OSym(x)];
    var items := [OList(f), OInt(a), OInt(b)];
    var b1 := Save(g, map[], x);
    BindStep(g, map[], syms, items, 0, [], fuel, OInt(a));
    BindStep(g[x := OInt(a)], b1, syms, items, 1, [x], fuel, OInt(b));
    assert [] + [x] == [x] && [x] + [x] == [x, x];
    assert g[x := OInt(a)][x := OInt(b)] == g[x := OInt(b)];
  }

  /** A global the body assigns under another name survives the call:
      `((fn (a) (set z a)) 7)` leaves z bound to 7. */
  lemma BodyAssignmentPersists(g: Globals, fuel: nat)
    requires fuel > 2 && "set" !in g
    ensures var f := [OSym("fn"), OList([OSym("a")]), OList([OSym("set"), OSym("z"), OSym("a")])];
            ApplyClosure(g, f, [OList(f), OInt(7)], fuel) == Ok(Step(ONull, g["z" := OInt(7)]))
  {
    var assign := [OSym("set"), OSym("z"), OSym("a")];
    var f := [OSym("fn"), OList([OSym("a")]), OList(assign)];
    var items := [OList(f), OInt(7)];
    var ga := g["a" := OInt(7)];
    var p := Params([OSym("a")]);
    assert p == ["a"];
    ClosureCall(g, f, items, fuel);
    assert BindFrom(g, p, items, 0) == ga;
    AssignInBody(g, f, fuel);
    RestoreAfterAssign(g);
  }

  lemma AssignInBody(g: Globals, f: seq<OVal>, fuel: nat)
    requires fuel > 2 && "set" !in g && |f| == 3 && f[2] == OList([OSym("set"), OSym("z"), OSym("a")])
    ensures EvalLast(g["a" := OInt(7)], f, 2, fuel) == Ok(Step(ONull, g["a" := OInt(7)]["z" := OInt(7)]))
  {
    var ga := g["a" := OInt(7)];
    assert Eval(ga, OSym("a"), fuel - 1) == Ok(Step(OInt(7), ga));
    SetBinds(ga, "z", OSym("a"), OInt(7), fuel);
  }

  lemma RestoreAfterAssign(g: Globals)
    ensures Restore(g["a" := OInt(7)]["z" := OInt(7)], ["a"], SavedFrom(g, ["a"], 0)) == g["z" := OInt(7)]
  {
    assert ["a"][0..] == ["a"];
  }

  // ---------------------------------------------------------------------------
  // Arithmetic

  predicate IntsFrom(items: seq<OVal>, i: nat) { forall j :: i <= j < |items| ==> items[j].OInt? }

  function SumFrom(items: seq<OVal>, i: nat): int
    requires IntsFrom(items, i)
    decreases |items| - i
  {
    if i >= |items| then 0 else items[i].i + SumFrom(items, i + 1)
  }

  function ProductFrom(items: seq<OVal>, i: nat): int
    requires IntsFrom(items, i)
    decreases |items| - i
  {
    if i >= |items| then 1 else items[i].i * ProductFrom(items, i + 1)
  }

  /** The operator a fold step applies, before wrapping. */
  function Exact(op: string, a: int, b: int): int
  {
    if op == "+" then a + b else if op == "-" then a - b else a * b
  }

  /** One fold step over an Integer literal. */
  lemma FoldStep(g: Globals, op: string, acc: int, items: seq<OVal>, i: nat, fuel: nat)
    requires fuel > 0 && (op == "+" || op == "-" || op == "*") && i < |items| && items[i].OInt?
    ensures FoldInt(g, op, acc, items, i, fuel) == FoldInt(g, op, Wrap32(Exact(op, acc, items[i].i)), items, i + 1, fuel)
  {
    AtomEvaluation(g, items[i], fuel);
  }

  /** What a fold over items[i..] computes before wrapping. */
  function FoldExact(op: string, acc: int, items: seq<OVal>, i: nat): int
    requires IntsFrom(items, i)
  {
    if op == "*" then acc * ProductFrom(items, i)
    else if op == "+" then acc + SumFrom(items, i)
    else acc - SumFrom(items, i)
  }

  lemma FoldExactStep(op: string, acc: int, items: seq<OVal>, i: nat)
    requires (op == "+" || op == "-" || op == "*") && i < |items| && IntsFrom(items, i)
    ensures Wrap32(FoldExact(op, Wrap32(Exact(op, acc, items[i].i)), items, i + 1)) == Wrap32(FoldExact(op, acc, items, i))
  {
    var n := items[i].i;
    if op == "*" {
      var p := ProductFrom(items, i + 1);
      assert ProductFrom(items, i) == n * p;
      ProductStep(acc, n, p);
    } else {
      var t := SumFrom(items, i + 1);
      assert SumFrom(items, i) == n + t;
      Wrap32AddMul(Exact(op, acc, n), t);
    }
  }

  lemma ProductStep(acc: int, n: int, p: int)
    ensures Wrap32(Wrap32(acc * n) * p) == Wrap32(acc * (n * p))
  {
    Wrap32AddMul(acc * n, p);
    assert acc * n * p == acc * (n * p);
  }

  /** Folding over Integer literals with 32-bit wrap-around at every step is
      the exact sum, difference or product wrapped once. */
  lemma {:induction false} FoldLiterals(g: Globals, op: string, acc: int, items: seq<OVal>, i: nat, fuel: nat)
    requires fuel > 0 && IsInt(acc) && (op == "+" || op == "-" || op == "*") && IntsFrom(items, i)
    ensures FoldInt(g, op, acc, items, i, fuel) == Ok(Step(OInt(Wrap32(FoldExact(op, acc, items, i))), g))
    decreases |items| - i
  {
    if i >= |items| {
      WrapInRange(acc);
    } else {
      FoldStep(g, op, acc, items, i, fuel);
      FoldLiterals(g, op, Wrap32(Exact(op, acc, items[i].i)), items, i + 1, fuel);
      FoldExactStep(op, acc, items, i);
    }
  }

  /** `(+ ..)`, `(- ..)`, `(* ..)` over Integer literals; no operand gives 0
      for `+` and `-` and 1 for `*` and `/`. */
  lemma ArithLiterals(g: Globals, op: string, items: seq<OVal>, fuel: nat)
    requires fuel > 0 && (op == "+" || op == "-" || op == "*") && IntsFrom(items, 1)
    requires |items| > 1 ==> IsInt(items[1].i)
    ensures |items| <= 1 ==> Arith(g, op, items, fuel) == Ok(Step(OInt(if op == "*" then 1 else 0), g))
    ensures |items| > 1 ==> Arith(g, op, items, fuel) == Ok(Step(OInt(Wrap32(FoldExact(op, items[1].i, items, 2))), g))
  {
    if |items| > 1 {
      assert Eval(g, items[1], fuel) == Ok(Step(items[1], g));
      FoldLiterals(g, op, items[1].i, items, 2, fuel);
    }
  }

  /** A first operand that is not a number fails the cast to Double. */
  lemma ArithStringOperand(g: Globals, op: string, s: string, rest: seq<OVal>, fuel: nat)
    requires fuel > 0
    ensures Arith(g, op, [OSym(op), OStr(s)] + rest, fuel) == Throw(ClassCast)
  {
    var items := [OSym(op), OStr(s)] + rest;
    assert items[1] == OStr(s);
  }

  /** `(+ 2147483647 1)` wraps to -2147483648, `(/ -7 2)` truncates to -3 and
      `(/ 7 0)` throws ArithmeticException. */
  lemma ArithExamples(g: Globals, fuel: nat)
    requires fuel > 0
    ensures Arith(g, "+", [OSym("+"), OInt(INT_MAX), OInt(1)], fuel) == Ok(Step(OInt(INT_MIN), g))
    ensures Arith(g, "/", [OSym("/"), OInt(-7), OInt(2)], fuel) == Ok(Step(OInt(-3), g))
    ensures Arith(g, "/", [OSym("/"), OInt(7), OInt(0)], fuel) == Throw(Arithmetic)
  {
    var plus := [OSym("+"), OInt(INT_MAX), OInt(1)];
    ArithLiterals(g, "+", plus, fuel);
    assert SumFrom(plus, 3) == 0;
    assert SumFrom(plus, 2) == 1;
    Wrap32Unique(INT_MAX + 1, INT_MIN);
    DivisionExamples();
    var div := [OSym("/"), OInt(-7), OInt(2)];
    assert Eval(g, div[1], fuel) == Ok(Step(OInt(-7), g));
    assert Eval(g, div[2], fuel) == Ok(Step(OInt(2), g));
    assert FoldInt(g, "/", -3, div, 3, fuel) == Ok(Step(OInt(-3), g));
    var zero := [OSym("/"), OInt(7), OInt(0)];
    assert Eval(g, zero[1], fuel) == Ok(Step(OInt(7), g));
    assert Eval(g, zero[2], fuel) == Ok(Step(OInt(0), g));
  }

  /** Every divisor from i on is non-zero. */
  predicate NoZeroFrom(items: seq<OVal>, i: nat)
    requires IntsFrom(items, i)
  {
    forall j :: i <= j < |items| ==> items[j].i != 0
  }

  /** Every divisor from i on is positive. */
  predicate PositiveFrom(items: seq<OVal>, i: nat)
  {
    forall j :: i <= j < |items| ==> items[j].OInt? && items[j].i > 0
  }

  /** The product of the positive divisors from i on. */
  function Divisor(items: seq<OVal>, i: nat): (p: int)
    requires PositiveFrom(items, i)
    ensures p > 0
    decreases |items| - i
  {
    if i >= |items| then 1 else MulPositive(items[i].i, Divisor(items, i + 1)); items[i].i * Divisor(items, i + 1)
  }

  lemma MulPositive(a: int, b: int)
    requires a > 0 && b > 0
    ensures a * b > 0
  {
  }

  /** Dividing by b and then by c is dividing by b * c. */
  lemma DivDiv(a: int, b: int, c: int)
    requires a >= 0 && b > 0 && c > 0
    ensures a / b / c == a / (b * c)
  {
    var q, r := a / b, a % b;
    var s, t := q / c, q % c;
    assert a == b * q + r && 0 <= r < b;
    assert q == c * s + t && 0 <= t < c;
    assert a == (b * c) * s + (b * t + r) by {
      calc {
        a;
        b * (c * s + t) + r;
        (b * c) * s + (b * t + r);
      }
    }
    assert b * t <= b * (c - 1) by { MulMonotone(b, t, c - 1); }
    MulPositive(b, c);
    DivUnique(a, b * c, s, b * t + r);
  }

  lemma MulMonotone(b: int, x: int, y: int)
    requires b > 0 && x <= y
    ensures b * x <= b * y
  {
    assert b * y - b * x == b * (y - x);
  }

  /** Euclidean division has one quotient. */
  lemma DivUnique(a: int, d: int, s: int, u: int)
    requires d > 0 && a == d * s + u && 0 <= u < d
    ensures a / d == s
  {
    var q, r := a / d, a % d;
    assert d * q + r == d * s + u;
    var k := q - s;
    assert d * k == u - r by { assert d * k == d * q - d * s; }
    if k >= 1 {
      MulMonotone(d, 1, k);
    } else if k <= -1 {
      MulMonotone(d, k, -1);
    }
  }

  /** One step of a `/` fold on a non-negative dividend and a positive
      divisor: Java's truncating division is exact division rounding down,
      stays an int, and composes with the rest of the divisors. */
  lemma DivStep(acc: int, n: int, p: int)
    requires 0 <= acc && IsInt(acc) && n > 0 && p > 0
    ensures Wrap32(TruncDiv(acc, n)) == acc / n && IsInt(acc / n) && acc / n >= 0
    ensures acc / n / p == acc / (n * p)
  {
    assert TruncDiv(acc, n) == Abs(acc) / Abs(n) == acc / n;
    DivBounds(acc, n);
    WrapInRange(acc / n);
    DivDiv(acc, n, p);
  }

  lemma DivBounds(a: int, n: int)
    requires a >= 0 && n > 0
    ensures 0 <= a / n <= a
  {
    var q, r := a / n, a % n;
    assert a == n * q + r && 0 <= r < n;
    if q < 0 {
      MulMonotone(n, q, -1);
    } else if q > 0 {
      MulMonotone(q, 1, n);
      assert q <= q * n == n * q;
    }
  }

  /** A `/` fold over Integer literals throws ArithmeticException exactly
      when a divisor is zero, and leaves the table as it was otherwise. */
  lemma {:induction false} FoldDivLiterals(g: Globals, acc: int, items: seq<OVal>, i: nat, fuel: nat)
    requires fuel > 0 && IntsFrom(items, i)
    ensures FoldInt(g, "/", acc, items, i, fuel).Ok? <==> NoZeroFrom(items, i)
    ensures !NoZeroFrom(items, i) ==> FoldInt(g, "/", acc, items, i, fuel) == Throw(Arithmetic)
    ensures FoldInt(g, "/", acc, items, i, fuel).Ok? ==> FoldInt(g, "/", acc, items, i, fuel).value.globals == g
    decreases |items| - i
  {
    if i < |items| {
      AtomEvaluation(g, items[i], fuel);
      if items[i].i != 0 {
        FoldDivLiterals(g, Wrap32(TruncDiv(acc, items[i].i)), items, i + 1, fuel);
      }
    }
  }

  /** With a non-negative dividend and positive divisors, `/` divides by the
      product of the divisors, rounding down. */
  lemma {:induction false} FoldDivPositive(g: Globals, acc: int, items: seq<OVal>, i: nat, fuel: nat)
    requires fuel > 0 && 0 <= acc && IsInt(acc) && PositiveFrom(items, i)
    ensures FoldInt(g, "/", acc, items, i, fuel) == Ok(Step(OInt(acc / Divisor(items, i)), g))
    decreases |items| - i
  {
    if i < |items| {
      AtomEvaluation(g, items[i], fuel);
      var n := items[i].i;
      DivStep(acc, n, Divisor(items, i + 1));
      FoldDivPositive(g, acc / n, items, i + 1, fuel);
    }
  }

  /** `(/ a b ..)` over Integer literals: ArithmeticException exactly when a
      divisor is zero; a non-negative a over positive divisors gives a
      divided by their product. */
  lemma ArithDivLiterals(g: Globals, items: seq<OVal>, fuel: nat)
    requires fuel > 0 && |items| > 1 && IntsFrom(items, 1)
    ensures Arith(g, "/", items, fuel).Ok? <==> NoZeroFrom(items, 2)
    ensures !NoZeroFrom(items, 2) ==> Arith(g, "/", items, fuel) == Throw(Arithmetic)
    ensures 0 <= items[1].i && IsInt(items[1].i) && PositiveFrom(items, 2) ==>
              Arith(g, "/", items, fuel) == Ok(Step(OInt(items[1].i / Divisor(items, 2)), g))
  {
    AtomEvaluation(g, items[1], fuel);
    FoldDivLiterals(g, items[1].i, items, 2, fuel);
    if 0 <= items[1].i && IsInt(items[1].i) && PositiveFrom(items, 2) {
      FoldDivPositive(g, items[1].i, items, 2, fuel);
    }
  }

  // ---------------------------------------------------------------------------
  // Comparison and logic

  /** `==` (eq) or `!=` against v over Integer literals: true exactly when
      every operand from i on equals v (for `==`) or differs from it (for
      `!=`). */
  lemma {:induction false} EqChainLiterals(g: Globals, eq: bool, v: int, items: seq<OVal>, i: nat, fuel: nat)
    requires fuel > 0 && IntsFrom(items, i)
    ensures EqChain(g, eq, v, items, i, fuel) == Ok(Step(OBool(forall j :: i <= j < |items| ==> (items[j].i == v) == eq), g))
    decreases |items| - i
  {
    if i < |items| {
      AtomEvaluation(g, items[i], fuel);
      if (items[i].i == v) == eq {
        EqChainLiterals(g, eq, v, items, i + 1, fuel);
      }
    }
  }

  /** `(== a b ..)` is true exactly when every later operand equals a, and
      `(!= a b ..)` exactly when every later operand differs from a. */
  lemma EqualsLiterals(g: Globals, op: string, items: seq<OVal>, fuel: nat)
    requires fuel > 0 && (op == "==" || op == "!=") && |items| >= 2 && IntsFrom(items, 1)
    ensures Logic(g, op, items, fuel) == Ok(Step(OBool(forall j :: 2 <= j < |items| ==> (items[j].i == items[1].i) == (op == "==")), g))
  {
    AtomEvaluation(g, items[1], fuel);
    EqChainLiterals(g, op == "==", items[1].i, items, 2, fuel);
  }

  /** `(< a b)`, `(> a b)`, `(<= a b)` and `(>= a b)` on Integers compare
      the two. */
  lemma CompareLiterals(g: Globals, op: string, a: int, b: int, fuel: nat)
    requires fuel > 0 && op in {"<", ">", "<=", ">="}
    ensures Logic(g, op, [OSym(op), OInt(a), OInt(b)], fuel)
            == Ok(Step(OBool(if op == "<" then a < b else if op == ">" then a > b else if op == "<=" then a <= b else a >= b), g))
  {
    var items := [OSym(op), OInt(a), OInt(b)];
    assert Eval(g, items[1], fuel) == Ok(Step(OInt(a), g));
    assert Eval(g, items[2], fuel) == Ok(Step(OInt(b), g));
  }

  /** `(! b)` negates a Boolean; any other operand fails booleanValue(). */
  lemma NotLiteral(g: Globals, v: OVal, fuel: nat)
    requires fuel > 0 && Literal(v)
    ensures Logic(g, "!", [OSym("!"), v], fuel).Ok? <==> v.OBool?
    ensures v.OBool? ==> Logic(g, "!", [OSym("!"), v], fuel) == Ok(Step(OBool(!v.b), g))
  {
    AtomEvaluation(g, [OSym("!"), v][1], fuel);
  }

  predicate BoolsFrom(items: seq<OVal>, i: nat) { forall j :: i <= j < |items| ==> items[j].OBool? }

  /** `&&` over Boolean literals is true exactly when all of them are, and
      `||` exactly when one of them is. */
  lemma {:induction false} AndOrLiterals(g: Globals, isAnd: bool, items: seq<OVal>, i: nat, fuel: nat)
    requires fuel > 0 && BoolsFrom(items, i)
    ensures AndOr(g, isAnd, items, i, fuel)
            == Ok(Step(OBool(if isAnd then forall j :: i <= j < |items| ==> items[j].b
                             else exists j :: i <= j < |items| && items[j].b), g))
    decreases |items| - i
  {
    if i < |items| {
      AtomEvaluation(g, items[i], fuel);
      if items[i].b == isAnd {
        AndOrLiterals(g, isAnd, items, i + 1, fuel);
      }
    }
  }

  /** `&&` stops at the first false operand and `||` at the first true one:
      what follows is never evaluated, so it may be anything, even a call
      that would throw. */
  lemma {:induction false} AndOrStops(g: Globals, isAnd: bool, items: seq<OVal>, i: nat, k: nat, fuel: nat)
    requires fuel > 0 && i <= k < |items| && items[k] == OBool(!isAnd)
    requires forall j :: i <= j < k ==> items[j] == OBool(isAnd)
    ensures AndOr(g, isAnd, items, i, fuel) == Ok(Step(OBool(!isAnd), g))
    decreases k - i
  {
    AtomEvaluation(g, items[i], fuel);
    if i < k {
      AndOrStops(g, isAnd, items, i + 1, k, fuel);
    }
  }

  // ---------------------------------------------------------------------------
  // Sequencing and control

  /** Literals evaluated in order: the last one is the value and the table
      is untouched. */
  lemma {:induction false} EvalLastLiterals(g: Globals, xs: seq<OVal>, i: nat, fuel: nat)
    requires fuel > 0 && i < |xs| && forall j :: i <= j < |xs| ==> Literal(xs[j])
    ensures EvalLast(g, xs, i, fuel) == Ok(Step(xs[|xs| - 1], g))
    decreases |xs| - i
  {
    AtomEvaluation(g, xs[i], fuel);
    if i + 1 < |xs| {
      EvalLastLiterals(g, xs, i + 1, fuel);
    }
  }

  /** Running literals for their effect changes nothing. */
  lemma {:induction false} RunLiterals(g: Globals, xs: seq<OVal>, i: nat, fuel: nat)
    requires fuel > 0 && forall j :: i <= j < |xs| ==> Literal(xs[j])
    ensures Run(g, xs, i, fuel) == Ok(g)
    decreases |xs| - i
  {
    if i < |xs| {
      AtomEvaluation(g, xs[i], fuel);
      RunLiterals(g, xs, i + 1, fuel);
    }
  }

  /** `(begin ..)` is the value of its last form, null when it has none. */
  lemma BeginLiterals(g: Globals, items: seq<OVal>, fuel: nat)
    requires fuel > 0 && forall j :: 1 <= j < |items| ==> Literal(items[j])
    ensures Control(g, "begin", items, fuel) == Ok(Step(if |items| <= 1 then ONull else items[|items| - 1], g))
  {
    if |items| > 1 {
      EvalLastLiterals(g, items, 1, fuel);
    }
  }

  /** `(if c a b)` with a Boolean condition evaluates exactly one branch; a
      false condition with no else branch throws an index error. */
  lemma IfLiteral(g: Globals, b: bool, items: seq<OVal>, fuel: nat)
    requires fuel > 0 && |items| >= 2 && items[1] == OBool(b)
    ensures b && |items| > 2 ==> Control(g, "if", items, fuel) == Eval(g, items[2], fuel)
    ensures !b && |items| > 3 ==> Control(g, "if", items, fuel) == Eval(g, items[3], fuel)
    ensures (if b then |items| <= 2 else |items| <= 3) ==> Control(g, "if", items, fuel) == Throw(IndexOutOfBounds)
  {
    AtomEvaluation(g, items[1], fuel);
  }

  /** `(when c ..)`: null when c is false; when it is true, the value of the
      last body form, or c itself when there is no body. */
  lemma WhenLiteral(g: Globals, b: bool, items: seq<OVal>, fuel: nat)
    requires fuel > 0 && |items| >= 2 && items[1] == OBool(b) && forall j :: 2 <= j < |items| ==> Literal(items[j])
    ensures Control(g, "when", items, fuel) == Ok(Step(if !b then ONull else items[|items| - 1], g))
  {
    AtomEvaluation(g, items[1], fuel);
    if b && |items| >= 3 {
      EvalLastLiterals(g, items, 2, fuel);
    }
  }

  /** `(while false ..)` never runs its body and returns null. */
  lemma WhileFalse(g: Globals, items: seq<OVal>, fuel: nat)
    requires fuel > 0 && |items| >= 2 && items[1] == OBool(false)
    ensures Control(g, "while", items, fuel) == Ok(Step(ONull, g))
  {
    AtomEvaluation(g, items[1], fuel);
  }

  /** `(while true ..)` with a body of literals never stops: every unit of
      fuel is spent. */
  lemma {:induction false} WhileTrueRunsOut(g: Globals, items: seq<OVal>, fuel: nat)
    requires |items| >= 2 && items[1] == OBool(true) && forall j :: 2 <= j < |items| ==> Literal(items[j])
    ensures WhileLoop(g, items[1], items, fuel) == Err(OutOfFuel)
    decreases fuel
  {
    if fuel > 0 {
      AtomEvaluation(g, items[1], fuel);
      RunLiterals(g, items, 2, fuel);
      WhileTrueRunsOut(g, items, fuel - 1);
    }
  }

  // ---------------------------------------------------------------------------
  // range and for

  /** The `for` loop as a walk over a list of values. */
  function ForEach(g: Globals, key: string, vs: seq<int>, items: seq<OVal>, fuel: nat): Result<Globals>
    decreases |vs|
  {
    if vs == [] then Ok(g)
    else if fuel == 0 then Err(OutOfFuel)
    else
      var after :- Run(g[key := OInt(vs[0])], items, 5, fuel);
      ForEach(after, key, vs[1..], items, fuel - 1)
  }

  /** `for` binds its variable to exactly the values `range` yields, in
      order, running the body after each binding. */
  lemma {:induction false} ForVisitsRange(g: Globals, key: string, a: int, last: int, step: int, items: seq<OVal>,
                                          fuel: nat, vs: seq<int>)
    requires Steps(a, last, step, false, fuel) == Ok(vs)
    ensures ForLoop(g, key, a, last, step, items, fuel) == ForEach(g, key, vs, items, fuel)
    decreases fuel
  {
    if InRange(a, last, step) {
      var rest :| Steps(WrapTo(false, a + step), last, step, false, fuel - 1) == Ok(rest) && vs == [a] + rest;
      assert vs[0] == a && vs[1..] == rest;
      match Run(g[key := OInt(a)], items, 5, fuel)
      case Ok(after) =>
        ForVisitsRange(after, key, WrapTo(false, a + step), last, step, items, fuel - 1, rest);
      case Err(_) =>
    }
  }

  /** Without a body, `for` leaves its variable at the last value visited,
      or at start when there is none. */
  lemma {:induction false} ForWithoutBody(g: Globals, key: string, vs: seq<int>, items: seq<OVal>, fuel: nat)
    requires |items| <= 5 && fuel >= |vs|
    ensures ForEach(g, key, vs, items, fuel) == Ok(if vs == [] then g else g[key := OInt(vs[|vs| - 1])])
    decreases |vs|
  {
    if vs != [] {
      ForWithoutBody(g[key := OInt(vs[0])], key, vs[1..], items, fuel - 1);
      if |vs| > 1 {
        assert g[key := OInt(vs[0])][key := OInt(vs[|vs| - 1])] == g[key := OInt(vs[|vs| - 1])];
      }
    }
  }

  /** `(for x a end step)` with Integer literals binds x to a first, then to
      each value of the range, and returns null. */
  lemma ForLiterals(g: Globals, x: string, a: int, last: int, step: int, fuel: nat, vs: seq<int>)
    requires fuel > 0 && Steps(a, last, step, false, fuel) == Ok(vs)
    ensures For(g, [OSym("for"), OSym(x), OInt(a), OInt(last), OInt(step)], fuel)
            == Ok(Step(ONull, g[x := OInt(if vs == [] then a else vs[|vs| - 1])]))
  {
    var items := [OSym("for"), OSym(x), OInt(a), OInt(last), OInt(step)];
    assert StringValue(OSym(x)) == Ok(x);
    assert Eval(g, items[2], fuel) == Ok(Step(OInt(a), g));
    assert Eval(g, items[3], fuel) == Ok(Step(OInt(last), g));
    assert Eval(g, items[4], fuel) == Ok(Step(OInt(step), g));
    ForVisitsRange(g[x := OInt(a)], x, a, last, step, items, fuel, vs);
    StepsFuel(a, last, step, false, fuel, vs);
    ForWithoutBody(g[x := OInt(a)], x, vs, items, fuel);
    if vs != [] {
      assert g[x := OInt(a)][x := OInt(vs[|vs| - 1])] == g[x := OInt(vs[|vs| - 1])];
    }
  }

  /** `(range a end step)` over Integer literals is the list of the values
      the counting loop visits, the same values `for` binds; when the loop
      does not end within the fuel, neither does `range`. */
  lemma RangeLiterals(g: Globals, a: int, last: int, step: int, fuel: nat)
    requires fuel > 0
    ensures Range(g, [OSym("range"), OInt(a), OInt(last), OInt(step)], fuel)
            == (var vs :- Steps(a, last, step, false, fuel); Ok(Step(OList(Ints(vs)), g)))
  {
    var items := [OSym("range"), OInt(a), OInt(last), OInt(step)];
    assert Eval(g, items[1], fuel) == Ok(Step(OInt(a), g));
    assert Eval(g, items[2], fuel) == Ok(Step(OInt(last), g));
    assert Eval(g, items[3], fuel) == Ok(Step(OInt(step), g));
  }

  // ---------------------------------------------------------------------------
  // Assignment

  /** A call whose head is an unbound builtin name runs that builtin. */
  lemma CallBuiltin(g: Globals, name: string, items: seq<OVal>, fuel: nat)
    requires fuel > 1 && name !in g && name in Builtins && |items| > 0 && items[0] == OSym(name)
    ensures Eval(g, OList(items), fuel) == Builtin(g, name, items, fuel - 1)
  {
  }

  /** `(set x e)` binds x to the value of e in the table e leaves, and
      returns null. */
  lemma SetBinds(g: Globals, x: string, e: OVal, v: OVal, fuel: nat)
    requires fuel > 1 && "set" !in g && Eval(g, e, fuel - 1) == Ok(Step(v, g))
    ensures Eval(g, OList([OSym("set"), OSym(x), e]), fuel) == Ok(Step(ONull, g[x := v]))
  {
    var items := [OSym("set"), OSym(x), e];
    CallBuiltin(g, "set", items, fuel);
    assert Builtin(g, "set", items, fuel - 1) == Control(g, "set", items, fuel - 1);
    assert StringValue(OSym(x)) == Ok(x);
  }

  /** `(++ x)` rebinds x to a new Integer one larger (wrapping) and returns
      null; with x unbound it throws NullPointerException. */
  lemma IncrementRebinds(g: Globals, x: string, fuel: nat)
    requires fuel > 1 && "++" !in g
    ensures x in g && g[x].OInt? ==>
              Eval(g, OList([OSym("++"), OSym(x)]), fuel) == Ok(Step(ONull, g[x := OInt(Wrap32(g[x].i + 1))]))
    ensures x !in g ==> Eval(g, OList([OSym("++"), OSym(x)]), fuel) == Throw(NullPointer)
  {
    var items := [OSym("++"), OSym(x)];
    CallBuiltin(g, "++", items, fuel);
    assert Builtin(g, "++", items, fuel - 1) == IntegerOp(g, "++", items, fuel - 1);
    assert StringValue(OSym(x)) == Ok(x);
    assert Eval(g, items[1], fuel - 1) == Ok(Step(Lookup(g, x), g));
  }

  /** `(-- x)` rebinds x to a new Integer one smaller (wrapping) and returns
      null; with x unbound it throws NullPointerException. */
  lemma DecrementRebinds(g: Globals, x: string, fuel: nat)
    requires fuel > 1 && "--" !in g
    ensures x in g && g[x].OInt? ==>
              Eval(g, OList([OSym("--"), OSym(x)]), fuel) == Ok(Step(ONull, g[x := OInt(Wrap32(g[x].i - 1))]))
    ensures x !in g ==> Eval(g, OList([OSym("--"), OSym(x)]), fuel) == Throw(NullPointer)
  {
    var items := [OSym("--"), OSym(x)];
    CallBuiltin(g, "--", items, fuel);
    assert Builtin(g, "--", items, fuel - 1) == IntegerOp(g, "--", items, fuel - 1);
    assert StringValue(OSym(x)) == Ok(x);
    assert Eval(g, items[1], fuel - 1) == Ok(Step(Lookup(g, x), g));
  }

  // ---------------------------------------------------------------------------
  // Strings

  predicate StringsFrom(items: seq<OVal>, i: nat) { forall j :: i <= j < |items| ==> items[j].OStr? }

  /** The texts of the string operands from i on, joined. */
  function TextFrom(items: seq<OVal>, i: nat): string
    requires StringsFrom(items, i)
    decreases |items| - i
  {
    if i >= |items| then "" else items[i].s + TextFrom(items, i + 1)
  }

  lemma {:induction false} ConcatLiterals(g: Globals, acc: string, items: seq<OVal>, i: nat, fuel: nat)
    requires fuel > 0 && StringsFrom(items, i)
    ensures Concat(g, acc, items, i, fuel) == Ok(Step(OStr(acc + TextFrom(items, i)), g))
    decreases |items| - i
  {
    if i < |items| {
      AtomEvaluation(g, items[i], fuel);
      ConcatLiterals(g, acc + items[i].s, items, i + 1, fuel);
      assert acc + items[i].s + TextFrom(items, i + 1) == acc + (items[i].s + TextFrom(items, i + 1));
    } else {
      assert acc + TextFrom(items, i) == acc;
    }
  }

  /** `(strcat ..)` over string literals is their concatenation in order,
      "" when there are none. */
  lemma StrcatLiterals(g: Globals, items: seq<OVal>, fuel: nat)
    requires fuel > 0 && StringsFrom(items, 1)
    ensures Strings(g, "strcat", items, fuel) == Ok(Step(OStr(TextFrom(items, 1)), g))
  {
    if |items| > 1 {
      AtomEvaluation(g, items[1], fuel);
      ConcatLiterals(g, items[1].s, items, 2, fuel);
    }
  }

  /** `(strlen s)` is the length of s and `(char-at s k)` the code of its
      k-th character, with an index error outside the text. */
  lemma StrlenCharAtLiterals(g: Globals, t: string, k: int, fuel: nat)
    requires fuel > 0
    ensures Strings(g, "strlen", [OSym("strlen"), OStr(t)], fuel) == Ok(Step(OInt(|t|), g))
    ensures 0 <= k < |t| ==> Strings(g, "char-at", [OSym("char-at"), OStr(t), OInt(k)], fuel) == Ok(Step(OInt(t[k] as int), g))
    ensures !(0 <= k < |t|) ==> Strings(g, "char-at", [OSym("char-at"), OStr(t), OInt(k)], fuel) == Throw(IndexOutOfBounds)
  {
    var items := [OSym("char-at"), OStr(t), OInt(k)];
    assert Eval(g, items[1], fuel) == Ok(Step(OStr(t), g));
    assert Eval(g, items[2], fuel) == Ok(Step(OInt(k), g));
  }

  /** `(read-string s)` on the printed text of a value gives that value back,
      a symbol turned into the string of its name. */
  lemma ReadStringPrinted(g: Globals, v: OVal, fuel: nat)
    requires fuel > 0 && OPrintable(v)
    ensures Strings(g, "read-string", [OSym("read-string"), OStr(OPrintSeq([v]))], fuel) == Ok(Step(Demote(v), g))
  {
    ReadPrintedProgram([v]);
    var items := [OSym("read-string"), OStr(OPrintSeq([v]))];
    assert Eval(g, items[1], fuel) == Ok(Step(items[1], g));
  }

  // ---------------------------------------------------------------------------
  // Lists

  /** `list` over literals collects them in order, after acc. */
  lemma {:induction false} EvalEachLiterals(g: Globals, xs: seq<OVal>, i: nat, acc: seq<OVal>, fuel: nat)
    requires fuel > 0 && i <= |xs| && forall j :: i <= j < |xs| ==> Literal(xs[j])
    ensures EvalEach(g, xs, i, acc, fuel) == Ok((acc + xs[i..], g))
    decreases |xs| - i
  {
    if i < |xs| {
      AtomEvaluation(g, xs[i], fuel);
      EvalEachLiterals(g, xs, i + 1, acc + [xs[i]], fuel);
      assert acc + [xs[i]] + xs[i + 1..] == acc + xs[i..];
    } else {
      assert acc + xs[i..] == acc;
    }
  }

  /** `(list a b ..)` over literals is the list of them. */
  lemma ListLiterals(g: Globals, items: seq<OVal>, fuel: nat)
    requires fuel > 0 && |items| > 0 && forall j :: 1 <= j < |items| ==> Literal(items[j])
    ensures Lists(g, "list", items, fuel) == Ok(Step(OList(items[1..]), g))
  {
    EvalEachLiterals(g, items, 1, [], fuel);
    assert [] + items[1..] == items[1..];
  }

  /** `(length x)` and `(nth k x)` on a name bound to a list: its size, and
      its k-th element or an index error. */
  lemma LengthNthOfBound(g: Globals, x: string, k: int, fuel: nat)
    requires fuel > 0 && x in g && g[x].OList?
    ensures Lists(g, "length", [OSym("length"), OSym(x)], fuel) == Ok(Step(OInt(|g[x].items|), g))
    ensures 0 <= k < |g[x].items| ==> Lists(g, "nth", [OSym("nth"), OInt(k), OSym(x)], fuel) == Ok(Step(g[x].items[k], g))
    ensures !(0 <= k < |g[x].items|) ==> Lists(g, "nth", [OSym("nth"), OInt(k), OSym(x)], fuel) == Throw(IndexOutOfBounds)
  {
    var items := [OSym("nth"), OInt(k), OSym(x)];
    assert Eval(g, OSym(x), fuel) == Ok(Step(g[x], g));
    assert Eval(g, items[1], fuel) == Ok(Step(OInt(k), g));
    assert Eval(g, items[2], fuel) == Ok(Step(g[x], g));
  }

  /** `(apply f x)` with x bound to a list evaluates the call of f's value
      on the list's elements. */
  lemma ApplyUnfold(g: Globals, f: string, x: string, fuel: nat)
    requires fuel > 0 && f !in g && f in Builtins && x in g && g[x].OList?
    ensures Lists(g, "apply", [OSym("apply"), OSym(f), OSym(x)], fuel) == Eval(g, OList([OSym(f)] + g[x].items), fuel)
  {
    var items := [OSym("apply"), OSym(f), OSym(x)];
    assert Eval(g, items[1], fuel) == Ok(Step(OSym(f), g));
    assert Eval(g, items[2], fuel) == Ok(Step(g[x], g));
  }

  /** A call of `+ - *` on Integer literals. */
  lemma CallArithLiterals(g: Globals, op: string, call: seq<OVal>, fuel: nat)
    requires fuel > 1 && (op == "+" || op == "-" || op == "*") && op !in g
    requires |call| > 1 && call[0] == OSym(op) && IntsFrom(call, 1) && IsInt(call[1].i)
    ensures Eval(g, OList(call), fuel) == Ok(Step(OInt(Wrap32(FoldExact(op, call[1].i, call, 2))), g))
  {
    CallBuiltin(g, op, call, fuel);
    assert Builtin(g, op, call, fuel - 1) == Arith(g, op, call, fuel - 1);
    ArithLiterals(g, op, call, fuel - 1);
  }

  /** `(apply op x)` with op one of `+ - *` and x bound to a list of
      Integers is op over the list's elements. */
  lemma ApplyOfBound(g: Globals, op: string, x: string, fuel: nat)
    requires fuel > 1 && (op == "+" || op == "-" || op == "*") && op !in g
    requires x in g && g[x].OList? && |g[x].items| > 0 && IntsFrom(g[x].items, 0) && IsInt(g[x].items[0].i)
    ensures var call := [OSym(op)] + g[x].items;
            Lists(g, "apply", [OSym("apply"), OSym(op), OSym(x)], fuel)
            == Ok(Step(OInt(Wrap32(FoldExact(op, call[1].i, call, 2))), g))
  {
    ApplyUnfold(g, op, x, fuel);
    var call := [OSym(op)] + g[x].items;
    assert IntsFrom(call, 1) && call[1] == g[x].items[0];
    CallArithLiterals(g, op, call, fuel);
  }

  /** What `inc` (delta 1) or `dec` (delta -1) makes of each Integer. */
  function Shifted(delta: int, vs: seq<OVal>): (r: seq<OVal>)
    requires IntsFrom(vs, 0)
    ensures |r| == |vs| && forall j :: 0 <= j < |vs| ==> r[j] == OInt(Wrap32(vs[j].i + delta))
  {
    if vs == [] then [] else [OInt(Wrap32(vs[0].i + delta))] + Shifted(delta, vs[1..])
  }

  lemma ShiftedCons(delta: int, lst: seq<OVal>, i: nat)
    requires i < |lst| && IntsFrom(lst, 0)
    ensures Shifted(delta, lst[i..]) == [OInt(Wrap32(lst[i].i + delta))] + Shifted(delta, lst[i + 1..])
  {
    assert lst[i..][0] == lst[i] && lst[i..][1..] == lst[i + 1..];
  }

  /** One call `(inc n)` or `(dec n)` of the map loop. */
  lemma CallIncDec(g: Globals, op: string, n: int, fuel: nat)
    requires fuel > 1 && (op == "inc" || op == "dec") && op !in g
    ensures Eval(g, OList([OSym(op), OInt(n)]), fuel) == Ok(Step(OInt(Wrap32(n + if op == "inc" then 1 else -1)), g))
  {
    var call := [OSym(op), OInt(n)];
    CallBuiltin(g, op, call, fuel);
    assert Eval(g, call[1], fuel - 1) == Ok(Step(OInt(n), g));
  }

  /** One element of `map` whose call evaluates to w without touching the
      table. */
  lemma MapStep(g: Globals, f: OVal, lst: seq<OVal>, i: nat, acc: seq<OVal>, w: OVal, fuel: nat)
    requires i < |lst| && Eval(g, OList([f, lst[i]]), fuel) == Ok(Step(w, g))
    ensures MapEach(g, f, lst, i, acc, fuel) == MapEach(g, f, lst, i + 1, acc + [w], fuel)
  {
  }

  lemma {:induction false} MapIncDec(g: Globals, op: string, delta: int, lst: seq<OVal>, i: nat, acc: seq<OVal>, fuel: nat)
    requires fuel > 1 && (op == "inc" || op == "dec") && delta == (if op == "inc" then 1 else -1) && op !in g
    requires i <= |lst| && IntsFrom(lst, 0)
    ensures MapEach(g, OSym(op), lst, i, acc, fuel) == Ok((acc + Shifted(delta, lst[i..]), g))
    decreases |lst| - i
  {
    if i < |lst| {
      CallIncDec(g, op, lst[i].i, fuel);
      var w := OInt(Wrap32(lst[i].i + delta));
      MapStep(g, OSym(op), lst, i, acc, w, fuel);
      MapIncDec(g, op, delta, lst, i + 1, acc + [w], fuel);
      ShiftedCons(delta, lst, i);
      assert acc + [w] + Shifted(delta, lst[i + 1..]) == acc + ([w] + Shifted(delta, lst[i + 1..]));
    } else {
      assert acc + Shifted(delta, lst[i..]) == acc;
    }
  }

  /** `(map inc x)` and `(map dec x)` on a name bound to a list of Integers
      is the list of each element plus or minus one, wrapping, in order. */
  lemma MapOfBound(g: Globals, op: string, x: string, fuel: nat)
    requires fuel > 1 && (op == "inc" || op == "dec") && op !in g
    requires x in g && g[x].OList? && IntsFrom(g[x].items, 0)
    ensures Lists(g, "map", [OSym("map"), OSym(op), OSym(x)], fuel)
            == Ok(Step(OList(Shifted(if op == "inc" then 1 else -1, g[x].items)), g))
  {
    var items := [OSym("map"), OSym(op), OSym(x)];
    assert Eval(g, items[1], fuel) == Ok(Step(OSym(op), g));
    assert Eval(g, items[2], fuel) == Ok(Step(g[x], g));
    MapIncDec(g, op, if op == "inc" then 1 else -1, g[x].items, 0, [], fuel);
    assert [] + Shifted(if op == "inc" then 1 else -1, g[x].items[0..]) == Shifted(if op == "inc" then 1 else -1, g[x].items);
  }

  /** The false ones among Booleans, in order. */
  function Falses(vs: seq<OVal>): (r: seq<OVal>)
    ensures forall w :: w in r ==> w in vs && w == OBool(false)
  {
    if vs == [] then [] else (if vs[0] == OBool(false) then [vs[0]] else []) + Falses(vs[1..])
  }

  lemma {:induction false} FilterNot(g: Globals, lst: seq<OVal>, i: nat, acc: seq<OVal>, fuel: nat)
    requires fuel > 1 && "!" !in g && i <= |lst| && BoolsFrom(lst, 0)
    ensures FilterEach(g, OSym("!"), lst, i, acc, fuel) == Ok((acc + Falses(lst[i..]), g))
    decreases |lst| - i
  {
    if i < |lst| {
      var call := [OSym("!"), lst[i]];
      CallBuiltin(g, "!", call, fuel);
      NotLiteral(g, lst[i], fuel - 1);
      var keep := lst[i] == OBool(false);
      var acc' := if keep then acc + [lst[i]] else acc;
      FilterNot(g, lst, i + 1, acc', fuel);
      assert lst[i..][0] == lst[i] && lst[i..][1..] == lst[i + 1..];
      assert acc' + Falses(lst[i + 1..]) == acc + Falses(lst[i..]);
    } else {
      assert acc + Falses(lst[i..]) == acc;
    }
  }

  /** `(filter ! x)` on a name bound to a list of Booleans keeps exactly its
      false elements, in order. */
  lemma FilterOfBound(g: Globals, x: string, fuel: nat)
    requires fuel > 1 && "!" !in g && x in g && g[x].OList? && BoolsFrom(g[x].items, 0)
    ensures Lists(g, "filter", [OSym("filter"), OSym("!"), OSym(x)], fuel) == Ok(Step(OList(Falses(g[x].items)), g))
  {
    var items := [OSym("filter"), OSym("!"), OSym(x)];
    assert Eval(g, items[1], fuel) == Ok(Step(OSym("!"), g));
    assert Eval(g, items[2], fuel) == Ok(Step(g[x], g));
    FilterNot(g, g[x].items, 0, [], fuel);
    assert [] + Falses(g[x].items[0..]) == Falses(g[x].items);
  }

  // ---------------------------------------------------------------------------
  // Programs

  /** Evaluating printed text is evaluating the values it prints. */
  lemma EvalPrinted(g: Globals, vs: seq<OVal>, fuel: nat)
    requires AllOPrintable(vs)
    ensures EvalString(g, OPrintSeq(vs), fuel) == EvalProgram(g, vs, fuel)
  {
    ReadPrintedProgram(vs);
  }
}
