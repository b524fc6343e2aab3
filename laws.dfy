/** What the 1.7 interpreter guarantees: symbols compile to the cells they
    are bound to, evaluation copies atoms and writes through cells, the
    first operand fixes the class of arithmetic, `range` and `for` step
    through Java's counting loop, and closure calls bind in the closure's
    one frame. */
module ParenLaws {
  import opened JavaLang
  import opened ParenReader
  import opened ParenStore
  import opened ParenCompile
  import opened ParenEval

  // ---------------------------------------------------------------------------
  // Atoms, symbols and cells

  /** A node that is not a call (not a list, or a list marked as data)
      evaluates to a new copy of itself, and no existing node changes. */
  lemma EvalCopies(st: Store, n: Ref, fuel: nat)
    requires fuel > 0 && (!ValueAt(st, n).VList? || NodeAt(st, n).isData)
    ensures Eval(st, n, fuel).Ok?
    ensures var o := Eval(st, n, fuel).value;
            o.ref == |st.nodes| && NodeAt(o.st, o.ref) == NodeAt(st, n)
            && |o.st.nodes| == |st.nodes| + 1 && o.st.frames == st.frames
            && forall q: Ref :: q < |st.nodes| ==> NodeAt(o.st, q) == NodeAt(st, q)
  {
  }

  /** A node that is not a call: evaluating it copies it. */
  ghost predicate Copies(st: Store, n: Ref)
  {
    n < |st.nodes| && (!ValueAt(st, n).VList? || NodeAt(st, n).isData)
  }

  /** The node n is not a call and holds v. */
  ghost predicate AtomAt(st: Store, n: Ref, v: Val) { Copies(st, n) && ValueAt(st, n) == v }

  /** Elements i .. i + |vs| - 1 of items are nodes that are not calls and
      hold the values vs. */
  ghost predicate Atoms(st: Store, items: seq<Ref>, i: nat, vs: seq<Val>)
  {
    i + |vs| <= |items| && forall k :: 0 <= k < |vs| ==> AtomAt(st, items[i + k], vs[k])
  }

  /** st' keeps every node of st unchanged and may add more. */
  ghost predicate Grows(st: Store, st': Store) { st.nodes <= st'.nodes }

  lemma CopyEval(st: Store, n: Ref, fuel: nat)
    requires fuel > 0 && Copies(st, n)
    ensures Eval(st, n, fuel) == Ok(Clone(st, n))
    ensures ValueOf(Clone(st, n)) == ValueAt(st, n) && Grows(st, Clone(st, n).st)
  {
  }

  lemma AtomsKept(st: Store, st': Store, items: seq<Ref>, i: nat, vs: seq<Val>)
    requires Atoms(st, items, i, vs) && Grows(st, st')
    ensures Atoms(st', items, i, vs)
  {
    forall k | 0 <= k < |vs|
      ensures AtomAt(st', items[i + k], vs[k])
    {
      assert AtomAt(st, items[i + k], vs[k]);
      assert st'.nodes[items[i + k]] == st.nodes[items[i + k]];
    }
  }

  /** Evaluating the first of a run of atoms copies it; the rest stay atoms. */
  lemma AtomStep(st: Store, items: seq<Ref>, i: nat, vs: seq<Val>, fuel: nat)
    requires fuel > 0 && |vs| > 0 && Atoms(st, items, i, vs)
    ensures Eval(st, items[i], fuel) == Ok(Clone(st, items[i]))
    ensures ValueOf(Clone(st, items[i])) == vs[0] && Grows(st, Clone(st, items[i]).st)
    ensures Atoms(Clone(st, items[i]).st, items, i + 1, vs[1..])
  {
    assert AtomAt(st, items[i + 0], vs[0]);
    CopyEval(st, items[i], fuel);
    var c := Clone(st, items[i]);
    AtomsKept(st, c.st, items, i, vs);
    forall k | 0 <= k < |vs| - 1
      ensures AtomAt(c.st, items[i + 1 + k], vs[1..][k])
    {
      assert AtomAt(c.st, items[i + (k + 1)], vs[k + 1]);
    }
  }

  /** A symbol bound in the environment compiles to the very cell it is
      bound to, innermost frame first, and that cell is marked as data; an
      unbound symbol compiles to itself and changes nothing. */
  lemma CompileSymbol(st: Store, n: Ref, env: nat, fuel: nat)
    requires ValueAt(st, n).VSym?
    ensures var c := Get(st, env, ValueAt(st, n).name);
            var r := Compile(st, n, env, fuel);
            r.Ok? && (c.None? ==> r.value == Out(n, st))
            && (c.Some? ==> r.value.ref == c.value && r.value.st.frames == st.frames
                            && (c.value < |st.nodes| ==> NodeAt(r.value.st, c.value).isData))
  {
  }

  /** Two occurrences of one bound name compile to one shared cell. */
  lemma CompileShares(st: Store, n1: Ref, n2: Ref, env: nat, fuel: nat)
    requires ValueAt(st, n1).VSym? && ValueAt(st, n2).VSym? && ValueAt(st, n1).name == ValueAt(st, n2).name
    requires Get(st, env, ValueAt(st, n1).name).Some?
    ensures Compile(st, n1, env, fuel).Ok?
    ensures var o1 := Compile(st, n1, env, fuel).value;
            Compile(o1.st, n2, env, fuel).Ok? && Compile(o1.st, n2, env, fuel).value.ref == o1.ref
  {
    var c := Get(st, env, ValueAt(st, n1).name).value;
    var st1 := MarkData(st, c);
    assert ValueAt(st1, n2) == ValueAt(st, n2) by {
      if n2 != c {
        assert NodeAt(st1, n2) == NodeAt(st, n2);
      }
    }
    assert env < |st.frames|;
    assert st1.frames[..|st.frames|] == st.frames;
    GetUnchanged(st, st1, env, ValueAt(st, n1).name);
  }

  /** A bound symbol evaluates, once compiled, to a copy of the current value
      of its cell, even when that value is a list: marking the cell as data
      keeps it from being run as a call. */
  lemma BoundSymbolReadsCell(st: Store, n: Ref, env: nat, fuel: nat)
    requires fuel > 0 && ValueAt(st, n).VSym?
    requires Get(st, env, ValueAt(st, n).name).Some?
    requires Get(st, env, ValueAt(st, n).name).value < |st.nodes|
    ensures var c := Get(st, env, ValueAt(st, n).name).value;
            var o := Compile(st, n, env, fuel).value;
            Compile(st, n, env, fuel).Ok? && Eval(o.st, o.ref, fuel).Ok?
            && ValueOf(Eval(o.st, o.ref, fuel).value) == ValueAt(st, c)
  {
    var c := Get(st, env, ValueAt(st, n).name).value;
    var o := Compile(st, n, env, fuel).value;
    assert o == Out(c, MarkData(st, c));
    EvalCopies(o.st, c, fuel);
  }

  /** An unbound symbol evaluates, once compiled, to a copy of itself. */
  lemma UnboundSymbolEvaluatesToItself(st: Store, n: Ref, env: nat, fuel: nat)
    requires fuel > 0 && ValueAt(st, n).VSym? && Get(st, env, ValueAt(st, n).name).None?
    ensures Compile(st, n, env, fuel) == Ok(Out(n, st))
    ensures Eval(st, n, fuel).Ok? && ValueOf(Eval(st, n, fuel).value) == ValueAt(st, n)
  {
    EvalCopies(st, n, fuel);
  }

  /** `(set CELL EXPR)` at run time: the value of EXPR is written into the
      cell node in place, and the cell itself is the result. */
  lemma SetWritesCell(st: Store, n: Ref, fuel: nat)
    requires fuel > 1 && ValueAt(st, n).VList? && !NodeAt(st, n).isData
    requires var items := ValueAt(st, n).items;
             |items| >= 3 && ValueAt(st, items[0]) == VBuiltin("SET") && items[1] < |st.nodes|
    ensures var items := ValueAt(st, n).items;
            var h := Clone(st, items[0]);
            var v := Eval(h.st, items[2], fuel - 1);
            var r := Eval(st, n, fuel);
            r.Ok? <==> v.Ok?
    ensures var items := ValueAt(st, n).items;
            var h := Clone(st, items[0]);
            var v := Eval(h.st, items[2], fuel - 1);
            var r := Eval(st, n, fuel);
            r.Ok? ==> r.value.ref == items[1] && ValueAt(r.value.st, items[1]) == ValueOf(v.value)
                      && |r.value.st.nodes| == |v.value.st.nodes|
  {
    var items := ValueAt(st, n).items;
    EvalCopies(st, items[0], fuel - 1);
    var h := Clone(st, items[0]);
    assert Eval(st, items[0], fuel - 1) == Ok(h) && ValueOf(h) == VBuiltin("SET");
    assert Builtin(h.st, "SET", n, items, fuel - 1) == Control(h.st, "SET", items, fuel - 1);
    assert Eval(st, n, fuel) == Control(h.st, "SET", items, fuel - 1);
    var v := Eval(h.st, items[2], fuel - 1);
    assert Arg(h.st, items, 2, fuel - 1) == v;
    if v.Ok? {
      assert items[1] < |v.value.st.nodes|;
      assert Control(h.st, "SET", items, fuel - 1) == Ok(Out(items[1], SetValue(v.value.st, items[1], ValueOf(v.value))));
    }
  }

  // ---------------------------------------------------------------------------
  // Arithmetic

  /** The int fold of `+ - * /` as a left fold over the operand values. */
  function FoldInts(op: string, acc: int, xs: seq<int>): (r: Result<int>)
    requires op in ARITH && IsInt(acc)
    ensures r.Ok? ==> IsInt(r.value)
    decreases |xs|
  {
    if xs == [] then Ok(acc)
    else
      var a :- IntStep(op, acc, xs[0]);
      FoldInts(op, a, xs[1..])
  }

  function Sum(xs: seq<int>): int { if xs == [] then 0 else xs[0] + Sum(xs[1..]) }

  function Product(xs: seq<int>): int { if xs == [] then 1 else xs[0] * Product(xs[1..]) }

  /** Whatever overflows happen on the way, `+` on ints gives the exact sum
      reduced to 32 bits. */
  lemma {:induction false} FoldIntsSum(acc: int, xs: seq<int>)
    requires IsInt(acc)
    ensures FoldInts("PLUS", acc, xs) == Ok(Wrap32(acc + Sum(xs)))
    decreases |xs|
  {
    if xs == [] {
      WrapInRange(acc);
    } else {
      assert FoldInts("PLUS", acc, xs) == FoldInts("PLUS", Wrap32(acc + xs[0]), xs[1..]);
      FoldIntsSum(Wrap32(acc + xs[0]), xs[1..]);
      Wrap32AddMul(acc + xs[0], Sum(xs[1..]));
    }
  }

  /** Likewise `*` on ints gives the exact product reduced to 32 bits. */
  lemma {:induction false} FoldIntsProduct(acc: int, xs: seq<int>)
    requires IsInt(acc)
    ensures FoldInts("MUL", acc, xs) == Ok(Wrap32(acc * Product(xs)))
    decreases |xs|
  {
    if xs == [] {
      WrapInRange(acc);
    } else {
      var p := Product(xs[1..]);
      var q := acc * xs[0];
      assert FoldInts("MUL", acc, xs) == FoldInts("MUL", Wrap32(q), xs[1..]);
      FoldIntsProduct(Wrap32(q), xs[1..]);
      Wrap32AddMul(q, p);
      MulAssoc(acc, xs[0], p);
      assert Product(xs) == xs[0] * p;
    }
  }

  lemma MulAssoc(a: int, b: int, c: int)
    ensures a * b * c == a * (b * c)
  {
  }

  /** Each value is an Integer or a Long. */
  predicate AllNumbers(vs: seq<Val>) { forall k :: 0 <= k < |vs| ==> vs[k].VInt? || vs[k].VLong? }

  /** intValue() of each number: a Long keeps its low 32 bits. */
  function IntsOf(vs: seq<Val>): (xs: seq<int>)
    requires AllNumbers(vs)
    ensures |xs| == |vs| && forall k :: 0 <= k < |vs| ==> IntValue(vs[k]) == Ok(xs[k])
  {
    if vs == [] then [] else [IntValue(vs[0]).value] + IntsOf(vs[1..])
  }

  /** longValue() of each number. */
  function LongsOf(vs: seq<Val>): (xs: seq<int>)
    requires AllNumbers(vs)
    ensures |xs| == |vs| && forall k :: 0 <= k < |vs| ==> LongValue(vs[k]) == Ok(xs[k])
  {
    if vs == [] then [] else [LongValue(vs[0]).value] + LongsOf(vs[1..])
  }

  /** The long fold of `+ - * /` as a left fold over the operand values. */
  function FoldLongs(op: string, acc: int, xs: seq<int>): (r: Result<int>)
    requires op in ARITH && IsLong(acc)
    ensures r.Ok? ==> IsLong(r.value)
    decreases |xs|
  {
    if xs == [] then Ok(acc)
    else
      var a :- LongStep(op, acc, xs[0]);
      FoldLongs(op, a, xs[1..])
  }

  /** The value a fold computes, without its store. */
  function FoldValue(r: Result<(int, Store)>): Result<int>
  {
    if r.Ok? then Ok(r.value.0) else Err(r.fault)
  }

  lemma IntFoldStep(st: Store, op: string, items: seq<Ref>, i: nat, acc: int, vs: seq<Val>, fuel: nat)
    requires op in ARITH && IsInt(acc) && fuel > 0 && |vs| > 0 && Atoms(st, items, i, vs) && AllNumbers(vs)
    ensures IntFold(st, op, items, i, acc, fuel)
            == (var a :- IntStep(op, acc, IntsOf(vs)[0]); IntFold(Clone(st, items[i]).st, op, items, i + 1, a, fuel))
  {
    AtomStep(st, items, i, vs, fuel);
  }

  lemma LongFoldStep(st: Store, op: string, items: seq<Ref>, i: nat, acc: int, vs: seq<Val>, fuel: nat)
    requires op in ARITH && IsLong(acc) && fuel > 0 && |vs| > 0 && Atoms(st, items, i, vs) && AllNumbers(vs)
    ensures LongFold(st, op, items, i, acc, fuel)
            == (var a :- LongStep(op, acc, LongsOf(vs)[0]); LongFold(Clone(st, items[i]).st, op, items, i + 1, a, fuel))
  {
    AtomStep(st, items, i, vs, fuel);
  }

  /** The int fold over operands i.. that are numbers: each is narrowed by
      intValue(), and the fold fails exactly where the reference fold does. */
  lemma {:induction false} IntFoldNumbers(st: Store, op: string, items: seq<Ref>, i: nat, acc: int, vs: seq<Val>, fuel: nat)
    requires op in ARITH && IsInt(acc) && fuel > 0
    requires Atoms(st, items, i, vs) && i + |vs| == |items| && AllNumbers(vs)
    ensures FoldValue(IntFold(st, op, items, i, acc, fuel)) == FoldInts(op, acc, IntsOf(vs))
    ensures IntFold(st, op, items, i, acc, fuel).Ok? ==> Grows(st, IntFold(st, op, items, i, acc, fuel).value.1)
    decreases |vs|
  {
    if vs != [] {
      IntFoldStep(st, op, items, i, acc, vs, fuel);
      AtomStep(st, items, i, vs, fuel);
      assert IntsOf(vs)[1..] == IntsOf(vs[1..]);
      var x := IntsOf(vs)[0];
      if IntStep(op, acc, x).Ok? {
        IntFoldNumbers(Clone(st, items[i]).st, op, items, i + 1, IntStep(op, acc, x).value, vs[1..], fuel);
      }
    }
  }

  /** The long fold over operands i.. that are numbers, each widened by
      longValue(). */
  lemma {:induction false} LongFoldNumbers(st: Store, op: string, items: seq<Ref>, i: nat, acc: int, vs: seq<Val>, fuel: nat)
    requires op in ARITH && IsLong(acc) && fuel > 0
    requires Atoms(st, items, i, vs) && i + |vs| == |items| && AllNumbers(vs)
    ensures FoldValue(LongFold(st, op, items, i, acc, fuel)) == FoldLongs(op, acc, LongsOf(vs))
    ensures LongFold(st, op, items, i, acc, fuel).Ok? ==> Grows(st, LongFold(st, op, items, i, acc, fuel).value.1)
    decreases |vs|
  {
    if vs != [] {
      LongFoldStep(st, op, items, i, acc, vs, fuel);
      AtomStep(st, items, i, vs, fuel);
      assert LongsOf(vs)[1..] == LongsOf(vs[1..]);
      var x := LongsOf(vs)[0];
      if LongStep(op, acc, x).Ok? {
        LongFoldNumbers(Clone(st, items[i]).st, op, items, i + 1, LongStep(op, acc, x).value, vs[1..], fuel);
      }
    }
  }

  /** The value an evaluation returns, without its store. */
  function ValueResult(r: Result<Out>): Result<Val>
  {
    if r.Ok? then Ok(ValueOf(r.value)) else Err(r.fault)
  }

  /** An int (long = false) or long result boxed as an Integer or a Long. */
  function Boxed(long: bool, r: Result<int>): Result<Val>
  {
    if r.Ok? then Ok(Num(long, r.value)) else Err(r.fault)
  }

  /** `+ - * /` with an Integer first operand and number operands: an int
      fold over the others narrowed by intValue(), giving a new Integer
      node; the call fails exactly when the fold divides by zero. */
  lemma ArithOfInts(st: Store, op: string, items: seq<Ref>, vs: seq<Val>, fuel: nat)
    requires op in ARITH && fuel > 0 && |vs| >= 1 && |items| == |vs| + 1
    requires Atoms(st, items, 1, vs) && AllNumbers(vs) && vs[0].VInt?
    ensures ValueResult(Arith(st, op, items, fuel)) == Boxed(false, FoldInts(op, Wrap32(vs[0].i), IntsOf(vs[1..])))
    ensures Arith(st, op, items, fuel).Ok? ==> Grows(st, Arith(st, op, items, fuel).value.st)
  {
    AtomStep(st, items, 1, vs, fuel);
    IntFoldNumbers(Clone(st, items[1]).st, op, items, 2, Wrap32(vs[0].i), vs[1..], fuel);
  }

  /** `+ - * /` with a Long first operand: a long fold over the others
      widened by longValue(), giving a new Long node. */
  lemma ArithOfLongs(st: Store, op: string, items: seq<Ref>, vs: seq<Val>, fuel: nat)
    requires op in ARITH && fuel > 0 && |vs| >= 1 && |items| == |vs| + 1
    requires Atoms(st, items, 1, vs) && AllNumbers(vs) && vs[0].VLong?
    ensures ValueResult(Arith(st, op, items, fuel)) == Boxed(true, FoldLongs(op, Wrap64(vs[0].l), LongsOf(vs[1..])))
    ensures Arith(st, op, items, fuel).Ok? ==> Grows(st, Arith(st, op, items, fuel).value.st)
  {
    AtomStep(st, items, 1, vs, fuel);
    LongFoldNumbers(Clone(st, items[1]).st, op, items, 2, Wrap64(vs[0].l), vs[1..], fuel);
  }

  /** What `+`, `-` and `*` compute before any wrap-around. */
  function Exact(op: string, acc: int, xs: seq<int>): int
  {
    if op == "PLUS" then acc + Sum(xs) else if op == "MINUS" then acc - Sum(xs) else acc * Product(xs)
  }

  /** `-` on ints gives the exact difference reduced to 32 bits. */
  lemma {:induction false} FoldIntsDifference(acc: int, xs: seq<int>)
    requires IsInt(acc)
    ensures FoldInts("MINUS", acc, xs) == Ok(Wrap32(acc - Sum(xs)))
    decreases |xs|
  {
    if xs == [] {
      WrapInRange(acc);
    } else {
      assert FoldInts("MINUS", acc, xs) == FoldInts("MINUS", Wrap32(acc - xs[0]), xs[1..]);
      FoldIntsDifference(Wrap32(acc - xs[0]), xs[1..]);
      Wrap32AddMul(acc - xs[0], Sum(xs[1..]));
    }
  }

  /** `+`, `-` and `*` on longs give the exact result reduced to 64 bits,
      whatever overflows happen on the way. */
  lemma {:induction false} FoldLongsSum(acc: int, xs: seq<int>)
    requires IsLong(acc)
    ensures FoldLongs("PLUS", acc, xs) == Ok(Wrap64(acc + Sum(xs)))
    decreases |xs|
  {
    if xs == [] {
      WrapInRange(acc);
    } else {
      assert FoldLongs("PLUS", acc, xs) == FoldLongs("PLUS", Wrap64(acc + xs[0]), xs[1..]);
      FoldLongsSum(Wrap64(acc + xs[0]), xs[1..]);
      Wrap64AddMul(acc + xs[0], Sum(xs[1..]));
    }
  }

  lemma {:induction false} FoldLongsDifference(acc: int, xs: seq<int>)
    requires IsLong(acc)
    ensures FoldLongs("MINUS", acc, xs) == Ok(Wrap64(acc - Sum(xs)))
    decreases |xs|
  {
    if xs == [] {
      WrapInRange(acc);
    } else {
      assert FoldLongs("MINUS", acc, xs) == FoldLongs("MINUS", Wrap64(acc - xs[0]), xs[1..]);
      FoldLongsDifference(Wrap64(acc - xs[0]), xs[1..]);
      Wrap64AddMul(acc - xs[0], Sum(xs[1..]));
    }
  }

  lemma {:induction false} FoldLongsProduct(acc: int, xs: seq<int>)
    requires IsLong(acc)
    ensures FoldLongs("MUL", acc, xs) == Ok(Wrap64(acc * Product(xs)))
    decreases |xs|
  {
    if xs == [] {
      WrapInRange(acc);
    } else {
      var p := Product(xs[1..]);
      var q := acc * xs[0];
      assert FoldLongs("MUL", acc, xs) == FoldLongs("MUL", Wrap64(q), xs[1..]);
      FoldLongsProduct(Wrap64(q), xs[1..]);
      Wrap64AddMul(q, p);
      MulAssoc(acc, xs[0], p);
      assert Product(xs) == xs[0] * p;
    }
  }

  /** The int fold of `+ - *` is the exact result wrapped once. */
  lemma FoldIntsExact(op: string, a: int, xs: seq<int>)
    requires op in {"PLUS", "MINUS", "MUL"}
    ensures FoldInts(op, Wrap32(a), xs) == Ok(Wrap32(Exact(op, a, xs)))
  {
    if op == "PLUS" {
      FoldIntsSum(Wrap32(a), xs);
      Wrap32AddMul(a, Sum(xs));
    } else if op == "MINUS" {
      FoldIntsDifference(Wrap32(a), xs);
      Wrap32AddMul(a, Sum(xs));
    } else {
      FoldIntsProduct(Wrap32(a), xs);
      Wrap32AddMul(a, Product(xs));
    }
  }

  /** The long fold of `+ - *` is the exact result wrapped once. */
  lemma FoldLongsExact(op: string, a: int, xs: seq<int>)
    requires op in {"PLUS", "MINUS", "MUL"}
    ensures FoldLongs(op, Wrap64(a), xs) == Ok(Wrap64(Exact(op, a, xs)))
  {
    if op == "PLUS" {
      FoldLongsSum(Wrap64(a), xs);
      Wrap64AddMul(a, Sum(xs));
    } else if op == "MINUS" {
      FoldLongsDifference(Wrap64(a), xs);
      Wrap64AddMul(a, Sum(xs));
    } else {
      FoldLongsProduct(Wrap64(a), xs);
      Wrap64AddMul(a, Product(xs));
    }
  }

  /** `+ - *` with an Integer first operand is the exact result over the
      operands' intValue()s, wrapped once to 32 bits. */
  lemma ArithOfIntsExact(st: Store, op: string, items: seq<Ref>, vs: seq<Val>, fuel: nat)
    requires op in {"PLUS", "MINUS", "MUL"} && fuel > 0 && |vs| >= 1 && |items| == |vs| + 1
    requires Atoms(st, items, 1, vs) && AllNumbers(vs) && vs[0].VInt?
    ensures ValueResult(Arith(st, op, items, fuel)) == Ok(VInt(Wrap32(Exact(op, vs[0].i, IntsOf(vs[1..])))))
  {
    ArithOfInts(st, op, items, vs, fuel);
    FoldIntsExact(op, vs[0].i, IntsOf(vs[1..]));
  }

  /** `+ - *` with a Long first operand is the exact result over the
      operands' longValue()s, wrapped once to 64 bits. */
  lemma ArithOfLongsExact(st: Store, op: string, items: seq<Ref>, vs: seq<Val>, fuel: nat)
    requires op in {"PLUS", "MINUS", "MUL"} && fuel > 0 && |vs| >= 1 && |items| == |vs| + 1
    requires Atoms(st, items, 1, vs) && AllNumbers(vs) && vs[0].VLong?
    ensures ValueResult(Arith(st, op, items, fuel)) == Ok(VLong(Wrap64(Exact(op, vs[0].l, LongsOf(vs[1..])))))
  {
    ArithOfLongs(st, op, items, vs, fuel);
    FoldLongsExact(op, vs[0].l, LongsOf(vs[1..]));
  }

  /** `(+ 1 4294967298L)` is the Integer 3: the first operand is an Integer,
      so the Long is narrowed to its low 32 bits. */
  lemma IntThenLong(st: Store, items: seq<Ref>, fuel: nat)
    requires fuel > 0 && |items| == 3 && items[1] < |st.nodes| && items[2] < |st.nodes|
    requires ValueAt(st, items[1]) == VInt(1) && ValueAt(st, items[2]) == VLong(4294967298)
    ensures Arith(st, "PLUS", items, fuel).Ok? && ValueOf(Arith(st, "PLUS", items, fuel).value) == VInt(3)
  {
    EvalCopies(st, items[1], fuel);
    var first := Eval(st, items[1], fuel).value;
    assert ValueOf(first) == VInt(1);
    EvalCopies(first.st, items[2], fuel);
    var e := Eval(first.st, items[2], fuel).value;
    assert ValueOf(e) == VLong(4294967298);
    Wrap32Unique(4294967298, 2);
    assert IntValue(ValueOf(e)) == Ok(2);
    WrapInRange(1);
    WrapInRange(3);
    assert IntStep("PLUS", 1, 2) == Ok(3);
    assert IntFold(e.st, "PLUS", items, 3, 3, fuel) == Ok((3, e.st));
    assert IntFold(first.st, "PLUS", items, 2, 1, fuel) == Ok((3, e.st));
    assert Arith(st, "PLUS", items, fuel) == Ok(Alloc(e.st, VInt(3)));
  }

  /** With no operand, `+` and `-` give the shared node 0 and `*` and `/` the
      shared node 1, whatever value those nodes hold now. */
  lemma NoOperands(st: Store, op: string, h: Ref, fuel: nat)
    requires op in ARITH
    ensures Arith(st, op, [h], fuel) == Ok(Out(if op in {"PLUS", "MINUS"} then ZERO else ONE, st))
  {
  }

  /** Integer division truncates toward zero (and wraps the one overflowing
      quotient, of the least int by -1), and a zero divisor throws an
      ArithmeticException. */
  lemma IntDivide(st: Store, items: seq<Ref>, x: int, y: int, fuel: nat)
    requires fuel > 0 && |items| == 3 && IsInt(x) && IsInt(y) && Atoms(st, items, 1, [VInt(x), VInt(y)])
    ensures y == 0 ==> Arith(st, "DIV", items, fuel) == Throw(Arithmetic)
    ensures y != 0 ==> Arith(st, "DIV", items, fuel).Ok? && ValueOf(Arith(st, "DIV", items, fuel).value) == VInt(Wrap32(TruncDiv(x, y)))
  {
    var vs := [VInt(x), VInt(y)];
    ArithOfInts(st, "DIV", items, vs, fuel);
    assert vs[1..] == [VInt(y)];
    WrapInRange(x);
    WrapInRange(y);
    assert IntsOf(vs[1..]) == [y];
    assert FoldInts("DIV", x, [y]) == IntDiv(x, y);
  }

  /** `%` on ints is the remainder of truncating division, with the sign of
      the dividend, and a zero divisor throws an ArithmeticException. */
  lemma IntRemainder(st: Store, items: seq<Ref>, x: int, y: int, fuel: nat)
    requires fuel > 0 && IsInt(x) && IsInt(y) && Atoms(st, items, 1, [VInt(x), VInt(y)])
    ensures y == 0 ==> Numeric(st, "PERCENT", items, fuel) == Throw(Arithmetic)
    ensures y != 0 ==> Numeric(st, "PERCENT", items, fuel).Ok?
                       && ValueOf(Numeric(st, "PERCENT", items, fuel).value) == VInt(TruncRem(x, y))
  {
    var vs := [VInt(x), VInt(y)];
    AtomStep(st, items, 1, vs, fuel);
    var a := Clone(st, items[1]);
    assert IntValue(ValueOf(a)) == Ok(x);
    AtomStep(a.st, items, 2, vs[1..], fuel);
    var b := Clone(a.st, items[2]);
    assert IntValue(ValueOf(b)) == Ok(y);
    if y != 0 {
      TruncRemBounds(x, y);
      WrapInRange(TruncRem(x, y));
      assert Numeric(st, "PERCENT", items, fuel) == Ok(Alloc(b.st, VInt(TruncRem(x, y))));
    }
  }

  /** `inc` and `dec` give a new node one more or one less than the
      operand's value, wrapping at the operand's own width; anything but an
      Integer or a Long fails the cast to Double. */
  lemma IncDecOfAtom(st: Store, op: string, items: seq<Ref>, v: Val, fuel: nat)
    requires op in {"INC", "DEC"} && fuel > 0 && Atoms(st, items, 1, [v])
    ensures var d := if op == "INC" then 1 else -1;
            ValueResult(Numeric(st, op, items, fuel))
            == match v
               case VInt(i) => Ok(VInt(Wrap32(i + d)))
               case VLong(l) => Ok(VLong(Wrap64(l + d)))
               case _ => Err(DoubleFault(v))
    ensures Numeric(st, op, items, fuel).Ok? ==> Numeric(st, op, items, fuel).value.ref == |st.nodes| + 1
    ensures Numeric(st, op, items, fuel).Ok? ==> Grows(st, Numeric(st, op, items, fuel).value.st)
  {
    AtomStep(st, items, 1, [v], fuel);
  }

  /** `++` and `--` do not evaluate their operand: they replace the value of
      its very node by the wrapped successor or predecessor and return that
      node; no node is added and no other node changes. */
  lemma StepInPlace(st: Store, op: string, items: seq<Ref>, fuel: nat)
    requires op in {"PLUSPLUS", "MINUSMINUS"} && |items| >= 2 && items[1] < |st.nodes|
    ensures var d := if op == "PLUSPLUS" then 1 else -1;
            var r := Numeric(st, op, items, fuel);
            match ValueAt(st, items[1])
            case VInt(i) => r.Ok? && r.value.ref == items[1] && ValueAt(r.value.st, items[1]) == VInt(Wrap32(i + d))
            case VLong(l) => r.Ok? && r.value.ref == items[1] && ValueAt(r.value.st, items[1]) == VLong(Wrap64(l + d))
            case v => r == Err(DoubleFault(v))
    ensures var r := Numeric(st, op, items, fuel);
            r.Ok? ==> |r.value.st.nodes| == |st.nodes| && NodeAt(r.value.st, items[1]).isData == NodeAt(st, items[1]).isData
                      && forall q: Ref :: q != items[1] ==> NodeAt(r.value.st, q) == NodeAt(st, q)
  {
  }

  /** `--` undoes `++` on an int node: the store is exactly as before. */
  lemma IncrementUndone(st: Store, items: seq<Ref>, i: int, fuel: nat)
    requires |items| >= 2 && items[1] < |st.nodes| && ValueAt(st, items[1]) == VInt(i) && IsInt(i)
    ensures Numeric(st, "PLUSPLUS", items, fuel).Ok?
    ensures Numeric(Numeric(st, "PLUSPLUS", items, fuel).value.st, "MINUSMINUS", items, fuel) == Ok(Out(items[1], st))
  {
    var n := items[1];
    var st1 := SetValue(st, n, VInt(Wrap32(i + 1)));
    assert Numeric(st, "PLUSPLUS", items, fuel) == Ok(Out(n, st1));
    Wrap32AddMul(i + 1, 1);
    WrapInRange(i);
    var st2 := SetValue(st1, n, VInt(Wrap32(Wrap32(i + 1) - 1)));
    assert Numeric(st1, "MINUSMINUS", items, fuel) == Ok(Out(n, st2));
    assert st2.nodes == st.nodes;
  }

  // ---------------------------------------------------------------------------
  // Comparison and logic

  /** Which of the shared Boolean nodes an evaluation returns. */
  function Truth(r: Result<Out>): Result<bool>
  {
    if r.Ok? then Ok(r.value.ref == TRUE) else Err(r.fault)
  }

  /** `=` as Java runs it over values: each later value's equals() against
      the first, stopping at the first that differs. */
  function AllEqual(vs: seq<Val>, first: Val): Result<bool>
  {
    if vs == [] then Ok(true)
    else
      var same :- JEquals(vs[0], first);
      if !same then Ok(false) else AllEqual(vs[1..], first)
  }

  /** Without nulls and doubles, `=` holds exactly when every value is the
      first one. */
  lemma {:induction false} AllEqualMeans(vs: seq<Val>, first: Val)
    requires forall k :: 0 <= k < |vs| ==> !vs[k].VNull? && !vs[k].VDbl?
    ensures AllEqual(vs, first) == Ok(forall k :: 0 <= k < |vs| ==> vs[k] == first)
    decreases |vs|
  {
    if vs != [] {
      AllEqualMeans(vs[1..], first);
      assert forall k :: 1 <= k < |vs| ==> vs[k] == vs[1..][k - 1];
    }
  }

  lemma {:induction false} EqualsLoopAtoms(st: Store, items: seq<Ref>, i: nat, first: Val, vs: seq<Val>, fuel: nat)
    requires fuel > 0 && Atoms(st, items, i, vs) && i + |vs| == |items|
    ensures Truth(EqualsLoop(st, items, i, first, fuel)) == AllEqual(vs, first)
    decreases |vs|
  {
    if vs != [] {
      AtomStep(st, items, i, vs, fuel);
      if JEquals(vs[0], first) == Ok(true) {
        EqualsLoopAtoms(Clone(st, items[i]).st, items, i + 1, first, vs[1..], fuel);
      }
    }
  }

  /** `(= A B ..)` over operands that copy themselves returns the shared
      true node exactly when every later value equals() the first, stopping
      at the first that does not; a later null throws. */
  lemma EqualsOfAtoms(st: Store, items: seq<Ref>, vs: seq<Val>, fuel: nat)
    requires fuel > 0 && |vs| >= 1 && |items| == |vs| + 1 && Atoms(st, items, 1, vs)
    ensures Truth(Logic(st, "EQ", items, fuel)) == AllEqual(vs[1..], vs[0])
  {
    AtomStep(st, items, 1, vs, fuel);
    EqualsLoopAtoms(Clone(st, items[1]).st, items, 2, vs[0], vs[1..], fuel);
  }

  /** The numbers as ints (long = false) or longs. */
  function NumbersOf(long: bool, vs: seq<Val>): (xs: seq<int>)
    requires AllNumbers(vs)
    ensures |xs| == |vs|
  {
    if long then LongsOf(vs) else IntsOf(vs)
  }

  /** Every value equals (eq) or differs from (not eq) the first. */
  predicate Agree(xs: seq<int>, first: int, eq: bool)
  {
    forall k :: 0 <= k < |xs| ==> (xs[k] == first) == eq
  }

  /** The number a value reads as, by intValue() or longValue(). */
  lemma NumberOf(long: bool, vs: seq<Val>)
    requires |vs| > 0 && AllNumbers(vs)
    ensures (if long then LongValue(vs[0]) else IntValue(vs[0])) == Ok(NumbersOf(long, vs)[0])
    ensures NumbersOf(long, vs)[1..] == NumbersOf(long, vs[1..])
  {
  }

  lemma NumEqStep(st: Store, items: seq<Ref>, i: nat, first: int, long: bool, eq: bool, vs: seq<Val>, fuel: nat)
    requires fuel > 0 && |vs| > 0 && Atoms(st, items, i, vs) && AllNumbers(vs)
    ensures NumEqLoop(st, items, i, first, long, eq, fuel)
            == if (NumbersOf(long, vs)[0] == first) != eq then Ok(Out(FALSE, Clone(st, items[i]).st))
               else NumEqLoop(Clone(st, items[i]).st, items, i + 1, first, long, eq, fuel)
    ensures Atoms(Clone(st, items[i]).st, items, i + 1, vs[1..])
  {
    AtomStep(st, items, i, vs, fuel);
    NumberOf(long, vs);
  }

  lemma {:induction false} NumEqLoopNumbers(st: Store, items: seq<Ref>, i: nat, first: int, long: bool, eq: bool, vs: seq<Val>, fuel: nat)
    requires fuel > 0 && Atoms(st, items, i, vs) && i + |vs| == |items| && AllNumbers(vs)
    ensures Truth(NumEqLoop(st, items, i, first, long, eq, fuel)) == Ok(Agree(NumbersOf(long, vs), first, eq))
    decreases |vs|
  {
    if vs != [] {
      NumEqStep(st, items, i, first, long, eq, vs, fuel);
      var xs := NumbersOf(long, vs);
      NumberOf(long, vs);
      if (xs[0] == first) == eq {
        NumEqLoopNumbers(Clone(st, items[i]).st, items, i + 1, first, long, eq, vs[1..], fuel);
        assert forall k :: 1 <= k < |xs| ==> xs[k] == xs[1..][k - 1];
      }
    }
  }

  lemma NumEqFirst(st: Store, op: string, items: seq<Ref>, vs: seq<Val>, fuel: nat)
    requires op in {"EQEQ", "NOTEQ"} && fuel > 0 && |vs| >= 1 && Atoms(st, items, 1, vs) && AllNumbers(vs)
    ensures var long := vs[0].VLong?;
            Logic(st, op, items, fuel)
            == NumEqLoop(Clone(st, items[1]).st, items, 2, NumbersOf(long, vs)[0], long, op == "EQEQ", fuel)
    ensures Atoms(Clone(st, items[1]).st, items, 2, vs[1..])
  {
    AtomStep(st, items, 1, vs, fuel);
  }

  /** `(== A B ..)` and `(!= A B ..)` over numbers compare as ints when the
      first is an Integer and as longs when it is a Long: the shared true
      node exactly when every later operand equals (for `!=`: differs from)
      the first. */
  lemma NumEqOfNumbers(st: Store, op: string, items: seq<Ref>, vs: seq<Val>, fuel: nat)
    requires op in {"EQEQ", "NOTEQ"} && fuel > 0 && |vs| >= 1 && |items| == |vs| + 1
    requires Atoms(st, items, 1, vs) && AllNumbers(vs)
    ensures var xs := NumbersOf(vs[0].VLong?, vs);
            Truth(Logic(st, op, items, fuel)) == Ok(Agree(xs[1..], xs[0], op == "EQEQ"))
  {
    NumEqFirst(st, op, items, vs, fuel);
    NumberOf(vs[0].VLong?, vs);
    NumEqLoopNumbers(Clone(st, items[1]).st, items, 2, NumbersOf(vs[0].VLong?, vs)[0], vs[0].VLong?, op == "EQEQ", vs[1..], fuel);
  }

  /** `<`, `>`, `<=` and `>=` over two numbers compare them as ints or as
      longs, by the class of the first, giving a new Boolean node. */
  lemma CompareOfNumbers(st: Store, op: string, items: seq<Ref>, a: Val, b: Val, fuel: nat)
    requires op in {"LT", "GT", "LTE", "GTE"} && fuel > 0
    requires Atoms(st, items, 1, [a, b]) && AllNumbers([a, b])
    ensures var xs := NumbersOf(a.VLong?, [a, b]);
            ValueResult(Logic(st, op, items, fuel)) == Ok(VBool(Compare(op, xs[0], xs[1])))
  {
    AtomStep(st, items, 1, [a, b], fuel);
    AtomStep(Clone(st, items[1]).st, items, 2, [b], fuel);
  }

  /** The operands are all Booleans. */
  predicate AllBools(vs: seq<Val>) { forall k :: 0 <= k < |vs| ==> vs[k].VBool? }

  lemma {:induction false} BoolLoopBools(st: Store, items: seq<Ref>, i: nat, stop: bool, vs: seq<Val>, fuel: nat)
    requires fuel > 0 && Atoms(st, items, i, vs) && i + |vs| == |items| && AllBools(vs)
    ensures Truth(BoolLoop(st, items, i, stop, fuel)) == Ok(if VBool(stop) in vs then stop else !stop)
    decreases |vs|
  {
    if vs != [] {
      AtomStep(st, items, i, vs, fuel);
      if vs[0] != VBool(stop) {
        BoolLoopBools(Clone(st, items[i]).st, items, i + 1, stop, vs[1..], fuel);
        assert VBool(stop) in vs <==> VBool(stop) in vs[1..] by {
          assert vs == [vs[0]] + vs[1..];
        }
      }
    }
  }

  /** `(&& A ..)` over Booleans holds exactly when every operand does, and
      `(|| A ..)` exactly when one does. */
  lemma AndOrOfBools(st: Store, op: string, items: seq<Ref>, vs: seq<Val>, fuel: nat)
    requires op in {"ANDAND", "OROR"} && fuel > 0 && |items| == |vs| + 1 && Atoms(st, items, 1, vs) && AllBools(vs)
    ensures op == "ANDAND" ==> Truth(Logic(st, op, items, fuel)) == Ok(forall k :: 0 <= k < |vs| ==> vs[k].b)
    ensures op == "OROR" ==> Truth(Logic(st, op, items, fuel)) == Ok(exists k :: 0 <= k < |vs| && vs[k].b)
  {
    BoolLoopBools(st, items, 1, op == "OROR", vs, fuel);
  }

  /** `&&` and `||` stop at the first operand that decides them: once the
      Boolean prefix vs ends in such an operand, what follows it is never
      evaluated, so it may be anything, even an operand that throws. */
  lemma {:induction false} BoolStops(st: Store, items: seq<Ref>, i: nat, stop: bool, vs: seq<Val>, fuel: nat)
    requires fuel > 0 && |vs| >= 1 && Atoms(st, items, i, vs)
    requires forall k :: 0 <= k < |vs| - 1 ==> vs[k] == VBool(!stop)
    requires vs[|vs| - 1] == VBool(stop)
    ensures Truth(BoolLoop(st, items, i, stop, fuel)) == Ok(stop)
    decreases |vs|
  {
    AtomStep(st, items, i, vs, fuel);
    if |vs| > 1 {
      BoolStops(Clone(st, items[i]).st, items, i + 1, stop, vs[1..], fuel);
    }
  }

  /** `(! A)` negates a Boolean in a new node; anything else fails the
      cast. */
  lemma NotOfAtom(st: Store, items: seq<Ref>, v: Val, fuel: nat)
    requires fuel > 0 && Atoms(st, items, 1, [v])
    ensures ValueResult(Logic(st, "NOT", items, fuel)) == if v.VBool? then Ok(VBool(!v.b)) else Err(BoolValue(v).fault)
    ensures Logic(st, "NOT", items, fuel).Ok? ==> Grows(st, Logic(st, "NOT", items, fuel).value.st)
  {
    AtomStep(st, items, 1, [v], fuel);
  }

  // ---------------------------------------------------------------------------
  // Sequencing and control

  /** Running elements i..end is running i..m, then m..end. */
  lemma {:induction false} SeqSplit(st: Store, items: seq<Ref>, i: nat, m: nat, end: nat, fuel: nat)
    requires i <= m <= end <= |items|
    ensures Seq(st, items, i, end, fuel) == (var s :- Seq(st, items, i, m, fuel); Seq(s, items, m, end, fuel))
    decreases m - i
  {
    if i < m {
      var e := Eval(st, items[i], fuel);
      if e.Ok? {
        SeqSplit(e.value.st, items, i + 1, m, end, fuel);
      }
    }
  }

  /** Running a stretch of elements depends on those elements only, not on
      where they sit. */
  lemma {:induction false} SeqAlign(st: Store, xs: seq<Ref>, ys: seq<Ref>, d: nat, i: nat, end: nat, fuel: nat)
    requires i <= end && end + d <= |xs| && end <= |ys|
    requires forall k :: i <= k < end ==> xs[k + d] == ys[k]
    ensures Seq(st, xs, i + d, end + d, fuel) == Seq(st, ys, i, end, fuel)
    decreases end - i
  {
    if i < end {
      assert xs[i + d] == ys[i];
      var e := Eval(st, ys[i], fuel);
      if e.Ok? {
        SeqAlign(e.value.st, xs, ys, d, i + 1, end, fuel);
      }
    }
  }

  /** The last element runs after all the others, on the store they leave:
      with the definition's first-element step, the elements run in order. */
  lemma SeqLast(st: Store, items: seq<Ref>, i: nat, end: nat, fuel: nat)
    requires i <= end < |items|
    ensures Seq(st, items, i, end + 1, fuel)
            == (var s :- Seq(st, items, i, end, fuel); var e :- Eval(s, items[end], fuel); Ok(e.st))
  {
    SeqSplit(st, items, i, end, end + 1, fuel);
  }

  /** A program of one form is that form. */
  lemma EvalAllSingle(st: Store, f: Ref, fuel: nat)
    ensures EvalAll(st, [f], fuel) == Eval(st, f, fuel)
  {
  }

  /** `eval_all` runs the forms in order: a program is its first part, then
      the rest on the store the first part leaves, with the value of the
      last form. */
  lemma EvalAllAppend(st: Store, a: seq<Ref>, b: seq<Ref>, fuel: nat)
    requires a != [] && b != []
    ensures EvalAll(st, a + b, fuel) == (var o :- EvalAll(st, a, fuel); EvalAll(o.st, b, fuel))
  {
    var f := a + b;
    var n := |f|;
    SeqSplit(st, f, 0, |a| - 1, n - 1, fuel);
    SeqAlign(st, f, a, 0, 0, |a| - 1, fuel);
    var r1 := Seq(st, a, 0, |a| - 1, fuel);
    if r1.Ok? {
      assert f[|a| - 1] == a[|a| - 1];
      var e := Eval(r1.value, a[|a| - 1], fuel);
      if e.Ok? {
        SeqAlign(e.value.st, f, b, |a|, 0, |b| - 1, fuel);
        assert f[n - 1] == b[|b| - 1];
      }
    }
  }

  /** `(begin E ..)` is `eval_all` of its forms. */
  lemma BeginIsEvalAll(st: Store, items: seq<Ref>, fuel: nat)
    requires |items| >= 1
    ensures Control(st, "BEGIN", items, fuel) == EvalAll(st, items[1..], fuel)
  {
    if |items| > 1 {
      SeqAlign(st, items, items[1..], 1, 0, |items| - 2, fuel);
    }
  }

  /** `(if C THEN ELSE)` with a Boolean condition that copies itself
      evaluates exactly the branch it picks; with no ELSE a false condition
      throws; a condition that is not a Boolean fails the cast. */
  lemma IfPicks(st: Store, items: seq<Ref>, c: Val, fuel: nat)
    requires fuel > 0 && Atoms(st, items, 1, [c])
    ensures Control(st, "IF", items, fuel)
            == if c.VBool? then Arg(Clone(st, items[1]).st, items, if c.b then 2 else 3, fuel) else Err(BoolValue(c).fault)
    ensures c == VBool(false) && |items| == 3 ==> Control(st, "IF", items, fuel) == Throw(IndexOutOfBounds)
  {
    AtomStep(st, items, 1, [c], fuel);
  }

  /** A node that copies itself to a value still does once the store grows. */
  lemma AtomKept(st: Store, st': Store, r: Ref, v: Val)
    requires AtomAt(st, r, v) && Grows(st, st')
    ensures AtomAt(st', r, v)
  {
    assert st'.nodes[..|st.nodes|] == st.nodes;
    assert st'.nodes[r] == st.nodes[r];
  }

  /** `(when C E ..)` with a Boolean condition that copies itself is
      `eval_all` of its body when C is true (C evaluated again when there is
      no body), and a new null node when it is false. */
  lemma WhenPicks(st: Store, items: seq<Ref>, b: bool, fuel: nat)
    requires fuel > 0 && |items| >= 2 && Atoms(st, items, 1, [VBool(b)])
    ensures b && |items| >= 3 ==> Control(st, "WHEN", items, fuel) == EvalAll(Clone(st, items[1]).st, items[2..], fuel)
    ensures b && |items| == 2 ==> ValueResult(Control(st, "WHEN", items, fuel)) == Ok(VBool(true))
    ensures !b ==> ValueResult(Control(st, "WHEN", items, fuel)) == Ok(VNull)
  {
    AtomStep(st, items, 1, [VBool(b)], fuel);
    if b && |items| == 2 {
      var c := Clone(st, items[1]);
      AtomKept(st, c.st, items[1], VBool(true));
      CopyEval(c.st, items[1], fuel);
    } else if b {
      SeqAlign(Clone(st, items[1]).st, items, items[2..], 2, 0, |items| - 3, fuel);
    }
  }

  /** `(while false ..)` never runs its body: it gives a new null node. */
  lemma WhileFalse(st: Store, items: seq<Ref>, fuel: nat)
    requires fuel > 0 && |items| >= 2 && Atoms(st, items, 1, [VBool(false)])
    ensures ValueResult(Control(st, "WHILE", items, fuel)) == Ok(VNull)
  {
    AtomStep(st, items, 1, [VBool(false)], fuel);
  }

  /** `(while true)` never finishes, whatever the fuel. */
  lemma {:induction false} WhileTrueLoops(st: Store, items: seq<Ref>, fuel: nat)
    requires |items| == 2 && Atoms(st, items, 1, [VBool(true)])
    ensures WhileLoop(st, items, fuel) == Err(OutOfFuel)
    decreases fuel
  {
    if fuel > 0 {
      AtomStep(st, items, 1, [VBool(true)], fuel);
      var c := Clone(st, items[1]);
      AtomsKept(st, c.st, items, 1, [VBool(true)]);
      WhileTrueLoops(c.st, items, fuel - 1);
    }
  }

  /** Evaluating printed text evaluates the forms it prints. */
  lemma EvalStringPrinted(st: Store, fs: seq<Form>, fuel: nat)
    requires AllPrintable(fs)
    ensures EvalString(st, PrintSeq(fs), fuel) == EvalForms(st, fs, fuel)
  {
    ReadPrinted(fs);
  }

  // ---------------------------------------------------------------------------
  // range and for

  /** The node o is a list of nodes holding the numbers vs, in order, as
      Longs when long and as Integers otherwise. */
  ghost predicate HoldsNumbers(o: Out, vs: seq<int>, long: bool)
  {
    ValueOf(o).VList? && |ValueOf(o).items| == |vs|
    && forall k :: 0 <= k < |vs| ==> ValueAt(o.st, ValueOf(o).items[k]) == Num(long, vs[k])
  }

  /** A new list node over new nodes holding the numbers ns, as `range`
      builds it. */
  function Listed(st: Store, ns: seq<int>, long: bool): (o: Out)
    ensures HoldsNumbers(o, ns, long)
  {
    var (rs, st1) := AllocNumbers(st, ns, long);
    var o := Alloc(st1, VList(rs));
    assert forall k :: 0 <= k < |ns| ==> ValueAt(o.st, rs[k]) == ValueAt(st1, rs[k]);
    o
  }

  /** `range` over number literals reads its three operands (the first one
      twice) and lists the values of the counting loop. */
  lemma RangeUnfold(st: Store, items: seq<Ref>, x: int, last: int, step: int, long: bool, fuel: nat)
    requires fuel > 0 && Fits(long, x) && Fits(long, last) && Fits(long, step)
    requires Atoms(st, items, 1, [Num(long, x), Num(long, last), Num(long, step)])
    ensures var t := Clone(Clone(Clone(Clone(st, items[1]).st, items[1]).st, items[2]).st, items[3]);
            Range(st, items, fuel) == (var ns :- Steps(x, last, step, long, fuel); Ok(Listed(t.st, ns, long)))
  {
    var vs := [Num(long, x), Num(long, last), Num(long, step)];
    AtomStep(st, items, 1, vs, fuel);
    var s := Clone(st, items[1]);
    AtomsKept(st, s.st, items, 1, vs);
    AtomStep(s.st, items, 1, vs, fuel);
    var a := Clone(s.st, items[1]);
    AtomStep(a.st, items, 2, vs[1..], fuel);
    var l := Clone(a.st, items[2]);
    AtomStep(l.st, items, 3, vs[1..][1..], fuel);
    var t := Clone(l.st, items[3]);
    assert Arg(st, items, 1, fuel) == Ok(s) && Arg(s.st, items, 1, fuel) == Ok(a);
    assert Arg(a.st, items, 2, fuel) == Ok(l) && Arg(l.st, items, 3, fuel) == Ok(t);
    NumberValue(long, x);
    NumberValue(long, last);
    NumberValue(long, step);
  }

  lemma NumberValue(long: bool, x: int)
    requires Fits(long, x)
    ensures (if long then LongValue(Num(long, x)) else IntValue(Num(long, x))) == Ok(x)
  {
  }

  /** `(range START END STEP)` over number literals of START's class is a
      list of new nodes holding the values of Java's counting loop; when
      END + STEP does not overflow it is the arithmetic progression from
      START by STEP up to END. */
  lemma RangeOfNumbers(st: Store, items: seq<Ref>, x: int, last: int, step: int, long: bool, fuel: nat)
    requires fuel > 0 && Fits(long, x) && Fits(long, last) && Fits(long, step)
    requires Atoms(st, items, 1, [Num(long, x), Num(long, last), Num(long, step)])
    ensures Range(st, items, fuel).Ok? <==> Steps(x, last, step, long, fuel).Ok?
    ensures Range(st, items, fuel).Ok? ==> HoldsNumbers(Range(st, items, fuel).value, Steps(x, last, step, long, fuel).value, long)
    ensures step != 0 && NoWrap(long, last, step) && fuel >= Count(x, last, step) ==>
              Range(st, items, fuel).Ok? && HoldsNumbers(Range(st, items, fuel).value, Progression(x, step, Count(x, last, step)), long)
  {
    RangeUnfold(st, items, x, last, step, long, fuel);
    if step != 0 && NoWrap(long, last, step) && fuel >= Count(x, last, step) {
      StepsValues(x, last, step, long, fuel);
    }
  }

  /** The counting loop of `for` with no body: it stops exactly when the
      counting loop stops, and leaves the cell holding the last value
      counted, or untouched when there was none. */
  lemma {:induction false} ForLoopNoBody(st: Store, items: seq<Ref>, cell: Ref, a: int, last: int, step: int, long: bool, fuel: nat)
    requires |items| == 5 && cell < |st.nodes|
    ensures ForLoop(st, items, cell, a, last, step, long, fuel).Ok? <==> Steps(a, last, step, long, fuel).Ok?
    ensures ForLoop(st, items, cell, a, last, step, long, fuel).Err? ==> ForLoop(st, items, cell, a, last, step, long, fuel) == Err(OutOfFuel)
    ensures var r := ForLoop(st, items, cell, a, last, step, long, fuel);
            r.Ok? ==> var vs := Steps(a, last, step, long, fuel).value;
                      |r.value.nodes| == |st.nodes|
                      && ValueAt(r.value, cell) == if vs == [] then ValueAt(st, cell) else Num(long, vs[|vs| - 1])
    decreases fuel
  {
    if InRange(a, last, step) && fuel > 0 {
      var st1 := SetValue(st, cell, Num(long, a));
      assert Seq(st1, items, 5, 5, fuel) == Ok(st1);
      ForLoopNoBody(st1, items, cell, WrapTo(long, a + step), last, step, long, fuel - 1);
    }
  }

  /** However its body behaves, a `for` loop that finishes has run through a
      finite count of Java's counting loop within the fuel. */
  lemma {:induction false} ForLoopCounts(st: Store, items: seq<Ref>, cell: Ref, a: int, last: int, step: int, long: bool, fuel: nat)
    requires ForLoop(st, items, cell, a, last, step, long, fuel).Ok?
    ensures Steps(a, last, step, long, fuel).Ok?
    decreases fuel
  {
    if InRange(a, last, step) {
      var st1 :| Seq(SetValue(st, cell, Num(long, a)), items, 5, |items|, fuel) == Ok(st1)
                 && ForLoop(st1, items, cell, WrapTo(long, a + step), last, step, long, fuel - 1).Ok?;
      ForLoopCounts(st1, items, cell, WrapTo(long, a + step), last, step, long, fuel - 1);
    }
  }

  /** The `for` loop as a walk over the values Java's counting loop
      yields: for each value in turn, the cell is set to it and the body
      forms run in order. */
  function ForWalk(st: Store, items: seq<Ref>, cell: Ref, vs: seq<int>, long: bool, fuel: nat): Result<Store>
    decreases |vs|
  {
    if vs == [] then Ok(st)
    else if fuel == 0 then Err(OutOfFuel)
    else
      var st1 :- Seq(SetValue(st, cell, Num(long, vs[0])), items, 5, |items|, fuel);
      ForWalk(st1, items, cell, vs[1..], long, fuel - 1)
  }

  /** Whatever the body does, the counting loop of `for` is the walk over
      the values of Java's counting loop, each body run given one unit of
      fuel less than the one before. */
  lemma {:induction false} ForLoopWalks(st: Store, items: seq<Ref>, cell: Ref, a: int, last: int, step: int, long: bool, fuel: nat, vs: seq<int>)
    requires Steps(a, last, step, long, fuel) == Ok(vs)
    ensures ForLoop(st, items, cell, a, last, step, long, fuel) == ForWalk(st, items, cell, vs, long, fuel)
    decreases fuel
  {
    if InRange(a, last, step) {
      var rest := Steps(WrapTo(long, a + step), last, step, long, fuel - 1).value;
      assert vs == [a] + rest && vs[1..] == rest;
      var r := Seq(SetValue(st, cell, Num(long, a)), items, 5, |items|, fuel);
      if r.Ok? {
        ForLoopWalks(r.value, items, cell, WrapTo(long, a + step), last, step, long, fuel - 1, rest);
      }
    }
  }

  lemma NumberWrap(long: bool, x: int)
    requires Fits(long, x)
    ensures WrapTo(long, x) == x
  {
    WrapInRange(x);
  }

  /** `(for CELL START END STEP ..)` over number literals of START's class
      runs the counting loop from the store that the copies of the three
      operands leave, then gives a new null node. */
  lemma ForUnfold(st: Store, items: seq<Ref>, x: int, last: int, step: int, long: bool, fuel: nat)
    requires fuel > 0 && |items| >= 5
    requires Fits(long, x) && Fits(long, last) && Fits(long, step)
    requires Atoms(st, items, 2, [Num(long, x), Num(long, last), Num(long, step)])
    ensures var t := Clone(Clone(Clone(st, items[2]).st, items[3]).st, items[4]);
            var lp := ForLoop(t.st, items, items[1], x, last, step, long, fuel);
            For(st, items, fuel) == if lp.Ok? then Ok(Alloc(lp.value, VNull)) else Err(lp.fault)
  {
    var vs := [Num(long, x), Num(long, last), Num(long, step)];
    AtomStep(st, items, 2, vs, fuel);
    var s := Clone(st, items[2]);
    AtomStep(s.st, items, 3, vs[1..], fuel);
    var l := Clone(s.st, items[3]);
    AtomStep(l.st, items, 4, vs[1..][1..], fuel);
    var t := Clone(l.st, items[4]);
    assert Arg(st, items, 2, fuel) == Ok(s) && Arg(s.st, items, 3, fuel) == Ok(l) && Arg(l.st, items, 4, fuel) == Ok(t);
    NumberValue(long, last);
    NumberValue(long, step);
    NumberWrap(long, x);
  }

  /** `(for CELL START END STEP BODY..)` over number literals is the walk
      over the values of Java's counting loop: the body runs once per value
      with the cell holding it, in order; the loop finishes only when the
      counting loop does within the fuel. */
  lemma ForOfNumbersWalks(st: Store, items: seq<Ref>, x: int, last: int, step: int, long: bool, fuel: nat)
    requires fuel > 0 && |items| >= 5
    requires Fits(long, x) && Fits(long, last) && Fits(long, step)
    requires Atoms(st, items, 2, [Num(long, x), Num(long, last), Num(long, step)])
    ensures For(st, items, fuel).Ok? ==> Steps(x, last, step, long, fuel).Ok?
    ensures Steps(x, last, step, long, fuel).Ok? ==>
              var t := Clone(Clone(Clone(st, items[2]).st, items[3]).st, items[4]);
              var w := ForWalk(t.st, items, items[1], Steps(x, last, step, long, fuel).value, long, fuel);
              For(st, items, fuel) == if w.Ok? then Ok(Alloc(w.value, VNull)) else Err(w.fault)
  {
    ForUnfold(st, items, x, last, step, long, fuel);
    var t := Clone(Clone(Clone(st, items[2]).st, items[3]).st, items[4]);
    var lp := ForLoop(t.st, items, items[1], x, last, step, long, fuel);
    if lp.Ok? {
      ForLoopCounts(t.st, items, items[1], x, last, step, long, fuel);
    }
    if Steps(x, last, step, long, fuel).Ok? {
      ForLoopWalks(t.st, items, items[1], x, last, step, long, fuel, Steps(x, last, step, long, fuel).value);
    }
  }

  /** `(for CELL START END STEP)` over number literals with no body
      finishes exactly when Java's counting loop does; a step that can never
      pass END (step 0, or END at the edge of the type's range) loops until
      the fuel runs out. */
  lemma ForOfNumbers(st: Store, items: seq<Ref>, x: int, last: int, step: int, long: bool, fuel: nat)
    requires fuel > 0 && |items| == 5 && items[1] < |st.nodes|
    requires Fits(long, x) && Fits(long, last) && Fits(long, step)
    requires Atoms(st, items, 2, [Num(long, x), Num(long, last), Num(long, step)])
    ensures For(st, items, fuel).Ok? <==> Steps(x, last, step, long, fuel).Ok?
    ensures InRange(x, last, step)
            && (step == 0 || (step > 0 && last == (if long then LONG_MAX else INT_MAX))
                          || (step < 0 && last == (if long then LONG_MIN else INT_MIN))) ==>
              For(st, items, fuel) == Err(OutOfFuel)
  {
    ForUnfold(st, items, x, last, step, long, fuel);
    var t := Clone(Clone(Clone(st, items[2]).st, items[3]).st, items[4]);
    assert items[1] < |t.st.nodes|;
    ForLoopNoBody(t.st, items, items[1], x, last, step, long, fuel);
    if InRange(x, last, step)
       && (step == 0 || (step > 0 && last == (if long then LONG_MAX else INT_MAX))
                     || (step < 0 && last == (if long then LONG_MIN else INT_MIN))) {
      StepsNeverEnd(x, last, step, long, fuel);
    }
  }

  /** ... and leaves the cell holding the last value counted. */
  lemma ForLeavesLastValue(st: Store, items: seq<Ref>, x: int, last: int, step: int, long: bool, fuel: nat)
    requires fuel > 0 && |items| == 5 && items[1] < |st.nodes|
    requires Fits(long, x) && Fits(long, last) && Fits(long, step)
    requires Atoms(st, items, 2, [Num(long, x), Num(long, last), Num(long, step)])
    requires For(st, items, fuel).Ok?
    ensures Steps(x, last, step, long, fuel).Ok?
    ensures var vs := Steps(x, last, step, long, fuel).value;
            vs != [] ==> ValueAt(For(st, items, fuel).value.st, items[1]) == Num(long, vs[|vs| - 1])
  {
    ForUnfold(st, items, x, last, step, long, fuel);
    var t := Clone(Clone(Clone(st, items[2]).st, items[3]).st, items[4]);
    assert items[1] < |t.st.nodes|;
    ForLoopNoBody(t.st, items, items[1], x, last, step, long, fuel);
    var lp := ForLoop(t.st, items, items[1], x, last, step, long, fuel);
    var o := Alloc(lp.value, VNull);
    assert NodeAt(o.st, items[1]) == NodeAt(lp.value, items[1]);
  }

  // ---------------------------------------------------------------------------
  // Closure calls

  /** Binding a closure's parameter puts the argument's value into the
      closure's own frame, the one made when `fn` was compiled: no frame is
      created, and whatever that frame held under the name before, from an
      earlier or an enclosing call of the same closure, is overwritten. */
  lemma BindOverwrites(st: Store, p: Ref, items: seq<Ref>, env: nat, k: string, fuel: nat)
    requires env < |st.frames| && |items| >= 2
    requires Show(st, ValueAt(st, p), fuel) == Ok(k)
    requires Compile(st, items[1], env, fuel).Ok?
    requires var c := Compile(st, items[1], env, fuel).value; Eval(c.st, c.ref, fuel).Ok?
    ensures var c := Compile(st, items[1], env, fuel).value;
            var v := Eval(c.st, c.ref, fuel).value;
            var r := Bind(st, [p], items, env, 0, fuel);
            r.Ok? && |r.value.frames| == |v.st.frames| && r.value.nodes == v.st.nodes
            && Get(r.value, env, k) == Some(v.ref)
            && FrameAt(r.value, env).vars == FrameAt(v.st, env).vars[k := v.ref]
  {
    var c := Compile(st, items[1], env, fuel).value;
    var v := Eval(c.st, c.ref, fuel).value;
    PutThenGet(v.st, env, k, v.ref);
  }
  /** Binding one parameter to an argument that is not a call and not a
      symbol puts a copy of the argument into the closure's frame. */
  lemma BindAtom(st: Store, p: Ref, items: seq<Ref>, env: nat, k: string, a: Val, fuel: nat)
    requires fuel > 0 && env < |st.frames| && |items| == 2
    requires Show(st, ValueAt(st, p), fuel) == Ok(k) && AtomAt(st, items[1], a) && !a.VSym?
    ensures var v := Clone(st, items[1]);
            Bind(st, [p], items, env, 0, fuel) == Ok(Put(v.st, env, k, v.ref))
            && ValueAt(v.st, v.ref) == a && Grows(st, v.st) && env < |v.st.frames|
  {
    assert Compile(st, items[1], env, fuel) == Ok(Out(items[1], st));
    CopyEval(st, items[1], fuel);
    var v := Clone(st, items[1]);
    assert Bind(Put(v.st, env, k, v.ref), [p], items, env, 1, fuel) == Ok(Put(v.st, env, k, v.ref));
  }

  /** `((fn (x) x) e)` on an argument that is not a call and not a symbol:
      the parameter is bound to a copy of the argument, and the body's one
      form, the parameter's name, reads that copy back. */
  lemma IdentityClosure(st: Store, def: seq<Ref>, env: nat, items: seq<Ref>, p: Ref, k: string, a: Val, fuel: nat)
    requires fuel > 0 && |def| == 3 && env < |st.frames| && |items| == 2
    requires ValueAt(st, def[1]) == VList([p]) && Show(st, ValueAt(st, p), fuel) == Ok(k)
    requires ValueAt(st, def[2]).VSym? && ValueAt(st, def[2]).name == k
    requires Atoms(st, items, 1, [a]) && !a.VSym?
    ensures Apply(st, def, env, items, fuel).Ok?
    ensures ValueOf(Apply(st, def, env, items, fuel).value) == a
  {
    assert AtomAt(st, items[1 + 0], [a][0]);
    BindAtom(st, p, items, env, k, a, fuel);
    var v := Clone(st, items[1]);
    var st1 := Put(v.st, env, k, v.ref);
    PutThenGet(v.st, env, k, v.ref);
    ReadParameter(st, st1, def[2], env, k, v.ref, a, fuel);
  }

  /** The parameter's name, once bound to a cell holding a, compiles to that
      cell and evaluates to a copy of a. */
  lemma ReadParameter(st: Store, st1: Store, b: Ref, env: nat, k: string, c: Ref, a: Val, fuel: nat)
    requires fuel > 0 && ValueAt(st, b).VSym? && ValueAt(st, b).name == k && Grows(st, st1)
    requires Get(st1, env, k) == Some(c) && ValueAt(st1, c) == a
    ensures var o := Compile(st1, b, env, fuel);
            o.Ok? && Eval(o.value.st, o.value.ref, fuel).Ok? && ValueOf(Eval(o.value.st, o.value.ref, fuel).value) == a
  {
    assert ValueAt(st1, b) == ValueAt(st, b);
    var st2 := MarkData(st1, c);
    assert Compile(st1, b, env, fuel) == Ok(Out(c, st2));
    assert ValueAt(st2, c) == a;
    EvalCopies(st2, c, fuel);
  }
}
