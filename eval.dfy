/** The evaluator of Paren 1.7 (`eval`, `eval_all` and `eval_string` in
    paren.java) over the explicit store. A list that is not data is a call:
    its head is evaluated, a builtin runs its branch, a closure is applied,
    a null head throws and any other head gives a new null node; anything
    that is not a call evaluates to a clone of its node. An escaping
    Java exception abandons the whole evaluation, so a fault carries no
    store. Every nested evaluation and every iteration of `while`, `for`
    and `range` uses one unit of fuel. */
module ParenEval {
  import opened JavaLang
  import opened ParenReader
  import opened ParenStore
  import opened ParenCompile

  /** The builtins, by the branch of `eval` that runs them. */
  const ARITH: set<string> := {"PLUS", "MINUS", "MUL", "DIV"}
  const NUMERIC: set<string> := {"PERCENT", "INC", "DEC", "PLUSPLUS", "MINUSMINUS"}
  const LOGIC: set<string> := {"EQ", "EQEQ", "NOTEQ", "LT", "GT", "LTE", "GTE", "ANDAND", "OROR", "NOT"}
  const CONTROL: set<string> := {"IF", "WHEN", "FOR", "WHILE", "SET", "BEGIN"}
  const STRINGS: set<string> := {"STRLEN", "STRCAT", "CHAR_AT", "CHR", "STRING", "INT", "LONG", "READ_STRING", "EVAL"}
  const LISTS: set<string> := {"QUOTE", "FN", "LIST", "APPLY", "FOLD", "MAP", "FILTER", "RANGE", "NTH", "LENGTH", "CONS", "NULLP"}

  /** Builtins whose work is floating point, host reflection, or console and
      process I/O. */
  const UNMODELLED: set<string> := {
    "CARET", "SQRT", "FLOOR", "CEIL", "LN", "LOG10", "RAND", "DOUBLE", "TYPE",
    "DOT", "DOTGET", "DOTSET", "NEW", "CAST", "PR", "PRN", "EXIT", "SYSTEM"}

  lemma CompiledEvolves(st: Store, st': Store, env: nat)
    requires Compiled(st, st', env)
    ensures Evolves(st, st')
  {
  }

  // ---------------------------------------------------------------------------
  // eval

  /** `eval(n)`. */
  function Eval(st: Store, n: Ref, fuel: nat): (r: Result<Out>)
    ensures r.Ok? ==> Evolves(st, r.value.st)
    decreases fuel, 0, 0
  {
    if fuel == 0 then Err(OutOfFuel)
    else
      match ValueAt(st, n)
      case VList(items) =>
        if NodeAt(st, n).isData then Ok(Clone(st, n))
        else if |items| == 0 then Ok(Alloc(st, VNull))
        else
          var h :- Eval(st, items[0], fuel - 1);
          (match ValueOf(h)
           case VBuiltin(op) =>
             var o :- Builtin(h.st, op, n, items, fuel - 1);
             EvolvesTrans(st, h.st, o.st);
             Ok(o)
           case VFn(def, env) =>
             var o :- Apply(h.st, def, env, items, fuel - 1);
             EvolvesTrans(st, h.st, o.st);
             Ok(o)
           case VNull => Throw(NullPointer)
           case _ => Ok(Alloc(h.st, VNull)))
      case _ => Ok(Clone(st, n))
  }

  /** `eval(nArrayList.get(i))`. */
  function Arg(st: Store, items: seq<Ref>, i: nat, fuel: nat): (r: Result<Out>)
    ensures r.Ok? ==> i < |items| && r == Eval(st, items[i], fuel)
    ensures i >= |items| ==> r == Throw(IndexOutOfBounds)
    ensures r.Ok? ==> Evolves(st, r.value.st)
    decreases fuel, 1, 0
  {
    if i < |items| then Eval(st, items[i], fuel) else Throw(IndexOutOfBounds)
  }

  /** `eval(nArrayList.get(i)).doubleValue()` where only its failure matters:
      a number passes, anything else throws. */
  function DoubleArg(st: Store, items: seq<Ref>, i: nat, fuel: nat): (r: Result<Out>)
    ensures r.Ok? ==> IsNumber(ValueOf(r.value)) && Evolves(st, r.value.st)
    decreases fuel, 1, 0
  {
    if i >= |items| then Throw(IndexOutOfBounds)
    else
      var o :- Eval(st, items[i], fuel);
      if IsNumber(ValueOf(o)) then Ok(o) else Err(DoubleFault(ValueOf(o)))
  }

  /** Evaluates elements i .. end - 1 in order, for their effects. */
  function Seq(st: Store, items: seq<Ref>, i: nat, end: nat, fuel: nat): (r: Result<Store>)
    requires end <= |items|
    ensures r.Ok? ==> Evolves(st, r.value)
    decreases fuel, 2, end - i
  {
    if i >= end then Ok(st)
    else
      var e :- Eval(st, items[i], fuel);
      Seq(e.st, items, i + 1, end, fuel)
  }

  /** The values of elements i.. appended to acc, in order. */
  function EvalEach(st: Store, items: seq<Ref>, i: nat, acc: seq<Ref>, fuel: nat): (r: Result<(seq<Ref>, Store)>)
    requires i <= |items|
    ensures r.Ok? ==> Evolves(st, r.value.1) && |r.value.0| == |acc| + (|items| - i)
    decreases fuel, 2, |items| - i
  {
    if i >= |items| then Ok((acc, st))
    else
      var e :- Eval(st, items[i], fuel);
      EvalEach(e.st, items, i + 1, acc + [e.ref], fuel)
  }

  /** The switch over the builtin enum. */
  function Builtin(st: Store, op: string, n: Ref, items: seq<Ref>, fuel: nat): (r: Result<Out>)
    requires |items| > 0
    ensures r.Ok? ==> Evolves(st, r.value.st)
    decreases fuel, 6, 0
  {
    if op in ARITH then Arith(st, op, items, fuel)
    else if op in NUMERIC then Numeric(st, op, items, fuel)
    else if op in LOGIC then Logic(st, op, items, fuel)
    else if op in CONTROL then Control(st, op, items, fuel)
    else if op in STRINGS then Strings(st, op, items, fuel)
    else if op in LISTS then Lists(st, op, n, items, fuel)
    else if op in UNMODELLED then Err(Unmodelled(op))
    else Ok(Alloc(st, VNull))
  }

  // ---------------------------------------------------------------------------
  // Arithmetic

  /** One step of an int fold. */
  function IntStep(op: string, a: int, b: int): (r: Result<int>)
    requires op in ARITH
    ensures r.Ok? ==> IsInt(r.value)
    ensures r.Err? <==> op == "DIV" && b == 0
  {
    if op == "PLUS" then Ok(IntAdd(a, b))
    else if op == "MINUS" then Ok(IntSub(a, b))
    else if op == "MUL" then Ok(IntMul(a, b))
    else IntDiv(a, b)
  }

  /** One step of a long fold. */
  function LongStep(op: string, a: int, b: int): (r: Result<int>)
    requires op in ARITH
    ensures r.Ok? ==> IsLong(r.value)
    ensures r.Err? <==> op == "DIV" && b == 0
  {
    if op == "PLUS" then Ok(LongAdd(a, b))
    else if op == "MINUS" then Ok(LongSub(a, b))
    else if op == "MUL" then Ok(LongMul(a, b))
    else LongDiv(a, b)
  }

  /** `+ - * /`: no operand gives the shared 0 or 1 node; otherwise the
      first operand's class picks int or long arithmetic, and every later
      operand is narrowed to it. */
  function Arith(st: Store, op: string, items: seq<Ref>, fuel: nat): (r: Result<Out>)
    requires op in ARITH
    ensures r.Ok? ==> Evolves(st, r.value.st)
    ensures |items| <= 1 ==> r == Ok(Out(if op == "PLUS" || op == "MINUS" then ZERO else ONE, st))
    ensures r.Ok? && |items| > 1 ==>
              r.value.ref == |r.value.st.nodes| - 1
              && ((ValueOf(r.value).VInt? && IsInt(ValueOf(r.value).i)) || (ValueOf(r.value).VLong? && IsLong(ValueOf(r.value).l)))
    decreases fuel, 5, 0
  {
    if |items| <= 1 then Ok(Out(if op == "PLUS" || op == "MINUS" then ZERO else ONE, st))
    else
      var first :- Eval(st, items[1], fuel);
      match ValueOf(first)
      case VInt(i) =>
        var (acc, st') :- IntFold(first.st, op, items, 2, Wrap32(i), fuel);
        Ok(Alloc(st', VInt(acc)))
      case VLong(l) =>
        var (acc, st') :- LongFold(first.st, op, items, 2, Wrap64(l), fuel);
        Ok(Alloc(st', VLong(acc)))
      case v => Err(DoubleFault(v))
  }

  /** The int fold over the operands from i, each narrowed by intValue(). */
  function IntFold(st: Store, op: string, items: seq<Ref>, i: nat, acc: int, fuel: nat): (r: Result<(int, Store)>)
    requires op in ARITH && IsInt(acc)
    ensures r.Ok? ==> IsInt(r.value.0) && Evolves(st, r.value.1)
    decreases fuel, 2, |items| - i
  {
    if i >= |items| then Ok((acc, st))
    else
      var e :- Eval(st, items[i], fuel);
      var x :- IntValue(ValueOf(e));
      var acc' :- IntStep(op, acc, x);
      IntFold(e.st, op, items, i + 1, acc', fuel)
  }

  /** The long fold over the operands from i, each widened by longValue(). */
  function LongFold(st: Store, op: string, items: seq<Ref>, i: nat, acc: int, fuel: nat): (r: Result<(int, Store)>)
    requires op in ARITH && IsLong(acc)
    ensures r.Ok? ==> IsLong(r.value.0) && Evolves(st, r.value.1)
    decreases fuel, 2, |items| - i
  {
    if i >= |items| then Ok((acc, st))
    else
      var e :- Eval(st, items[i], fuel);
      var x :- LongValue(ValueOf(e));
      var acc' :- LongStep(op, acc, x);
      LongFold(e.st, op, items, i + 1, acc', fuel)
  }

  /** `%`, `inc`, `dec`, and `++`/`--`, which change the node of their
      argument in place without evaluating it. */
  function Numeric(st: Store, op: string, items: seq<Ref>, fuel: nat): (r: Result<Out>)
    requires op in NUMERIC
    ensures r.Ok? ==> Evolves(st, r.value.st)
    decreases fuel, 5, 0
  {
    if op == "PERCENT" then
      var a :- Arg(st, items, 1, fuel);
      var x :- IntValue(ValueOf(a));
      var b :- Arg(a.st, items, 2, fuel);
      var y :- IntValue(ValueOf(b));
      var z :- IntRem(x, y);
      Ok(Alloc(b.st, VInt(z)))
    else if |items| <= 1 then Ok(Out(ZERO, st))
    else if op == "INC" || op == "DEC" then
      var d := if op == "INC" then 1 else -1;
      var a :- Eval(st, items[1], fuel);
      match ValueOf(a)
      case VInt(i) => Ok(Alloc(a.st, VInt(Wrap32(i + d))))
      case VLong(l) => Ok(Alloc(a.st, VLong(Wrap64(l + d))))
      case v => Err(DoubleFault(v))
    else
      var d := if op == "PLUSPLUS" then 1 else -1;
      var n2 := items[1];
      match ValueAt(st, n2)
      case VInt(i) => Ok(Out(n2, SetValue(st, n2, VInt(Wrap32(i + d)))))
      case VLong(l) => Ok(Out(n2, SetValue(st, n2, VLong(Wrap64(l + d)))))
      case v => Err(DoubleFault(v))
  }

  // ---------------------------------------------------------------------------
  // Comparison and logic

  /** The comparison of `<`, `>`, `<=` and `>=`. */
  function Compare(op: string, x: int, y: int): bool
  {
    if op == "LT" then x < y
    else if op == "GT" then x > y
    else if op == "LTE" then x <= y
    else x >= y
  }

  function Logic(st: Store, op: string, items: seq<Ref>, fuel: nat): (r: Result<Out>)
    requires op in LOGIC
    ensures r.Ok? ==> Evolves(st, r.value.st)
    decreases fuel, 5, 0
  {
    if op == "EQ" then
      var first :- Arg(st, items, 1, fuel);
      EqualsLoop(first.st, items, 2, ValueOf(first), fuel)
    else if op == "EQEQ" || op == "NOTEQ" then
      var first :- Arg(st, items, 1, fuel);
      match ValueOf(first)
      case VInt(i) => NumEqLoop(first.st, items, 2, Wrap32(i), false, op == "EQEQ", fuel)
      case VLong(l) => NumEqLoop(first.st, items, 2, Wrap64(l), true, op == "EQEQ", fuel)
      case v => Err(DoubleFault(v))
    else if op == "ANDAND" || op == "OROR" then
      BoolLoop(st, items, 1, op == "OROR", fuel)
    else if op == "NOT" then
      var a :- Arg(st, items, 1, fuel);
      var b :- BoolValue(ValueOf(a));
      Ok(Alloc(a.st, VBool(!b)))
    else
      var a :- Arg(st, items, 1, fuel);
      var b :- Arg(a.st, items, 2, fuel);
      match ValueOf(a)
      case VInt(i) =>
        var y :- IntValue(ValueOf(b));
        Ok(Alloc(b.st, VBool(Compare(op, Wrap32(i), y))))
      case VLong(l) =>
        var y :- LongValue(ValueOf(b));
        Ok(Alloc(b.st, VBool(Compare(op, Wrap64(l), y))))
      case v => Err(DoubleFault(v))
  }

  /** `=` from operand i: the shared false node as soon as an operand's value
      does not equal() the first, else the shared true node. */
  function EqualsLoop(st: Store, items: seq<Ref>, i: nat, first: Val, fuel: nat): (r: Result<Out>)
    ensures r.Ok? ==> Evolves(st, r.value.st) && r.value.ref in {TRUE, FALSE}
    decreases fuel, 2, |items| - i
  {
    if i >= |items| then Ok(Out(TRUE, st))
    else
      var e :- Eval(st, items[i], fuel);
      var same :- JEquals(ValueOf(e), first);
      if !same then Ok(Out(FALSE, e.st)) else EqualsLoop(e.st, items, i + 1, first, fuel)
  }

  /** `==` (eq) and `!=` (not eq) from operand i, comparing as ints or longs:
      the shared false node as soon as an operand differs from (for `!=`:
      equals) the first, else the shared true node. */
  function NumEqLoop(st: Store, items: seq<Ref>, i: nat, first: int, long: bool, eq: bool, fuel: nat): (r: Result<Out>)
    ensures r.Ok? ==> Evolves(st, r.value.st) && r.value.ref in {TRUE, FALSE}
    decreases fuel, 2, |items| - i
  {
    if i >= |items| then Ok(Out(TRUE, st))
    else
      var e :- Eval(st, items[i], fuel);
      var x :- if long then LongValue(ValueOf(e)) else IntValue(ValueOf(e));
      if (x == first) != eq then Ok(Out(FALSE, e.st)) else NumEqLoop(e.st, items, i + 1, first, long, eq, fuel)
  }

  /** `&&` (stop = false) and `||` (stop = true) from operand i: the shared
      node of stop as soon as an operand is stop, else the other one. */
  function BoolLoop(st: Store, items: seq<Ref>, i: nat, stop: bool, fuel: nat): (r: Result<Out>)
    ensures r.Ok? ==> Evolves(st, r.value.st) && r.value.ref in {TRUE, FALSE}
    decreases fuel, 2, |items| - i
  {
    if i >= |items| then Ok(Out(if stop then FALSE else TRUE, st))
    else
      var e :- Eval(st, items[i], fuel);
      var b :- BoolValue(ValueOf(e));
      if b == stop then Ok(Out(if stop then TRUE else FALSE, e.st)) else BoolLoop(e.st, items, i + 1, stop, fuel)
  }

  // ---------------------------------------------------------------------------
  // Control

  function Control(st: Store, op: string, items: seq<Ref>, fuel: nat): (r: Result<Out>)
    requires op in CONTROL
    ensures r.Ok? ==> Evolves(st, r.value.st)
    decreases fuel, 5, 0
  {
    if op == "SET" then
      if |items| < 2 then Throw(IndexOutOfBounds)
      else
        var v :- Arg(st, items, 2, fuel);
        Ok(Out(items[1], SetValue(v.st, items[1], ValueOf(v))))
    else if op == "IF" then
      var c :- Arg(st, items, 1, fuel);
      var b :- BoolValue(ValueOf(c));
      var o :- Arg(c.st, items, if b then 2 else 3, fuel);
      EvolvesTrans(st, c.st, o.st);
      Ok(o)
    else if op == "WHEN" then
      var c :- Arg(st, items, 1, fuel);
      var b :- BoolValue(ValueOf(c));
      if b then
        var st1 :- Seq(c.st, items, 2, |items| - 1, fuel);
        var o :- Eval(st1, items[|items| - 1], fuel);
        EvolvesTrans(st, c.st, st1);
        Ok(o)
      else Ok(Alloc(c.st, VNull))
    else if op == "WHILE" then
      if |items| < 2 then Throw(IndexOutOfBounds)
      else
        var st1 :- WhileLoop(st, items, fuel);
        Ok(Alloc(st1, VNull))
    else if op == "BEGIN" then
      if |items| <= 1 then Ok(Alloc(st, VNull))
      else
        var st1 :- Seq(st, items, 1, |items| - 1, fuel);
        Eval(st1, items[|items| - 1], fuel)
    else
      For(st, items, fuel)
  }

  /** `while`: the condition, then the body, until the condition is false. */
  function WhileLoop(st: Store, items: seq<Ref>, fuel: nat): (r: Result<Store>)
    requires |items| >= 2
    ensures r.Ok? ==> Evolves(st, r.value)
    decreases fuel, 3, 0
  {
    var c :- Eval(st, items[1], fuel);
    var b :- BoolValue(ValueOf(c));
    if !b then Ok(c.st)
    else if fuel == 0 then Err(OutOfFuel)
    else
      var st1 :- Seq(c.st, items, 2, |items|, fuel);
      WhileLoop(st1, items, fuel - 1)
  }

  /** `(for CELL START END STEP EXPR ..)`: START's class picks an int or a
      long loop; END and STEP are narrowed to it. */
  function For(st: Store, items: seq<Ref>, fuel: nat): (r: Result<Out>)
    ensures r.Ok? ==> Evolves(st, r.value.st)
    ensures r.Ok? ==> r.value.ref == |r.value.st.nodes| - 1 && ValueOf(r.value) == VNull
    decreases fuel, 4, 0
  {
    var start :- Arg(st, items, 2, fuel);
    match ValueOf(start)
    case VInt(s) =>
      var l :- Arg(start.st, items, 3, fuel);
      var last :- IntValue(ValueOf(l));
      var t :- Arg(l.st, items, 4, fuel);
      var step :- IntValue(ValueOf(t));
      var st1 :- ForLoop(t.st, items, items[1], Wrap32(s), last, step, false, fuel);
      Ok(Alloc(st1, VNull))
    case VLong(s) =>
      var l :- Arg(start.st, items, 3, fuel);
      var last :- LongValue(ValueOf(l));
      var t :- Arg(l.st, items, 4, fuel);
      var step :- LongValue(ValueOf(t));
      var st1 :- ForLoop(t.st, items, items[1], Wrap64(s), last, step, true, fuel);
      Ok(Alloc(st1, VNull))
    case v =>
      var l :- DoubleArg(start.st, items, 3, fuel);
      var t :- DoubleArg(l.st, items, 4, fuel);
      Err(DoubleFault(v))
  }

  /** The counting loop of `for`: the cell takes each value of the loop
      variable, then the body runs. */
  function ForLoop(st: Store, items: seq<Ref>, cell: Ref, a: int, last: int, step: int, long: bool, fuel: nat)
    : (r: Result<Store>)
    ensures r.Ok? ==> Evolves(st, r.value)
    decreases fuel, 3, 0
  {
    if !InRange(a, last, step) then Ok(st)
    else if fuel == 0 then Err(OutOfFuel)
    else
      var st1 :- Seq(SetValue(st, cell, Num(long, a)), items, 5, |items|, fuel);
      ForLoop(st1, items, cell, WrapTo(long, a + step), last, step, long, fuel - 1)
  }

  // ---------------------------------------------------------------------------
  // Strings

  function Strings(st: Store, op: string, items: seq<Ref>, fuel: nat): (r: Result<Out>)
    requires op in STRINGS
    ensures r.Ok? ==> Evolves(st, r.value.st)
    decreases fuel, 5, 0
  {
    if op == "STRCAT" then
      if |items| <= 1 then Ok(Alloc(st, VStr("")))
      else
        var first :- Eval(st, items[1], fuel);
        var s :- Show(first.st, ValueOf(first), fuel);
        var (acc, st1) :- CatLoop(first.st, items, 2, s, fuel);
        Ok(Alloc(st1, VStr(acc)))
    else if op == "EVAL" then
      var a :- Arg(st, items, 1, fuel);
      var c :- Compile(a.st, a.ref, GLOBAL, fuel);
      var e :- Eval(c.st, c.ref, fuel);
      CompiledEvolves(a.st, c.st, GLOBAL);
      Ok(Alloc(e.st, ValueOf(e)))
    else if op == "CHAR_AT" then
      var a :- Arg(st, items, 1, fuel);
      var s :- Show(a.st, ValueOf(a), fuel);
      var b :- Arg(a.st, items, 2, fuel);
      var i :- IntValue(ValueOf(b));
      if 0 <= i < |s| then Ok(Alloc(b.st, VInt(s[i] as int))) else Throw(IndexOutOfBounds)
    else
      var a :- Arg(st, items, 1, fuel);
      Convert(a, op, fuel)
  }

  /** The one-operand string builtins, given their evaluated operand. */
  function Convert(a: Out, op: string, fuel: nat): (r: Result<Out>)
    ensures r.Ok? ==> Evolves(a.st, r.value.st) && r.value.ref == |r.value.st.nodes| - 1
    ensures r.Ok? && op == "STRING" ==> Ok(ValueOf(r.value)) == (var s :- Show(a.st, ValueOf(a), fuel); Ok(VStr(s)))
  {
    var v := ValueOf(a);
    if op == "STRLEN" then
      var s :- Show(a.st, v, fuel);
      Ok(Alloc(a.st, VInt(|s|)))
    else if op == "STRING" then
      var s :- Show(a.st, v, fuel);
      Ok(Alloc(a.st, VStr(s)))
    else if op == "INT" then
      var i :- IntValue(v);
      Ok(Alloc(a.st, VInt(i)))
    else if op == "LONG" then
      var l :- LongValue(v);
      Ok(Alloc(a.st, VLong(l)))
    else if op == "CHR" then
      var i :- IntValue(v);
      var c := i % 0x1_0000;
      if 0xD800 <= c < 0xE000 then Err(Unmodelled("a lone surrogate char"))
      else Ok(Alloc(a.st, VStr([c as char])))
    else
      var s :- Show(a.st, v, fuel);
      var forms :- ReadProgram(s);
      if |forms| == 0 then Throw(IndexOutOfBounds)
      else
        var (refs, st1) := AllocForms(a.st, forms);
        Ok(Alloc(st1, ValueAt(st1, refs[0])))
  }

  /** `strcat` from operand i: each operand's stringValue() appended. */
  function CatLoop(st: Store, items: seq<Ref>, i: nat, acc: string, fuel: nat): (r: Result<(string, Store)>)
    ensures r.Ok? ==> Evolves(st, r.value.1) && |r.value.0| >= |acc| && r.value.0[..|acc|] == acc
    decreases fuel, 2, |items| - i
  {
    if i >= |items| then Ok((acc, st))
    else
      var e :- Eval(st, items[i], fuel);
      var s :- Show(e.st, ValueOf(e), fuel);
      var r := CatLoop(e.st, items, i + 1, acc + s, fuel);
      if r.Ok? then
        assert r.value.0[..|acc + s|][..|acc|] == r.value.0[..|acc|];
        r
      else r
  }

  // ---------------------------------------------------------------------------
  // Lists

  function Lists(st: Store, op: string, n: Ref, items: seq<Ref>, fuel: nat): (r: Result<Out>)
    requires op in LISTS && |items| > 0
    ensures r.Ok? ==> Evolves(st, r.value.st)
    decreases fuel, 5, 0
  {
    if op == "QUOTE" then
      if |items| < 2 then Throw(IndexOutOfBounds) else Ok(Out(items[1], st))
    else if op == "FN" then Ok(Out(n, st))
    else if op == "LIST" then
      var (rs, st1) :- EvalEach(st, items, 1, [], fuel);
      Ok(Alloc(st1, VList(rs)))
    else if op == "RANGE" then Range(st, items, fuel)
    else if op == "LENGTH" then
      var a :- Arg(st, items, 1, fuel);
      var lst :- ListValue(ValueOf(a));
      Ok(Alloc(a.st, VInt(|lst|)))
    else if op == "NULLP" then
      var a :- Arg(st, items, 1, fuel);
      Ok(Alloc(a.st, VBool(ValueOf(a) == VNull)))
    else if op == "NTH" then
      var a :- Arg(st, items, 1, fuel);
      var i :- IntValue(ValueOf(a));
      var b :- Arg(a.st, items, 2, fuel);
      var lst :- ListValue(ValueOf(b));
      if 0 <= i < |lst| then Ok(Out(lst[i], b.st)) else Throw(IndexOutOfBounds)
    else
      var f :- Arg(st, items, 1, fuel);
      var l :- Arg(f.st, items, 2, fuel);
      var lst :- ListValue(ValueOf(l));
      var o :- Higher(l.st, op, f.ref, lst, fuel);
      EvolvesTrans(st, l.st, o.st);
      Ok(o)
  }

  /** `cons`, `apply`, `map`, `filter` and `fold`, given the evaluated
      function (or element, for `cons`) and the list. */
  function Higher(st: Store, op: string, f: Ref, lst: seq<Ref>, fuel: nat): (r: Result<Out>)
    ensures r.Ok? ==> Evolves(st, r.value.st)
    ensures op == "CONS" ==> r == Ok(Alloc(st, VList([f] + lst)))
    decreases fuel, 4, 0
  {
    if op == "CONS" then Ok(Alloc(st, VList([f] + lst)))
    else if op == "APPLY" then
      var o := Alloc(st, VList([f] + lst));
      Eval(o.st, o.ref, fuel)
    else if op == "MAP" then
      var (rs, st1) :- MapLoop(st, f, lst, 0, [], fuel);
      Ok(Alloc(st1, VList(rs)))
    else if op == "FILTER" then
      var (rs, st1) :- FilterLoop(st, f, lst, 0, [], fuel);
      Ok(Alloc(st1, VList(rs)))
    else
      if |lst| == 0 then Throw(IndexOutOfBounds)
      else
        var acc :- Eval(st, lst[0], fuel);
        FoldLoop(acc.st, f, lst, 1, acc.ref, fuel)
  }

  /** `map` from element i: the value of a new call node (f element). */
  function MapLoop(st: Store, f: Ref, lst: seq<Ref>, i: nat, acc: seq<Ref>, fuel: nat): (r: Result<(seq<Ref>, Store)>)
    requires i <= |lst|
    ensures r.Ok? ==> Evolves(st, r.value.1) && |r.value.0| == |acc| + (|lst| - i)
    decreases fuel, 2, |lst| - i
  {
    if i >= |lst| then Ok((acc, st))
    else
      var o := Alloc(st, VList([f, lst[i]]));
      var e :- Eval(o.st, o.ref, fuel);
      MapLoop(e.st, f, lst, i + 1, acc + [e.ref], fuel)
  }

  /** `filter` from element i: the elements themselves for which (f element)
      is true. */
  function FilterLoop(st: Store, f: Ref, lst: seq<Ref>, i: nat, acc: seq<Ref>, fuel: nat)
    : (r: Result<(seq<Ref>, Store)>)
    requires i <= |lst|
    ensures r.Ok? ==> Evolves(st, r.value.1) && acc <= r.value.0
    ensures r.Ok? ==> forall k :: 0 <= k < |r.value.0| ==> r.value.0[k] in acc || r.value.0[k] in lst[i..]
    decreases fuel, 2, |lst| - i
  {
    if i >= |lst| then Ok((acc, st))
    else
      var o := Alloc(st, VList([f, lst[i]]));
      var e :- Eval(o.st, o.ref, fuel);
      var keep :- BoolValue(ValueOf(e));
      FilterLoop(e.st, f, lst, i + 1, if keep then acc + [lst[i]] else acc, fuel)
  }

  /** `fold` from element i: the accumulator becomes the value of a new call
      node (f acc element). */
  function FoldLoop(st: Store, f: Ref, lst: seq<Ref>, i: nat, acc: Ref, fuel: nat): (r: Result<Out>)
    ensures r.Ok? ==> Evolves(st, r.value.st)
    decreases fuel, 2, |lst| - i
  {
    if i >= |lst| then Ok(Out(acc, st))
    else
      var o := Alloc(st, VList([f, acc, lst[i]]));
      var e :- Eval(o.st, o.ref, fuel);
      FoldLoop(e.st, f, lst, i + 1, e.ref, fuel)
  }

  /** `(range START END STEP)`: START's class picks int or long; START is
      evaluated a second time for its value. */
  function Range(st: Store, items: seq<Ref>, fuel: nat): (r: Result<Out>)
    ensures r.Ok? ==> Evolves(st, r.value.st)
    ensures r.Ok? ==> ValueOf(r.value).VList?
    decreases fuel, 4, 0
  {
    var start :- Arg(st, items, 1, fuel);
    if !(ValueOf(start).VInt? || ValueOf(start).VLong?) then
      var a :- DoubleArg(start.st, items, 1, fuel);
      var l :- DoubleArg(a.st, items, 2, fuel);
      var t :- DoubleArg(l.st, items, 3, fuel);
      Err(Unmodelled("a range over doubles"))
    else
      var long := ValueOf(start).VLong?;
      var a :- Arg(start.st, items, 1, fuel);
      var x :- if long then LongValue(ValueOf(a)) else IntValue(ValueOf(a));
      var l :- Arg(a.st, items, 2, fuel);
      var last :- if long then LongValue(ValueOf(l)) else IntValue(ValueOf(l));
      var t :- Arg(l.st, items, 3, fuel);
      var step :- if long then LongValue(ValueOf(t)) else IntValue(ValueOf(t));
      var vs :- Steps(x, last, step, long, fuel);
      var (rs, st1) := AllocNumbers(t.st, vs, long);
      Ok(Alloc(st1, VList(rs)))
  }

  /** New nodes for the values vs, in order. */
  function AllocNumbers(st: Store, vs: seq<int>, long: bool): (r: (seq<Ref>, Store))
    ensures |r.0| == |vs| && |r.1.nodes| == |st.nodes| + |vs|
    ensures r.1.nodes[..|st.nodes|] == st.nodes && r.1.frames == st.frames && r.1.macros == st.macros
    ensures forall k :: 0 <= k < |vs| ==> r.0[k] == |st.nodes| + k && ValueAt(r.1, r.0[k]) == Num(long, vs[k])
    decreases |vs|
  {
    if vs == [] then ([], st)
    else
      var o := Alloc(st, Num(long, vs[0]));
      var (rest, st1) := AllocNumbers(o.st, vs[1..], long);
      assert st1.nodes[..|st.nodes|] == st1.nodes[..|o.st.nodes|][..|st.nodes|];
      assert forall k :: 1 <= k < |vs| ==> vs[1..][k - 1] == vs[k];
      assert ValueAt(st1, o.ref) == ValueAt(o.st, o.ref) by {
        assert st1.nodes[..|o.st.nodes|][o.ref] == st1.nodes[o.ref];
      }
      ([o.ref] + rest, st1)
  }

  // ---------------------------------------------------------------------------
  // Closures

  /** A call of a closure with definition def and frame env: each parameter
      is bound in the closure's own frame to the value of its argument,
      compiled in that frame; then the body is compiled in that frame and
      run, and the last element's value is returned. */
  function Apply(st: Store, def: seq<Ref>, env: nat, items: seq<Ref>, fuel: nat): (r: Result<Out>)
    ensures r.Ok? ==> Evolves(st, r.value.st)
    decreases fuel, 5, 0
  {
    if |def| < 2 then Throw(IndexOutOfBounds)
    else
      var params :- ListValue(ValueAt(st, def[1]));
      var st1 :- Bind(st, params, items, env, 0, fuel);
      var st2 :- Body(st1, def, 2, env, fuel);
      var c :- Compile(st2, def[|def| - 1], env, fuel);
      CompiledEvolves(st2, c.st, env);
      var o :- Eval(c.st, c.ref, fuel);
      EvolvesTrans(st, st1, st2);
      EvolvesTrans(st, st2, c.st);
      Ok(o)
  }

  /** Binds parameters i.. : parameter i takes the value of argument i + 1. */
  function Bind(st: Store, params: seq<Ref>, items: seq<Ref>, env: nat, i: nat, fuel: nat): (r: Result<Store>)
    ensures r.Ok? ==> Evolves(st, r.value)
    decreases fuel, 2, |params| - i
  {
    if i >= |params| then Ok(st)
    else
      var k :- Show(st, ValueAt(st, params[i]), fuel);
      if i + 1 >= |items| then Throw(IndexOutOfBounds)
      else
        var c :- Compile(st, items[i + 1], env, fuel);
        CompiledEvolves(st, c.st, env);
        var v :- Eval(c.st, c.ref, fuel);
        Bind(Put(v.st, env, k, v.ref), params, items, env, i + 1, fuel)
  }

  /** The body elements from i, all but the last, each compiled in the
      closure's frame and evaluated. */
  function Body(st: Store, def: seq<Ref>, i: nat, env: nat, fuel: nat): (r: Result<Store>)
    ensures r.Ok? ==> Evolves(st, r.value)
    decreases fuel, 2, |def| - i
  {
    if i + 1 >= |def| then Ok(st)
    else
      var c :- Compile(st, def[i], env, fuel);
      CompiledEvolves(st, c.st, env);
      var e :- Eval(c.st, c.ref, fuel);
      Body(e.st, def, i + 1, env, fuel)
  }

  // ---------------------------------------------------------------------------
  // Programs

  /** `eval_all`: every form in order, the value of the last (a new null node
      when there is none). */
  function EvalAll(st: Store, forms: seq<Ref>, fuel: nat): (r: Result<Out>)
    ensures r.Ok? ==> Evolves(st, r.value.st)
    ensures forms == [] ==> r == Ok(Alloc(st, VNull))
  {
    if forms == [] then Ok(Alloc(st, VNull))
    else
      var st1 :- Seq(st, forms, 0, |forms| - 1, fuel);
      Eval(st1, forms[|forms| - 1], fuel)
  }

  /** `eval_string`: read every form, compile them all in the global frame,
      then evaluate them in order. */
  function EvalString(st: Store, s: string, fuel: nat): (r: Result<Out>)
    ensures r.Ok? ==> |st.nodes| <= |r.value.st.nodes| && |st.frames| <= |r.value.st.frames|
  {
    var forms :- ReadProgram(s);
    EvalForms(st, forms, fuel)
  }

  /** The forms a program reads as, allocated, compiled in the global frame
      and evaluated in order. */
  function EvalForms(st: Store, forms: seq<Form>, fuel: nat): (r: Result<Out>)
    ensures r.Ok? ==> |st.nodes| <= |r.value.st.nodes| && |st.frames| <= |r.value.st.frames|
  {
    var (refs, st1) := AllocForms(st, forms);
    var (compiled, st2) :- CompileAll(st1, refs, fuel);
    CompiledEvolves(st1, st2, GLOBAL);
    EvalAll(st2, compiled, fuel)
  }
}
