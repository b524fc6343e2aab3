/** The evaluator of Paren 1.2.3 (`eval`, `eval_all` and `eval_string` in
    src/paren.java), as functions from the global table to a value and the new
    global table. Scoping is dynamic: there is one table of globals, a closure
    call binds its parameters in it and afterwards removes them and puts back
    the bindings it saved. An escaping Java exception abandons the whole
    evaluation, so a fault carries no table. Every nested evaluation and every
    iteration of a `while`, `for` or `range` loop uses one unit of fuel. */
module OldParenEval {
  import opened JavaLang
  import opened OldParenReader

  type Globals = map<string, OVal>

  /** The node an evaluation returns and the global table after it. */
  datatype Step = Step(value: OVal, globals: Globals)

  /** What binding a closure's parameters leaves: the table, the saved
      bindings of parameters that were already bound, and the parameter
      names in order. */
  datatype Frame = Frame(globals: Globals, backup: Globals, names: seq<string>)

  /** The keys of builtin_map. */
  const Builtins: set<string> := {
    "+", "-", "*", "/", "^", "%", "sqrt", "inc", "dec", "++", "--",
    "floor", "ceil", "ln", "log10", "rand",
    "==", "!=", "<", ">", "<=", ">=", "&&", "||", "!",
    "if", "when", "for", "while",
    "strlen", "strcat", "char-at", "chr",
    "int", "double", "string", "read-string", "type",
    "eval", "quote", "fn", "list", "apply", "map", "filter", "range", "nth", "length", "begin",
    ".", ".get", ".set", "new", "set", "pr", "prn", "exit"}

  /** Builtins whose work is floating point, host reflection or console and
      process I/O. */
  const Unsupported: set<string> := {
    "^", "sqrt", "floor", "ceil", "ln", "log10", "rand", "double", "type",
    ".", ".get", ".set", "new", "pr", "prn", "exit"}

  /** The globals `init` creates. */
  const InitialGlobals: Globals := map["true" := OBool(true), "false" := OBool(false), "E" := ODbl, "PI" := ODbl]

  // ---------------------------------------------------------------------------
  // The node accessors

  /** `intValue()`: the Integer itself; a Double would be truncated, which is
      not modelled; anything else fails the cast to Number. */
  function IntValue(v: OVal): (r: Result<int>)
    ensures r.Ok? <==> v.OInt?
    ensures r.Ok? ==> r.value == v.i
    ensures v.ONull? ==> r == Throw(NullPointer)
  {
    match v
    case OInt(i) => Ok(i)
    case ODbl => Err(Unmodelled("double"))
    case ONull => Throw(NullPointer)
    case _ => Throw(ClassCast)
  }

  /** `booleanValue()`: the unboxed Boolean. */
  function BooleanValue(v: OVal): (r: Result<bool>)
    ensures r.Ok? <==> v.OBool?
    ensures r.Ok? ==> r.value == v.b
  {
    match v
    case OBool(b) => Ok(b)
    case ONull => Throw(NullPointer)
    case _ => Throw(ClassCast)
  }

  /** `vectorValue()` followed by a use of the Vector. */
  function VectorValue(v: OVal): (r: Result<seq<OVal>>)
    ensures r.Ok? <==> v.OList?
    ensures r.Ok? ==> r.value == v.items
  {
    match v
    case OList(items) => Ok(items)
    case ONull => Throw(NullPointer)
    case _ => Throw(ClassCast)
  }

  /** How a branch that needs `doubleValue()` or a `(Double)` cast ends: null
      cannot be unboxed, a number would give a double (not modelled), and
      anything else fails the cast. */
  function DoubleFault(v: OVal): (f: Fault)
    ensures f.Thrown? <==> !v.OInt? && !v.ODbl?
    ensures f == Thrown(NullPointer) <==> v.ONull?
  {
    match v
    case ONull => Thrown(NullPointer)
    case OInt(_) => Unmodelled("double")
    case ODbl => Unmodelled("double")
    case _ => Thrown(ClassCast)
  }

  /** `stringValue()`: "" for null, otherwise `toString()` of the value; a
      Vector prints as `[a, b]`. */
  function StringValue(v: OVal): (r: Result<string>)
    ensures (v.OStr? || v.OSym?) ==> r == Ok(if v.OStr? then v.s else v.name)
    ensures v.ONull? ==> r == Ok("")
    ensures v.OInt? ==> r == Ok(ShowInt(v.i))
    ensures v.OBool? ==> r == Ok(if v.b then "true" else "false")
    decreases v
  {
    match v
    case ONull => Ok("")
    case OInt(i) => Ok(ShowInt(i))
    case ODbl => Err(Unmodelled("Double.toString"))
    case OBool(b) => Ok(if b then "true" else "false")
    case OStr(s) => Ok(s)
    case OSym(name) => Ok(name)
    case OList(items) =>
      var inner :- JoinItems(items);
      Ok("[" + inner + "]")
  }

  function JoinItems(items: seq<OVal>): Result<string>
    decreases items
  {
    if items == [] then Ok("")
    else
      var head :- StringValue(items[0]);
      if |items| == 1 then Ok(head)
      else
        var tail :- JoinItems(items[1..]);
        Ok(head + ", " + tail)
  }

  /** A Vector whose elements print as texts prints as `[` + the texts
      separated by ", " + `]`, as `AbstractCollection.toString()` does. */
  lemma StringValueOfList(items: seq<OVal>, texts: seq<string>)
    requires |texts| == |items|
    requires forall k :: 0 <= k < |items| ==> StringValue(items[k]) == Ok(texts[k])
    ensures StringValue(OList(items)) == Ok("[" + CommaJoined(texts) + "]")
  {
    JoinItemsJoined(items, texts);
  }

  lemma {:induction false} JoinItemsJoined(items: seq<OVal>, texts: seq<string>)
    requires |texts| == |items|
    requires forall k :: 0 <= k < |items| ==> StringValue(items[k]) == Ok(texts[k])
    ensures JoinItems(items) == Ok(CommaJoined(texts))
    decreases |items|
  {
    if items != [] {
      if |items| > 1 {
        JoinItemsJoined(items[1..], texts[1..]);
      }
      assert [texts[0]] + texts[1..] == texts;
      CommaJoinedCons(texts[0], texts[1..]);
    }
  }

  /** `new node(x.value)`: the copy is never a symbol. */
  function Demote(v: OVal): (r: OVal)
    ensures !r.OSym?
    ensures v.OSym? ==> r == OStr(v.name)
    ensures !v.OSym? ==> r == v
  {
    if v.OSym? then OStr(v.name) else v
  }

  /** `nvector.get(k)`. */
  function Arg(items: seq<OVal>, k: nat): (r: Result<OVal>)
    ensures r.Ok? <==> k < |items|
    ensures r.Ok? ==> r.value == items[k]
    ensures r.Err? ==> r == Throw(IndexOutOfBounds)
  {
    if k < |items| then Ok(items[k]) else Throw(IndexOutOfBounds)
  }

  /** What a symbol evaluates to: its global binding, else itself when it
      names a builtin, else a new null node. */
  function Lookup(g: Globals, name: string): (r: OVal)
    ensures name in g ==> r == g[name]
    ensures name !in g && name in Builtins ==> r == OSym(name)
    ensures name !in g && name !in Builtins ==> r == ONull
  {
    if name in g then g[name] else if name in Builtins then OSym(name) else ONull
  }

  /** Whether the head of a Vector equals "fn" (a symbol or a string). */
  predicate IsFnHead(v: OVal) { v == OSym("fn") || v == OStr("fn") }

  /** One step of an Integer fold. */
  function IntOp(op: string, a: int, b: int): Result<int>
  {
    if op == "+" then Ok(IntAdd(a, b))
    else if op == "-" then Ok(IntSub(a, b))
    else if op == "*" then Ok(IntMul(a, b))
    else IntDiv(a, b)
  }

  /** The operator of a binary Integer comparison. */
  function Compare(op: string, a: int, b: int): bool
  {
    if op == "<" then a < b else if op == ">" then a > b else if op == "<=" then a <= b else a >= b
  }

  /** The table after a closure call: every parameter removed, then the
      saved bindings put back. */
  function Restore(g: Globals, names: seq<string>, backup: Globals): Globals
  {
    (map k | k in g && k !in names :: g[k]) + backup
  }

  // ---------------------------------------------------------------------------
  // Evaluation

  function Eval(g: Globals, n: OVal, fuel: nat): Result<Step>
    decreases fuel, 0, 0
  {
    if fuel == 0 then Err(OutOfFuel)
    else
      match n
      case OSym(name) => Ok(Step(Lookup(g, name), g))
      case OList(items) =>
        if items == [] then Ok(Step(ONull, g))
        else
          var f :- Eval(g, items[0], fuel - 1);
          Apply(f.globals, f.value, items, fuel - 1)
      case _ => Ok(Step(n, g))
  }

  /** A call whose head evaluated to func: a builtin when func's value is a
      builtin name, a closure when it is a Vector `(fn PARAMS BODY ..)`. */
  function Apply(g: Globals, func: OVal, items: seq<OVal>, fuel: nat): Result<Step>
    requires |items| > 0
    decreases fuel, 6, 0
  {
    if func.ONull? then Throw(NullPointer)
    else if func.OStr? && func.s in Builtins then Builtin(g, func.s, items, fuel)
    else if func.OSym? && func.name in Builtins then Builtin(g, func.name, items, fuel)
    else if !func.OList? then Throw(ClassCast)
    else
      var f := func.items;
      if |f| >= 3 && f[0].ONull? then Throw(NullPointer)
      else if |f| >= 3 && IsFnHead(f[0]) then ApplyClosure(g, f, items, fuel)
      else Ok(Step(ONull, g))
  }

  /** Closure application: bind the parameters one by one, evaluate the
      body, remove the parameters and restore the saved bindings. */
  function ApplyClosure(g: Globals, f: seq<OVal>, items: seq<OVal>, fuel: nat): Result<Step>
    requires |f| >= 3
    decreases fuel, 3, 0
  {
    var syms :- VectorValue(f[1]);
    var fr :- Bind(g, map[], syms, items, 0, [], fuel);
    var body :- EvalLast(fr.globals, f, 2, fuel);
    Ok(Step(body.value, Restore(body.globals, fr.names, fr.backup)))
  }

  /** Binding parameter i onwards: save the current binding of the name, if
      any, then evaluate argument i + 1 and bind it. */
  function Bind(g: Globals, backup: Globals, syms: seq<OVal>, items: seq<OVal>, i: nat,
                names: seq<string>, fuel: nat): Result<Frame>
    decreases fuel, 1, |syms| - i
  {
    if i >= |syms| then Ok(Frame(g, backup, names))
    else
      var k :- StringValue(syms[i]);
      var saved := if k in g then backup[k := g[k]] else backup;
      var arg :- Arg(items, i + 1);
      var a :- Eval(g, arg, fuel);
      Bind(a.globals[k := a.value], saved, syms, items, i + 1, names + [k], fuel)
  }

  /** Evaluating xs[i..] in order; the last one gives the value. */
  function EvalLast(g: Globals, xs: seq<OVal>, i: nat, fuel: nat): Result<Step>
    requires i < |xs|
    decreases fuel, 1, |xs| - i
  {
    var s :- Eval(g, xs[i], fuel);
    if i + 1 == |xs| then Ok(s) else EvalLast(s.globals, xs, i + 1, fuel)
  }

  /** Evaluating xs[i..] in order for their effect on the table. */
  function Run(g: Globals, xs: seq<OVal>, i: nat, fuel: nat): Result<Globals>
    decreases fuel, 1, |xs| - i
  {
    if i >= |xs| then Ok(g)
    else
      var s :- Eval(g, xs[i], fuel);
      Run(s.globals, xs, i + 1, fuel)
  }

  function Builtin(g: Globals, name: string, items: seq<OVal>, fuel: nat): Result<Step>
    requires |items| > 0
    decreases fuel, 5, 0
  {
    if name in Unsupported then Err(Unmodelled(name))
    else if name in {"+", "-", "*", "/"} then Arith(g, name, items, fuel)
    else if name in {"%", "inc", "dec", "++", "--"} then IntegerOp(g, name, items, fuel)
    else if name in {"==", "!=", "<", ">", "<=", ">=", "&&", "||", "!"} then Logic(g, name, items, fuel)
    else if name in {"if", "when", "while", "begin", "for", "range", "set"} then Control(g, name, items, fuel)
    else if name in {"strlen", "strcat", "char-at", "chr", "string", "int", "read-string"} then Strings(g, name, items, fuel)
    else Lists(g, name, items, fuel)
  }

  // ---------------------------------------------------------------------------
  // Arithmetic

  /** `+ - * /`: no operand gives 0 or 1; an Integer first operand starts a
      32-bit fold over the others narrowed by intValue(); any other first
      operand is cast to Double. */
  function Arith(g: Globals, op: string, items: seq<OVal>, fuel: nat): Result<Step>
    decreases fuel, 3, 0
  {
    if |items| <= 1 then Ok(Step(OInt(if op == "+" || op == "-" then 0 else 1), g))
    else
      var first :- Eval(g, items[1], fuel);
      match first.value
      case OInt(i) => FoldInt(first.globals, op, i, items, 2, fuel)
      case _ => Err(DoubleFault(first.value))
  }

  function FoldInt(g: Globals, op: string, acc: int, items: seq<OVal>, i: nat, fuel: nat): Result<Step>
    decreases fuel, 1, |items| - i
  {
    if i >= |items| then Ok(Step(OInt(acc), g))
    else
      var x :- Eval(g, items[i], fuel);
      var n :- IntValue(x.value);
      var next :- IntOp(op, acc, n);
      FoldInt(x.globals, op, next, items, i + 1, fuel)
  }

  /** `%`, `inc`, `dec`, `++` and `--`. */
  function IntegerOp(g: Globals, name: string, items: seq<OVal>, fuel: nat): Result<Step>
    decreases fuel, 3, 0
  {
    if name == "%" then
      var a :- Arg(items, 1);
      var x :- Eval(g, a, fuel);
      var i :- IntValue(x.value);
      var b :- Arg(items, 2);
      var y :- Eval(x.globals, b, fuel);
      var j :- IntValue(y.value);
      var r :- IntRem(i, j);
      Ok(Step(OInt(r), y.globals))
    else if |items| <= 1 then Ok(Step(OInt(0), g))
    else
      var first :- Eval(g, items[1], fuel);
      var delta := if name == "inc" || name == "++" then 1 else -1;
      if name == "inc" || name == "dec" then
        match first.value
        case OInt(i) => Ok(Step(OInt(Wrap32(i + delta)), first.globals))
        case _ => Err(DoubleFault(first.value))
      else
        var key :- StringValue(items[1]);
        if key !in first.globals then Throw(NullPointer)
        else if first.value.OInt? then
          var cur :- IntValue(first.globals[key]);
          Ok(Step(ONull, first.globals[key := OInt(Wrap32(cur + delta))]))
        else Err(DoubleFault(first.globals[key]))
  }

  // ---------------------------------------------------------------------------
  // Comparison and logic

  function Logic(g: Globals, name: string, items: seq<OVal>, fuel: nat): Result<Step>
    decreases fuel, 3, 0
  {
    if name == "&&" || name == "||" then AndOr(g, name == "&&", items, 1, fuel)
    else
      var a :- Arg(items, 1);
      var x :- Eval(g, a, fuel);
      if name == "!" then
        var b :- BooleanValue(x.value);
        Ok(Step(OBool(!b), x.globals))
      else if name == "==" || name == "!=" then
        match x.value
        case OInt(i) => EqChain(x.globals, name == "==", i, items, 2, fuel)
        case _ => Err(DoubleFault(x.value))
      else
        var b :- Arg(items, 2);
        var y :- Eval(x.globals, b, fuel);
        match x.value
        case OInt(i) =>
          var j :- IntValue(y.value);
          Ok(Step(OBool(Compare(name, i, j)), y.globals))
        case _ => Err(DoubleFault(x.value))
  }

  /** `==` (eq) or `!=` (not eq) against the first operand, stopping at the
      first operand that decides false. */
  function EqChain(g: Globals, eq: bool, v: int, items: seq<OVal>, i: nat, fuel: nat): Result<Step>
    decreases fuel, 1, |items| - i
  {
    if i >= |items| then Ok(Step(OBool(true), g))
    else
      var y :- Eval(g, items[i], fuel);
      var n :- IntValue(y.value);
      if (n == v) != eq then Ok(Step(OBool(false), y.globals))
      else EqChain(y.globals, eq, v, items, i + 1, fuel)
  }

  /** `&&` (isAnd) or `||`, stopping at the first operand that decides. */
  function AndOr(g: Globals, isAnd: bool, items: seq<OVal>, i: nat, fuel: nat): Result<Step>
    decreases fuel, 1, |items| - i
  {
    if i >= |items| then Ok(Step(OBool(isAnd), g))
    else
      var y :- Eval(g, items[i], fuel);
      var b :- BooleanValue(y.value);
      if b != isAnd then Ok(Step(OBool(!isAnd), y.globals))
      else AndOr(y.globals, isAnd, items, i + 1, fuel)
  }

  // ---------------------------------------------------------------------------
  // Control, loops and assignment

  function Control(g: Globals, name: string, items: seq<OVal>, fuel: nat): Result<Step>
    decreases fuel, 4, 0
  {
    if name == "begin" then
      if |items| <= 1 then Ok(Step(ONull, g)) else EvalLast(g, items, 1, fuel)
    else if name == "set" then
      var k :- Arg(items, 1);
      var key :- StringValue(k);
      var e :- Arg(items, 2);
      var x :- Eval(g, e, fuel);
      Ok(Step(ONull, x.globals[key := x.value]))
    else if name == "for" then For(g, items, fuel)
    else if name == "range" then Range(g, items, fuel)
    else
      var cond :- Arg(items, 1);
      if name == "while" then WhileLoop(g, cond, items, fuel)
      else
        var c :- Eval(g, cond, fuel);
        var b :- BooleanValue(c.value);
        if name == "if" then
          var e :- Arg(items, if b then 2 else 3);
          Eval(c.globals, e, fuel)
        else if !b then Ok(Step(ONull, c.globals))
        else if |items| >= 3 then EvalLast(c.globals, items, 2, fuel)
        else Eval(c.globals, items[1], fuel)
  }

  function WhileLoop(g: Globals, cond: OVal, items: seq<OVal>, fuel: nat): Result<Step>
    decreases fuel, 2, 0
  {
    var c :- Eval(g, cond, fuel);
    var b :- BooleanValue(c.value);
    if !b then Ok(Step(ONull, c.globals))
    else
      var after :- Run(c.globals, items, 2, fuel);
      if fuel == 0 then Err(OutOfFuel) else WhileLoop(after, cond, items, fuel - 1)
  }

  /** `for` over Integers: the variable is bound to START first; then each
      value a, from START while InRange, is bound and the body run. */
  function For(g: Globals, items: seq<OVal>, fuel: nat): Result<Step>
    decreases fuel, 3, 0
  {
    var s :- Arg(items, 2);
    var start :- Eval(g, s, fuel);
    var l :- Arg(items, 3);
    var lv :- Eval(start.globals, l, fuel);
    var last :- IntValue(lv.value);
    var t :- Arg(items, 4);
    var tv :- Eval(lv.globals, t, fuel);
    var step :- IntValue(tv.value);
    var k :- Arg(items, 1);
    var key :- StringValue(k);
    var a :- IntValue(start.value);
    var after :- ForLoop(tv.globals[key := start.value], key, a, last, step, items, fuel);
    Ok(Step(ONull, after))
  }

  function ForLoop(g: Globals, key: string, a: int, last: int, step: int, items: seq<OVal>, fuel: nat): Result<Globals>
    decreases fuel, 2, 0
  {
    if !InRange(a, last, step) then Ok(g)
    else if fuel == 0 then Err(OutOfFuel)
    else
      var after :- Run(g[key := OInt(a)], items, 5, fuel);
      ForLoop(after, key, Wrap32(a + step), last, step, items, fuel - 1)
  }

  /** `range` over Integers; START is evaluated a second time for its value. */
  function Range(g: Globals, items: seq<OVal>, fuel: nat): Result<Step>
    decreases fuel, 3, 0
  {
    var s :- Arg(items, 1);
    var start :- Eval(g, s, fuel);
    var again :- Eval(start.globals, s, fuel);
    if !start.value.OInt? then Err(DoubleFault(again.value))
    else
      var a :- IntValue(again.value);
      var l :- Arg(items, 2);
      var lv :- Eval(again.globals, l, fuel);
      var last :- IntValue(lv.value);
      var t :- Arg(items, 3);
      var tv :- Eval(lv.globals, t, fuel);
      var step :- IntValue(tv.value);
      var vs :- Steps(a, last, step, false, fuel);
      Ok(Step(OList(Ints(vs)), tv.globals))
  }

  function Ints(vs: seq<int>): (r: seq<OVal>)
    ensures |r| == |vs| && forall i :: 0 <= i < |vs| ==> r[i] == OInt(vs[i])
  {
    if vs == [] then [] else [OInt(vs[0])] + Ints(vs[1..])
  }

  // ---------------------------------------------------------------------------
  // Strings

  function Strings(g: Globals, name: string, items: seq<OVal>, fuel: nat): Result<Step>
    decreases fuel, 3, 0
  {
    if name == "strcat" then
      if |items| <= 1 then Ok(Step(OStr(""), g))
      else
        var x :- Eval(g, items[1], fuel);
        var s :- StringValue(x.value);
        Concat(x.globals, s, items, 2, fuel)
    else
      var a :- Arg(items, 1);
      var x :- Eval(g, a, fuel);
      if name == "int" then
        var i :- IntValue(x.value);
        Ok(Step(OInt(i), x.globals))
      else if name == "chr" then
        var i :- IntValue(x.value);
        var code := i % 0x1_0000;
        if 0xD800 <= code <= 0xDFFF then Err(Unmodelled("surrogate char"))
        else Ok(Step(OStr([code as char]), x.globals))
      else
        var s :- StringValue(x.value);
        if name == "strlen" then Ok(Step(OInt(|s|), x.globals))
        else if name == "string" then Ok(Step(OStr(s), x.globals))
        else if name == "read-string" then
          var forms :- OldParse(s);
          if |forms| == 0 then Throw(IndexOutOfBounds) else Ok(Step(Demote(forms[0]), x.globals))
        else
          var b :- Arg(items, 2);
          var y :- Eval(x.globals, b, fuel);
          var i :- IntValue(y.value);
          if 0 <= i < |s| then Ok(Step(OInt(s[i] as int), y.globals)) else Throw(IndexOutOfBounds)
  }

  function Concat(g: Globals, acc: string, items: seq<OVal>, i: nat, fuel: nat): Result<Step>
    decreases fuel, 1, |items| - i
  {
    if i >= |items| then Ok(Step(OStr(acc), g))
    else
      var x :- Eval(g, items[i], fuel);
      var s :- StringValue(x.value);
      Concat(x.globals, acc + s, items, i + 1, fuel)
  }

  // ---------------------------------------------------------------------------
  // Lists and evaluation as data

  function Lists(g: Globals, name: string, items: seq<OVal>, fuel: nat): Result<Step>
    decreases fuel, 3, 0
  {
    if name == "fn" then Ok(Step(OList(items), g))
    else if name == "list" then
      var r :- EvalEach(g, items, 1, [], fuel);
      Ok(Step(OList(r.0), r.1))
    else
      var a :- Arg(items, 1);
      if name == "quote" then Ok(Step(a, g))
      else
        var x :- Eval(g, a, fuel);
        if name == "eval" then
          var y :- Eval(x.globals, x.value, fuel);
          Ok(Step(Demote(y.value), y.globals))
        else if name == "length" then
          var lst :- VectorValue(x.value);
          Ok(Step(OInt(|lst|), x.globals))
        else if name == "nth" then
          var i :- IntValue(x.value);
          var b :- Arg(items, 2);
          var y :- Eval(x.globals, b, fuel);
          var lst :- VectorValue(y.value);
          if 0 <= i < |lst| then Ok(Step(lst[i], y.globals)) else Throw(IndexOutOfBounds)
        else
          var b :- Arg(items, 2);
          var y :- Eval(x.globals, b, fuel);
          var lst :- VectorValue(y.value);
          if name == "apply" then Eval(y.globals, OList([x.value] + lst), fuel)
          else if name == "map" then
            var r :- MapEach(y.globals, x.value, lst, 0, [], fuel);
            Ok(Step(OList(r.0), r.1))
          else
            var r :- FilterEach(y.globals, x.value, lst, 0, [], fuel);
            Ok(Step(OList(r.0), r.1))
  }

  /** `list`: the values of xs[i..] appended to acc. */
  function EvalEach(g: Globals, xs: seq<OVal>, i: nat, acc: seq<OVal>, fuel: nat): Result<(seq<OVal>, Globals)>
    decreases fuel, 1, |xs| - i
  {
    if i >= |xs| then Ok((acc, g))
    else
      var x :- Eval(g, xs[i], fuel);
      EvalEach(x.globals, xs, i + 1, acc + [x.value], fuel)
  }

  /** `map`: each item is placed in a call `(f item)` and evaluated again. */
  function MapEach(g: Globals, f: OVal, lst: seq<OVal>, i: nat, acc: seq<OVal>, fuel: nat): Result<(seq<OVal>, Globals)>
    decreases fuel, 1, |lst| - i
  {
    if i >= |lst| then Ok((acc, g))
    else
      var x :- Eval(g, OList([f, lst[i]]), fuel);
      MapEach(x.globals, f, lst, i + 1, acc + [x.value], fuel)
  }

  /** `filter`: the items for which `(f item)` evaluates to true. */
  function FilterEach(g: Globals, f: OVal, lst: seq<OVal>, i: nat, acc: seq<OVal>, fuel: nat): Result<(seq<OVal>, Globals)>
    decreases fuel, 1, |lst| - i
  {
    if i >= |lst| then Ok((acc, g))
    else
      var x :- Eval(g, OList([f, lst[i]]), fuel);
      var keep :- BooleanValue(x.value);
      FilterEach(x.globals, f, lst, i + 1, if keep then acc + [lst[i]] else acc, fuel)
  }

  // ---------------------------------------------------------------------------
  // Programs

  /** `eval_all`: null for no forms, else the value of the last. */
  function EvalProgram(g: Globals, forms: seq<OVal>, fuel: nat): Result<Step>
  {
    if forms == [] then Ok(Step(ONull, g)) else EvalLast(g, forms, 0, fuel)
  }

  /** `eval_string`. */
  function EvalString(g: Globals, s: string, fuel: nat): Result<Step>
  {
    var forms :- OldParse(s);
    EvalProgram(g, forms, fuel)
  }
}
