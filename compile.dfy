/** The compile pass of Paren 1.7 (`compile` and `compile_all` in
    paren.java): it resolves each bound symbol to the environment's own cell
    node, creates the cells that `set` and `for` assign, turns `fn` into a
    closure with a frame of its own, registers macros and expands their calls.
    Compiling never changes the value of a node that exists. */
module ParenCompile {
  import opened JavaLang
  import opened ParenStore
  import opened ParenMacro

  /** What compiling in frame env may do to a store: add nodes and frames,
      mark nodes as data, bind new names in env, and register macros. Every
      existing node keeps its value, every other existing frame is untouched,
      no binding of env changes, and every new frame encloses env. */
  predicate Compiled(st: Store, st': Store, env: nat)
  {
    && |st.nodes| <= |st'.nodes|
    && (forall q :: 0 <= q < |st.nodes| ==> st'.nodes[q].value == st.nodes[q].value)
    && |st.frames| <= |st'.frames|
    && (forall f :: 0 <= f < |st.frames| && f != env ==> st'.frames[f] == st.frames[f])
    && (forall f :: |st.frames| <= f < |st'.frames| ==> st'.frames[f].outer == Some(env))
    && (env < |st.frames| ==>
          && st'.frames[env].outer == st.frames[env].outer
          && forall k :: k in st.frames[env].vars ==>
               k in st'.frames[env].vars && st'.frames[env].vars[k] == st.frames[env].vars[k])
    && st.macros.Keys <= st'.macros.Keys
  }

  lemma CompiledTrans(a: Store, b: Store, c: Store, env: nat)
    requires Compiled(a, b, env) && Compiled(b, c, env)
    ensures Compiled(a, c, env)
  {
    forall f | |a.frames| <= f < |c.frames| ensures c.frames[f].outer == Some(env) {
      if f < |b.frames| && f != env {
        assert c.frames[f] == b.frames[f];
      }
    }
  }

  /** Macro expansion only adds nodes. */
  lemma GrowsCompiled(st: Store, st': Store, env: nat)
    requires Grows(st, st')
    ensures Compiled(st, st', env)
  {
    forall q | 0 <= q < |st.nodes| ensures st'.nodes[q].value == st.nodes[q].value {
      assert st'.nodes[q] == st'.nodes[..|st.nodes|][q];
    }
  }

  /** The cell a `set` or `for` assigns: the innermost binding of the name
      seen from env, or else a new null node bound to the name in env alone. */
  function Target(st: Store, env: nat, name: string): (r: (Ref, Store))
    ensures Compiled(st, r.1, env)
    ensures Get(st, env, name).Some? ==> r == (Get(st, env, name).value, st)
    ensures Get(st, env, name).None? ==>
              && r.0 == |st.nodes| && NodeAt(r.1, r.0) == Cell(VNull, false)
              && (env < |st.frames| ==> r.1.frames[env].vars == st.frames[env].vars[name := r.0])
  {
    match Get(st, env, name)
    case Some(c) => (c, st)
    case None =>
      var o := Alloc(st, VNull);
      (o.ref, Put(o.st, env, name, o.ref))
  }

  /** `compile(n, env)`: a symbol bound as seen from env becomes that binding's
      cell, marked as data; an unbound symbol, and any other atom, stays as it
      is; a list marked as data stays as it is; an empty list becomes a new
      null node; any other list is compiled as a call. */
  function Compile(st: Store, n: Ref, env: nat, fuel: nat): (r: Result<Out>)
    ensures r.Ok? ==> Compiled(st, r.value.st, env)
    decreases fuel, 0, 0
  {
    match ValueAt(st, n)
    case VSym(name, _) =>
      (match Get(st, env, name)
       case Some(c) => Ok(Out(c, MarkData(st, c)))
       case None => Ok(Out(n, st)))
    case VList(items) =>
      if NodeAt(st, n).isData then Ok(Out(n, st))
      else if |items| == 0 then Ok(Alloc(st, VNull))
      else if fuel == 0 then Err(OutOfFuel)
      else CompileCall(st, n, items, env, fuel - 1)
    case _ => Ok(Out(n, st))
  }

  /** A non-empty list: its head is compiled first; a builtin head selects a
      special form; otherwise a head whose stringValue() names a macro makes
      the expansion be compiled instead, and any other call becomes a new list
      of every element compiled (the head once more). */
  function CompileCall(st: Store, n: Ref, items: seq<Ref>, env: nat, fuel: nat): (r: Result<Out>)
    requires |items| > 0
    ensures r.Ok? ==> Compiled(st, r.value.st, env)
    decreases fuel, 3, 0
  {
    var h :- Compile(st, items[0], env, fuel);
    var func := ValueAt(h.st, h.ref);
    if func.VBuiltin? then
      var o :- CompileSpecial(h.st, func.op, h.ref, items, env, fuel);
      CompiledTrans(st, h.st, o.st, env);
      Ok(o)
    else
      var key :- Show(h.st, ValueAt(h.st, items[0]), fuel);
      if key in h.st.macros then
        var e :- MacroExpand(h.st, n, fuel);
        var c :- Compile(e.st, e.ref, env, fuel);
        GrowsCompiled(h.st, e.st, env);
        CompiledTrans(st, h.st, e.st, env);
        CompiledTrans(st, e.st, c.st, env);
        Ok(c)
      else
        var (refs, st') :- CompileFrom(h.st, items, 0, env, {}, [], fuel);
        CompiledTrans(st, h.st, st', env);
        var o := Alloc(st', VList(refs));
        CompiledTrans(st, st', o.st, env);
        Ok(o)
  }

  /** The special forms, with func the compiled head: `set` and `for` put
      their target cell in place of the name, `fn` becomes a closure over a
      new frame enclosed by env, `quote` keeps its arguments as they are, the
      interop forms keep their name positions, `defmacro` registers a macro
      and becomes a null node, and every other builtin compiles its
      arguments. */
  function CompileSpecial(st: Store, op: string, func: Ref, items: seq<Ref>, env: nat, fuel: nat): (r: Result<Out>)
    requires |items| > 0
    ensures r.Ok? ==> Compiled(st, r.value.st, env)
    decreases fuel, 2, 0
  {
    if op == "SET" then CompileSet(st, func, items, env, fuel)
    else if op == "FOR" then CompileFor(st, func, items, env, fuel)
    else if op == "FN" then
      var (e, st1) := NewFrame(st, env);
      Ok(Alloc(st1, VFn([func] + items[1..], e)))
    else if op == "QUOTE" then
      Ok(Alloc(st, VList([func] + items[1..])))
    else if op == "DEFMACRO" then CompileDefmacro(st, items, env, fuel)
    else
      var (refs, st1) :- CompileFrom(st, items, 1, env, KeptPositions(op), [func], fuel);
      var o := Alloc(st1, VList(refs));
      CompiledTrans(st, st1, o.st, env);
      Ok(o)
  }

  /** `(set NAME VALUE)`: the name must be a symbol; the result is a new
      list of the head, the name's target cell and the compiled value. */
  function CompileSet(st: Store, func: Ref, items: seq<Ref>, env: nat, fuel: nat): (r: Result<Out>)
    ensures r.Ok? ==> Compiled(st, r.value.st, env)
    ensures r.Ok? ==>
              && |items| >= 3 && ValueAt(st, items[1]).VSym?
              && ValueAt(r.value.st, r.value.ref).VList?
              && |ValueAt(r.value.st, r.value.ref).items| == 3
              && ValueAt(r.value.st, r.value.ref).items[0] == func
              && ValueAt(r.value.st, r.value.ref).items[1] == Target(st, env, ValueAt(st, items[1]).name).0
    decreases fuel, 1, 0
  {
    var (cell, st1) :- AssignTarget(st, items, env);
    if |items| < 3 then Throw(IndexOutOfBounds)
    else
      var c :- Compile(st1, items[2], env, fuel);
      var o := Alloc(c.st, VList([func, cell, c.ref]));
      CompiledTrans(st, st1, c.st, env);
      CompiledTrans(st, c.st, o.st, env);
      Ok(o)
  }

  /** `(for NAME START END STEP EXPR ..)`: the name must be a symbol; the
      result is a new list of the head, the name's target cell and the other
      elements compiled. */
  function CompileFor(st: Store, func: Ref, items: seq<Ref>, env: nat, fuel: nat): (r: Result<Out>)
    ensures r.Ok? ==> Compiled(st, r.value.st, env)
    ensures r.Ok? ==>
              && |items| >= 2 && ValueAt(st, items[1]).VSym?
              && ValueAt(r.value.st, r.value.ref).VList?
              && |ValueAt(r.value.st, r.value.ref).items| == |items|
              && ValueAt(r.value.st, r.value.ref).items[0] == func
              && ValueAt(r.value.st, r.value.ref).items[1] == Target(st, env, ValueAt(st, items[1]).name).0
    decreases fuel, 1, |items|
  {
    var (cell, st1) :- AssignTarget(st, items, env);
    var (refs, st2) :- CompileFrom(st1, items, 2, env, {}, [func, cell], fuel);
    var o := Alloc(st2, VList(refs));
    CompiledTrans(st, st1, st2, env);
    CompiledTrans(st, st2, o.st, env);
    assert refs[..2] == [func, cell];
    Ok(o)
  }

  /** The name position of `set` and `for`: `((symbol) value).name`, which
      throws for a missing element, a null or a non-symbol. */
  function AssignTarget(st: Store, items: seq<Ref>, env: nat): (r: Result<(Ref, Store)>)
    ensures r.Ok? <==> |items| >= 2 && ValueAt(st, items[1]).VSym?
    ensures r.Ok? ==> r.value == Target(st, env, ValueAt(st, items[1]).name)
  {
    if |items| < 2 then Throw(IndexOutOfBounds)
    else
      var v := ValueAt(st, items[1]);
      if v.VNull? then Throw(NullPointer)
      else if !v.VSym? then Throw(ClassCast)
      else Ok(Target(st, env, v.name))
  }

  /** `(defmacro NAME PARAMS TEMPLATE)`: registers the macro under the name's
      stringValue() and compiles to a new null node. */
  function CompileDefmacro(st: Store, items: seq<Ref>, env: nat, fuel: nat): (r: Result<Out>)
    ensures r.Ok? ==> |items| >= 4 && Show(st, ValueAt(st, items[1]), fuel).Ok?
    ensures r.Ok? ==> r.value.st.macros == st.macros[Show(st, ValueAt(st, items[1]), fuel).value := (items[2], items[3])]
    ensures r.Ok? ==> Compiled(st, r.value.st, env) && r.value.st.nodes == st.nodes + [Cell(VNull, false)]
  {
    if |items| < 2 then Throw(IndexOutOfBounds)
    else
      var key :- Show(st, ValueAt(st, items[1]), fuel);
      if |items| < 4 then Throw(IndexOutOfBounds)
      else Ok(Alloc(st.(macros := st.macros[key := (items[2], items[3])]), VNull))
  }

  /** The argument positions a builtin's compilation leaves as they are: the
      method name of `.`, the class or object and field name of `.get` and
      `.set`, and the class name of `new`. */
  function KeptPositions(op: string): set<nat>
  {
    if op == "DOT" then {2}
    else if op == "DOTGET" || op == "DOTSET" then {1, 2}
    else if op == "NEW" then {1}
    else {}
  }

  /** Elements i.. of a list, each compiled unless its position is kept,
      appended to acc. */
  function CompileFrom(st: Store, items: seq<Ref>, i: nat, env: nat, keep: set<nat>, acc: seq<Ref>, fuel: nat)
    : (r: Result<(seq<Ref>, Store)>)
    requires i <= |items|
    ensures r.Ok? ==> Compiled(st, r.value.1, env)
    ensures r.Ok? ==> |r.value.0| == |acc| + |items| - i && r.value.0[..|acc|] == acc
    ensures r.Ok? ==> forall k :: i <= k < |items| && k in keep ==> r.value.0[|acc| + k - i] == items[k]
    decreases fuel, 1, |items| - i
  {
    if i == |items| then Ok((acc, st))
    else if i in keep then
      var r := CompileFrom(st, items, i + 1, env, keep, acc + [items[i]], fuel);
      if r.Ok? then
        assert (acc + [items[i]])[..|acc|] == acc;
        assert r.value.0[..|acc| + 1][..|acc|] == r.value.0[..|acc|];
        r
      else r
    else
      var c :- Compile(st, items[i], env, fuel);
      var r := CompileFrom(c.st, items, i + 1, env, keep, acc + [c.ref], fuel);
      if r.Ok? then
        CompiledTrans(st, c.st, r.value.1, env);
        assert (acc + [c.ref])[..|acc|] == acc;
        assert r.value.0[..|acc| + 1][..|acc|] == r.value.0[..|acc|];
        r
      else r
  }

  /** `compile_all`: every top-level form compiled in the global frame, in
      order. */
  function CompileAll(st: Store, forms: seq<Ref>, fuel: nat): (r: Result<(seq<Ref>, Store)>)
    ensures r.Ok? ==> |r.value.0| == |forms| && Compiled(st, r.value.1, GLOBAL)
  {
    CompileFrom(st, forms, 0, GLOBAL, {}, [], fuel)
  }
}
