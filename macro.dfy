/** Macros of Paren 1.7 (`apply_macro` and `macroexpand` in paren.java): a
    call of a macro binds the macro's parameters to the call's argument
    nodes and copies the template, replacing parameter names and splicing
    `...`. */
module ParenMacro {
  import opened JavaLang
  import opened ParenReader
  import opened ParenStore

  /** The parameter name that captures the remaining arguments. */
  const ELLIPSIS: string := "..."

  /** Whether a template element's stringValue() is "...": only a string or
      a symbol can print that way. */
  predicate IsEllipsis(v: Val)
  {
    v == VStr(ELLIPSIS) || (v.VSym? && v.name == ELLIPSIS)
  }

  /** stringValue() of a leaf, the key a template leaf is looked up by. */
  function LeafKey(v: Val): (r: Result<string>)
    requires !v.VList?
    ensures v.VSym? ==> r == Ok(v.name)
    ensures v.VStr? ==> r == Ok(v.s)
  {
    match v
    case VNull => Ok("")
    case VInt(i) => Ok(ShowInt(i))
    case VLong(l) => Ok(ShowInt(l))
    case VDbl => Err(Unmodelled("Double.toString"))
    case VBool(b) => Ok(if b then "true" else "false")
    case VStr(s) => Ok(s)
    case VSym(name, _) => Ok(name)
    case VBuiltin(op) => Ok(op)
    case VFn(_, _) => Err(Unmodelled("fn.toString"))
  }

  /** Nodes that existed before are untouched, and frames and macros are
      unchanged: the expander only adds nodes. */
  predicate Grows(st: Store, st': Store)
  {
    |st.nodes| <= |st'.nodes| && st'.nodes[..|st.nodes|] == st.nodes
    && st'.frames == st.frames && st'.macros == st.macros
  }

  lemma GrowsTrans(a: Store, b: Store, c: Store)
    requires Grows(a, b) && Grows(b, c)
    ensures Grows(a, c)
  {
    assert c.nodes[..|a.nodes|] == c.nodes[..|b.nodes|][..|a.nodes|];
  }

  /** `apply_macro(body, vars)`: a list template becomes a new list node of
      the expanded elements; a leaf whose stringValue() names a variable
      becomes that variable's node itself, and any other leaf is the
      template node itself. */
  function ApplyMacro(st: Store, body: Ref, vars: map<string, Ref>, fuel: nat): (r: Result<Out>)
    ensures r.Ok? ==> Grows(st, r.value.st)
    ensures r.Ok? && ValueAt(st, body).VList? ==> r.value.ref == |r.value.st.nodes| - 1 >= |st.nodes|
    ensures r.Ok? && !ValueAt(st, body).VList? ==>
              r.value.st == st && r.value.ref in {body} + vars.Values
    decreases fuel, 1, 0
  {
    var v := ValueAt(st, body);
    if v.VList? then
      if fuel == 0 then Err(OutOfFuel)
      else
        var (ret, st') :- ApplyItems(st, v.items, 0, vars, [], fuel - 1);
        Ok(Alloc(st', VList(ret)))
    else
      var key :- LeafKey(v);
      if key in vars then Ok(Out(vars[key], st)) else Ok(Out(body, st))
  }

  /** The loop of apply_macro over the template elements from i: a `...`
      element splices the items of the `...` variable (null when there is
      none), anything else is expanded. */
  function ApplyItems(st: Store, bvec: seq<Ref>, i: nat, vars: map<string, Ref>, ret: seq<Ref>, fuel: nat)
    : (r: Result<(seq<Ref>, Store)>)
    ensures r.Ok? ==> Grows(st, r.value.1) && |r.value.0| >= |ret| && r.value.0[..|ret|] == ret
    decreases fuel, 2, |bvec| - i
  {
    if i >= |bvec| then Ok((ret, st))
    else
      var b := bvec[i];
      if IsEllipsis(ValueAt(st, b)) then
        if ELLIPSIS !in vars then Throw(NullPointer)
        else
          var spliced :- ListValue(ValueAt(st, vars[ELLIPSIS]));
          var r := ApplyItems(st, bvec, i + 1, vars, ret + spliced, fuel);
          if r.Ok? then assert (ret + spliced)[..|ret|] == ret; r else r
      else
        var o :- ApplyMacro(st, b, vars, fuel);
        var r := ApplyItems(o.st, bvec, i + 1, vars, ret + [o.ref], fuel);
        if r.Ok? then
          GrowsTrans(st, o.st, r.value.1);
          assert (ret + [o.ref])[..|ret|] == ret;
          r
        else r
  }

  /** The variables of a macro call: parameter i is bound to argument i + 1
      (the node itself); a `...` parameter is bound to a new list node of all
      remaining arguments and ends the binding. */
  function MacroVars(st: Store, argsyms: seq<Ref>, items: seq<Ref>, i: nat, vars: map<string, Ref>, fuel: nat)
    : (r: Result<(map<string, Ref>, Store)>)
    ensures r.Ok? ==> Grows(st, r.value.1)
    decreases |argsyms| - i
  {
    if i >= |argsyms| then Ok((vars, st))
    else
      var argsym :- Show(st, ValueAt(st, argsyms[i]), fuel);
      if argsym == ELLIPSIS then
        var rest := if i + 1 <= |items| then items[i + 1..] else [];
        var o := Alloc(st, VList(rest));
        Ok((vars[argsym := o.ref], o.st))
      else if i + 1 >= |items| then Throw(IndexOutOfBounds)
      else MacroVars(st, argsyms, items, i + 1, vars[argsym := items[i + 1]], fuel)
  }

  /** `macroexpand(n)`: a list whose head's stringValue() names a macro is
      replaced by the expansion of that macro's template; any other node is
      returned as it is. */
  function MacroExpand(st: Store, n: Ref, fuel: nat): (r: Result<Out>)
    ensures r.Ok? ==> Grows(st, r.value.st)
  {
    var items :- ListValue(ValueAt(st, n));
    if |items| == 0 then Throw(IndexOutOfBounds)
    else
      var key :- Show(st, ValueAt(st, items[0]), fuel);
      if key !in st.macros then Ok(Out(n, st))
      else
        var (params, template) := st.macros[key];
        var argsyms :- ListValue(ValueAt(st, params));
        var (vars, st') :- MacroVars(st, argsyms, items, 0, map[], fuel);
        var o :- ApplyMacro(st', template, vars, fuel);
        GrowsTrans(st, st', o.st);
        Ok(o)
  }

  // ---------------------------------------------------------------------------
  // Reading node trees back as forms

  /** The form a tree of nodes stands for (symbols by name); null, Double,
      Boolean, builtin and closure nodes have none here. */
  function AsForm(st: Store, r: Ref, fuel: nat): Result<Form>
    decreases fuel, 0, 0
  {
    match ValueAt(st, r)
    case VStr(s) => Ok(FStr(s))
    case VInt(i) => Ok(FInt(i))
    case VLong(l) => Ok(FLong(l))
    case VSym(name, _) => Ok(FSym(name))
    case VList(items) =>
      if fuel == 0 then Err(OutOfFuel)
      else
        var fs :- AsForms(st, items, fuel - 1);
        Ok(FList(fs))
    case _ => Err(Unmodelled("not a parsed form"))
  }

  function AsForms(st: Store, rs: seq<Ref>, fuel: nat): (r: Result<seq<Form>>)
    ensures r.Ok? ==> |r.value| == |rs|
    decreases fuel, 1, |rs|
  {
    if rs == [] then Ok([])
    else
      var f :- AsForm(st, rs[0], fuel);
      var fs :- AsForms(st, rs[1..], fuel);
      Ok([f] + fs)
  }

  /** Nesting depth of a form. */
  function Depth(f: Form): nat
  {
    match f
    case FList(items) => 1 + DepthOf(items)
    case _ => 0
  }

  function DepthOf(fs: seq<Form>): nat
  {
    if fs == [] then 0
    else
      var d := Depth(fs[0]);
      var e := DepthOf(fs[1..]);
      if d > e then d else e
  }

  /** Forms with no Double, whose nodes read back. */
  predicate NoDouble(f: Form)
  {
    match f
    case FDbl(_) => false
    case FList(items) => forall k :: 0 <= k < |items| ==> NoDouble(items[k])
    case _ => true
  }

  /** Reading back depends only on the nodes read: adding nodes changes
      nothing. */
  lemma {:induction false} AsFormStable(st: Store, st': Store, r: Ref, fuel: nat)
    requires |st.nodes| <= |st'.nodes| && st'.nodes[..|st.nodes|] == st.nodes
    requires AsForm(st, r, fuel).Ok?
    ensures AsForm(st', r, fuel) == AsForm(st, r, fuel)
    decreases fuel, 0, 0
  {
    assert r < |st.nodes|;
    assert st'.nodes[r] == st.nodes[r];
    if ValueAt(st, r).VList? {
      AsFormsStable(st, st', ValueAt(st, r).items, fuel - 1);
    }
  }

  lemma {:induction false} AsFormsStable(st: Store, st': Store, rs: seq<Ref>, fuel: nat)
    requires |st.nodes| <= |st'.nodes| && st'.nodes[..|st.nodes|] == st.nodes
    requires AsForms(st, rs, fuel).Ok?
    ensures AsForms(st', rs, fuel) == AsForms(st, rs, fuel)
    decreases fuel, 1, |rs|
  {
    if rs != [] {
      AsFormStable(st, st', rs[0], fuel);
      AsFormsStable(st, st', rs[1..], fuel);
    }
  }

  /** The nodes the parser allocates for a form read back as that form. */
  lemma {:induction false} AllocFormReadsBack(st: Store, f: Form, fuel: nat)
    requires NoDouble(f) && fuel >= Depth(f)
    ensures AsForm(AllocForm(st, f).st, AllocForm(st, f).ref, fuel) == Ok(f)
    decreases f, 1
  {
    if f.FList? {
      var (refs, st') := AllocForms(st, f.items);
      AllocFormsReadBack(st, f.items, fuel - 1);
      var o := Alloc(st', VList(refs));
      AsFormsStable(st', o.st, refs, fuel - 1);
    }
  }

  lemma {:induction false} AllocFormsReadBack(st: Store, fs: seq<Form>, fuel: nat)
    requires (forall k :: 0 <= k < |fs| ==> NoDouble(fs[k])) && fuel >= DepthOf(fs)
    ensures AsForms(AllocForms(st, fs).1, AllocForms(st, fs).0, fuel) == Ok(fs)
    decreases fs, 0
  {
    if fs != [] {
      var o := AllocForm(st, fs[0]);
      AllocFormReadsBack(st, fs[0], fuel);
      var (rest, st') := AllocForms(o.st, fs[1..]);
      AllocFormsReadBack(o.st, fs[1..], fuel);
      AsFormStable(o.st, st', o.ref, fuel);
      assert AllocForms(st, fs).0 == [o.ref] + rest;
      assert ([o.ref] + rest)[1..] == rest;
      assert [fs[0]] + fs[1..] == fs;
    }
  }
}
