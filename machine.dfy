/** The interpreter object of Paren 1.7 (class `paren` in
    src/paren/paren.java): it owns the node store, the environments and the
    macro table, and runs `compile_all`, `eval_all` and `eval_string` as
    loops over a program's forms. An exception abandons the call and leaves
    the interpreter as it was. */
module ParenMachine {
  import opened JavaLang
  import opened ParenReader
  import opened ParenStore
  import opened ParenCompile
  import opened ParenEval
  import opened ParenMacro
  import opened ParenMacroLaws

  // ---------------------------------------------------------------------------
  // The macros init defines

  /** The macro table after `(defmacro name params template)` has been
      compiled: the parsed parameter list and template, stored unevaluated. */
  function DefineMacro(st: Store, name: string, params: Form, template: Form): (st': Store)
    ensures |st.nodes| < |st'.nodes| && st'.nodes[..|st.nodes|] == st.nodes && st'.frames == st.frames
    ensures st'.macros.Keys == st.macros.Keys + {name}
    ensures forall k :: k in st.macros && k != name ==> st'.macros[k] == st.macros[k]
  {
    var p := AllocForm(st, params);
    var t := AllocForm(p.st, template);
    assert t.st.nodes[..|st.nodes|] == t.st.nodes[..|p.st.nodes|][..|st.nodes|];
    t.st.(macros := t.st.macros[name := (p.ref, t.ref)])
  }

  /** (name ...) */
  const SETFN_PARAMS_FORM: Form := FList([FSym("name"), FSym(ELLIPSIS)])
  /** (...) */
  const DEFN_PARAMS_FORM: Form := FList([FSym(ELLIPSIS)])

  /** What the two eval_string calls at the end of init leave: setfn and defn
      in the macro table. */
  function StartupMacros(st: Store): (st': Store)
    ensures st'.macros.Keys == st.macros.Keys + {"setfn", "defn"}
    ensures |st.nodes| < |st'.nodes| && st'.frames == st.frames && st'.nodes[..|st.nodes|] == st.nodes
  {
    var s1 := DefineMacro(st, "setfn", SETFN_PARAMS_FORM, SETFN_TEMPLATE);
    var s2 := DefineMacro(s1, "defn", DEFN_PARAMS_FORM, DEFN_TEMPLATE);
    assert s2.nodes[..|st.nodes|] == s2.nodes[..|s1.nodes|][..|st.nodes|];
    s2
  }

  /** A defined macro's parameter list and template read back as the forms
      it was defined with. */
  lemma DefinedMacroReadsBack(st: Store, name: string, params: Form, template: Form, fp: nat, fuel: nat)
    requires NoDouble(params) && fp >= Depth(params)
    requires NoDouble(template) && fuel >= Depth(template)
    ensures var st' := DefineMacro(st, name, params, template);
            AsForm(st', st'.macros[name].0, fp) == Ok(params) && AsForm(st', st'.macros[name].1, fuel) == Ok(template)
  {
    var p := AllocForm(st, params);
    var t := AllocForm(p.st, template);
    AllocFormReadsBack(p.st, template, fuel);
    AllocFormReadsBack(st, params, fp);
    AsFormStable(p.st, t.st, p.ref, fp);
    var st' := DefineMacro(st, name, params, template);
    assert st'.nodes[..|t.st.nodes|] == t.st.nodes;
    AsFormStable(t.st, st', t.ref, fuel);
    AsFormStable(t.st, st', p.ref, fp);
  }

  /** A macro defined before another keeps its reading. */
  lemma EarlierMacroReadsBack(st: Store, n1: string, p1: Form, t1: Form, n2: string, p2: Form, t2: Form,
                              fp: nat, fuel: nat)
    requires n1 != n2
    requires NoDouble(p1) && fp >= Depth(p1) && NoDouble(t1) && fuel >= Depth(t1)
    ensures var s := DefineMacro(DefineMacro(st, n1, p1, t1), n2, p2, t2);
            n1 in s.macros && AsForm(s, s.macros[n1].0, fp) == Ok(p1) && AsForm(s, s.macros[n1].1, fuel) == Ok(t1)
  {
    var s1 := DefineMacro(st, n1, p1, t1);
    var s := DefineMacro(s1, n2, p2, t2);
    DefinedMacroReadsBack(st, n1, p1, t1, fp, fuel);
    assert s.macros[n1] == s1.macros[n1];
    AsFormStable(s1, s, s1.macros[n1].0, fp);
    AsFormStable(s1, s, s1.macros[n1].1, fuel);
  }

  /** The symbol forms of a list of names. */
  function SymForms(names: seq<string>): (fs: seq<Form>)
    ensures |fs| == |names| && forall j :: 0 <= j < |names| ==> fs[j] == FSym(names[j])
  {
    if names == [] then [] else [FSym(names[0])] + SymForms(names[1..])
  }

  lemma {:induction false} SymFormsFlat(names: seq<string>)
    ensures DepthOf(SymForms(names)) == 0 && NoDouble(FList(SymForms(names)))
  {
    if names != [] {
      SymFormsFlat(names[1..]);
      assert SymForms(names)[1..] == SymForms(names[1..]);
    }
  }

  /** A node that reads back as a list of symbols prints its elements as
      their names. */
  lemma ParamsFromForm(st: Store, p: Ref, params: seq<string>, fp: nat, fuel: nat)
    requires AsForm(st, p, fp) == Ok(FList(SymForms(params)))
    ensures ParamsPrint(st, p, params, fuel)
  {
    LeafOfForm(st, p, fp, FList(SymForms(params)));
    ListOfForm(st, p, fp, FList(SymForms(params)));
    var items := ValueAt(st, p).items;
    AsFormsEach(st, items, fp - 1, SymForms(params));
    forall j | 0 <= j < |params|
      ensures Show(st, ValueAt(st, items[j]), fuel) == Ok(params[j])
    {
      assert AsForm(st, items[j], fp - 1) == Ok(FSym(params[j]));
      LeafOfForm(st, items[j], fp - 1, FSym(params[j]));
    }
  }

  /** After start-up, (setfn f params body...) expands to a node that reads
      back as (set f (fn params body...)). */
  lemma StartupSetfn(st: Store, n: Ref, f: string, rest: seq<Form>, g: nat, fuel: nat)
    requires fuel >= 2
    requires var s := StartupMacros(st);
             && ValueAt(s, n).VList? && |ValueAt(s, n).items| == |rest| + 2
             && Show(s, ValueAt(s, ValueAt(s, n).items[0]), fuel) == Ok("setfn")
             && AsForms(s, ValueAt(s, n).items[1..], g) == Ok([FSym(f)] + rest)
    ensures var s := StartupMacros(st);
            MacroExpand(s, n, fuel).Ok?
            && AsForm(MacroExpand(s, n, fuel).value.st, MacroExpand(s, n, fuel).value.ref, g + 1 + fuel)
               == Ok(FList([FSym("set"), FSym(f), FList([FSym("fn")] + rest)]))
  {
    StartupSetfnMacro(st, fuel);
    SetfnCall(StartupMacros(st), n, f, rest, g, fuel);
  }

  lemma SetfnForms()
    ensures SETFN_PARAMS_FORM == FList(SymForms(SETFN_PARAMS))
    ensures NoDouble(SETFN_PARAMS_FORM) && Depth(SETFN_PARAMS_FORM) == 1
    ensures NoDouble(SETFN_TEMPLATE) && Depth(SETFN_TEMPLATE) == 2
  {
    SymFormsFlat(SETFN_PARAMS);
    var fnList := [FSym("fn"), FSym(ELLIPSIS)];
    assert DepthOf(fnList[1..]) == 0;
    assert DepthOf(fnList) == 0;
    var top := [FSym("set"), FSym("name"), FList(fnList)];
    assert DepthOf(top[2..]) == 1;
    assert top[1..][1..] == top[2..];
    assert DepthOf(top[1..]) == 1;
    assert DepthOf(top) == 1;
  }

  /** After start-up, setfn's parameters print as name and ..., and its
      template reads back as (set name (fn ...)). */
  lemma StartupSetfnMacro(st: Store, fuel: nat)
    requires fuel >= 2
    ensures var s := StartupMacros(st);
            "setfn" in s.macros && ParamsPrint(s, s.macros["setfn"].0, SETFN_PARAMS, fuel)
            && AsForm(s, s.macros["setfn"].1, fuel) == Ok(SETFN_TEMPLATE)
  {
    var s := StartupMacros(st);
    SetfnForms();
    EarlierMacroReadsBack(st, "setfn", SETFN_PARAMS_FORM, SETFN_TEMPLATE, "defn", DEFN_PARAMS_FORM, DEFN_TEMPLATE, 1, fuel);
    var p := s.macros["setfn"].0;
    ParamsFromForm(s, p, SETFN_PARAMS, 1, fuel);
  }

  lemma DefnForms()
    ensures DEFN_PARAMS_FORM == FList(SymForms(DEFN_PARAMS))
    ensures NoDouble(DEFN_PARAMS_FORM) && Depth(DEFN_PARAMS_FORM) == 1
    ensures NoDouble(DEFN_TEMPLATE) && Depth(DEFN_TEMPLATE) == 1
  {
    SymFormsFlat(DEFN_PARAMS);
    var top := [FSym("setfn"), FSym(ELLIPSIS)];
    assert DepthOf(top[1..]) == 0;
    assert DepthOf(top) == 0;
  }

  /** After start-up, defn's parameter prints as ... and its template reads
      back as (setfn ...). */
  lemma StartupDefnMacro(st: Store, fuel: nat)
    requires fuel >= 1
    ensures var s := StartupMacros(st);
            "defn" in s.macros && ParamsPrint(s, s.macros["defn"].0, DEFN_PARAMS, fuel)
            && AsForm(s, s.macros["defn"].1, fuel) == Ok(DEFN_TEMPLATE)
  {
    var s1 := DefineMacro(st, "setfn", SETFN_PARAMS_FORM, SETFN_TEMPLATE);
    var s := StartupMacros(st);
    DefnForms();
    DefinedMacroReadsBack(s1, "defn", DEFN_PARAMS_FORM, DEFN_TEMPLATE, 1, fuel);
    ParamsFromForm(s, s.macros["defn"].0, DEFN_PARAMS, 1, fuel);
  }

  /** After start-up, (defn f params body...) expands to a node that reads
      back as (setfn f params body...), which compile expands again. */
  lemma StartupDefn(st: Store, n: Ref, args: seq<Form>, g: nat, fuel: nat)
    requires fuel >= 1
    requires var s := StartupMacros(st);
             && ValueAt(s, n).VList? && |ValueAt(s, n).items| == |args| + 1
             && Show(s, ValueAt(s, ValueAt(s, n).items[0]), fuel) == Ok("defn")
             && AsForms(s, ValueAt(s, n).items[1..], g) == Ok(args)
    ensures var s := StartupMacros(st);
            MacroExpand(s, n, fuel).Ok?
            && AsForm(MacroExpand(s, n, fuel).value.st, MacroExpand(s, n, fuel).value.ref, g + 1 + fuel)
               == Ok(FList([FSym("setfn")] + args))
  {
    var s := StartupMacros(st);
    StartupDefnMacro(st, fuel);
    MacroCallReadsBack(s, n, "defn", DEFN_PARAMS, args, DEFN_TEMPLATE, g, fuel);
    DefnExpands(args);
  }

  // ---------------------------------------------------------------------------
  // The interpreter object

  class Interpreter {
    /** Every node, the environments (frame 0 is global_env) and the macros. */
    var store: Store

    constructor (st: Store)
      ensures store == st
    {
      store := st;
    }

    /** `compile_all`: each form compiled in the global environment, in order. */
    method CompileAll(forms: seq<Ref>, fuel: nat) returns (r: Result<seq<Ref>>)
      modifies this
      ensures var f := ParenCompile.CompileAll(old(store), forms, fuel);
              && (r.Ok? <==> f.Ok?)
              && (f.Ok? ==> r.value == f.value.0 && store == f.value.1)
              && (f.Err? ==> store == old(store))
    {
      var st := store;
      var compiled: seq<Ref> := [];
      var i := 0;
      while i < |forms|
        invariant i <= |forms|
        invariant CompileFrom(st, forms, i, GLOBAL, {}, compiled, fuel)
                  == ParenCompile.CompileAll(old(store), forms, fuel)
        invariant store == old(store)
        decreases |forms| - i
      {
        var c := Compile(st, forms[i], GLOBAL, fuel);
        if c.Err? {
          return Err(c.fault);
        }
        st := c.value.st;
        compiled := compiled + [c.value.ref];
        i := i + 1;
      }
      store := st;
      r := Ok(compiled);
    }

    /** `eval_all`: a new null node for no forms, otherwise every form
        evaluated in order and the last one's node. */
    method EvalAll(forms: seq<Ref>, fuel: nat) returns (r: Result<Ref>)
      modifies this
      ensures var f := ParenEval.EvalAll(old(store), forms, fuel);
              && (r.Ok? <==> f.Ok?)
              && (f.Ok? ==> r.value == f.value.ref && store == f.value.st)
              && (f.Err? ==> store == old(store))
    {
      if |forms| == 0 {
        var o := Alloc(store, VNull);
        store := o.st;
        return Ok(o.ref);
      }
      var last := |forms| - 1;
      var st := store;
      var i := 0;
      while i < last
        invariant i <= last
        invariant Seq(st, forms, i, last, fuel) == Seq(old(store), forms, 0, last, fuel)
        invariant store == old(store)
        decreases last - i
      {
        var e := Eval(st, forms[i], fuel);
        if e.Err? {
          return Err(e.fault);
        }
        st := e.value.st;
        i := i + 1;
      }
      var e := Eval(st, forms[last], fuel);
      if e.Err? {
        return Err(e.fault);
      }
      store := e.value.st;
      r := Ok(e.value.ref);
    }

    /** `eval_string`: read the forms, compile them all, evaluate them all. */
    method EvalString(s: string, fuel: nat) returns (r: Result<Ref>)
      modifies this
      ensures var f := ParenEval.EvalString(old(store), s, fuel);
              && (r.Ok? <==> f.Ok?)
              && (f.Ok? ==> r.value == f.value.ref && store == f.value.st)
              && (f.Err? ==> store == old(store))
    {
      var saved := store;
      var forms := ReadProgram(s);
      if forms.Err? {
        return Err(forms.fault);
      }
      var (refs, st1) := AllocForms(store, forms.value);
      store := st1;
      var compiled := CompileAll(refs, fuel);
      if compiled.Err? {
        store := saved;
        return Err(compiled.fault);
      }
      r := EvalAll(compiled.value, fuel);
      if r.Err? {
        store := saved;
      }
    }
  }
}
