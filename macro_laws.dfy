/** Macro expansion of Paren 1.7 read back as forms: expanding a macro call
    yields the macro's template with every parameter name replaced by the
    argument bound to it and every `...` element replaced by the remaining
    arguments, spliced in place. The store-level expander shares argument
    nodes and allocates new list nodes; the statements here are about the
    forms those nodes stand for. */
module ParenMacroLaws {
  import opened JavaLang
  import opened ParenReader
  import opened ParenStore
  import opened ParenMacro

  // ---------------------------------------------------------------------------
  // Reference definition: substitution on forms

  /** stringValue() of a leaf form, the key a template leaf is looked up by. */
  function FormKey(f: Form): (r: Result<string>)
    ensures f.FDbl? || f.FList? <==> r.Err?
  {
    match f
    case FStr(s) => Ok(s)
    case FInt(i) => Ok(ShowInt(i))
    case FLong(l) => Ok(ShowInt(l))
    case FDbl(_) => Err(Unmodelled("Double.toString"))
    case FSym(name) => Ok(name)
    case FList(_) => Err(Unmodelled("not a leaf"))
  }

  /** A template element that prints as "...". */
  predicate IsEllipsisForm(f: Form)
  {
    f == FStr(ELLIPSIS) || f == FSym(ELLIPSIS)
  }

  /** The template t with each leaf whose key is bound in env replaced by the
      bound form; the `...` elements of a list are replaced by the items of
      the form bound to `...` (null when unbound, a cast failure when that
      form is not a list). */
  function Subst(t: Form, env: map<string, Form>): (r: Result<Form>)
    ensures r.Ok? && t.FList? ==> r.value.FList?
    decreases t, 1
  {
    if t.FList? then
      var fs :- SubstItems(t.items, env);
      Ok(FList(fs))
    else
      var key :- FormKey(t);
      Ok(if key in env then env[key] else t)
  }

  function SubstItems(ts: seq<Form>, env: map<string, Form>): (r: Result<seq<Form>>)
    ensures r.Ok? && (forall k :: 0 <= k < |ts| ==> !IsEllipsisForm(ts[k])) ==> |r.value| == |ts|
    decreases ts, 0
  {
    if ts == [] then Ok([])
    else
      var head :- (if IsEllipsisForm(ts[0]) then
                     if ELLIPSIS !in env then Throw(NullPointer)
                     else if env[ELLIPSIS].FList? then Ok(env[ELLIPSIS].items)
                     else Throw(ClassCast)
                   else
                     var f :- Subst(ts[0], env);
                     Ok([f]));
      var tail :- SubstItems(ts[1..], env);
      Ok(head + tail)
  }

  /** The bindings of a call with arguments args to a macro whose parameters
      print as keys: parameter i names argument i, and a `...` parameter
      names the list of all arguments from its position on and ends the
      binding. */
  function BindParams(keys: seq<string>, args: seq<Form>, i: nat, env: map<string, Form>)
    : (r: Result<map<string, Form>>)
    ensures r.Ok? ==> env.Keys <= r.value.Keys
    decreases |keys| - i
  {
    if i >= |keys| then Ok(env)
    else if keys[i] == ELLIPSIS then Ok(env[ELLIPSIS := FList(if i <= |args| then args[i..] else [])])
    else if i >= |args| then Throw(IndexOutOfBounds)
    else BindParams(keys, args, i + 1, env[keys[i] := args[i]])
  }

  /** The form a call with arguments args expands to. */
  function Expansion(keys: seq<string>, args: seq<Form>, template: Form): (r: Result<Form>)
    ensures r.Ok? && template.FList? ==> r.value.FList?
  {
    var env :- BindParams(keys, args, 0, map[]);
    Subst(template, env)
  }

  // ---------------------------------------------------------------------------
  // Reading back

  /** Each variable's node reads back as the form env binds to it. */
  ghost predicate VarsReadBack(st: Store, vars: map<string, Ref>, env: map<string, Form>, g: nat)
  {
    vars.Keys == env.Keys && forall k :: k in vars ==> AsForm(st, vars[k], g) == Ok(env[k])
  }

  /** The parameter list node of a macro: a list whose elements print as keys. */
  ghost predicate ParamsPrint(st: Store, params: Ref, keys: seq<string>, fuel: nat)
  {
    ValueAt(st, params).VList? && |ValueAt(st, params).items| == |keys|
    && forall j :: 0 <= j < |keys| ==> Show(st, ValueAt(st, ValueAt(st, params).items[j]), fuel) == Ok(keys[j])
  }

  /** More fuel reads back the same form. */
  lemma {:induction false} AsFormMore(st: Store, r: Ref, f: nat, f': nat)
    requires f <= f' && AsForm(st, r, f).Ok?
    ensures AsForm(st, r, f') == AsForm(st, r, f)
    decreases f, 0, 0
  {
    if ValueAt(st, r).VList? {
      AsFormsMore(st, ValueAt(st, r).items, f - 1, f' - 1);
    }
  }

  lemma {:induction false} AsFormsMore(st: Store, rs: seq<Ref>, f: nat, f': nat)
    requires f <= f' && AsForms(st, rs, f).Ok?
    ensures AsForms(st, rs, f') == AsForms(st, rs, f)
    decreases f, 1, |rs|
  {
    if rs != [] {
      AsFormMore(st, rs[0], f, f');
      AsFormsMore(st, rs[1..], f, f');
    }
  }

  /** A sequence of nodes reads back exactly when each of them does. */
  lemma {:induction false} AsFormsEach(st: Store, rs: seq<Ref>, f: nat, fs: seq<Form>)
    requires AsForms(st, rs, f) == Ok(fs)
    ensures |fs| == |rs| && forall k :: 0 <= k < |rs| ==> AsForm(st, rs[k], f) == Ok(fs[k])
    decreases |rs|
  {
    if rs != [] {
      AsFormsEach(st, rs[1..], f, fs[1..]);
      forall k | 1 <= k < |rs|
        ensures AsForm(st, rs[k], f) == Ok(fs[k])
      {
        assert rs[1..][k - 1] == rs[k];
        assert fs[1..][k - 1] == fs[k];
      }
    }
  }

  lemma {:induction false} AsFormsOfEach(st: Store, rs: seq<Ref>, f: nat, fs: seq<Form>)
    requires |fs| == |rs| && forall k :: 0 <= k < |rs| ==> AsForm(st, rs[k], f) == Ok(fs[k])
    ensures AsForms(st, rs, f) == Ok(fs)
    decreases |rs|
  {
    if rs != [] {
      assert AsForm(st, rs[0], f) == Ok(fs[0]);
      forall k | 0 <= k < |rs| - 1
        ensures AsForm(st, rs[1..][k], f) == Ok(fs[1..][k])
      {
        assert rs[1..][k] == rs[k + 1];
        assert fs[1..][k] == fs[k + 1];
      }
      AsFormsOfEach(st, rs[1..], f, fs[1..]);
      assert [fs[0]] + fs[1..] == fs;
    }
  }

  lemma AsFormsConcat(st: Store, a: seq<Ref>, b: seq<Ref>, f: nat, fa: seq<Form>, fb: seq<Form>)
    requires AsForms(st, a, f) == Ok(fa) && AsForms(st, b, f) == Ok(fb)
    ensures AsForms(st, a + b, f) == Ok(fa + fb)
  {
    AsFormsEach(st, a, f, fa);
    AsFormsEach(st, b, f, fb);
    forall k | 0 <= k < |a + b|
      ensures AsForm(st, (a + b)[k], f) == Ok((fa + fb)[k])
    {
      if k < |a| {
        assert AsForm(st, a[k], f) == Ok(fa[k]);
      } else {
        assert AsForm(st, b[k - |a|], f) == Ok(fb[k - |a|]);
      }
    }
    AsFormsOfEach(st, a + b, f, fa + fb);
  }

  lemma AsFormsSuffix(st: Store, rs: seq<Ref>, f: nat, fs: seq<Form>, i: nat)
    requires AsForms(st, rs, f) == Ok(fs) && i <= |rs|
    ensures AsForms(st, rs[i..], f) == Ok(fs[i..])
  {
    AsFormsEach(st, rs, f, fs);
    forall k | 0 <= k < |rs| - i
      ensures AsForm(st, rs[i..][k], f) == Ok(fs[i..][k])
    {
      assert AsForm(st, rs[i + k], f) == Ok(fs[i + k]);
    }
    AsFormsOfEach(st, rs[i..], f, fs[i..]);
  }

  /** The element at i of a sequence that reads back, and the rest after it. */
  lemma ItemsAt(st: Store, bvec: seq<Ref>, i: nat, f: nat, tfs: seq<Form>)
    requires i < |bvec| && AsForms(st, bvec[i..], f) == Ok(tfs)
    ensures tfs != [] && AsForm(st, bvec[i], f) == Ok(tfs[0]) && AsForms(st, bvec[i + 1..], f) == Ok(tfs[1..])
  {
    assert bvec[i..][0] == bvec[i];
    assert bvec[i..][1..] == bvec[i + 1..];
  }

  /** What a node's form says about the node's value: lists stay lists,
      leaves have the same key, and `...` prints the same way. */
  lemma LeafOfForm(st: Store, r: Ref, f: nat, tf: Form)
    requires AsForm(st, r, f) == Ok(tf)
    ensures ValueAt(st, r).VList? <==> tf.FList?
    ensures IsEllipsis(ValueAt(st, r)) <==> IsEllipsisForm(tf)
    ensures !tf.FList? ==> LeafKey(ValueAt(st, r)) == FormKey(tf)
  {
  }

  /** A list node's form is the list of its elements' forms. */
  lemma ListOfForm(st: Store, r: Ref, f: nat, lf: Form)
    requires AsForm(st, r, f) == Ok(lf) && ValueAt(st, r).VList?
    ensures f > 0 && lf.FList? && AsForms(st, ValueAt(st, r).items, f - 1) == Ok(lf.items)
  {
  }

  lemma VarsStable(st: Store, st': Store, vars: map<string, Ref>, env: map<string, Form>, g: nat)
    requires Grows(st, st') && VarsReadBack(st, vars, env, g)
    ensures VarsReadBack(st', vars, env, g)
  {
    forall k | k in vars
      ensures AsForm(st', vars[k], g) == Ok(env[k])
    {
      AsFormStable(st, st', vars[k], g);
    }
  }

  lemma VarsMore(st: Store, vars: map<string, Ref>, env: map<string, Form>, g: nat, g': nat)
    requires g <= g' && VarsReadBack(st, vars, env, g)
    ensures VarsReadBack(st, vars, env, g')
  {
    forall k | k in vars
      ensures AsForm(st, vars[k], g') == Ok(env[k])
    {
      AsFormMore(st, vars[k], g, g');
    }
  }

  lemma VarsPut(st: Store, vars: map<string, Ref>, env: map<string, Form>, g: nat, key: string, r: Ref, f: Form)
    requires VarsReadBack(st, vars, env, g) && AsForm(st, r, g) == Ok(f)
    ensures VarsReadBack(st, vars[key := r], env[key := f], g)
  {
  }

  // ---------------------------------------------------------------------------
  // Template expansion

  /** An expansion result and a substitution result agree: both fail or
      both succeed, and then the node reads back as the form. */
  ghost predicate OutReadsBack(r: Result<Out>, s: Result<Form>, f: nat)
  {
    (r.Ok? <==> s.Ok?) && (r.Ok? ==> AsForm(r.value.st, r.value.ref, f) == s)
  }

  /** The same for the element loop, whose earlier elements read back as acc. */
  ghost predicate ItemsReadBack(r: Result<(seq<Ref>, Store)>, s: Result<seq<Form>>, acc: seq<Form>, f: nat)
  {
    (r.Ok? <==> s.Ok?) && (r.Ok? ==> AsForms(r.value.1, r.value.0, f) == Ok(acc + s.value))
  }

  /** apply_macro fails exactly when the substitution on forms does, and its
      result reads back as the substituted template. */
  lemma {:induction false} ApplyMacroReadsBack(st: Store, body: Ref, vars: map<string, Ref>, env: map<string, Form>,
                                               tf: Form, g: nat, fuel: nat)
    requires AsForm(st, body, fuel) == Ok(tf)
    requires VarsReadBack(st, vars, env, g)
    ensures OutReadsBack(ApplyMacro(st, body, vars, fuel), Subst(tf, env), g + fuel)
    decreases fuel, 1, 0, 1
  {
    LeafOfForm(st, body, fuel, tf);
    if ValueAt(st, body).VList? {
      ListTemplateReadsBack(st, body, vars, env, tf, g, fuel);
    } else {
      LeafTemplateReadsBack(st, body, vars, env, tf, g, fuel);
    }
  }

  lemma LeafTemplateReadsBack(st: Store, body: Ref, vars: map<string, Ref>, env: map<string, Form>,
                              tf: Form, g: nat, fuel: nat)
    requires AsForm(st, body, fuel) == Ok(tf) && !tf.FList?
    requires VarsReadBack(st, vars, env, g)
    ensures OutReadsBack(ApplyMacro(st, body, vars, fuel), Subst(tf, env), g + fuel)
  {
    LeafOfForm(st, body, fuel, tf);
    var key := FormKey(tf);
    if key.Ok? {
      if key.value in vars {
        assert ApplyMacro(st, body, vars, fuel) == Ok(Out(vars[key.value], st));
        assert Subst(tf, env) == Ok(env[key.value]);
        AsFormMore(st, vars[key.value], g, g + fuel);
      } else {
        assert ApplyMacro(st, body, vars, fuel) == Ok(Out(body, st));
        assert Subst(tf, env) == Ok(tf);
        AsFormMore(st, body, fuel, g + fuel);
      }
    }
  }

  lemma {:induction false} ListTemplateReadsBack(st: Store, body: Ref, vars: map<string, Ref>, env: map<string, Form>,
                                                 tf: Form, g: nat, fuel: nat)
    requires AsForm(st, body, fuel) == Ok(tf) && ValueAt(st, body).VList?
    requires VarsReadBack(st, vars, env, g)
    ensures OutReadsBack(ApplyMacro(st, body, vars, fuel), Subst(tf, env), g + fuel)
    decreases fuel, 1, 0, 0
  {
    var items := ValueAt(st, body).items;
    ListOfForm(st, body, fuel, tf);
    assert items[0..] == items;
    ApplyItemsReadBack(st, items, 0, vars, [], env, tf.items, [], g, fuel - 1);
    var r := ApplyItems(st, items, 0, vars, [], fuel - 1);
    var s := SubstItems(tf.items, env);
    if r.Ok? {
      assert [] + s.value == s.value;
      NewListRead(r.value.1, r.value.0, s.value, g + fuel);
    }
    ListTemplateStep(st, body, vars, env, tf, fuel);
  }

  /** A new list node of elements that read back reads back as their list. */
  lemma NewListRead(st: Store, ret: seq<Ref>, fs: seq<Form>, f: nat)
    requires f > 0 && AsForms(st, ret, f - 1) == Ok(fs)
    ensures AsForm(Alloc(st, VList(ret)).st, Alloc(st, VList(ret)).ref, f) == Ok(FList(fs))
  {
    var o := Alloc(st, VList(ret));
    AsFormsStable(st, o.st, ret, f - 1);
    assert ValueAt(o.st, o.ref) == VList(ret);
  }

  /** apply_macro and the substitution on a list template. */
  lemma ListTemplateStep(st: Store, body: Ref, vars: map<string, Ref>, env: map<string, Form>, tf: Form, fuel: nat)
    requires ValueAt(st, body).VList? && tf.FList? && fuel > 0
    ensures var r := ApplyItems(st, ValueAt(st, body).items, 0, vars, [], fuel - 1);
            ApplyMacro(st, body, vars, fuel) == if r.Ok? then Ok(Alloc(r.value.1, VList(r.value.0))) else Err(r.fault)
    ensures var s := SubstItems(tf.items, env);
            Subst(tf, env) == if s.Ok? then Ok(FList(s.value)) else Err(s.fault)
  {
  }

  /** The loop of apply_macro from element i, with the elements produced so
      far reading back as acc. */
  lemma {:induction false} ApplyItemsReadBack(st: Store, bvec: seq<Ref>, i: nat, vars: map<string, Ref>, ret: seq<Ref>,
                                              env: map<string, Form>, tfs: seq<Form>, acc: seq<Form>, g: nat, fuel: nat)
    requires i <= |bvec| && AsForms(st, bvec[i..], fuel) == Ok(tfs)
    requires VarsReadBack(st, vars, env, g)
    requires AsForms(st, ret, g + fuel) == Ok(acc)
    ensures ItemsReadBack(ApplyItems(st, bvec, i, vars, ret, fuel), SubstItems(tfs, env), acc, g + fuel)
    decreases fuel, 2, |bvec| - i, 2
  {
    if i == |bvec| {
      assert tfs == [];
      assert acc + [] == acc;
    } else {
      ItemsAt(st, bvec, i, fuel, tfs);
      LeafOfForm(st, bvec[i], fuel, tfs[0]);
      if IsEllipsis(ValueAt(st, bvec[i])) {
        SpliceReadsBack(st, bvec, i, vars, ret, env, tfs, acc, g, fuel);
      } else {
        ElementReadsBack(st, bvec, i, vars, ret, env, tfs, acc, g, fuel);
      }
    }
  }

  /** One step of apply_macro's loop at a `...` element. */
  lemma SpliceStep(st: Store, bvec: seq<Ref>, i: nat, vars: map<string, Ref>, ret: seq<Ref>, fuel: nat)
    requires i < |bvec| && IsEllipsis(ValueAt(st, bvec[i]))
    ensures ELLIPSIS !in vars ==> ApplyItems(st, bvec, i, vars, ret, fuel).Err?
    ensures ELLIPSIS in vars && !ValueAt(st, vars[ELLIPSIS]).VList? ==> ApplyItems(st, bvec, i, vars, ret, fuel).Err?
    ensures ELLIPSIS in vars && ValueAt(st, vars[ELLIPSIS]).VList? ==>
              ApplyItems(st, bvec, i, vars, ret, fuel)
              == ApplyItems(st, bvec, i + 1, vars, ret + ValueAt(st, vars[ELLIPSIS]).items, fuel)
  {
  }

  /** One step of the substitution at a `...` element. */
  lemma SubstSpliceStep(tfs: seq<Form>, env: map<string, Form>)
    requires tfs != [] && IsEllipsisForm(tfs[0])
    ensures ELLIPSIS !in env ==> SubstItems(tfs, env).Err?
    ensures ELLIPSIS in env && !env[ELLIPSIS].FList? ==> SubstItems(tfs, env).Err?
    ensures ELLIPSIS in env && env[ELLIPSIS].FList? ==>
              (SubstItems(tfs, env).Ok? <==> SubstItems(tfs[1..], env).Ok?)
              && (SubstItems(tfs, env).Ok? ==>
                    SubstItems(tfs, env).value == env[ELLIPSIS].items + SubstItems(tfs[1..], env).value)
  {
  }

  /** Agreement after a prefix xs carries over to agreement before it. */
  lemma ItemsPrefix(r: Result<(seq<Ref>, Store)>, s: Result<seq<Form>>, s': Result<seq<Form>>,
                    acc: seq<Form>, xs: seq<Form>, f: nat)
    requires ItemsReadBack(r, s', acc + xs, f)
    requires s.Ok? <==> s'.Ok?
    requires s.Ok? ==> s.value == xs + s'.value
    ensures ItemsReadBack(r, s, acc, f)
  {
    if s.Ok? {
      assert acc + xs + s'.value == acc + (xs + s'.value);
    }
  }

  /** A `...` template element: the items of the `...` variable are
      appended. */
  lemma {:induction false} SpliceReadsBack(st: Store, bvec: seq<Ref>, i: nat, vars: map<string, Ref>, ret: seq<Ref>,
                                           env: map<string, Form>, tfs: seq<Form>, acc: seq<Form>, g: nat, fuel: nat)
    requires i < |bvec| && AsForms(st, bvec[i..], fuel) == Ok(tfs)
    requires IsEllipsis(ValueAt(st, bvec[i]))
    requires VarsReadBack(st, vars, env, g)
    requires AsForms(st, ret, g + fuel) == Ok(acc)
    ensures ItemsReadBack(ApplyItems(st, bvec, i, vars, ret, fuel), SubstItems(tfs, env), acc, g + fuel)
    decreases fuel, 2, |bvec| - i, 1
  {
    ItemsAt(st, bvec, i, fuel, tfs);
    LeafOfForm(st, bvec[i], fuel, tfs[0]);
    SpliceStep(st, bvec, i, vars, ret, fuel);
    SubstSpliceStep(tfs, env);
    if ELLIPSIS in vars {
      assert AsForm(st, vars[ELLIPSIS], g) == Ok(env[ELLIPSIS]);
      LeafOfForm(st, vars[ELLIPSIS], g, env[ELLIPSIS]);
      if ValueAt(st, vars[ELLIPSIS]).VList? {
        SplicedReadsBack(st, bvec, i, vars, ret, env, tfs, acc, g, fuel);
      }
    }
  }

  lemma {:induction false} SplicedReadsBack(st: Store, bvec: seq<Ref>, i: nat, vars: map<string, Ref>, ret: seq<Ref>,
                                            env: map<string, Form>, tfs: seq<Form>, acc: seq<Form>, g: nat, fuel: nat)
    requires i < |bvec| && AsForms(st, bvec[i..], fuel) == Ok(tfs)
    requires IsEllipsis(ValueAt(st, bvec[i])) && IsEllipsisForm(tfs[0])
    requires VarsReadBack(st, vars, env, g)
    requires ELLIPSIS in vars && ValueAt(st, vars[ELLIPSIS]).VList?
    requires AsForms(st, ret, g + fuel) == Ok(acc)
    ensures ItemsReadBack(ApplyItems(st, bvec, i, vars, ret, fuel), SubstItems(tfs, env), acc, g + fuel)
    decreases fuel, 2, |bvec| - i, 0
  {
    ItemsAt(st, bvec, i, fuel, tfs);
    var xs := SplicedRead(st, vars, env, g, ret, acc, g + fuel);
    ApplyItemsReadBack(st, bvec, i + 1, vars, ret + ValueAt(st, vars[ELLIPSIS]).items, env, tfs[1..], acc + xs, g, fuel);
    SpliceTransfer(st, bvec, i, vars, ret, env, tfs, acc, xs, g + fuel, fuel);
  }

  /** Agreement after a `...` element carries over to agreement before it. */
  lemma SpliceTransfer(st: Store, bvec: seq<Ref>, i: nat, vars: map<string, Ref>, ret: seq<Ref>,
                       env: map<string, Form>, tfs: seq<Form>, acc: seq<Form>, xs: seq<Form>, f: nat, fuel: nat)
    requires i < |bvec| && IsEllipsis(ValueAt(st, bvec[i])) && tfs != [] && IsEllipsisForm(tfs[0])
    requires ELLIPSIS in vars && ValueAt(st, vars[ELLIPSIS]).VList?
    requires ELLIPSIS in env && env[ELLIPSIS] == FList(xs)
    requires ItemsReadBack(ApplyItems(st, bvec, i + 1, vars, ret + ValueAt(st, vars[ELLIPSIS]).items, fuel),
                           SubstItems(tfs[1..], env), acc + xs, f)
    ensures ItemsReadBack(ApplyItems(st, bvec, i, vars, ret, fuel), SubstItems(tfs, env), acc, f)
  {
    SpliceStep(st, bvec, i, vars, ret, fuel);
    SubstSpliceStep(tfs, env);
    ItemsPrefix(ApplyItems(st, bvec, i, vars, ret, fuel), SubstItems(tfs, env), SubstItems(tfs[1..], env),
                acc, xs, f);
  }

  /** The nodes spliced for `...` read back as the items of its form. */
  lemma SplicedRead(st: Store, vars: map<string, Ref>, env: map<string, Form>, g: nat,
                    ret: seq<Ref>, acc: seq<Form>, f: nat) returns (xs: seq<Form>)
    requires VarsReadBack(st, vars, env, g) && g <= f
    requires ELLIPSIS in vars && ValueAt(st, vars[ELLIPSIS]).VList?
    requires AsForms(st, ret, f) == Ok(acc)
    ensures env[ELLIPSIS] == FList(xs)
    ensures AsForms(st, ret + ValueAt(st, vars[ELLIPSIS]).items, f) == Ok(acc + xs)
  {
    var e := env[ELLIPSIS];
    assert AsForm(st, vars[ELLIPSIS], g) == Ok(e);
    ListOfForm(st, vars[ELLIPSIS], g, e);
    xs := e.items;
    AsFormsMore(st, ValueAt(st, vars[ELLIPSIS]).items, g - 1, f);
    AsFormsConcat(st, ret, ValueAt(st, vars[ELLIPSIS]).items, f, acc, xs);
  }

  /** One step of apply_macro's loop at any other element. */
  lemma ElementStep(st: Store, bvec: seq<Ref>, i: nat, vars: map<string, Ref>, ret: seq<Ref>, fuel: nat)
    requires i < |bvec| && !IsEllipsis(ValueAt(st, bvec[i]))
    ensures ApplyMacro(st, bvec[i], vars, fuel).Err? ==> ApplyItems(st, bvec, i, vars, ret, fuel).Err?
    ensures ApplyMacro(st, bvec[i], vars, fuel).Ok? ==>
              var o := ApplyMacro(st, bvec[i], vars, fuel).value;
              ApplyItems(st, bvec, i, vars, ret, fuel) == ApplyItems(o.st, bvec, i + 1, vars, ret + [o.ref], fuel)
  {
  }

  /** One step of the substitution at any other element. */
  lemma SubstElementStep(tfs: seq<Form>, env: map<string, Form>)
    requires tfs != [] && !IsEllipsisForm(tfs[0])
    ensures Subst(tfs[0], env).Err? ==> SubstItems(tfs, env).Err?
    ensures Subst(tfs[0], env).Ok? ==>
              (SubstItems(tfs, env).Ok? <==> SubstItems(tfs[1..], env).Ok?)
              && (SubstItems(tfs, env).Ok? ==>
                    SubstItems(tfs, env).value == [Subst(tfs[0], env).value] + SubstItems(tfs[1..], env).value)
  {
  }

  /** Any other template element: its expansion is appended. */
  lemma {:induction false} ElementReadsBack(st: Store, bvec: seq<Ref>, i: nat, vars: map<string, Ref>, ret: seq<Ref>,
                                            env: map<string, Form>, tfs: seq<Form>, acc: seq<Form>, g: nat, fuel: nat)
    requires i < |bvec| && AsForms(st, bvec[i..], fuel) == Ok(tfs)
    requires !IsEllipsis(ValueAt(st, bvec[i]))
    requires VarsReadBack(st, vars, env, g)
    requires AsForms(st, ret, g + fuel) == Ok(acc)
    ensures ItemsReadBack(ApplyItems(st, bvec, i, vars, ret, fuel), SubstItems(tfs, env), acc, g + fuel)
    decreases fuel, 2, |bvec| - i, 0
  {
    ItemsAt(st, bvec, i, fuel, tfs);
    LeafOfForm(st, bvec[i], fuel, tfs[0]);
    ApplyMacroReadsBack(st, bvec[i], vars, env, tfs[0], g, fuel);
    var r := ApplyMacro(st, bvec[i], vars, fuel);
    if r.Ok? {
      var sf := Subst(tfs[0], env).value;
      ElementRead(st, r.value, bvec[i + 1..], vars, env, ret, tfs[1..], acc, sf, g, fuel);
      ApplyItemsReadBack(r.value.st, bvec, i + 1, vars, ret + [r.value.ref], env, tfs[1..], acc + [sf], g, fuel);
    }
    ElementTransfer(st, bvec, i, vars, ret, env, tfs, acc, g + fuel, fuel);
  }

  /** After one element is expanded, everything read so far still reads the
      same in the grown store. */
  lemma ElementRead(st: Store, o: Out, later: seq<Ref>, vars: map<string, Ref>, env: map<string, Form>,
                    ret: seq<Ref>, tfs: seq<Form>, acc: seq<Form>, sf: Form, g: nat, fuel: nat)
    requires Grows(st, o.st) && AsForm(o.st, o.ref, g + fuel) == Ok(sf)
    requires VarsReadBack(st, vars, env, g)
    requires AsForms(st, later, fuel) == Ok(tfs)
    requires AsForms(st, ret, g + fuel) == Ok(acc)
    ensures VarsReadBack(o.st, vars, env, g)
    ensures AsForms(o.st, later, fuel) == Ok(tfs)
    ensures AsForms(o.st, ret + [o.ref], g + fuel) == Ok(acc + [sf])
  {
    VarsStable(st, o.st, vars, env, g);
    AsFormsStable(st, o.st, later, fuel);
    AsFormsStable(st, o.st, ret, g + fuel);
    AsFormsOfEach(o.st, [o.ref], g + fuel, [sf]);
    AsFormsConcat(o.st, ret, [o.ref], g + fuel, acc, [sf]);
  }

  /** Agreement after an expanded element carries over to agreement before it. */
  lemma ElementTransfer(st: Store, bvec: seq<Ref>, i: nat, vars: map<string, Ref>, ret: seq<Ref>,
                        env: map<string, Form>, tfs: seq<Form>, acc: seq<Form>, f: nat, fuel: nat)
    requires i < |bvec| && !IsEllipsis(ValueAt(st, bvec[i])) && tfs != [] && !IsEllipsisForm(tfs[0])
    requires ApplyMacro(st, bvec[i], vars, fuel).Ok? <==> Subst(tfs[0], env).Ok?
    requires ApplyMacro(st, bvec[i], vars, fuel).Ok? ==>
               var o := ApplyMacro(st, bvec[i], vars, fuel).value;
               ItemsReadBack(ApplyItems(o.st, bvec, i + 1, vars, ret + [o.ref], fuel),
                             SubstItems(tfs[1..], env), acc + [Subst(tfs[0], env).value], f)
    ensures ItemsReadBack(ApplyItems(st, bvec, i, vars, ret, fuel), SubstItems(tfs, env), acc, f)
  {
    ElementStep(st, bvec, i, vars, ret, fuel);
    SubstElementStep(tfs, env);
    if ApplyMacro(st, bvec[i], vars, fuel).Ok? {
      ItemsPrefix(ApplyItems(st, bvec, i, vars, ret, fuel), SubstItems(tfs, env), SubstItems(tfs[1..], env),
                  acc, [Subst(tfs[0], env).value], f);
    }
  }

  // ---------------------------------------------------------------------------
  // Binding the parameters

  /** The binding loop of macroexpand from parameter i: it fails exactly when
      a non-`...` parameter has no argument, and each variable's node reads
      back as the argument BindParams names. */
  lemma {:induction false} MacroVarsReadBack(st: Store, argsyms: seq<Ref>, items: seq<Ref>, i: nat, vars: map<string, Ref>,
                                             keys: seq<string>, args: seq<Form>, env: map<string, Form>, g: nat, fuel: nat)
    requires |keys| == |argsyms|
    requires forall j :: 0 <= j < |argsyms| ==> Show(st, ValueAt(st, argsyms[j]), fuel) == Ok(keys[j])
    requires |items| == |args| + 1 && AsForms(st, items[1..], g) == Ok(args)
    requires VarsReadBack(st, vars, env, g + 1)
    ensures MacroVars(st, argsyms, items, i, vars, fuel).Ok? <==> BindParams(keys, args, i, env).Ok?
    ensures MacroVars(st, argsyms, items, i, vars, fuel).Ok? ==>
              VarsReadBack(MacroVars(st, argsyms, items, i, vars, fuel).value.1,
                           MacroVars(st, argsyms, items, i, vars, fuel).value.0,
                           BindParams(keys, args, i, env).value, g + 1)
    decreases |argsyms| - i
  {
    if i < |argsyms| {
      assert Show(st, ValueAt(st, argsyms[i]), fuel) == Ok(keys[i]);
      if keys[i] == ELLIPSIS {
        RestReadsBack(st, argsyms, items, i, vars, keys, args, env, g, fuel);
      } else if i < |args| {
        AsFormsEach(st, items[1..], g, args);
        assert items[1..][i] == items[i + 1];
        assert AsForm(st, items[i + 1], g) == Ok(args[i]);
        AsFormMore(st, items[i + 1], g, g + 1);
        VarsPut(st, vars, env, g + 1, keys[i], items[i + 1], args[i]);
        assert MacroVars(st, argsyms, items, i, vars, fuel)
               == MacroVars(st, argsyms, items, i + 1, vars[keys[i] := items[i + 1]], fuel);
        MacroVarsReadBack(st, argsyms, items, i + 1, vars[keys[i] := items[i + 1]],
                          keys, args, env[keys[i] := args[i]], g, fuel);
      }
    }
  }

  /** A `...` parameter is bound to a new list of the remaining arguments. */
  lemma RestReadsBack(st: Store, argsyms: seq<Ref>, items: seq<Ref>, i: nat, vars: map<string, Ref>,
                      keys: seq<string>, args: seq<Form>, env: map<string, Form>, g: nat, fuel: nat)
    requires i < |keys| == |argsyms| && keys[i] == ELLIPSIS
    requires Show(st, ValueAt(st, argsyms[i]), fuel) == Ok(keys[i])
    requires |items| == |args| + 1 && AsForms(st, items[1..], g) == Ok(args)
    requires VarsReadBack(st, vars, env, g + 1)
    ensures MacroVars(st, argsyms, items, i, vars, fuel).Ok? && BindParams(keys, args, i, env).Ok?
    ensures VarsReadBack(MacroVars(st, argsyms, items, i, vars, fuel).value.1,
                         MacroVars(st, argsyms, items, i, vars, fuel).value.0,
                         BindParams(keys, args, i, env).value, g + 1)
  {
    var rest := if i + 1 <= |items| then items[i + 1..] else [];
    var fs := if i <= |args| then args[i..] else [];
    if i <= |args| {
      assert rest == items[1..][i..];
      AsFormsSuffix(st, items[1..], g, args, i);
    }
    assert AsForms(st, rest, g) == Ok(fs);
    var o := Alloc(st, VList(rest));
    assert MacroVars(st, argsyms, items, i, vars, fuel) == Ok((vars[ELLIPSIS := o.ref], o.st));
    assert BindParams(keys, args, i, env) == Ok(env[ELLIPSIS := FList(fs)]);
    AsFormsStable(st, o.st, rest, g);
    assert ValueAt(o.st, o.ref) == VList(rest);
    assert AsForm(o.st, o.ref, g + 1) == Ok(FList(fs));
    VarsStable(st, o.st, vars, env, g + 1);
    VarsPut(o.st, vars, env, g + 1, ELLIPSIS, o.ref, FList(fs));
  }

  // ---------------------------------------------------------------------------
  // Expanding a call

  /** A list whose head does not name a macro is returned as it is, with the
      store unchanged. */
  lemma NonMacroUnchanged(st: Store, n: Ref, fuel: nat)
    requires ValueAt(st, n).VList? && |ValueAt(st, n).items| > 0
    requires Show(st, ValueAt(st, ValueAt(st, n).items[0]), fuel).Ok?
    requires Show(st, ValueAt(st, ValueAt(st, n).items[0]), fuel).value !in st.macros
    ensures MacroExpand(st, n, fuel) == Ok(Out(n, st))
  {
  }

  /** The steps of macroexpand on a call of a macro. */
  lemma MacroExpandSteps(st: Store, n: Ref, name: string, fuel: nat)
    requires ValueAt(st, n).VList? && |ValueAt(st, n).items| > 0
    requires Show(st, ValueAt(st, ValueAt(st, n).items[0]), fuel) == Ok(name) && name in st.macros
    requires ValueAt(st, st.macros[name].0).VList?
    ensures var m := MacroVars(st, ValueAt(st, st.macros[name].0).items, ValueAt(st, n).items, 0, map[], fuel);
            MacroExpand(st, n, fuel) == if m.Err? then Err(m.fault)
                                        else ApplyMacro(m.value.1, st.macros[name].1, m.value.0, fuel)
  {
  }

  /** macroexpand of a call whose arguments read back as args, of a macro
      whose parameters print as keys and whose template reads back as
      template: it fails exactly when Expansion does, and the node it returns
      reads back as Expansion(keys, args, template). */
  lemma {:induction false} MacroCallReadsBack(st: Store, n: Ref, name: string, keys: seq<string>, args: seq<Form>,
                                              template: Form, g: nat, fuel: nat)
    requires ValueAt(st, n).VList? && |ValueAt(st, n).items| == |args| + 1
    requires Show(st, ValueAt(st, ValueAt(st, n).items[0]), fuel) == Ok(name) && name in st.macros
    requires AsForms(st, ValueAt(st, n).items[1..], g) == Ok(args)
    requires ParamsPrint(st, st.macros[name].0, keys, fuel)
    requires AsForm(st, st.macros[name].1, fuel) == Ok(template)
    ensures OutReadsBack(MacroExpand(st, n, fuel), Expansion(keys, args, template), g + 1 + fuel)
  {
    var items := ValueAt(st, n).items;
    var argsyms := ValueAt(st, st.macros[name].0).items;
    MacroExpandSteps(st, n, name, fuel);
    MacroVarsReadBack(st, argsyms, items, 0, map[], keys, args, map[], g, fuel);
    var m := MacroVars(st, argsyms, items, 0, map[], fuel);
    if m.Ok? {
      TemplateAfterBinding(st, m.value.1, st.macros[name].1, m.value.0, BindParams(keys, args, 0, map[]).value,
                           template, g, fuel);
    }
  }

  lemma TemplateAfterBinding(st: Store, st': Store, tmpl: Ref, vars: map<string, Ref>, env: map<string, Form>,
                             template: Form, g: nat, fuel: nat)
    requires Grows(st, st') && AsForm(st, tmpl, fuel) == Ok(template)
    requires VarsReadBack(st', vars, env, g + 1)
    ensures OutReadsBack(ApplyMacro(st', tmpl, vars, fuel), Subst(template, env), g + 1 + fuel)
  {
    AsFormStable(st, st', tmpl, fuel);
    ApplyMacroReadsBack(st', tmpl, vars, env, template, g + 1, fuel);
  }

  // ---------------------------------------------------------------------------
  // The two macros every interpreter defines at start-up

  const SETFN_PARAMS: seq<string> := ["name", ELLIPSIS]
  /** (set name (fn ...)) */
  const SETFN_TEMPLATE: Form := FList([FSym("set"), FSym("name"), FList([FSym("fn"), FSym(ELLIPSIS)])])
  const DEFN_PARAMS: seq<string> := [ELLIPSIS]
  /** (setfn ...) */
  const DEFN_TEMPLATE: Form := FList([FSym("setfn"), FSym(ELLIPSIS)])

  /** (setfn f params body...) expands to (set f (fn params body...)). */
  lemma SetfnExpands(f: string, rest: seq<Form>)
    ensures Expansion(SETFN_PARAMS, [FSym(f)] + rest, SETFN_TEMPLATE)
            == Ok(FList([FSym("set"), FSym(f), FList([FSym("fn")] + rest)]))
  {
    var args := [FSym(f)] + rest;
    var env := map["name" := FSym(f), ELLIPSIS := FList(rest)];
    assert args[1..] == rest;
    assert BindParams(SETFN_PARAMS, args, 1, map["name" := FSym(f)]) == Ok(env);
    assert BindParams(SETFN_PARAMS, args, 0, map[]) == Ok(env);
    var fnList := [FSym("fn"), FSym(ELLIPSIS)];
    var fnOut := [FSym("fn")] + rest;
    // (fn ...)
    assert SubstItems([], env) == Ok([]);
    assert [FSym(ELLIPSIS)][1..] == [];
    assert rest + [] == rest;
    assert SubstItems([FSym(ELLIPSIS)], env) == Ok(rest);
    assert fnList[1..] == [FSym(ELLIPSIS)];
    assert Subst(FSym("fn"), env) == Ok(FSym("fn"));
    assert SubstItems(fnList, env) == Ok(fnOut);
    assert Subst(FList(fnList), env) == Ok(FList(fnOut));
    // (set name (fn ...))
    var top := [FSym("set"), FSym("name"), FList(fnList)];
    assert [FList(fnList)][1..] == [];
    assert [FList(fnOut)] + [] == [FList(fnOut)];
    assert SubstItems([FList(fnList)], env) == Ok([FList(fnOut)]);
    var second := [FSym("name"), FList(fnList)];
    assert second[1..] == [FList(fnList)];
    assert Subst(FSym("name"), env) == Ok(FSym(f));
    assert SubstItems(second, env) == Ok([FSym(f)] + [FList(fnOut)]);
    assert top[1..] == second;
    assert Subst(FSym("set"), env) == Ok(FSym("set"));
    assert SubstItems(top, env) == Ok([FSym("set")] + ([FSym(f)] + [FList(fnOut)]));
    assert [FSym("set")] + ([FSym(f)] + [FList(fnOut)]) == [FSym("set"), FSym(f), FList(fnOut)];
  }

  /** In a store where setfn is defined as at start-up, a call that reads
      back as (setfn f params body...) expands to a node that reads back as
      (set f (fn params body...)). */
  lemma SetfnCall(st: Store, n: Ref, f: string, rest: seq<Form>, g: nat, fuel: nat)
    requires ValueAt(st, n).VList? && |ValueAt(st, n).items| == |rest| + 2
    requires Show(st, ValueAt(st, ValueAt(st, n).items[0]), fuel) == Ok("setfn") && "setfn" in st.macros
    requires AsForms(st, ValueAt(st, n).items[1..], g) == Ok([FSym(f)] + rest)
    requires ParamsPrint(st, st.macros["setfn"].0, SETFN_PARAMS, fuel)
    requires AsForm(st, st.macros["setfn"].1, fuel) == Ok(SETFN_TEMPLATE)
    ensures MacroExpand(st, n, fuel).Ok?
    ensures AsForm(MacroExpand(st, n, fuel).value.st, MacroExpand(st, n, fuel).value.ref, g + 1 + fuel)
            == Ok(FList([FSym("set"), FSym(f), FList([FSym("fn")] + rest)]))
  {
    MacroCallReadsBack(st, n, "setfn", SETFN_PARAMS, [FSym(f)] + rest, SETFN_TEMPLATE, g, fuel);
    SetfnExpands(f, rest);
  }

  /** (defn f params body...) expands to (setfn f params body...). */
  lemma DefnExpands(args: seq<Form>)
    ensures Expansion(DEFN_PARAMS, args, DEFN_TEMPLATE) == Ok(FList([FSym("setfn")] + args))
  {
    var env := map[ELLIPSIS := FList(args)];
    assert args[0..] == args;
    assert BindParams(DEFN_PARAMS, args, 0, map[]) == Ok(env);
    var top := [FSym("setfn"), FSym(ELLIPSIS)];
    assert top[1..] == [FSym(ELLIPSIS)];
    assert [FSym(ELLIPSIS)][1..] == [];
    assert SubstItems([FSym(ELLIPSIS)], env) == Ok(args + []);
    assert args + [] == args;
    assert SubstItems(top, env) == Ok([FSym("setfn")] + args);
  }

  /** A setfn call with no arguments has nothing to bind to `name`. */
  lemma SetfnNeedsName()
    ensures Expansion(SETFN_PARAMS, [], SETFN_TEMPLATE) == Throw(IndexOutOfBounds)
  {
  }
}
