/** Laws of the string and list builtins of Paren 1.7, and of closure
    calls, over operands that copy themselves: literals, and lists marked
    as data. Each law relates the evaluator to a definition over plain
    values. */
module ParenBuiltinLaws {
  import opened JavaLang
  import opened ParenReader
  import opened ParenStore
  import opened ParenCompile
  import opened ParenEval
  import opened ParenLaws

  // ---------------------------------------------------------------------------
  // Strings

  /** A value whose stringValue() does not read the store. */
  predicate Flat(v: Val) { !v.VList? && !v.VFn? }

  /** The strings, joined in order. */
  function Joined(ss: seq<string>): string
  {
    if ss == [] then "" else ss[0] + Joined(ss[1..])
  }

  /** Each value's stringValue() is ss[k]. */
  predicate Shows(st: Store, vs: seq<Val>, ss: seq<string>, fuel: nat)
  {
    |ss| == |vs| && forall k :: 0 <= k < |vs| ==> Flat(vs[k]) && Show(st, vs[k], fuel) == Ok(ss[k])
  }

  lemma ShowFlat(st: Store, st': Store, v: Val, fuel: nat)
    requires Flat(v)
    ensures Show(st', v, fuel) == Show(st, v, fuel)
  {
  }

  lemma ShowsKept(st: Store, st': Store, vs: seq<Val>, ss: seq<string>, fuel: nat)
    requires Shows(st, vs, ss, fuel)
    ensures Shows(st', vs, ss, fuel)
  {
    forall k | 0 <= k < |vs|
      ensures Show(st', vs[k], fuel) == Ok(ss[k])
    {
      ShowFlat(st, st', vs[k], fuel);
    }
  }

  /** The string a loop over operands builds, or its fault. */
  function Built(r: Result<(string, Store)>): Result<string>
  {
    if r.Ok? then Ok(r.value.0) else Err(r.fault)
  }

  lemma CatStep(st: Store, items: seq<Ref>, i: nat, acc: string, vs: seq<Val>, ss: seq<string>, fuel: nat)
    requires fuel > 0 && |vs| > 0 && Atoms(st, items, i, vs) && Shows(st, vs, ss, fuel)
    ensures var c := Clone(st, items[i]);
            CatLoop(st, items, i, acc, fuel) == CatLoop(c.st, items, i + 1, acc + ss[0], fuel)
            && Atoms(c.st, items, i + 1, vs[1..]) && Shows(c.st, vs[1..], ss[1..], fuel)
  {
    AtomStep(st, items, i, vs, fuel);
    var c := Clone(st, items[i]);
    ShowFlat(st, c.st, vs[0], fuel);
    ShowsKept(st, c.st, vs[1..], ss[1..], fuel);
  }

  lemma {:induction false} CatLoopAtoms(st: Store, items: seq<Ref>, i: nat, acc: string, vs: seq<Val>, ss: seq<string>, fuel: nat)
    requires fuel > 0 && Atoms(st, items, i, vs) && i + |vs| == |items| && Shows(st, vs, ss, fuel)
    ensures Built(CatLoop(st, items, i, acc, fuel)) == Ok(acc + Joined(ss))
    decreases |vs|
  {
    JoinedStep(acc, ss);
    if vs != [] {
      CatStep(st, items, i, acc, vs, ss, fuel);
      CatLoopAtoms(Clone(st, items[i]).st, items, i + 1, acc + ss[0], vs[1..], ss[1..], fuel);
    }
  }

  lemma JoinedStep(acc: string, ss: seq<string>)
    ensures ss == [] ==> acc + Joined(ss) == acc
    ensures ss != [] ==> acc + ss[0] + Joined(ss[1..]) == acc + Joined(ss)
  {
    if ss != [] {
      assert acc + ss[0] + Joined(ss[1..]) == acc + (ss[0] + Joined(ss[1..]));
    }
  }

  /** `(strcat A ..)` over operands whose stringValue() does not read the
      store is a new string node holding those strings joined in order. */
  lemma StrcatOfAtoms(st: Store, items: seq<Ref>, vs: seq<Val>, ss: seq<string>, fuel: nat)
    requires fuel > 0 && |vs| >= 1 && |items| == |vs| + 1 && Atoms(st, items, 1, vs) && Shows(st, vs, ss, fuel)
    ensures ValueResult(Strings(st, "STRCAT", items, fuel)) == Ok(VStr(Joined(ss)))
  {
    AtomStep(st, items, 1, vs, fuel);
    var c := Clone(st, items[1]);
    ShowsKept(st, c.st, vs, ss, fuel);
    CatLoopAtoms(c.st, items, 2, ss[0], vs[1..], ss[1..], fuel);
  }

  /** `(strlen A)` is the length of A's stringValue(), `(string A)` that
      string itself, in a new node. */
  lemma StrlenOfAtom(st: Store, items: seq<Ref>, v: Val, s: string, fuel: nat)
    requires fuel > 0 && Atoms(st, items, 1, [v]) && Flat(v) && Show(st, v, fuel) == Ok(s)
    ensures ValueResult(Strings(st, "STRLEN", items, fuel)) == Ok(VInt(|s|))
    ensures ValueResult(Strings(st, "STRING", items, fuel)) == Ok(VStr(s))
  {
    AtomStep(st, items, 1, [v], fuel);
    ShowFlat(st, Clone(st, items[1]).st, v, fuel);
  }

  /** `(int A)` narrows a number to its low 32 bits; `(long A)` keeps an
      Integer's value and a Long's; anything else fails the cast. */
  lemma IntLongOfAtom(st: Store, items: seq<Ref>, v: Val, fuel: nat)
    requires fuel > 0 && Atoms(st, items, 1, [v])
    ensures ValueResult(Strings(st, "INT", items, fuel))
            == match v
               case VInt(i) => Ok(VInt(Wrap32(i)))
               case VLong(l) => Ok(VInt(Wrap32(l)))
               case _ => Err(IntValue(v).fault)
    ensures ValueResult(Strings(st, "LONG", items, fuel))
            == match v
               case VInt(i) => Ok(VLong(Wrap32(i)))
               case VLong(l) => Ok(VLong(Wrap64(l)))
               case _ => Err(LongValue(v).fault)
  {
    AtomStep(st, items, 1, [v], fuel);
    if v.VInt? {
      WrapInRange(Wrap32(v.i));
    }
  }

  /** `(chr I)` is a one-character string whose char is the low 16 bits of
      I; a lone surrogate is not modelled. */
  lemma ChrOfAtom(st: Store, items: seq<Ref>, i: int, fuel: nat)
    requires fuel > 0 && IsInt(i) && Atoms(st, items, 1, [VInt(i)])
    requires !(0xD800 <= i % 0x1_0000 < 0xE000)
    ensures var r := ValueResult(Strings(st, "CHR", items, fuel));
            r.Ok? && r.value.VStr? && |r.value.s| == 1 && r.value.s[0] as int == i % 0x1_0000
  {
    AtomStep(st, items, 1, [VInt(i)], fuel);
    WrapInRange(i);
  }

  /** `(char-at S I)` is the code of char I of S's stringValue(), in a new
      Integer node; an index outside the string throws. */
  lemma CharAtOfAtoms(st: Store, items: seq<Ref>, v: Val, s: string, i: int, fuel: nat)
    requires fuel > 0 && IsInt(i) && Atoms(st, items, 1, [v, VInt(i)]) && Flat(v) && Show(st, v, fuel) == Ok(s)
    ensures ValueResult(Strings(st, "CHAR_AT", items, fuel))
            == if 0 <= i < |s| then Ok(VInt(s[i] as int)) else Throw(IndexOutOfBounds)
  {
    AtomStep(st, items, 1, [v, VInt(i)], fuel);
    var a := Clone(st, items[1]);
    ShowFlat(st, a.st, v, fuel);
    AtomStep(a.st, items, 2, [VInt(i)], fuel);
    WrapInRange(i);
  }

  /** `(read-string S)` of the printed text of a form reads that form back:
      a new node holding the value of the form's own node. */
  lemma ReadStringPrinted(st: Store, items: seq<Ref>, f: Form, fuel: nat)
    requires fuel > 0 && Printable(f) && Atoms(st, items, 1, [VStr(PrintSeq([f]))])
    ensures ValueResult(Strings(st, "READ_STRING", items, fuel))
            == Ok(ValueOf(AllocForm(Clone(st, items[1]).st, f)))
  {
    AtomStep(st, items, 1, [VStr(PrintSeq([f]))], fuel);
    assert AllPrintable([f]);
    ReadPrinted([f]);
  }

  // ---------------------------------------------------------------------------
  // Lists

  /** The nodes rs hold the values ws, in order. */
  ghost predicate Holds(st: Store, rs: seq<Ref>, ws: seq<Val>)
  {
    |rs| == |ws| && forall k :: 0 <= k < |rs| ==> rs[k] < |st.nodes| && ValueAt(st, rs[k]) == ws[k]
  }

  lemma HoldsKept(st: Store, st': Store, rs: seq<Ref>, ws: seq<Val>)
    requires Holds(st, rs, ws) && Grows(st, st')
    ensures Holds(st', rs, ws)
  {
    forall k | 0 <= k < |rs|
      ensures ValueAt(st', rs[k]) == ws[k]
    {
      assert st'.nodes[..|st.nodes|] == st.nodes;
      assert st'.nodes[rs[k]] == st.nodes[rs[k]];
    }
  }

  lemma HoldsAppend(st: Store, rs: seq<Ref>, ws: seq<Val>, r: Ref, w: Val)
    requires Holds(st, rs, ws) && r < |st.nodes| && ValueAt(st, r) == w
    ensures Holds(st, rs + [r], ws + [w])
  {
  }

  lemma {:induction false} EvalEachAtoms(st: Store, items: seq<Ref>, i: nat, acc: seq<Ref>, ws: seq<Val>, vs: seq<Val>, fuel: nat)
    requires fuel > 0 && Atoms(st, items, i, vs) && i + |vs| == |items| && Holds(st, acc, ws)
    ensures EvalEach(st, items, i, acc, fuel).Ok?
    ensures var r := EvalEach(st, items, i, acc, fuel).value;
            Holds(r.1, r.0, ws + vs) && Grows(st, r.1)
    decreases |vs|
  {
    if vs != [] {
      AtomStep(st, items, i, vs, fuel);
      var c := Clone(st, items[i]);
      HoldsKept(st, c.st, acc, ws);
      HoldsAppend(c.st, acc, ws, c.ref, vs[0]);
      EvalEachAtoms(c.st, items, i + 1, acc + [c.ref], ws + [vs[0]], vs[1..], fuel);
      assert ws + [vs[0]] + vs[1..] == ws + vs;
    }
  }

  /** `(list A ..)` is a new list of new nodes holding the operands'
      values, in order. */
  lemma ListOfAtoms(st: Store, n: Ref, items: seq<Ref>, vs: seq<Val>, fuel: nat)
    requires fuel > 0 && |items| == |vs| + 1 && Atoms(st, items, 1, vs)
    ensures Lists(st, "LIST", n, items, fuel).Ok?
    ensures var o := Lists(st, "LIST", n, items, fuel).value;
            ValueOf(o).VList? && Holds(o.st, ValueOf(o).items, vs)
  {
    EvalEachAtoms(st, items, 1, [], [], vs, fuel);
    var r := EvalEach(st, items, 1, [], fuel).value;
    var o := Alloc(r.1, VList(r.0));
    assert [] + vs == vs;
    HoldsKept(r.1, o.st, r.0, vs);
  }

  /** `(length L)` counts the elements of a list; anything else fails the
      cast. */
  lemma LengthOfAtom(st: Store, n: Ref, items: seq<Ref>, v: Val, fuel: nat)
    requires fuel > 0 && Atoms(st, items, 1, [v])
    ensures ValueResult(Lists(st, "LENGTH", n, items, fuel))
            == if v.VList? then Ok(VInt(|v.items|)) else Err(ListValue(v).fault)
  {
    AtomStep(st, items, 1, [v], fuel);
  }

  /** `(nth I L)` is element I of the list, the very node and not a copy;
      an index outside the list throws. */
  lemma NthOfList(st: Store, n: Ref, items: seq<Ref>, i: int, rs: seq<Ref>, fuel: nat)
    requires fuel > 0 && IsInt(i) && Atoms(st, items, 1, [VInt(i), VList(rs)])
    ensures var r := Lists(st, "NTH", n, items, fuel);
            if 0 <= i < |rs| then r.Ok? && r.value.ref == rs[i] else r == Throw(IndexOutOfBounds)
  {
    AtomStep(st, items, 1, [VInt(i), VList(rs)], fuel);
    AtomStep(Clone(st, items[1]).st, items, 2, [VList(rs)], fuel);
    WrapInRange(i);
  }

  // ---------------------------------------------------------------------------
  // map, filter and fold with a builtin

  const UNARY: set<string> := {"INC", "DEC", "NOT"}

  /** What `inc`, `dec` and `!` give for one value. */
  function Unary(op: string, v: Val): Result<Val>
    requires op in UNARY
  {
    if op == "NOT" then
      if v.VBool? then Ok(VBool(!v.b)) else Err(BoolValue(v).fault)
    else
      var d := if op == "INC" then 1 else -1;
      match v
      case VInt(i) => Ok(VInt(Wrap32(i + d)))
      case VLong(l) => Ok(VLong(Wrap64(l + d)))
      case _ => Err(DoubleFault(v))
  }

  /** A call node whose elements copy themselves and whose head is a
      builtin runs that builtin's branch on the same elements. */
  lemma CallBuiltinHead(st: Store, n: Ref, op: string, items: seq<Ref>, vs: seq<Val>, fuel: nat)
    requires fuel >= 2 && ValueAt(st, n) == VList(items) && !NodeAt(st, n).isData
    requires |vs| > 0 && vs[0] == VBuiltin(op) && Atoms(st, items, 0, vs)
    ensures Eval(st, n, fuel) == Builtin(Clone(st, items[0]).st, op, n, items, fuel - 1)
    ensures Grows(st, Clone(st, items[0]).st) && Atoms(Clone(st, items[0]).st, items, 1, vs[1..])
  {
    AtomStep(st, items, 0, vs, fuel - 1);
  }

  lemma UnaryBuiltin(st: Store, op: string, n: Ref, items: seq<Ref>, v: Val, fuel: nat)
    requires op in UNARY && fuel > 0 && |items| > 0 && Atoms(st, items, 1, [v])
    ensures var r := Builtin(st, op, n, items, fuel);
            ValueResult(r) == Unary(op, v) && (r.Ok? ==> Grows(st, r.value.st))
  {
    if op == "NOT" {
      NotOfAtom(st, items, v, fuel);
    } else {
      IncDecOfAtom(st, op, items, v, fuel);
    }
  }

  /** A call node (f e) of a unary builtin on an element that copies
      itself: its value is the builtin's on the element. */
  lemma CallUnary(st: Store, op: string, f: Ref, e: Ref, v: Val, fuel: nat)
    requires op in UNARY && fuel >= 2 && AtomAt(st, f, VBuiltin(op)) && AtomAt(st, e, v)
    ensures var o := Alloc(st, VList([f, e]));
            var r := Eval(o.st, o.ref, fuel);
            ValueResult(r) == Unary(op, v) && (r.Ok? ==> Grows(st, r.value.st))
  {
    var o := Alloc(st, VList([f, e]));
    var items := [f, e];
    assert Atoms(st, items, 0, [VBuiltin(op), v]);
    AtomsKept(st, o.st, items, 0, [VBuiltin(op), v]);
    CallBuiltinHead(o.st, o.ref, op, items, [VBuiltin(op), v], fuel);
    var h := Clone(o.st, f);
    UnaryBuiltin(h.st, op, o.ref, items, v, fuel - 1);
  }

  /** The builtin on each value in turn, stopping at the first failure. */
  function UnaryAll(op: string, vs: seq<Val>): Result<seq<Val>>
    requires op in UNARY
  {
    if vs == [] then Ok([])
    else
      var w :- Unary(op, vs[0]);
      var ws :- UnaryAll(op, vs[1..]);
      Ok([w] + ws)
  }

  /** One element of `map`: the call's value is appended and the rest
      continue on the store the call leaves. */
  lemma MapLoopStep(st: Store, f: Ref, lst: seq<Ref>, i: nat, acc: seq<Ref>, fuel: nat)
    requires i < |lst|
    ensures var o := Alloc(st, VList([f, lst[i]]));
            var e := Eval(o.st, o.ref, fuel);
            MapLoop(st, f, lst, i, acc, fuel)
            == if e.Ok? then MapLoop(e.value.st, f, lst, i + 1, acc + [e.value.ref], fuel) else Err(e.fault)
  {
  }

  lemma AtomsTail(st: Store, items: seq<Ref>, i: nat, vs: seq<Val>)
    requires |vs| > 0 && Atoms(st, items, i, vs)
    ensures AtomAt(st, items[i], vs[0]) && Atoms(st, items, i + 1, vs[1..])
  {
    assert AtomAt(st, items[i + 0], vs[0]);
    forall k | 0 <= k < |vs[1..]|
      ensures AtomAt(st, items[i + 1 + k], vs[1..][k])
    {
      assert AtomAt(st, items[i + (k + 1)], vs[k + 1]);
    }
  }

  /** A loop over a list gave the nodes of ws followed by nodes holding
      the values u, or failed with u's fault. */
  ghost predicate Collects(r: Result<(seq<Ref>, Store)>, ws: seq<Val>, u: Result<seq<Val>>)
  {
    (r.Ok? <==> u.Ok?) && (r.Err? ==> r.fault == u.fault) && (r.Ok? ==> Holds(r.value.1, r.value.0, ws + u.value))
  }

  /** u with w in front, or u's fault. */
  function Cons(w: Val, u: Result<seq<Val>>): Result<seq<Val>>
  {
    if u.Ok? then Ok([w] + u.value) else Err(u.fault)
  }

  lemma CollectsCons(r: Result<(seq<Ref>, Store)>, ws: seq<Val>, w: Val, u: Result<seq<Val>>)
    requires Collects(r, ws + [w], u)
    ensures Collects(r, ws, Cons(w, u))
  {
    if u.Ok? {
      assert ws + [w] + u.value == ws + ([w] + u.value);
    }
  }

  lemma UnaryCollects(r: Result<(seq<Ref>, Store)>, op: string, vs: seq<Val>, ws: seq<Val>, w: Val)
    requires op in UNARY && |vs| > 0 && Unary(op, vs[0]) == Ok(w)
    requires Collects(r, ws + [w], UnaryAll(op, vs[1..]))
    ensures Collects(r, ws, UnaryAll(op, vs))
  {
    assert UnaryAll(op, vs) == Cons(w, UnaryAll(op, vs[1..]));
    CollectsCons(r, ws, w, UnaryAll(op, vs[1..]));
  }

  lemma {:induction false} MapLoopUnary(st: Store, op: string, f: Ref, lst: seq<Ref>, i: nat, acc: seq<Ref>, ws: seq<Val>, vs: seq<Val>, fuel: nat)
    requires op in UNARY && fuel >= 2 && AtomAt(st, f, VBuiltin(op))
    requires Atoms(st, lst, i, vs) && i + |vs| == |lst| && Holds(st, acc, ws)
    ensures Collects(MapLoop(st, f, lst, i, acc, fuel), ws, UnaryAll(op, vs))
    decreases |vs|, 1
  {
    if vs != [] {
      AtomsTail(st, lst, i, vs);
      CallUnary(st, op, f, lst[i], vs[0], fuel);
      MapLoopStep(st, f, lst, i, acc, fuel);
      var o := Alloc(st, VList([f, lst[i]]));
      var e := Eval(o.st, o.ref, fuel);
      if e.Ok? {
        MapLoopRest(st, op, f, lst, i, acc, ws, vs, e.value, fuel);
      }
    }
  }

  /** The rest of `map` after the call on element i gave c. */
  lemma {:induction false} MapLoopRest(st: Store, op: string, f: Ref, lst: seq<Ref>, i: nat, acc: seq<Ref>, ws: seq<Val>, vs: seq<Val>, c: Out, fuel: nat)
    requires op in UNARY && fuel >= 2 && AtomAt(st, f, VBuiltin(op)) && |vs| > 0
    requires Atoms(st, lst, i + 1, vs[1..]) && i + |vs| == |lst| && Holds(st, acc, ws)
    requires Grows(st, c.st) && Unary(op, vs[0]) == Ok(ValueOf(c)) && c.ref < |c.st.nodes|
    ensures Collects(MapLoop(c.st, f, lst, i + 1, acc + [c.ref], fuel), ws, UnaryAll(op, vs))
    decreases |vs|, 0
  {
    AtomKept(st, c.st, f, VBuiltin(op));
    AtomsKept(st, c.st, lst, i + 1, vs[1..]);
    HoldsKept(st, c.st, acc, ws);
    HoldsAppend(c.st, acc, ws, c.ref, ValueOf(c));
    MapLoopUnary(c.st, op, f, lst, i + 1, acc + [c.ref], ws + [ValueOf(c)], vs[1..], fuel);
    UnaryCollects(MapLoop(c.st, f, lst, i + 1, acc + [c.ref], fuel), op, vs, ws, ValueOf(c));
  }

  /** `(F L)` builtins that take a function and a list: F and L are copied
      and the branch runs on the copy of F and the elements of L. */
  lemma HigherArgs(st: Store, op: string, n: Ref, items: seq<Ref>, fv: Val, rs: seq<Ref>, fuel: nat)
    requires op in {"CONS", "APPLY", "MAP", "FILTER", "FOLD"} && fuel > 0 && Atoms(st, items, 1, [fv, VList(rs)])
    ensures var f := Clone(st, items[1]);
            var l := Clone(f.st, items[2]);
            Lists(st, op, n, items, fuel) == Higher(l.st, op, f.ref, rs, fuel)
            && AtomAt(l.st, f.ref, fv) && Grows(st, l.st)
  {
    AtomStep(st, items, 1, [fv, VList(rs)], fuel);
    var f := Clone(st, items[1]);
    AtomStep(f.st, items, 2, [VList(rs)], fuel);
    var l := Clone(f.st, items[2]);
    assert AtomAt(f.st, f.ref, fv);
    AtomKept(f.st, l.st, f.ref, fv);
  }

  /** `(cons X L)` is a new list whose first element holds X's value and
      whose other elements are the very element nodes of L, not copies. */
  lemma ConsOfAtoms(st: Store, n: Ref, items: seq<Ref>, x: Val, rs: seq<Ref>, ws: seq<Val>, fuel: nat)
    requires fuel > 0 && Atoms(st, items, 1, [x, VList(rs)]) && Holds(st, rs, ws)
    ensures var r := Lists(st, "CONS", n, items, fuel);
            r.Ok? && ValueOf(r.value).VList? && ValueOf(r.value).items[1..] == rs
            && Holds(r.value.st, ValueOf(r.value).items, [x] + ws)
  {
    HigherArgs(st, "CONS", n, items, x, rs, fuel);
    var f := Clone(st, items[1]);
    var l := Clone(f.st, items[2]);
    var o := Alloc(l.st, VList([f.ref] + rs));
    HoldsKept(st, o.st, rs, ws);
    AtomKept(l.st, o.st, f.ref, x);
  }

  /** `(map F L)` with `inc`, `dec` or `!` over a list of elements that copy
      themselves is a new list holding the builtin's value on each element,
      in order; it fails with the first element the builtin fails on. */
  lemma MapOfUnary(st: Store, n: Ref, items: seq<Ref>, op: string, rs: seq<Ref>, vs: seq<Val>, fuel: nat)
    requires op in UNARY && fuel >= 2 && |rs| == |vs|
    requires Atoms(st, items, 1, [VBuiltin(op), VList(rs)]) && Atoms(st, rs, 0, vs)
    ensures var r := Lists(st, "MAP", n, items, fuel);
            var u := UnaryAll(op, vs);
            (r.Ok? <==> u.Ok?) && (r.Err? ==> r.fault == u.fault)
            && (r.Ok? ==> ValueOf(r.value).VList? && Holds(r.value.st, ValueOf(r.value).items, u.value))
  {
    HigherArgs(st, "MAP", n, items, VBuiltin(op), rs, fuel);
    var f := Clone(st, items[1]);
    var l := Clone(f.st, items[2]);
    AtomsKept(st, l.st, rs, 0, vs);
    MapLoopUnary(l.st, op, f.ref, rs, 0, [], [], vs, fuel);
    var m := MapLoop(l.st, f.ref, rs, 0, [], fuel);
    if m.Ok? {
      var o := Alloc(m.value.1, VList(m.value.0));
      assert [] + UnaryAll(op, vs).value == UnaryAll(op, vs).value;
      HoldsKept(m.value.1, o.st, m.value.0, UnaryAll(op, vs).value);
    }
  }

  /** `filter` with a builtin as Java runs it over values: the elements
      whose call gives true, in order, stopping at the first call that fails
      or does not give a Boolean. */
  function FilterAll(op: string, vs: seq<Val>): Result<seq<Val>>
    requires op in UNARY
  {
    if vs == [] then Ok([])
    else
      var w :- Unary(op, vs[0]);
      var keep :- BoolValue(w);
      var rest :- FilterAll(op, vs[1..]);
      Ok(if keep then [vs[0]] + rest else rest)
  }

  /** Over Booleans, filtering with `!` keeps exactly the false ones. */
  lemma {:induction false} FilterNotKeepsFalse(vs: seq<Val>)
    requires AllBools(vs)
    ensures FilterAll("NOT", vs).Ok?
    ensures forall w :: w in FilterAll("NOT", vs).value <==> w in vs && w == VBool(false)
    decreases |vs|
  {
    if vs != [] {
      FilterNotKeepsFalse(vs[1..]);
      assert vs == [vs[0]] + vs[1..];
    }
  }

  /** One element of `filter`: the call on it decides whether the element
      node itself is kept. */
  lemma FilterLoopStep(st: Store, f: Ref, lst: seq<Ref>, i: nat, acc: seq<Ref>, fuel: nat)
    requires i < |lst|
    ensures var o := Alloc(st, VList([f, lst[i]]));
            var e := Eval(o.st, o.ref, fuel);
            FilterLoop(st, f, lst, i, acc, fuel)
            == if e.Ok? then
                 (var keep :- BoolValue(ValueOf(e.value));
                  FilterLoop(e.value.st, f, lst, i + 1, if keep then acc + [lst[i]] else acc, fuel))
               else Err(e.fault)
  {
  }

  lemma FilterCollects(r: Result<(seq<Ref>, Store)>, op: string, vs: seq<Val>, ws: seq<Val>, w: Val, keep: bool)
    requires op in UNARY && |vs| > 0 && Unary(op, vs[0]) == Ok(w) && BoolValue(w) == Ok(keep)
    requires Collects(r, if keep then ws + [vs[0]] else ws, FilterAll(op, vs[1..]))
    ensures Collects(r, ws, FilterAll(op, vs))
  {
    var u := FilterAll(op, vs[1..]);
    if keep {
      assert FilterAll(op, vs) == Cons(vs[0], u);
      CollectsCons(r, ws, vs[0], u);
    } else {
      assert FilterAll(op, vs) == u;
    }
  }

  lemma {:induction false} FilterLoopUnary(st: Store, op: string, f: Ref, lst: seq<Ref>, i: nat, acc: seq<Ref>, ws: seq<Val>, vs: seq<Val>, fuel: nat)
    requires op in UNARY && fuel >= 2 && AtomAt(st, f, VBuiltin(op))
    requires Atoms(st, lst, i, vs) && i + |vs| == |lst| && Holds(st, acc, ws)
    ensures Collects(FilterLoop(st, f, lst, i, acc, fuel), ws, FilterAll(op, vs))
    decreases |vs|, 1
  {
    if vs != [] {
      AtomsTail(st, lst, i, vs);
      CallUnary(st, op, f, lst[i], vs[0], fuel);
      FilterLoopStep(st, f, lst, i, acc, fuel);
      var o := Alloc(st, VList([f, lst[i]]));
      var e := Eval(o.st, o.ref, fuel);
      if e.Ok? {
        FilterLoopRest(st, op, f, lst, i, acc, ws, vs, e.value, fuel);
      }
    }
  }

  /** The rest of `filter` after the call on element i gave c. */
  lemma {:induction false} FilterLoopRest(st: Store, op: string, f: Ref, lst: seq<Ref>, i: nat, acc: seq<Ref>, ws: seq<Val>, vs: seq<Val>, c: Out, fuel: nat)
    requires op in UNARY && fuel >= 2 && AtomAt(st, f, VBuiltin(op)) && |vs| > 0
    requires i + |vs| == |lst| && AtomAt(st, lst[i], vs[0]) && Atoms(st, lst, i + 1, vs[1..]) && Holds(st, acc, ws)
    requires Grows(st, c.st) && Unary(op, vs[0]) == Ok(ValueOf(c))
    ensures Collects((var keep :- BoolValue(ValueOf(c));
                      FilterLoop(c.st, f, lst, i + 1, if keep then acc + [lst[i]] else acc, fuel)),
                     ws, FilterAll(op, vs))
    decreases |vs|, 0
  {
    if BoolValue(ValueOf(c)).Ok? {
      var keep := BoolValue(ValueOf(c)).value;
      AtomKept(st, c.st, f, VBuiltin(op));
      AtomKept(st, c.st, lst[i], vs[0]);
      AtomsKept(st, c.st, lst, i + 1, vs[1..]);
      HoldsKept(st, c.st, acc, ws);
      HoldsAppend(c.st, acc, ws, lst[i], vs[0]);
      var acc' := if keep then acc + [lst[i]] else acc;
      var ws' := if keep then ws + [vs[0]] else ws;
      FilterLoopUnary(c.st, op, f, lst, i + 1, acc', ws', vs[1..], fuel);
      FilterCollects(FilterLoop(c.st, f, lst, i + 1, acc', fuel), op, vs, ws, ValueOf(c), keep);
    }
  }

  /** `(filter F L)` with `inc`, `dec` or `!` over a list of elements that
      copy themselves is a new list of exactly the elements whose call gives
      true, in order. */
  lemma FilterOfUnary(st: Store, n: Ref, items: seq<Ref>, op: string, rs: seq<Ref>, vs: seq<Val>, fuel: nat)
    requires op in UNARY && fuel >= 2 && |rs| == |vs|
    requires Atoms(st, items, 1, [VBuiltin(op), VList(rs)]) && Atoms(st, rs, 0, vs)
    ensures var r := Lists(st, "FILTER", n, items, fuel);
            var u := FilterAll(op, vs);
            (r.Ok? <==> u.Ok?) && (r.Err? ==> r.fault == u.fault)
            && (r.Ok? ==> ValueOf(r.value).VList? && Holds(r.value.st, ValueOf(r.value).items, u.value))
  {
    HigherArgs(st, "FILTER", n, items, VBuiltin(op), rs, fuel);
    var f := Clone(st, items[1]);
    var l := Clone(f.st, items[2]);
    AtomsKept(st, l.st, rs, 0, vs);
    FilterLoopUnary(l.st, op, f.ref, rs, 0, [], [], vs, fuel);
    var m := FilterLoop(l.st, f.ref, rs, 0, [], fuel);
    if m.Ok? {
      var o := Alloc(m.value.1, VList(m.value.0));
      assert [] + FilterAll(op, vs).value == FilterAll(op, vs).value;
      HoldsKept(m.value.1, o.st, m.value.0, FilterAll(op, vs).value);
    }
  }

  /** A call node (f e ..) of `+ - * /` on numbers that copy themselves,
      the first an Integer: the int fold of the others into the first. */
  lemma CallOfInts(st: Store, op: string, f: Ref, lst: seq<Ref>, vs: seq<Val>, fuel: nat)
    requires op in ARITH && fuel >= 2 && |lst| == |vs| && |vs| >= 1 && AllNumbers(vs) && vs[0].VInt?
    requires AtomAt(st, f, VBuiltin(op)) && Atoms(st, lst, 0, vs)
    ensures var o := Alloc(st, VList([f] + lst));
            var r := Eval(o.st, o.ref, fuel);
            ValueResult(r) == Boxed(false, FoldInts(op, Wrap32(vs[0].i), IntsOf(vs[1..])))
            && (r.Ok? ==> Grows(st, r.value.st) && r.value.ref < |r.value.st.nodes|)
  {
    var o := Alloc(st, VList([f] + lst));
    CallNode(st, f, VBuiltin(op), lst, vs);
    CallBuiltinHead(o.st, o.ref, op, [f] + lst, [VBuiltin(op)] + vs, fuel);
    ArithBuiltin(Clone(o.st, f).st, op, o.ref, [f] + lst, vs, fuel - 1);
  }

  /** A new call node (f e ..) over nodes that copy themselves. */
  lemma CallNode(st: Store, f: Ref, fv: Val, lst: seq<Ref>, vs: seq<Val>)
    requires AtomAt(st, f, fv) && Atoms(st, lst, 0, vs) && |lst| == |vs|
    ensures var o := Alloc(st, VList([f] + lst));
            Atoms(o.st, [f] + lst, 0, [fv] + vs) && ([fv] + vs)[1..] == vs && ([f] + lst)[0] == f
            && ValueAt(o.st, o.ref) == VList([f] + lst) && !NodeAt(o.st, o.ref).isData && Grows(st, o.st)
  {
    var o := Alloc(st, VList([f] + lst));
    AtomsCons(st, f, fv, lst, vs);
    AtomsKept(st, o.st, [f] + lst, 0, [fv] + vs);
  }

  lemma ArithBuiltin(st: Store, op: string, n: Ref, items: seq<Ref>, vs: seq<Val>, fuel: nat)
    requires op in ARITH && fuel > 0 && |vs| >= 1 && |items| == |vs| + 1
    requires Atoms(st, items, 1, vs) && AllNumbers(vs) && vs[0].VInt?
    ensures var r := Builtin(st, op, n, items, fuel);
            ValueResult(r) == Boxed(false, FoldInts(op, Wrap32(vs[0].i), IntsOf(vs[1..])))
            && (r.Ok? ==> Grows(st, r.value.st) && r.value.ref < |r.value.st.nodes|)
  {
    ArithOfInts(st, op, items, vs, fuel);
  }

  /** A call node (f a e) of `+ - * /` on an Integer accumulator and a
      number element: one step of the int fold. */
  lemma CallArith(st: Store, op: string, f: Ref, acc: Ref, e: Ref, a: int, v: Val, fuel: nat)
    requires op in ARITH && fuel >= 2 && (v.VInt? || v.VLong?)
    requires AtomAt(st, f, VBuiltin(op)) && AtomAt(st, acc, VInt(a)) && AtomAt(st, e, v)
    ensures var o := Alloc(st, VList([f, acc, e]));
            var r := Eval(o.st, o.ref, fuel);
            ValueResult(r) == Boxed(false, FoldInts(op, Wrap32(a), IntsOf([v])))
            && (r.Ok? ==> Grows(st, r.value.st) && r.value.ref < |r.value.st.nodes|)
  {
    assert Atoms(st, [acc, e], 0, [VInt(a), v]);
    assert [f] + [acc, e] == [f, acc, e] && [VInt(a), v][1..] == [v];
    CallOfInts(st, op, f, [acc, e], [VInt(a), v], fuel);
  }

  lemma FoldIntsFirst(op: string, a: int, vs: seq<Val>)
    requires op in ARITH && IsInt(a) && |vs| > 0 && AllNumbers(vs)
    ensures FoldInts(op, a, IntsOf([vs[0]])) == IntStep(op, a, IntsOf(vs)[0])
    ensures FoldInts(op, a, IntsOf(vs)) == (var b :- IntStep(op, a, IntsOf(vs)[0]); FoldInts(op, b, IntsOf(vs[1..])))
  {
    assert IntsOf(vs)[1..] == IntsOf(vs[1..]);
    assert IntsOf([vs[0]])[1..] == [];
  }

  /** One element of `fold`: the call's node is the new accumulator. */
  lemma FoldLoopStep(st: Store, f: Ref, lst: seq<Ref>, i: nat, acc: Ref, fuel: nat)
    requires i < |lst|
    ensures var o := Alloc(st, VList([f, acc, lst[i]]));
            var e := Eval(o.st, o.ref, fuel);
            FoldLoop(st, f, lst, i, acc, fuel)
            == if e.Ok? then FoldLoop(e.value.st, f, lst, i + 1, e.value.ref, fuel) else Err(e.fault)
  {
  }

  lemma {:induction false} FoldLoopInts(st: Store, op: string, f: Ref, lst: seq<Ref>, i: nat, acc: Ref, a: int, vs: seq<Val>, fuel: nat)
    requires op in ARITH && fuel >= 2 && IsInt(a) && AtomAt(st, f, VBuiltin(op)) && AtomAt(st, acc, VInt(a))
    requires Atoms(st, lst, i, vs) && i + |vs| == |lst| && AllNumbers(vs)
    ensures ValueResult(FoldLoop(st, f, lst, i, acc, fuel)) == Boxed(false, FoldInts(op, Wrap32(a), IntsOf(vs)))
    decreases |vs|, 1
  {
    WrapInRange(a);
    if vs == [] {
      assert FoldLoop(st, f, lst, i, acc, fuel) == Ok(Out(acc, st));
    } else {
      AtomsTail(st, lst, i, vs);
      CallArith(st, op, f, acc, lst[i], a, vs[0], fuel);
      FoldIntsFirst(op, Wrap32(a), vs);
      FoldLoopStep(st, f, lst, i, acc, fuel);
      var o := Alloc(st, VList([f, acc, lst[i]]));
      var e := Eval(o.st, o.ref, fuel);
      if e.Ok? {
        FoldLoopRest(st, op, f, lst, i, a, vs, e.value, fuel);
      }
    }
  }

  /** The rest of `fold` after the call on element i gave c. */
  lemma {:induction false} FoldLoopRest(st: Store, op: string, f: Ref, lst: seq<Ref>, i: nat, a: int, vs: seq<Val>, c: Out, fuel: nat)
    requires op in ARITH && fuel >= 2 && AtomAt(st, f, VBuiltin(op)) && |vs| > 0 && AllNumbers(vs)
    requires i + |vs| == |lst| && Atoms(st, lst, i + 1, vs[1..])
    requires Grows(st, c.st) && c.ref < |c.st.nodes|
    requires IntStep(op, Wrap32(a), IntsOf(vs)[0]).Ok? && ValueOf(c) == VInt(IntStep(op, Wrap32(a), IntsOf(vs)[0]).value)
    ensures ValueResult(FoldLoop(c.st, f, lst, i + 1, c.ref, fuel)) == Boxed(false, FoldInts(op, Wrap32(a), IntsOf(vs)))
    decreases |vs|, 0
  {
    var b := IntStep(op, Wrap32(a), IntsOf(vs)[0]).value;
    WrapInRange(b);
    AtomKept(st, c.st, f, VBuiltin(op));
    AtomsKept(st, c.st, lst, i + 1, vs[1..]);
    assert AtomAt(c.st, c.ref, VInt(b));
    FoldLoopInts(c.st, op, f, lst, i + 1, c.ref, b, vs[1..], fuel);
    FoldIntsFirst(op, Wrap32(a), vs);
  }

  /** `(fold F L)` with `+ - * /` over a list of numbers that starts with
      an Integer is the int left fold of F over the elements, starting from
      the first; an empty list throws. */
  lemma FoldOfInts(st: Store, n: Ref, items: seq<Ref>, op: string, rs: seq<Ref>, vs: seq<Val>, fuel: nat)
    requires op in ARITH && fuel >= 2 && |rs| == |vs| && AllNumbers(vs) && (vs != [] ==> vs[0].VInt? && IsInt(vs[0].i))
    requires Atoms(st, items, 1, [VBuiltin(op), VList(rs)]) && Atoms(st, rs, 0, vs)
    ensures vs == [] ==> Lists(st, "FOLD", n, items, fuel) == Throw(IndexOutOfBounds)
    ensures vs != [] ==>
              ValueResult(Lists(st, "FOLD", n, items, fuel)) == Boxed(false, FoldInts(op, Wrap32(vs[0].i), IntsOf(vs[1..])))
  {
    HigherArgs(st, "FOLD", n, items, VBuiltin(op), rs, fuel);
    var f := Clone(st, items[1]);
    var l := Clone(f.st, items[2]);
    AtomsKept(st, l.st, rs, 0, vs);
    FoldHigherInts(l.st, op, f.ref, rs, vs, fuel);
  }

  /** The fold branch on a copied builtin and a list of numbers. */
  lemma FoldHigherInts(st: Store, op: string, f: Ref, rs: seq<Ref>, vs: seq<Val>, fuel: nat)
    requires op in ARITH && fuel >= 2 && |rs| == |vs| && AllNumbers(vs) && (vs != [] ==> vs[0].VInt? && IsInt(vs[0].i))
    requires AtomAt(st, f, VBuiltin(op)) && Atoms(st, rs, 0, vs)
    ensures vs == [] ==> Higher(st, "FOLD", f, rs, fuel) == Throw(IndexOutOfBounds)
    ensures vs != [] ==>
              ValueResult(Higher(st, "FOLD", f, rs, fuel)) == Boxed(false, FoldInts(op, Wrap32(vs[0].i), IntsOf(vs[1..])))
  {
    if vs != [] {
      AtomStep(st, rs, 0, vs, fuel);
      var a := Clone(st, rs[0]);
      assert Higher(st, "FOLD", f, rs, fuel) == FoldLoop(a.st, f, rs, 1, a.ref, fuel);
      AtomKept(st, a.st, f, VBuiltin(op));
      assert AtomAt(a.st, a.ref, vs[0]);
      FoldLoopInts(a.st, op, f, rs, 1, a.ref, vs[0].i, vs[1..], fuel);
    }
  }

  lemma AtomsCons(st: Store, f: Ref, fv: Val, lst: seq<Ref>, vs: seq<Val>)
    requires AtomAt(st, f, fv) && Atoms(st, lst, 0, vs) && |lst| == |vs|
    ensures Atoms(st, [f] + lst, 0, [fv] + vs) && ([fv] + vs)[1..] == vs
  {
    forall k | 0 <= k < |vs| + 1
      ensures AtomAt(st, ([f] + lst)[0 + k], ([fv] + vs)[k])
    {
      if k > 0 {
        assert AtomAt(st, lst[0 + (k - 1)], vs[k - 1]);
      }
    }
  }

  /** `(apply F L)` with `+ - * /` over a list of numbers that starts with
      an Integer is the call of F on the elements: their int fold. */
  lemma ApplyOfInts(st: Store, n: Ref, items: seq<Ref>, op: string, rs: seq<Ref>, vs: seq<Val>, fuel: nat)
    requires op in ARITH && fuel >= 2 && |rs| == |vs| && |vs| >= 1 && AllNumbers(vs) && vs[0].VInt?
    requires Atoms(st, items, 1, [VBuiltin(op), VList(rs)]) && Atoms(st, rs, 0, vs)
    ensures ValueResult(Lists(st, "APPLY", n, items, fuel)) == Boxed(false, FoldInts(op, Wrap32(vs[0].i), IntsOf(vs[1..])))
  {
    HigherArgs(st, "APPLY", n, items, VBuiltin(op), rs, fuel);
    var f := Clone(st, items[1]);
    var l := Clone(f.st, items[2]);
    AtomsKept(st, l.st, rs, 0, vs);
    CallOfInts(l.st, op, f.ref, rs, vs, fuel);
  }
}
