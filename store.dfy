/** The heap of Paren 1.7 (paren.java): `node` objects, `environment`
    frames and the macro table, kept in one explicit store so that the
    sharing the interpreter depends on (a compiled symbol and its environment
    entry are the same node) is visible. A reference is an index into the
    store; allocation appends. */
module ParenStore {
  import opened JavaLang
  import opened ParenReader

  datatype Option<+T> = None | Some(value: T)

  type Ref = nat

  /** What a node holds: null, an Integer, a Long, a Double (its value is not
      modelled), a Boolean, a String, a symbol (with the identity of the
      symbol object, which is the node the reader created it in), a builtin
      (its enum constant's name), a list of nodes, or a closure (its
      definition list and its frame). */
  datatype Val =
    | VNull
    | VInt(i: int)
    | VLong(l: int)
    | VDbl
    | VBool(b: bool)
    | VStr(s: string)
    | VSym(name: string, id: Ref)
    | VBuiltin(op: string)
    | VList(items: seq<Ref>)
    | VFn(def: seq<Ref>, env: nat)

  /** A node: its value and whether the compiler has marked it as data. */
  datatype Cell = Cell(value: Val, isData: bool)

  /** An environment frame: its own bindings and the enclosing frame. */
  datatype Frame = Frame(vars: map<string, Ref>, outer: Option<nat>)

  /** All nodes, all frames, and the macro table (name to parameter list and
      template). */
  datatype Store = Store(nodes: seq<Cell>, frames: seq<Frame>, macros: map<string, (Ref, Ref)>)

  /** A node reference together with the store it lives in. */
  datatype Out = Out(ref: Ref, st: Store)

  /** The shared constants node_true, node_false, node_0 and node_1, and the
      global environment. */
  const TRUE: Ref := 0
  const FALSE: Ref := 1
  const ZERO: Ref := 2
  const ONE: Ref := 3
  const GLOBAL: nat := 0

  // ---------------------------------------------------------------------------
  // Nodes

  /** The node at r (a reference past the store reads as a null node). */
  function NodeAt(st: Store, r: Ref): Cell
  {
    if r < |st.nodes| then st.nodes[r] else Cell(VNull, false)
  }

  function ValueAt(st: Store, r: Ref): Val { NodeAt(st, r).value }

  /** The value of a returned node. */
  function ValueOf(o: Out): Val { ValueAt(o.st, o.ref) }

  /** What any step of the interpreter may do to a store: add nodes, frames
      and macros, change node values and bind names. Nothing is ever
      removed: the node and frame counts and the set of macro names only
      grow. */
  predicate Evolves(st: Store, st': Store)
  {
    |st.nodes| <= |st'.nodes| && |st.frames| <= |st'.frames| && st.macros.Keys <= st'.macros.Keys
  }

  lemma EvolvesTrans(a: Store, b: Store, c: Store)
    requires Evolves(a, b) && Evolves(b, c)
    ensures Evolves(a, c)
  {
  }

  /** `new node(v)`. */
  function Alloc(st: Store, v: Val): (o: Out)
    ensures o.ref == |st.nodes| && o.st.nodes == st.nodes + [Cell(v, false)]
    ensures o.st.frames == st.frames && o.st.macros == st.macros
    ensures ValueAt(o.st, o.ref) == v
    ensures forall q: Ref :: q < |st.nodes| ==> NodeAt(o.st, q) == NodeAt(st, q)
  {
    Out(|st.nodes|, st.(nodes := st.nodes + [Cell(v, false)]))
  }

  /** `n.clone()`: a new node with the same value and data mark. */
  function Clone(st: Store, r: Ref): (o: Out)
    ensures o.ref == |st.nodes| && NodeAt(o.st, o.ref) == NodeAt(st, r)
    ensures o.st.frames == st.frames && o.st.macros == st.macros
    ensures forall q: Ref :: q < |st.nodes| ==> NodeAt(o.st, q) == NodeAt(st, q)
  {
    Out(|st.nodes|, st.(nodes := st.nodes + [NodeAt(st, r)]))
  }

  /** `n.value = v`. */
  function SetValue(st: Store, r: Ref, v: Val): (st': Store)
    ensures |st'.nodes| == |st.nodes| && st'.frames == st.frames && st'.macros == st.macros
    ensures r < |st.nodes| ==> NodeAt(st', r) == NodeAt(st, r).(value := v)
    ensures forall q: Ref :: q != r ==> NodeAt(st', q) == NodeAt(st, q)
  {
    if r < |st.nodes| then st.(nodes := st.nodes[r := st.nodes[r].(value := v)]) else st
  }

  /** `n.isData = true`. */
  function MarkData(st: Store, r: Ref): (st': Store)
    ensures |st'.nodes| == |st.nodes| && st'.frames == st.frames && st'.macros == st.macros
    ensures r < |st.nodes| ==> NodeAt(st', r) == NodeAt(st, r).(isData := true)
    ensures forall q: Ref :: q != r ==> NodeAt(st', q) == NodeAt(st, q)
  {
    if r < |st.nodes| then st.(nodes := st.nodes[r := st.nodes[r].(isData := true)]) else st
  }

  // ---------------------------------------------------------------------------
  // Environments

  function FrameAt(st: Store, e: nat): Frame
  {
    if e < |st.frames| then st.frames[e] else Frame(map[], None)
  }

  /** `new environment(outer)`: the new frame's index and the store. */
  function NewFrame(st: Store, outer: nat): (r: (nat, Store))
    ensures r.0 == |st.frames| && r.1.frames == st.frames + [Frame(map[], Some(outer))]
    ensures r.1.nodes == st.nodes && r.1.macros == st.macros
  {
    (|st.frames|, st.(frames := st.frames + [Frame(map[], Some(outer))]))
  }

  /** `env.env.put(name, r)` on frame e. */
  function Put(st: Store, e: nat, name: string, r: Ref): (st': Store)
    ensures st'.nodes == st.nodes && st'.macros == st.macros && |st'.frames| == |st.frames|
    ensures e < |st.frames| ==> FrameAt(st', e) == FrameAt(st, e).(vars := FrameAt(st, e).vars[name := r])
    ensures forall f: nat :: f != e ==> FrameAt(st', f) == FrameAt(st, f)
  {
    if e < |st.frames| then st.(frames := st.frames[e := st.frames[e].(vars := st.frames[e].vars[name := r])])
    else st
  }

  /** `environment.get`: the binding in frame e, else in the enclosing frames.
      A frame always encloses only frames created before it, which is what
      bounds the walk. */
  function Get(st: Store, e: nat, name: string): Option<Ref>
    decreases e
  {
    if e >= |st.frames| then None
    else if name in st.frames[e].vars then Some(st.frames[e].vars[name])
    else
      match st.frames[e].outer
      case Some(o) => if o < e then Get(st, o, name) else None
      case None => None
  }

  /** The frames get walks through, innermost first. */
  function Chain(st: Store, e: nat): (c: seq<nat>)
    ensures forall k :: 0 <= k < |c| ==> c[k] < |st.frames|
    ensures e < |st.frames| ==> |c| > 0 && c[0] == e
    decreases e
  {
    if e >= |st.frames| then []
    else
      match st.frames[e].outer
      case Some(o) => if o < e then [e] + Chain(st, o) else [e]
      case None => [e]
  }

  /** get finds the name in the first frame of the chain that binds it, and
      finds nothing when no frame of the chain binds it. */
  lemma GetInnermost(st: Store, e: nat, name: string)
    ensures Get(st, e, name).None? <==> forall k :: 0 <= k < |Chain(st, e)| ==> name !in st.frames[Chain(st, e)[k]].vars
    ensures Get(st, e, name).Some? ==>
              exists k :: 0 <= k < |Chain(st, e)| && name in st.frames[Chain(st, e)[k]].vars
                && st.frames[Chain(st, e)[k]].vars[name] == Get(st, e, name).value
                && forall j :: 0 <= j < k ==> name !in st.frames[Chain(st, e)[j]].vars
  {
    if Get(st, e, name).None? {
      GetNothing(st, e, name);
    } else {
      var k := GetFound(st, e, name);
      assert name in st.frames[Chain(st, e)[k]].vars;
    }
  }

  /** The chain of a frame with an enclosing frame continues with the
      enclosing frame's chain. */
  lemma ChainStep(st: Store, e: nat, o: nat)
    requires e < |st.frames| && st.frames[e].outer == Some(o) && o < e
    ensures Chain(st, e) == [e] + Chain(st, o)
    ensures forall k :: 1 <= k < |Chain(st, e)| ==> Chain(st, e)[k] == Chain(st, o)[k - 1]
  {
  }

  /** When get finds nothing, no frame of the chain binds the name. */
  lemma {:induction false} GetNothing(st: Store, e: nat, name: string)
    requires Get(st, e, name).None?
    ensures forall k :: 0 <= k < |Chain(st, e)| ==> name !in st.frames[Chain(st, e)[k]].vars
    decreases e
  {
    if e < |st.frames| {
      var c := Chain(st, e);
      match st.frames[e].outer
      case Some(o) =>
        if o < e {
          GetNothing(st, o, name);
          ChainStep(st, e, o);
          forall k | 0 <= k < |c| ensures name !in st.frames[c[k]].vars {
            if k > 0 { assert c[k] == Chain(st, o)[k - 1]; }
          }
        } else {
          assert c == [e];
        }
      case None =>
        assert c == [e];
    }
  }

  /** The position in the chain of the frame get takes the binding from. */
  lemma {:induction false} GetFound(st: Store, e: nat, name: string) returns (k: nat)
    requires Get(st, e, name).Some?
    ensures k < |Chain(st, e)| && name in st.frames[Chain(st, e)[k]].vars
    ensures st.frames[Chain(st, e)[k]].vars[name] == Get(st, e, name).value
    ensures forall j :: 0 <= j < k ==> name !in st.frames[Chain(st, e)[j]].vars
    decreases e
  {
    var c := Chain(st, e);
    if name in st.frames[e].vars {
      assert c[0] == e;
      k := 0;
    } else {
      match st.frames[e].outer
      case Some(o) =>
        ChainStep(st, e, o);
        var i := GetFound(st, o, name);
        k := i + 1;
        forall j | 0 <= j < k ensures name !in st.frames[c[j]].vars {
          if j > 0 { assert c[j] == Chain(st, o)[j - 1]; }
        }
    }
  }

  /** A new frame sees every binding of its enclosing frame it does not bind
      itself. */
  lemma GetThroughNewFrame(st: Store, outer: nat, name: string)
    requires outer < |st.frames|
    ensures var (e, st') := NewFrame(st, outer); Get(st', e, name) == Get(st, outer, name)
  {
    var (e, st') := NewFrame(st, outer);
    GetUnchanged(st, st', outer, name);
  }

  /** get from frame e depends only on frames up to e. */
  lemma {:induction false} GetUnchanged(st: Store, st': Store, e: nat, name: string)
    requires e < |st.frames| <= |st'.frames| && st'.frames[..|st.frames|] == st.frames
    ensures Get(st', e, name) == Get(st, e, name)
    decreases e
  {
    assert st'.frames[e] == st.frames[e];
    match st.frames[e].outer
    case Some(o) => if o < e && name !in st.frames[e].vars { GetUnchanged(st, st', o, name); }
    case None =>
  }

  /** Binding a name in frame e makes get from e find it. */
  lemma PutThenGet(st: Store, e: nat, name: string, r: Ref)
    requires e < |st.frames|
    ensures Get(Put(st, e, name, r), e, name) == Some(r)
  {
  }

  // ---------------------------------------------------------------------------
  // stringValue()

  /** `node.stringValue()`: "" for null, the decimal form of an Integer or
      Long, the name of a symbol or builtin, and `[a, b]` for a list (a
      closure prints its definition list); a list that contains itself
      recurses until the stack runs out. */
  function Show(st: Store, v: Val, fuel: nat): (r: Result<string>)
    ensures v.VStr? ==> r == Ok(v.s)
    ensures v.VSym? ==> r == Ok(v.name)
    ensures v.VNull? ==> r == Ok("")
    ensures v.VInt? ==> r == Ok(ShowInt(v.i))
    ensures v.VLong? ==> r == Ok(ShowInt(v.l))
    ensures v.VBool? ==> r == Ok(if v.b then "true" else "false")
    ensures v.VBuiltin? ==> r == Ok(v.op)
    decreases fuel, 1, 0
  {
    match v
    case VNull => Ok("")
    case VInt(i) => Ok(ShowInt(i))
    case VLong(l) => Ok(ShowInt(l))
    case VDbl => Err(Unmodelled("Double.toString"))
    case VBool(b) => Ok(if b then "true" else "false")
    case VStr(s) => Ok(s)
    case VSym(name, _) => Ok(name)
    case VBuiltin(op) => Ok(op)
    case VList(items) => ShowList(st, items, fuel)
    case VFn(def, _) => ShowList(st, def, fuel)
  }

  function ShowList(st: Store, items: seq<Ref>, fuel: nat): (r: Result<string>)
    ensures r.Ok? ==> |r.value| >= 2 && r.value[0] == '['
    decreases fuel, 0, 0
  {
    if fuel == 0 then Err(OutOfFuel)
    else
      var body :- ShowItems(st, items, 0, fuel - 1);
      Ok("[" + body + "]")
  }

  /** The elements from i on, separated by ", ". */
  function ShowItems(st: Store, items: seq<Ref>, i: nat, fuel: nat): Result<string>
    decreases fuel, 2, |items| - i
  {
    if i >= |items| then Ok("")
    else
      var s :- Show(st, ValueAt(st, items[i]), fuel);
      if i + 1 == |items| then Ok(s)
      else
        var rest :- ShowItems(st, items, i + 1, fuel);
        Ok(s + ", " + rest)
  }

  /** A list whose elements print as texts prints as `[` + the texts
      separated by ", " + `]`, as `AbstractCollection.toString()` does. */
  lemma ShowListJoined(st: Store, items: seq<Ref>, texts: seq<string>, fuel: nat)
    requires fuel > 0 && |texts| == |items|
    requires forall k :: 0 <= k < |items| ==> Show(st, ValueAt(st, items[k]), fuel - 1) == Ok(texts[k])
    ensures ShowList(st, items, fuel) == Ok("[" + CommaJoined(texts) + "]")
  {
    forall k | 0 <= k < |items|
      ensures Show(st, ValueAt(st, items[k]), fuel - 1) == Ok(texts[k - 0])
    {
    }
    ShowItemsJoined(st, items, 0, texts, fuel - 1);
    assert ShowItems(st, items, 0, fuel - 1) == Ok(CommaJoined(texts));
  }

  lemma {:induction false} ShowItemsJoined(st: Store, items: seq<Ref>, i: nat, texts: seq<string>, fuel: nat)
    requires i <= |items| && |texts| == |items| - i
    requires forall k :: i <= k < |items| ==> Show(st, ValueAt(st, items[k]), fuel) == Ok(texts[k - i])
    ensures ShowItems(st, items, i, fuel) == Ok(CommaJoined(texts))
    decreases |items| - i
  {
    if i < |items| {
      assert Show(st, ValueAt(st, items[i]), fuel) == Ok(texts[0]);
      if i + 1 < |items| {
        ShowItemsJoined(st, items, i + 1, texts[1..], fuel);
        CommaJoinedCons(texts[0], texts[1..]);
      }
      assert [texts[0]] + texts[1..] == texts;
      CommaJoinedCons(texts[0], texts[1..]);
    }
  }

  // ---------------------------------------------------------------------------
  // Conversions of node values

  /** `intValue()` of `(Number) value`: a Long is narrowed to its low 32 bits. */
  function IntValue(v: Val): (r: Result<int>)
    ensures r.Ok? ==> IsInt(r.value)
    ensures v.VInt? && IsInt(v.i) ==> r == Ok(v.i)
    ensures v.VLong? ==> r == Ok(Wrap32(v.l))
    ensures v.VNull? ==> r == Throw(NullPointer)
    ensures r.Ok? <==> v.VInt? || v.VLong?
    ensures !(IsNumber(v) || v.VNull?) ==> r == Throw(ClassCast)
  {
    match v
    case VInt(i) => Ok(Wrap32(i))
    case VLong(l) => Ok(Wrap32(l))
    case VDbl => Err(Unmodelled("Double.intValue"))
    case VNull => Throw(NullPointer)
    case _ => Throw(ClassCast)
  }

  /** `longValue()` of `(Number) value`. */
  function LongValue(v: Val): (r: Result<int>)
    ensures r.Ok? ==> IsLong(r.value)
    ensures v.VLong? && IsLong(v.l) ==> r == Ok(v.l)
    ensures v.VInt? && IsInt(v.i) ==> r == Ok(v.i)
    ensures v.VNull? ==> r == Throw(NullPointer)
    ensures r.Ok? <==> v.VInt? || v.VLong?
    ensures !(IsNumber(v) || v.VNull?) ==> r == Throw(ClassCast)
  {
    match v
    case VInt(i) => WrapInRange(Wrap32(i)); Ok(Wrap64(Wrap32(i)))
    case VLong(l) => Ok(Wrap64(l))
    case VDbl => Err(Unmodelled("Double.longValue"))
    case VNull => Throw(NullPointer)
    case _ => Throw(ClassCast)
  }

  /** Whether `((Number) value)` succeeds. */
  predicate IsNumber(v: Val) { v.VInt? || v.VLong? || v.VDbl? }

  /** A boxed Integer (long = false) or Long (long = true). */
  function Num(long: bool, x: int): Val { if long then VLong(x) else VInt(x) }

  /** `doubleValue()`: never a value here, since floating point is not
      modelled; only the exception it throws for a non-number is. */
  function DoubleFault(v: Val): (f: Fault)
    ensures v.VNull? ==> f == Thrown(NullPointer)
    ensures v.VStr? || v.VSym? || v.VBool? || v.VList? || v.VFn? || v.VBuiltin? ==> f == Thrown(ClassCast)
  {
    match v
    case VNull => Thrown(NullPointer)
    case VInt(_) => Unmodelled("double arithmetic")
    case VLong(_) => Unmodelled("double arithmetic")
    case VDbl => Unmodelled("double arithmetic")
    case _ => Thrown(ClassCast)
  }

  /** `booleanValue()`: unboxing `(Boolean) value`. */
  function BoolValue(v: Val): (r: Result<bool>)
    ensures r.Ok? <==> v.VBool?
    ensures v.VBool? ==> r == Ok(v.b)
    ensures v.VNull? ==> r == Throw(NullPointer)
  {
    match v
    case VBool(b) => Ok(b)
    case VNull => Throw(NullPointer)
    case _ => Throw(ClassCast)
  }

  /** `arrayListValue()` followed by a use of the list. */
  function ListValue(v: Val): (r: Result<seq<Ref>>)
    ensures r.Ok? <==> v.VList?
    ensures v.VList? ==> r == Ok(v.items)
    ensures v.VNull? ==> r == Throw(NullPointer)
  {
    match v
    case VList(items) => Ok(items)
    case VNull => Throw(NullPointer)
    case _ => Throw(ClassCast)
  }

  /** `a.equals(b)` with a the receiver: value equality for Integer, Long,
      Boolean and String of the same class, identity for symbols, builtins
      and closures, and element identity for lists. */
  function JEquals(a: Val, b: Val): (r: Result<bool>)
    ensures a.VNull? ==> r == Throw(NullPointer)
    ensures !a.VNull? && !a.VDbl? ==> r == Ok(a == b)
  {
    if a.VNull? then Throw(NullPointer)
    else if a.VDbl? then (if b.VDbl? then Err(Unmodelled("Double.equals")) else Ok(false))
    else Ok(a == b)
  }

  // ---------------------------------------------------------------------------
  // Reading: the nodes the parser allocates

  /** The nodes of a parsed form: a list's elements are allocated before the
      list, and a symbol's identity is its node. */
  function AllocForm(st: Store, f: Form): (o: Out)
    ensures |o.st.nodes| > |st.nodes| && o.ref == |o.st.nodes| - 1
    ensures o.st.nodes[..|st.nodes|] == st.nodes && o.st.frames == st.frames && o.st.macros == st.macros
    decreases f, 1
  {
    match f
    case FStr(s) => Alloc(st, VStr(s))
    case FInt(i) => Alloc(st, VInt(i))
    case FLong(l) => Alloc(st, VLong(l))
    case FDbl(_) => Alloc(st, VDbl)
    case FSym(name) => Alloc(st, VSym(name, |st.nodes|))
    case FList(items) =>
      var (refs, st') := AllocForms(st, items);
      Alloc(st', VList(refs))
  }

  function AllocForms(st: Store, fs: seq<Form>): (r: (seq<Ref>, Store))
    ensures |r.0| == |fs| && |r.1.nodes| >= |st.nodes|
    ensures forall k :: 0 <= k < |r.0| ==> |st.nodes| <= r.0[k] < |r.1.nodes|
    ensures r.1.nodes[..|st.nodes|] == st.nodes && r.1.frames == st.frames && r.1.macros == st.macros
    decreases fs, 0
  {
    if fs == [] then ([], st)
    else
      var o := AllocForm(st, fs[0]);
      var (rest, st') := AllocForms(o.st, fs[1..]);
      ([o.ref] + rest, st')
  }
}
