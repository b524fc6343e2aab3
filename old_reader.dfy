/** The reader of Paren 1.2.3 (`parse` in src/paren.java): a single pass over
    the characters with a sentinel space appended, in which a list is read by
    counting brackets and its text is parsed again recursively. */
module OldParenReader {
  import opened JavaLang
  import ParenLexer
  import ParenReader

  /** The values a 1.2.3 node holds: null, an Integer, a Double (its value is
      not modelled), a Boolean, a string, a symbol (a string node with
      isSymbol set) or a Vector of nodes. Nodes are never updated in place in
      this version, so they are modelled as values. */
  datatype OVal =
    | ONull
    | OInt(i: int)
    | ODbl
    | OBool(b: bool)
    | OStr(s: string)
    | OSym(name: string)
    | OList(items: seq<OVal>)

  /** Characters that end a token. */
  predicate EndsToken(c: char) { ParenLexer.IsSpace(c) || c == ';' }

  /** The position of the end of the line that starts at pos (the `\n`, or
      the end of the text). */
  function SkipLine(s: string, pos: nat): (r: nat)
    ensures pos <= r || (pos > |s| && r == pos)
    ensures r <= |s| || r == pos
    ensures r < |s| ==> s[r] == '\n'
    ensures forall i :: pos <= i < r && i < |s| ==> s[i] != '\n'
    decreases |s| - pos
  {
    if pos >= |s| || s[pos] == '\n' then pos else SkipLine(s, pos + 1)
  }

  /** The node for a token that does not start with `(`. */
  function AtomValue(tok: string): (r: Result<OVal>)
    requires |tok| > 0 && tok[0] != '('
    ensures r.Ok? ==> !r.value.OList? && !r.value.ONull? && !r.value.OBool?
    ensures r.Ok? && r.value.OStr? <==> tok[0] == '\'' || tok[0] == '"'
    ensures r.Ok? && r.value.OSym? <==> tok[0] != '\'' && tok[0] != '"' && !ParenReader.LooksNumeric(tok)
    ensures r.Err? ==> r == Throw(NumberFormat) && ParenReader.LooksNumeric(tok)
    ensures r.Ok? && r.value.OStr? ==> r.value.s == tok[1..]
    ensures r.Ok? && r.value.OSym? ==> r.value.name == tok
    ensures r.Ok? && r.value.ODbl? <==>
              tok[0] != '\'' && tok[0] != '"' && ParenReader.LooksNumeric(tok) && ('.' in tok || 'e' in tok)
  {
    if tok[0] == '\'' || tok[0] == '"' then Ok(OStr(tok[1..]))
    else if ParenReader.LooksNumeric(tok) then
      if '.' in tok || 'e' in tok then Ok(ODbl)
      else
        var v :- ParseInt(tok);
        Ok(OInt(v))
    else Ok(OSym(tok))
  }

  // ---------------------------------------------------------------------------
  // The character loop as a state machine. Loop is the main loop, ReadString
  // the loop after an opening `"`, ReadList the bracket-counting loop after an
  // opening `(`, Classify the treatment of a finished token. s already holds
  // the sentinel; acc is never longer than the characters consumed.

  function Loop(s: string, pos: nat, acc: string, ret: seq<OVal>): Result<seq<OVal>>
    requires |acc| <= pos
    decreases |s|, |s| + 2 - pos
  {
    if pos >= |s| then Ok(ret)
    else
      var c := s[pos];
      if EndsToken(c) then
        var p := if c == ';' then SkipLine(s, pos + 1) else pos;
        if |acc| == 0 then Loop(s, p + 1, "", ret)
        else
          var v :- Classify(acc);
          Loop(s, p + 1, "", ret + [v])
      else if |acc| == 0 && c == '"' then ReadString(s, pos + 1, "\"", ret)
      else if |acc| == 0 && c == '(' then ReadList(s, pos + 1, 1, "(", ret)
      else Loop(s, pos + 1, acc + [c], ret)
  }

  function ReadString(s: string, pos: nat, acc: string, ret: seq<OVal>): Result<seq<OVal>>
    requires |acc| <= pos
    decreases |s|, |s| + 2 - pos
  {
    if pos >= |s| then Throw(IndexOutOfBounds)
    else if s[pos] == '"' then Loop(s, pos + 1, acc, ret)
    else if pos < |s| - 1 && s[pos] == '\\' then
      ReadString(s, pos + 2, acc + [ParenLexer.DecodeEscape(s[pos + 1])], ret)
    else ReadString(s, pos + 1, acc + [s[pos]], ret)
  }

  function ReadList(s: string, pos: nat, depth: int, acc: string, ret: seq<OVal>): Result<seq<OVal>>
    requires |acc| <= pos
    decreases |s|, |s| + 2 - pos
  {
    if pos >= |s| then Throw(IndexOutOfBounds)
    else
      var d := if s[pos] == '(' then depth + 1 else if s[pos] == ')' then depth - 1 else depth;
      if d <= 0 then Loop(s, pos + 1, acc, ret)
      else ReadList(s, pos + 1, d, acc + [s[pos]], ret)
  }

  function Classify(tok: string): Result<OVal>
    requires |tok| > 0
    decreases |tok| + 1, 0
  {
    if tok[0] == '(' then
      var items :- Loop(tok[1..] + " ", 0, "", []);
      Ok(OList(items))
    else AtomValue(tok)
  }

  /** parse(s). */
  function OldParse(s: string): Result<seq<OVal>>
  {
    Loop(s + " ", 0, "", [])
  }

  /** parse(s) as the source runs it: the character loop, recursing on the
      text of each list. */
  method Parse(s0: string) returns (r: Result<seq<OVal>>)
    ensures r == OldParse(s0)
    decreases |s0|
  {
    var s := s0 + " ";
    var ret: seq<OVal> := [];
    var acc := "";
    var pos := 0;
    while pos < |s|
      invariant |acc| <= pos
      invariant Loop(s, pos, acc, ret) == OldParse(s0)
      decreases |s| + 2 - pos
    {
      var c := s[pos];
      if EndsToken(c) {
        if c == ';' {
          pos := SkipToNewline(s, pos + 1);
        }
        var tok := acc;
        acc := "";
        if |tok| > 0 {
          var v;
          if tok[0] == '(' {
            var items := Parse(tok[1..]);
            if items.Err? {
              return Err(items.fault);
            }
            v := OList(items.value);
          } else {
            var a := AtomValue(tok);
            if a.Err? {
              return Err(a.fault);
            }
            v := a.value;
          }
          ret := ret + [v];
        }
      } else if |acc| == 0 && c == '"' {
        var ok;
        ok, pos, acc := ScanString(s, pos + 1, "\"", ret);
        if !ok {
          return Throw(IndexOutOfBounds);
        }
      } else if |acc| == 0 && c == '(' {
        var ok;
        ok, pos, acc := ScanList(s, pos + 1, "(", ret);
        if !ok {
          return Throw(IndexOutOfBounds);
        }
      } else {
        acc := acc + [c];
      }
      pos := pos + 1;
    }
    return Ok(ret);
  }

  /** The comment loop: moves to the end of the line. */
  method SkipToNewline(s: string, pos0: nat) returns (pos: nat)
    ensures pos == SkipLine(s, pos0)
  {
    pos := pos0;
    while pos < |s| && s[pos] != '\n'
      invariant SkipLine(s, pos) == SkipLine(s, pos0)
      decreases |s| - pos
    {
      pos := pos + 1;
    }
  }

  /** The string loop: stops on the closing quote, or fails with an index
      error when the text ends first. */
  method ScanString(s: string, pos0: nat, acc0: string, ghost ret: seq<OVal>) returns (ok: bool, pos: nat, acc: string)
    requires |acc0| <= pos0
    ensures pos0 <= pos
    ensures ok ==> |acc| <= pos < |s| && s[pos] == '"' && ReadString(s, pos0, acc0, ret) == Loop(s, pos + 1, acc, ret)
    ensures !ok ==> ReadString(s, pos0, acc0, ret) == Throw(IndexOutOfBounds)
  {
    pos, acc := pos0, acc0;
    while true
      invariant pos0 <= pos && |acc| <= pos
      invariant ReadString(s, pos, acc, ret) == ReadString(s, pos0, acc0, ret)
      decreases |s| + 2 - pos
    {
      if pos >= |s| {
        return false, pos, acc;
      }
      if s[pos] == '"' {
        return true, pos, acc;
      }
      if pos < |s| - 1 && s[pos] == '\\' {
        acc := acc + [ParenLexer.DecodeEscape(s[pos + 1])];
        pos := pos + 2;
      } else {
        acc := acc + [s[pos]];
        pos := pos + 1;
      }
    }
  }

  /** The bracket-counting loop: stops on the bracket that brings the depth
      to zero, or fails with an index error when the text ends first. */
  method ScanList(s: string, pos0: nat, acc0: string, ghost ret: seq<OVal>) returns (ok: bool, pos: nat, acc: string)
    requires |acc0| <= pos0
    ensures pos0 <= pos
    ensures ok ==> |acc| <= pos < |s| && s[pos] == ')' && ReadList(s, pos0, 1, acc0, ret) == Loop(s, pos + 1, acc, ret)
    ensures !ok ==> ReadList(s, pos0, 1, acc0, ret) == Throw(IndexOutOfBounds)
  {
    var depth := 1;
    pos, acc := pos0, acc0;
    while true
      invariant pos0 <= pos && |acc| <= pos
      invariant ReadList(s, pos, depth, acc, ret) == ReadList(s, pos0, 1, acc0, ret)
      decreases |s| + 2 - pos
    {
      if pos >= |s| {
        return false, pos, acc;
      }
      if s[pos] == '(' {
        depth := depth + 1;
      } else if s[pos] == ')' {
        depth := depth - 1;
      }
      if depth <= 0 {
        return true, pos, acc;
      }
      acc := acc + [s[pos]];
      pos := pos + 1;
    }
  }

  // ---------------------------------------------------------------------------
  // Reading segment by segment

  /** Characters that neither end a token nor start a string or a list just
      accumulate. */
  lemma {:induction false} LoopRun(s: string, pos: nat, t: string, acc: string, ret: seq<OVal>)
    requires |acc| <= pos && ParenLexer.At(s, pos, t)
    requires forall i :: 0 <= i < |t| ==> !EndsToken(t[i])
    requires |acc| == 0 && |t| > 0 ==> t[0] != '"' && t[0] != '('
    ensures Loop(s, pos, acc, ret) == Loop(s, pos + |t|, acc + t, ret)
    decreases |t|
  {
    if t == [] {
      assert acc + t == acc;
    } else {
      assert s[pos] == t[0];
      var rest := t[1..];
      assert ParenLexer.At(s, pos + 1, rest) by {
        forall i | 0 <= i < |rest| ensures s[pos + 1 + i] == rest[i] {
          assert s[pos + (1 + i)] == t[1 + i];
        }
      }
      assert Loop(s, pos, acc, ret) == Loop(s, pos + 1, acc + [t[0]], ret);
      LoopRun(s, pos + 1, rest, acc + [t[0]], ret);
      assert acc + [t[0]] + rest == acc + t;
    }
  }

  /** A finished token followed by white space is classified and appended. */
  lemma LoopSpace(s: string, pos: nat, acc: string, ret: seq<OVal>)
    requires |acc| <= pos < |s| && ParenLexer.IsSpace(s[pos])
    ensures |acc| == 0 ==> Loop(s, pos, acc, ret) == Loop(s, pos + 1, "", ret)
    ensures |acc| > 0 ==> Loop(s, pos, acc, ret) == (var v :- Classify(acc); Loop(s, pos + 1, "", ret + [v]))
  {
  }

  /** A finished token that classifies as v, followed by white space or by a
      `;` that comments out the rest of the line, is appended as v. */
  lemma LoopEmit(s: string, pos: nat, acc: string, ret: seq<OVal>, v: OVal)
    requires 0 < |acc| <= pos < |s| && EndsToken(s[pos]) && Classify(acc) == Ok(v)
    ensures s[pos] != ';' ==> Loop(s, pos, acc, ret) == Loop(s, pos + 1, "", ret + [v])
    ensures s[pos] == ';' ==> Loop(s, pos, acc, ret) == Loop(s, SkipLine(s, pos + 1) + 1, "", ret + [v])
  {
  }

  /** Reading a whole string literal: the escapes are decoded, the closing
      quote is dropped, and the token goes on accumulating after it. */
  lemma {:induction false} ReadStringBody(s: string, pos: nat, raw: string, acc: string, ret: seq<OVal>)
    requires |acc| <= pos && ParenLexer.StringBody(raw) && ParenLexer.At(s, pos, raw + "\"")
    requires pos + |raw| + 1 < |s|
    ensures |acc + ParenLexer.Unescape(raw)| <= pos + |raw| + 1
    ensures ReadString(s, pos, acc, ret) == Loop(s, pos + |raw| + 1, acc + ParenLexer.Unescape(raw), ret)
    decreases |raw|
  {
    UnescapeShorter(raw);
    assert s[pos] == (raw + "\"")[0];
    if raw == [] {
      assert acc + ParenLexer.Unescape(raw) == acc;
    } else {
      var k := if raw[0] == '\\' then 2 else 1;
      assert s[pos + k - 1] == (raw + "\"")[k - 1];
      var rest := raw[k..];
      assert ParenLexer.At(s, pos + k, rest + "\"") by {
        forall i | 0 <= i < |rest| + 1 ensures s[pos + k + i] == (rest + "\"")[i] {
          assert s[pos + (k + i)] == (raw + "\"")[k + i];
        }
      }
      var c := if raw[0] == '\\' then ParenLexer.DecodeEscape(raw[1]) else raw[0];
      assert ReadString(s, pos, acc, ret) == ReadString(s, pos + k, acc + [c], ret);
      assert ParenLexer.Unescape(raw) == [c] + ParenLexer.Unescape(rest);
      ReadStringBody(s, pos + k, rest, acc + [c], ret);
      assert acc + [c] + ParenLexer.Unescape(rest) == acc + ParenLexer.Unescape(raw);
    }
  }

  lemma {:induction false} UnescapeShorter(raw: string)
    requires ParenLexer.StringBody(raw)
    ensures |ParenLexer.Unescape(raw)| <= |raw|
    decreases |raw|
  {
    if raw != [] {
      if raw[0] == '\\' {
        UnescapeShorter(raw[2..]);
      } else {
        UnescapeShorter(raw[1..]);
      }
    }
  }

  // Bracket depth, as the list loop counts it: every `(` and `)` counts,
  // wherever it stands.

  function Step(depth: int, c: char): int
  {
    if c == '(' then depth + 1 else if c == ')' then depth - 1 else depth
  }

  /** The depth after scanning t from depth d. */
  function Final(t: string, d: int): int
    decreases |t|
  {
    if t == [] then d else Final(t[1..], Step(d, t[0]))
  }

  /** Scanning t from depth d never brings the depth down to zero. */
  predicate Inside(t: string, d: int)
    decreases |t|
  {
    t == [] || (Step(d, t[0]) > 0 && Inside(t[1..], Step(d, t[0])))
  }

  predicate ParenFree(t: string)
  {
    forall i :: 0 <= i < |t| ==> t[i] != '(' && t[i] != ')'
  }

  lemma {:induction false} ParenFreeScan(t: string, d: int)
    requires ParenFree(t) && d > 0
    ensures Inside(t, d) && Final(t, d) == d
    decreases |t|
  {
    if t != [] {
      ParenFreeScan(t[1..], d);
    }
  }

  lemma {:induction false} ScanAppend(a: string, b: string, d: int)
    requires Inside(a, d) && Inside(b, Final(a, d))
    ensures Inside(a + b, d) && Final(a + b, d) == Final(b, Final(a, d))
    decreases |a|
  {
    if a != [] {
      assert (a + b)[1..] == a[1..] + b;
      ScanAppend(a[1..], b, Step(d, a[0]));
    } else {
      assert a + b == b;
    }
  }

  /** The list loop reads a text that stays inside, up to the bracket that
      closes it. */
  lemma {:induction false} ReadListBody(s: string, pos: nat, t: string, d: int, acc: string, ret: seq<OVal>)
    requires |acc| <= pos && ParenLexer.At(s, pos, t + ")") && d > 0
    requires Inside(t, d) && Final(t, d) == 1
    ensures ReadList(s, pos, d, acc, ret) == Loop(s, pos + |t| + 1, acc + t, ret)
    decreases |t|
  {
    assert s[pos] == (t + ")")[0];
    if t == [] {
      assert acc + t == acc;
    } else {
      var rest := t[1..];
      assert ParenLexer.At(s, pos + 1, rest + ")") by {
        forall i | 0 <= i < |rest| + 1 ensures s[pos + 1 + i] == (rest + ")")[i] {
          assert s[pos + (1 + i)] == (t + ")")[1 + i];
        }
      }
      assert ReadList(s, pos, d, acc, ret) == ReadList(s, pos + 1, Step(d, t[0]), acc + [t[0]], ret);
      ReadListBody(s, pos + 1, rest, Step(d, t[0]), acc + [t[0]], ret);
      assert acc + [t[0]] + rest == acc + t;
    }
  }

  // ---------------------------------------------------------------------------
  // Printing values as 1.2.3 source text, and reading the text back

  /** Values that print as text the reader gives back: integers in range,
      symbols that are plain atoms, strings and symbols free of brackets
      (the list loop would count them), and lists of such values. */
  predicate OPrintable(v: OVal)
  {
    match v
    case OInt(i) => IsInt(i)
    case OStr(x) => ParenFree(x)
    case OSym(n) => ParenLexer.IsAtom(n) && !ParenReader.LooksNumeric(n) && n[0] != '\''
    case OList(vs) => AllOPrintable(vs)
    case _ => false
  }

  predicate AllOPrintable(vs: seq<OVal>)
  {
    forall i :: 0 <= i < |vs| ==> OPrintable(vs[i])
  }

  function OPrint(v: OVal): string
  {
    match v
    case OInt(i) => ShowInt(i)
    case OStr(x) => "\"" + ParenLexer.Escape(x) + "\""
    case OSym(n) => n
    case OList(vs) => "(" + OPrintSeq(vs) + ")"
    case _ => ""
  }

  function OPrintSeq(vs: seq<OVal>): string
  {
    if vs == [] then "" else OPrint(vs[0]) + " " + OPrintSeq(vs[1..])
  }

  lemma {:induction false} EscapeParenFree(x: string)
    requires ParenFree(x)
    ensures ParenFree(ParenLexer.Escape(x))
  {
    if x != [] {
      EscapeParenFree(x[1..]);
    }
  }

  /** Printed text never closes more brackets than it opens. */
  lemma {:induction false} PrintedDepth(v: OVal, d: int)
    requires OPrintable(v) && d > 0
    ensures Inside(OPrint(v), d) && Final(OPrint(v), d) == d
    decreases v, 1
  {
    match v
    case OInt(i) =>
      ParenReader.ShowIntNumeric(i);
      var s := ShowInt(i);
      assert ParenFree(s) by {
        forall k | 0 <= k < |s| ensures s[k] != '(' && s[k] != ')' {
          if k > 0 { assert s[k] == s[1..][k - 1]; }
        }
      }
      ParenFreeScan(s, d);
    case OStr(x) =>
      EscapeParenFree(x);
      ParenFreeScan(OPrint(v), d);
    case OSym(n) =>
      ParenFreeScan(n, d);
    case OList(vs) =>
      PrintedSeqDepth(vs, d + 1);
      assert OPrint(v) == "(" + (OPrintSeq(vs) + ")");
      ScanAppend(OPrintSeq(vs), ")", d + 1);
      ScanAppend("(", OPrintSeq(vs) + ")", d);
  }

  lemma {:induction false} PrintedSeqDepth(vs: seq<OVal>, d: int)
    requires AllOPrintable(vs) && d > 0
    ensures Inside(OPrintSeq(vs), d) && Final(OPrintSeq(vs), d) == d
    decreases vs, 0
  {
    if vs != [] {
      PrintedDepth(vs[0], d);
      ParenFreeScan(" ", d);
      ScanAppend(OPrint(vs[0]), " ", d);
      PrintedSeqDepth(vs[1..], d);
      ScanAppend(OPrint(vs[0]) + " ", OPrintSeq(vs[1..]), d);
    }
  }

  lemma ParseIntToken(i: int)
    requires IsInt(i)
    ensures |ShowInt(i)| > 0 && ShowInt(i)[0] != '(' && AtomValue(ShowInt(i)) == Ok(OInt(i))
    ensures forall k :: 0 <= k < |ShowInt(i)| ==> !EndsToken(ShowInt(i)[k]) && ShowInt(i)[k] != '"'
  {
    ParenReader.ShowIntNumeric(i);
    ParseShow(i, INT_MIN, INT_MAX);
    var s := ShowInt(i);
    forall k | 0 <= k < |s| ensures !EndsToken(s[k]) && s[k] != '"' {
      if k > 0 { assert s[k] == s[1..][k - 1]; }
    }
  }

  /** Reading the text of a printable value, wherever it stands, appends
      exactly that value. */
  lemma {:induction false} ReadPrintedValue(v: OVal, s: string, pos: nat, ret: seq<OVal>)
    requires OPrintable(v) && ParenLexer.At(s, pos, OPrint(v) + " ")
    ensures Loop(s, pos, "", ret) == Loop(s, pos + |OPrint(v)| + 1, "", ret + [v])
    decreases v, 1
  {
    match v
    case OInt(i) =>
      ParseIntToken(i);
      ReadPrintedAtom(v, s, pos, ret);
    case OSym(n) =>
      ReadPrintedAtom(v, s, pos, ret);
    case OStr(x) =>
      ReadPrintedString(x, s, pos, ret);
    case OList(vs) =>
      ReadPrintedList(vs, s, pos, ret);
  }

  lemma ReadPrintedAtom(v: OVal, s: string, pos: nat, ret: seq<OVal>)
    requires ParenLexer.At(s, pos, OPrint(v) + " ")
    requires |OPrint(v)| > 0 && OPrint(v)[0] != '(' && AtomValue(OPrint(v)) == Ok(v)
    requires forall k :: 0 <= k < |OPrint(v)| ==> !EndsToken(OPrint(v)[k]) && OPrint(v)[k] != '"'
    ensures Loop(s, pos, "", ret) == Loop(s, pos + |OPrint(v)| + 1, "", ret + [v])
  {
    var p := OPrint(v);
    ParenReaderAtSplit(s, pos, p, " ");
    var q := pos + |p|;
    assert s[q] == ' ' by { assert s[q + 0] == " "[0]; }
    LoopRun(s, pos, p, "", ret);
    assert "" + p == p;
    LoopSpace(s, q, p, ret);
  }

  lemma ReadPrintedString(x: string, s: string, pos: nat, ret: seq<OVal>)
    requires ParenLexer.At(s, pos, OPrint(OStr(x)) + " ")
    ensures Loop(s, pos, "", ret) == Loop(s, pos + |OPrint(OStr(x))| + 1, "", ret + [OStr(x)])
  {
    var p := OPrint(OStr(x));
    ParenReaderAtSplit(s, pos, p, " ");
    var q := pos + |p|;
    assert s[q] == ' ' by { assert s[q + 0] == " "[0]; }
    var raw := ParenLexer.Escape(x);
    ParenLexer.UnescapeEscape(x);
    assert p == "\"" + (raw + "\"");
    ParenReaderAtSplit(s, pos, "\"", raw + "\"");
    assert s[pos] == '"' by { assert s[pos + 0] == "\""[0]; }
    assert Loop(s, pos, "", ret) == ReadString(s, pos + 1, "\"", ret);
    ReadStringBody(s, pos + 1, raw, "\"", ret);
    assert ("\"" + x)[1..] == x;
    LoopSpace(s, q, "\"" + x, ret);
  }

  lemma {:induction false} ReadPrintedList(vs: seq<OVal>, s: string, pos: nat, ret: seq<OVal>)
    requires AllOPrintable(vs) && ParenLexer.At(s, pos, OPrint(OList(vs)) + " ")
    ensures Loop(s, pos, "", ret) == Loop(s, pos + |OPrint(OList(vs))| + 1, "", ret + [OList(vs)])
    decreases OList(vs), 0
  {
    var p := OPrint(OList(vs));
    ParenReaderAtSplit(s, pos, p, " ");
    var q := pos + |p|;
    assert s[q] == ' ' by { assert s[q + 0] == " "[0]; }
    var body := OPrintSeq(vs);
    assert p == "(" + (body + ")");
    ParenReaderAtSplit(s, pos, "(", body + ")");
    assert s[pos] == '(' by { assert s[pos + 0] == "("[0]; }
    assert Loop(s, pos, "", ret) == ReadList(s, pos + 1, 1, "(", ret);
    PrintedSeqDepth(vs, 1);
    ReadListBody(s, pos + 1, body, 1, "(", ret);
    LoopSpace(s, q, "(" + body, ret);
    assert ("(" + body)[1..] == body;
    ReadPrintedProgram(vs);
  }

  lemma {:induction false} ReadPrintedSeq(vs: seq<OVal>, s: string, pos: nat, ret: seq<OVal>)
    requires AllOPrintable(vs) && ParenLexer.At(s, pos, OPrintSeq(vs))
    ensures Loop(s, pos, "", ret) == Loop(s, pos + |OPrintSeq(vs)|, "", ret + vs)
    decreases vs, 0
  {
    if vs == [] {
      assert ret + vs == ret;
    } else {
      var head := OPrint(vs[0]) + " ";
      assert OPrintSeq(vs) == head + OPrintSeq(vs[1..]);
      ParenReaderAtSplit(s, pos, head, OPrintSeq(vs[1..]));
      ReadPrintedValue(vs[0], s, pos, ret);
      ReadPrintedSeq(vs[1..], s, pos + |head|, ret + [vs[0]]);
      assert ret + [vs[0]] + vs[1..] == ret + vs;
    }
  }

  /** Printing values and reading the text back gives the same values. */
  lemma {:induction false} ReadPrintedProgram(vs: seq<OVal>)
    requires AllOPrintable(vs)
    ensures OldParse(OPrintSeq(vs)) == Ok(vs)
    decreases vs, 2
  {
    var p := OPrintSeq(vs);
    var s := p + " ";
    assert ParenLexer.At(s, 0, p) by {
      forall i | 0 <= i < |p| ensures s[0 + i] == p[i] { }
    }
    ReadPrintedSeq(vs, s, 0, []);
    assert [] + vs == vs;
    LoopSpace(s, |p|, "", vs);
  }

  lemma ParenReaderAtSplit(s: string, pos: nat, a: string, b: string)
    requires ParenLexer.At(s, pos, a + b)
    ensures ParenLexer.At(s, pos, a) && ParenLexer.At(s, pos + |a|, b)
  {
    ParenReader.AtSplit(s, pos, a, b);
  }

  // ---------------------------------------------------------------------------
  // Behaviour of the character loop on small texts

  /** The sentinel space emits the last token of the text. */
  lemma LastTokenEmitted(t: string)
    requires ParenLexer.IsAtom(t)
    ensures OldParse(t) == (var v :- AtomValue(t); Ok([v]))
  {
    var s := t + " ";
    assert ParenLexer.At(s, 0, t) by {
      forall i | 0 <= i < |t| ensures s[0 + i] == t[i] { }
    }
    assert forall i :: 0 <= i < |t| ==> !EndsToken(t[i]) by {
      forall i | 0 <= i < |t| ensures !EndsToken(t[i]) {
        assert !ParenLexer.IsDelimiter(t[i]);
      }
    }
    LoopRun(s, 0, t, "", []);
    assert "" + t == t;
    assert s[|t|] == ' ';
    assert Classify(t) == AtomValue(t);
    match AtomValue(t)
    case Ok(v) =>
      LoopEmit(s, |t|, t, [], v);
      assert [] + [v] == [v];
    case Err(e) =>
  }

  /** A list whose brackets never balance again runs the list loop off the
      end of the text. */
  lemma {:induction false} UnclosedListThrows(s: string, pos: nat, d: int, acc: string, ret: seq<OVal>)
    requires |acc| <= pos <= |s| && d > 0 && Inside(s[pos..], d)
    ensures ReadList(s, pos, d, acc, ret) == Throw(IndexOutOfBounds)
    decreases |s| - pos
  {
    if pos < |s| {
      assert s[pos..][0] == s[pos] && s[pos..][1..] == s[pos + 1..];
      UnclosedListThrows(s, pos + 1, Step(d, s[pos]), acc + [s[pos]], ret);
    }
  }

  /** Brackets inside a string literal still count in the list loop, so the
      list below never closes and the loop runs off the end of the text. */
  lemma BracketInStringInsideList()
    ensures OldParse("(g \"(\")") == Throw(IndexOutOfBounds)
  {
    var s := "(g \"(\") ";
    assert "(g \"(\")" + " " == s;
    assert Loop(s, 0, "", []) == ReadList(s, 1, 1, "(", []);
    assert s[1..] == "g \"(\") ";
    assert Inside(" ", 1);
    assert Inside(") ", 2);
    assert Inside("\") ", 2);
    assert Inside("(\") ", 1);
    assert Inside("\"(\") ", 1);
    assert Inside(" \"(\") ", 1);
    assert Inside(s[1..], 1);
    UnclosedListThrows(s, 1, 1, "(", []);
  }

  /** A comment runs to the end of its line; `;` also ends a token. */
  lemma CommentExample()
    ensures OldParse("a;b c\nd") == Ok([OSym("a"), OSym("d")])
  {
    var s := "a;b c\nd ";
    assert "a;b c\nd" + " " == s;
    assert "" + ['a'] == "a" && "" + ['d'] == "d";
    assert SkipLine(s, 5) == 5;
    assert SkipLine(s, 2) == 5;
    assert Classify("a") == Ok(OSym("a"));
    assert Classify("d") == Ok(OSym("d"));
    LoopEmit(s, 7, "d", [OSym("a")], OSym("d"));
    assert [OSym("a")] + [OSym("d")] == [OSym("a"), OSym("d")];
    assert Loop(s, 6, "", [OSym("a")]) == Loop(s, 7, "d", [OSym("a")]);
    LoopEmit(s, 1, "a", [], OSym("a"));
    assert [] + [OSym("a")] == [OSym("a")];
    assert Loop(s, 0, "", []) == Loop(s, 1, "a", []);
  }

  /** A text holding only a comment reads as no values. */
  lemma CommentOnlyExample()
    ensures OldParse("; only a comment") == Ok([])
  {
    var c := "; only a comment ";
    assert "; only a comment" + " " == c;
    assert forall i :: 0 <= i < |c| ==> c[i] != '\n';
    assert SkipLine(c, 1) == |c|;
    assert Loop(c, 0, "", []) == Loop(c, |c| + 1, "", []);
  }

  /** A closing quote does not end a token. */
  lemma GluedStringExample()
    ensures OldParse("\"ab\"cd") == Ok([OStr("abcd")])
  {
    var s := "\"ab\"cd ";
    assert "\"ab\"cd" + " " == s;
    assert "\"" + ['a'] == "\"a" && "\"a" + ['b'] == "\"ab";
    assert "\"ab" + ['c'] == "\"abc" && "\"abc" + ['d'] == "\"abcd";
    assert ReadString(s, 3, "\"ab", []) == Loop(s, 4, "\"ab", []);
    assert ReadString(s, 2, "\"a", []) == ReadString(s, 3, "\"ab", []);
    assert ReadString(s, 1, "\"", []) == ReadString(s, 2, "\"a", []);
    assert Loop(s, 5, "\"abc", []) == Loop(s, 6, "\"abcd", []);
    assert Loop(s, 4, "\"ab", []) == Loop(s, 5, "\"abc", []);
    assert Classify("\"abcd") == Ok(OStr("abcd"));
    LoopEmit(s, 6, "\"abcd", [], OStr("abcd"));
    assert [] + [OStr("abcd")] == [OStr("abcd")];
    assert Loop(s, 0, "", []) == ReadString(s, 1, "\"", []);
  }

  lemma TwoSymbols()
    ensures OldParse("a bc") == Ok([OSym("a"), OSym("bc")])
  {
    var u := "a bc ";
    assert "a bc" + " " == u;
    assert "" + ['a'] == "a" && "" + ['b'] == "b" && "b" + ['c'] == "bc";
    assert Classify("a") == Ok(OSym("a"));
    assert Classify("bc") == Ok(OSym("bc"));
    LoopEmit(u, 4, "bc", [OSym("a")], OSym("bc"));
    assert [OSym("a")] + [OSym("bc")] == [OSym("a"), OSym("bc")];
    assert Loop(u, 3, "b", [OSym("a")]) == Loop(u, 4, "bc", [OSym("a")]);
    assert Loop(u, 2, "", [OSym("a")]) == Loop(u, 3, "b", [OSym("a")]);
    LoopEmit(u, 1, "a", [], OSym("a"));
    assert [] + [OSym("a")] == [OSym("a")];
    assert Loop(u, 0, "", []) == Loop(u, 1, "a", []);
  }

  /** A closing bracket does not end a token: what follows it joins the
      list's text. */
  lemma GluedListExample()
    ensures OldParse("(a b)c") == Ok([OList([OSym("a"), OSym("bc")])])
  {
    var u := "a bc ";
    TwoSymbols();
    assert "a bc" + " " == u;
    var l := "(a b)c ";
    assert "(a b)c" + " " == l;
    assert "(" + ['a'] == "(a" && "(a" + [' '] == "(a " && "(a " + ['b'] == "(a b" && "(a b" + ['c'] == "(a bc";
    assert ReadList(l, 4, 1, "(a b", []) == Loop(l, 5, "(a b", []);
    assert ReadList(l, 3, 1, "(a ", []) == ReadList(l, 4, 1, "(a b", []);
    assert ReadList(l, 2, 1, "(a", []) == ReadList(l, 3, 1, "(a ", []);
    assert ReadList(l, 1, 1, "(", []) == ReadList(l, 2, 1, "(a", []);
    assert Loop(l, 5, "(a b", []) == Loop(l, 6, "(a bc", []);
    assert "(a bc"[1..] + " " == u;
    assert Classify("(a bc") == Ok(OList([OSym("a"), OSym("bc")]));
    LoopEmit(l, 6, "(a bc", [], OList([OSym("a"), OSym("bc")]));
    assert [] + [OList([OSym("a"), OSym("bc")])] == [OList([OSym("a"), OSym("bc")])];
    assert Loop(l, 0, "", []) == ReadList(l, 1, 1, "(", []);
  }

  /** A leading `'` makes the rest of the token a string. */
  lemma QuotedAtomExample()
    ensures OldParse("'abc x") == Ok([OStr("abc"), OSym("x")])
  {
    var q := "'abc x ";
    assert "'abc x" + " " == q;
    assert "" + ['\''] == "'" && "'" + ['a'] == "'a" && "'a" + ['b'] == "'ab" && "'ab" + ['c'] == "'abc" && "" + ['x'] == "x";
    assert Loop(q, 0, "", []) == Loop(q, 1, "'", []);
    assert Loop(q, 1, "'", []) == Loop(q, 2, "'a", []);
    assert Loop(q, 2, "'a", []) == Loop(q, 3, "'ab", []);
    assert Loop(q, 3, "'ab", []) == Loop(q, 4, "'abc", []);
    assert Classify("'abc") == Ok(OStr("abc"));
    LoopEmit(q, 4, "'abc", [], OStr("abc"));
    assert [] + [OStr("abc")] == [OStr("abc")];
    assert Loop(q, 5, "", [OStr("abc")]) == Loop(q, 6, "x", [OStr("abc")]);
    assert Classify("x") == Ok(OSym("x"));
    LoopEmit(q, 6, "x", [OStr("abc")], OSym("x"));
    assert [OStr("abc")] + [OSym("x")] == [OStr("abc"), OSym("x")];
  }
}
