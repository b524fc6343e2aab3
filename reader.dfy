/** The reader of Paren 1.7 (class `parser` of paren.java): it turns the token
    list into syntax trees, sharing one position counter across its recursive
    calls. Forms are the values the parser builds inside its nodes. */
module ParenReader {
  import opened JavaLang
  import opened ParenLexer

  /** What `parse` builds: a string, an Integer, a Long, a Double (kept as its
      source text), a symbol, or a list of forms. */
  datatype Form =
    | FStr(s: string)
    | FInt(i: int)
    | FLong(l: int)
    | FDbl(text: string)
    | FSym(name: string)
    | FList(items: seq<Form>)

  /** The forms read, and the token position where reading stopped: the index
      of the `)` that ended the list, or a position past the last token. */
  datatype Parsed = Parsed(forms: seq<Form>, next: nat)

  /** The parser's test for a number: a digit first, or `-` then a digit. */
  predicate LooksNumeric(tok: string)
  {
    |tok| > 0 && (IsDigit(tok[0]) || (tok[0] == '-' && |tok| >= 2 && IsDigit(tok[1])))
  }

  /** The form for one token other than `(` and `)`. */
  function ParseToken(tok: string): (r: Result<Form>)
    ensures r.Ok? ==> !r.value.FList?
    ensures r.Ok? && r.value.FStr? <==> |tok| > 0 && tok[0] == '"'
    ensures r.Ok? && r.value.FSym? <==> |tok| > 0 && tok[0] != '"' && !LooksNumeric(tok)
    ensures r.Ok? && r.value.FSym? ==> r.value.name == tok
    ensures r.Err? <==> |tok| == 0 || (r == Throw(NumberFormat) && LooksNumeric(tok))
  {
    if |tok| == 0 then Throw(IndexOutOfBounds)
    else if tok[0] == '"' then Ok(FStr(tok[1..]))
    else if LooksNumeric(tok) then
      if '.' in tok || 'e' in tok then Ok(FDbl(tok))
      else if tok[|tok| - 1] == 'L' || tok[|tok| - 1] == 'l' then
        var v :- ParseLong(tok[..|tok| - 1]);
        Ok(FLong(v))
      else
        var v :- ParseInt(tok);
        Ok(FInt(v))
    else Ok(FSym(tok))
  }

  /** parse() from token position pos, with the forms read so far in acc. */
  function ParseSeq(toks: seq<string>, pos: nat, acc: seq<Form>): (r: Result<Parsed>)
    ensures r.Ok? ==> pos <= r.value.next
    ensures r.Ok? && r.value.next < |toks| ==> toks[r.value.next] == ")"
    decreases |toks| + 1 - pos
  {
    if pos >= |toks| then Ok(Parsed(acc, pos))
    else
      var tok := toks[pos];
      if tok == "(" then
        var inner :- ParseSeq(toks, pos + 1, []);
        ParseSeq(toks, inner.next + 1, acc + [FList(inner.forms)])
      else if tok == ")" then Ok(Parsed(acc, pos))
      else
        var f :- ParseToken(tok);
        ParseSeq(toks, pos + 1, acc + [f])
  }

  /** parse(s): tokenize, then read every top-level form. */
  function ReadProgram(s: string): Result<seq<Form>>
  {
    var lexed :- Tokenize(s);
    var parsed :- ParseSeq(lexed.tokens, 0, []);
    Ok(parsed.forms)
  }

  class Parser {
    var pos: nat
    const tokens: seq<string>

    constructor (tokens: seq<string>)
      ensures this.tokens == tokens && pos == 0
    {
      this.tokens := tokens;
      pos := 0;
    }

    /** parse(): reads forms until a `)` or the end of the tokens, recursing
        into lists; the shared position is left where ParseSeq says. */
    method Parse() returns (r: Result<seq<Form>>)
      modifies this`pos
      decreases |tokens| + 1 - pos
      ensures var spec := ParseSeq(tokens, old(pos), []);
              (spec.Ok? ==> r == Ok(spec.value.forms) && pos == spec.value.next) &&
              (spec.Err? ==> r == Err(spec.fault))
    {
      ghost var goal := ParseSeq(tokens, pos, []);
      ghost var start := pos;
      var ret: seq<Form> := [];
      while pos < |tokens|
        invariant start <= pos
        invariant ParseSeq(tokens, pos, ret) == goal
        decreases |tokens| - pos
      {
        var tok := tokens[pos];
        if tok == "(" {
          pos := pos + 1;
          var inner := Parse();
          if inner.Err? {
            return Err(inner.fault);
          }
          ret := ret + [FList(inner.value)];
        } else if tok == ")" {
          break;
        } else {
          var f := ParseToken(tok);
          if f.Err? {
            return Err(f.fault);
          }
          ret := ret + [f.value];
        }
        pos := pos + 1;
      }
      return Ok(ret);
    }
  }

  // ---------------------------------------------------------------------------
  // Tokens of a form, and reading them back

  /** The tokens that stand for a form. */
  function Tokens(f: Form): seq<string>
  {
    match f
    case FStr(x) => ["\"" + x]
    case FInt(i) => [ShowInt(i)]
    case FLong(l) => [ShowInt(l) + "L"]
    case FDbl(t) => [t]
    case FSym(n) => [n]
    case FList(fs) => ["("] + TokensOf(fs) + [")"]
  }

  function TokensOf(fs: seq<Form>): seq<string>
  {
    if fs == [] then [] else Tokens(fs[0]) + TokensOf(fs[1..])
  }

  /** A form that the reader can produce and the printer below can write:
      numbers within their Java range, symbols and double texts that are
      single atoms of the right kind. */
  predicate Printable(f: Form)
  {
    match f
    case FStr(_) => true
    case FInt(i) => IsInt(i)
    case FLong(l) => IsLong(l)
    case FDbl(t) => IsAtom(t) && LooksNumeric(t) && ('.' in t || 'e' in t)
    case FSym(n) => IsAtom(n) && !LooksNumeric(n)
    case FList(fs) => AllPrintable(fs)
  }

  predicate AllPrintable(fs: seq<Form>)
  {
    forall i :: 0 <= i < |fs| ==> Printable(fs[i])
  }

  lemma ShowIntNumeric(x: int)
    ensures LooksNumeric(ShowInt(x)) && AllDigits(ShowInt(x)[1..])
    ensures '.' !in ShowInt(x) && 'e' !in ShowInt(x)
    ensures IsDigit(ShowInt(x)[|ShowInt(x)| - 1])
  {
    var s := ShowInt(x);
    if x < 0 {
      assert s[1..] == ShowNat(-x);
    }
    assert forall i :: 0 <= i < |s| ==> IsDigit(s[i]) || (i == 0 && s[i] == '-');
  }

  /** Each printable atom reads back as itself. */
  lemma ParseTokenAtom(f: Form)
    requires Printable(f) && !f.FList?
    ensures |Tokens(f)| == 1 && ParseToken(Tokens(f)[0]) == Ok(f)
  {
    match f
    case FStr(x) => assert ("\"" + x)[1..] == x;
    case FInt(i) =>
      ShowIntNumeric(i);
      ParseShow(i, INT_MIN, INT_MAX);
    case FLong(l) =>
      var t := ShowInt(l) + "L";
      ShowIntNumeric(l);
      assert t[0] == ShowInt(l)[0];
      assert |ShowInt(l)| >= 2 ==> t[1] == ShowInt(l)[1];
      assert t[..|t| - 1] == ShowInt(l);
      assert '.' !in t && 'e' !in t;
      ParseShow(l, LONG_MIN, LONG_MAX);
    case FDbl(t) =>
    case FSym(n) =>
  }

  /** The tokens of a printable form, met anywhere in a token list, are read
      as exactly that form, and reading resumes right after them. */
  lemma {:induction false} ParseTokensOfForm(f: Form, toks: seq<string>, pos: nat, acc: seq<Form>)
    requires Printable(f) && At(toks, pos, Tokens(f))
    ensures ParseSeq(toks, pos, acc) == ParseSeq(toks, pos + |Tokens(f)|, acc + [f])
    decreases f, 1
  {
    assert toks[pos] == Tokens(f)[0];
    if f.FList? {
      var fs := f.items;
      var inner := TokensOf(fs);
      assert At(toks, pos + 1, inner) by {
        forall i | 0 <= i < |inner| ensures toks[pos + 1 + i] == inner[i] {
          assert toks[pos + (1 + i)] == Tokens(f)[1 + i];
        }
      }
      ParseTokensOfForms(fs, toks, pos + 1, []);
      var q := pos + 1 + |inner|;
      assert toks[q] == Tokens(f)[1 + |inner|];
      assert [] + fs == fs;
      assert ParseSeq(toks, pos + 1, []) == Ok(Parsed(fs, q));
    } else {
      ParseTokenAtom(f);
    }
  }

  lemma {:induction false} ParseTokensOfForms(fs: seq<Form>, toks: seq<string>, pos: nat, acc: seq<Form>)
    requires AllPrintable(fs) && At(toks, pos, TokensOf(fs))
    ensures ParseSeq(toks, pos, acc) == ParseSeq(toks, pos + |TokensOf(fs)|, acc + fs)
    decreases fs, 0
  {
    if fs == [] {
      assert acc + fs == acc;
    } else {
      var head := Tokens(fs[0]);
      var rest := TokensOf(fs[1..]);
      var mid := pos + |head|;
      assert TokensOf(fs) == head + rest;
      assert ParseSeq(toks, pos, acc) == ParseSeq(toks, mid, acc + [fs[0]]) by {
        AtSplit(toks, pos, head, rest);
        ParseTokensOfForm(fs[0], toks, pos, acc);
      }
      assert ParseSeq(toks, mid, acc + [fs[0]]) == ParseSeq(toks, mid + |rest|, acc + [fs[0]] + fs[1..]) by {
        AtSplit(toks, pos, head, rest);
        ParseTokensOfForms(fs[1..], toks, mid, acc + [fs[0]]);
      }
      assert acc + [fs[0]] + fs[1..] == acc + fs;
    }
  }

  lemma AtWhole<T>(s: seq<T>, pre: seq<T>)
    requires pre <= s
    ensures At(s, 0, pre)
  {
  }

  /** Reading the tokens of printable forms gives the forms back. */
  lemma ReadTokensOf(fs: seq<Form>)
    requires AllPrintable(fs)
    ensures ParseSeq(TokensOf(fs), 0, []) == Ok(Parsed(fs, |TokensOf(fs)|))
  {
    AtWhole(TokensOf(fs), TokensOf(fs));
    ParseTokensOfForms(fs, TokensOf(fs), 0, []);
    assert [] + fs == fs;
  }

  /** A `)` at top level ends the program: every token after it is dropped
      without an error. */
  lemma StrayCloseDropsRest(fs: seq<Form>, rest: seq<string>)
    requires AllPrintable(fs)
    ensures ParseSeq(TokensOf(fs) + [")"] + rest, 0, []) == Ok(Parsed(fs, |TokensOf(fs)|))
  {
    var toks := TokensOf(fs) + [")"] + rest;
    AtWhole(toks, TokensOf(fs));
    ParseTokensOfForms(fs, toks, 0, []);
    assert [] + fs == fs;
    assert toks[|TokensOf(fs)|] == ")";
  }

  /** A list left open at the end of the tokens is closed silently. */
  lemma MissingCloseAccepted(fs: seq<Form>)
    requires AllPrintable(fs)
    ensures ParseSeq(["("] + TokensOf(fs), 0, []) == Ok(Parsed([FList(fs)], |TokensOf(fs)| + 2))
  {
    var toks := ["("] + TokensOf(fs);
    assert At(toks, 1, TokensOf(fs)) by {
      forall i | 0 <= i < |TokensOf(fs)| ensures toks[1 + i] == TokensOf(fs)[i] { }
    }
    ParseTokensOfForms(fs, toks, 1, []);
    assert [] + fs == fs;
    assert toks[0] == "(";
    assert ParseSeq(toks, 1, []) == Ok(Parsed(fs, |toks|));
    assert ParseSeq(toks, 0, []) == ParseSeq(toks, |toks| + 1, [] + [FList(fs)]);
    assert [] + [FList(fs)] == [FList(fs)];
  }

  // ---------------------------------------------------------------------------
  // Printing forms as text, and reading the text back

  /** Source text for a form; every element of a list is followed by a space. */
  function Print(f: Form): string
  {
    match f
    case FStr(x) => "\"" + Escape(x) + "\""
    case FInt(i) => ShowInt(i)
    case FLong(l) => ShowInt(l) + "L"
    case FDbl(t) => t
    case FSym(n) => n
    case FList(fs) => "(" + PrintSeq(fs) + ")"
  }

  function PrintSeq(fs: seq<Form>): string
  {
    if fs == [] then "" else Print(fs[0]) + " " + PrintSeq(fs[1..])
  }

  /** The text of an atom form is the text of its single token. */
  lemma PrintAtom(f: Form)
    requires Printable(f) && !f.FList? && !f.FStr?
    ensures Tokens(f) == [Print(f)] && IsAtom(Print(f))
  {
    match f
    case FInt(i) =>
      ShowIntNumeric(i);
      var s := ShowInt(i);
      assert forall k :: 0 <= k < |s| ==> IsDigit(s[k]) || s[k] == '-' by {
        forall k | 0 <= k < |s| ensures IsDigit(s[k]) || s[k] == '-' {
          if k > 0 { assert s[k] == s[1..][k - 1]; }
        }
      }
    case FLong(l) =>
      ShowIntNumeric(l);
      var s := ShowInt(l);
      var t := s + "L";
      assert forall k :: 0 <= k < |t| ==> IsDigit(t[k]) || t[k] == '-' || t[k] == 'L' by {
        forall k | 0 <= k < |t| ensures IsDigit(t[k]) || t[k] == '-' || t[k] == 'L' {
          if 0 < k < |s| { assert t[k] == s[1..][k - 1]; }
        }
      }
    case FDbl(_) =>
    case FSym(_) =>
  }

  lemma AtSplit<T>(s: seq<T>, pos: nat, a: seq<T>, b: seq<T>)
    requires At(s, pos, a + b)
    ensures At(s, pos, a) && At(s, pos + |a|, b)
  {
    forall i | 0 <= i < |a| ensures s[pos + i] == a[i] {
      assert s[pos + i] == (a + b)[i];
    }
    forall i | 0 <= i < |b| ensures s[pos + |a| + i] == b[i] {
      assert s[pos + (|a| + i)] == (a + b)[|a| + i];
    }
  }

  /** Tokenizing the text of a printable form, wherever it stands, emits
      exactly the form's tokens and leaves the counter unchanged. */
  lemma {:induction false} LexPrinted(f: Form, s: string, pos: nat, toks: seq<string>, unclosed: int)
    requires Printable(f) && At(s, pos, Print(f) + " ")
    ensures LexFrom(s, pos, "", toks, unclosed) == LexFrom(s, pos + |Print(f)| + 1, "", toks + Tokens(f), unclosed)
    decreases f, 1
  {
    var p := Print(f);
    AtSplit(s, pos, p, " ");
    assert s[pos + |p|] == ' ' by { assert s[pos + |p| + 0] == " "[0]; }
    var q := pos + |p|;
    if f.FStr? {
      LexPrintedString(f.s, s, pos, toks, unclosed);
    } else if f.FList? {
      LexPrintedList(f.items, s, pos, toks, unclosed);
    } else {
      PrintAtom(f);
      LexAtomRun(s, pos, p, "", toks, unclosed);
      assert "" + p == p;
      assert LexFrom(s, q, p, toks, unclosed) == LexFrom(s, q + 1, "", toks + [p], unclosed);
    }
  }

  lemma LexPrintedString(x: string, s: string, pos: nat, toks: seq<string>, unclosed: int)
    requires At(s, pos, Print(FStr(x))) && pos + |Print(FStr(x))| < |s| && s[pos + |Print(FStr(x))|] == ' '
    ensures LexFrom(s, pos, "", toks, unclosed) == LexFrom(s, pos + |Print(FStr(x))| + 1, "", toks + ["\"" + x], unclosed)
  {
    var raw := Escape(x);
    var p := Print(FStr(x));
    UnescapeEscape(x);
    assert p == "\"" + (raw + "\"");
    AtSplit(s, pos, "\"", raw + "\"");
    assert s[pos] == '"' by { assert s[pos + 0] == "\""[0]; }
    assert LexFrom(s, pos, "", toks, unclosed) == LexString(s, pos + 1, "\"", toks, unclosed + 1);
    LexStringBody(s, pos + 1, raw, "\"", toks, unclosed + 1);
    var q := pos + |p|;
    assert Flush(toks, "\"" + x) == toks + ["\"" + x];
    assert LexFrom(s, q, "", toks + ["\"" + x], unclosed) == LexFrom(s, q + 1, "", toks + ["\"" + x], unclosed);
  }

  lemma {:induction false} LexPrintedList(fs: seq<Form>, s: string, pos: nat, toks: seq<string>, unclosed: int)
    requires AllPrintable(fs) && At(s, pos, Print(FList(fs))) && pos + |Print(FList(fs))| < |s|
    requires s[pos + |Print(FList(fs))|] == ' '
    ensures LexFrom(s, pos, "", toks, unclosed)
         == LexFrom(s, pos + |Print(FList(fs))| + 1, "", toks + Tokens(FList(fs)), unclosed)
    decreases fs, 2
  {
    var body := PrintSeq(fs);
    assert Print(FList(fs)) == "(" + (body + ")");
    AtSplit(s, pos, "(", body + ")");
    AtSplit(s, pos + 1, body, ")");
    assert s[pos] == '(' by { assert s[pos + 0] == "("[0]; }
    LexParen(s, pos, toks, unclosed);
    LexPrintedSeq(fs, s, pos + 1, toks + ["("], unclosed + 1);
    var q := pos + 1 + |body|;
    assert s[q] == ')' by { assert s[q + 0] == ")"[0]; }
    var after := toks + ["("] + TokensOf(fs);
    LexParen(s, q, after, unclosed + 1);
    LexSpace(s, q + 1, after + [")"], unclosed);
    assert after + [")"] == toks + Tokens(FList(fs));
  }

  /** A parenthesis with nothing accumulated before it. */
  lemma LexParen(s: string, pos: nat, toks: seq<string>, unclosed: int)
    requires pos < |s| && (s[pos] == '(' || s[pos] == ')')
    ensures s[pos] == '(' ==> LexFrom(s, pos, "", toks, unclosed) == LexFrom(s, pos + 1, "", toks + ["("], unclosed + 1)
    ensures s[pos] == ')' ==> LexFrom(s, pos, "", toks, unclosed) == LexFrom(s, pos + 1, "", toks + [")"], unclosed - 1)
  {
  }

  /** White space with nothing accumulated before it. */
  lemma LexSpace(s: string, pos: nat, toks: seq<string>, unclosed: int)
    requires pos < |s| && s[pos] == ' '
    ensures LexFrom(s, pos, "", toks, unclosed) == LexFrom(s, pos + 1, "", toks, unclosed)
  {
  }

  lemma {:induction false} LexPrintedSeq(fs: seq<Form>, s: string, pos: nat, toks: seq<string>, unclosed: int)
    requires AllPrintable(fs) && At(s, pos, PrintSeq(fs))
    ensures LexFrom(s, pos, "", toks, unclosed) == LexFrom(s, pos + |PrintSeq(fs)|, "", toks + TokensOf(fs), unclosed)
    decreases fs, 0
  {
    if fs == [] {
      assert toks + TokensOf(fs) == toks;
    } else {
      var head := Print(fs[0]) + " ";
      assert PrintSeq(fs) == head + PrintSeq(fs[1..]);
      AtSplit(s, pos, head, PrintSeq(fs[1..]));
      LexPrinted(fs[0], s, pos, toks, unclosed);
      LexPrintedSeq(fs[1..], s, pos + |head|, toks + Tokens(fs[0]), unclosed);
      assert toks + Tokens(fs[0]) + TokensOf(fs[1..]) == toks + TokensOf(fs);
    }
  }

  /** Printing a program and reading it back gives the same forms, and the
      text is complete: no parenthesis or string is left open. */
  lemma ReadPrinted(fs: seq<Form>)
    requires AllPrintable(fs)
    ensures Tokenize(PrintSeq(fs)) == Ok(Lexed(TokensOf(fs), 0))
    ensures ReadProgram(PrintSeq(fs)) == Ok(fs)
  {
    var s := PrintSeq(fs);
    AtWhole(s, s);
    LexPrintedSeq(fs, s, 0, [], 0);
    assert [] + TokensOf(fs) == TokensOf(fs);
    assert Tokenize(s) == LexFrom(s, |s|, "", TokensOf(fs), 0);
    ReadTokensOf(fs);
  }

  /** How numeric tokens are classified. */
  lemma NumberTokenExamples()
    ensures ParseToken("42") == Ok(FInt(42))
    ensures ParseToken("-7") == Ok(FInt(-7))
    ensures ParseToken("12L") == Ok(FLong(12))
    ensures ParseToken("1.5") == Ok(FDbl("1.5"))
  {
    assert "42"[..1] == "4";
    assert "12L"[..2] == "12";
    assert "12"[..1] == "1" && "1"[..0] == "";
    assert '.' !in "12L" && 'e' !in "12L";
    assert "-7"[1..] == "7" && "7"[..0] == "";
    assert ParseInt("-7") == Ok(-7);
    assert '.' !in "-7" && 'e' !in "-7" && IsDigit("-7"[1]);
  }

  /** A token that starts like a number but is not one is an error, not a
      symbol; a lone `-` or `-` before a letter is a symbol. */
  lemma OtherTokenExamples()
    ensures ParseToken("-") == Ok(FSym("-"))
    ensures ParseToken("-x") == Ok(FSym("-x"))
    ensures ParseToken("12ab") == Throw(NumberFormat)
    ensures ParseToken("\"hi") == Ok(FStr("hi"))
  {
    assert !IsDigit('x') && "-x"[1] == 'x';
    assert "12ab"[..1] == "1";
    assert !AllDigits("12ab") by { assert !IsDigit("12ab"[2]); }
  }
}
