/** The tokenizer of Paren 1.7 (class `tokenizer` of paren.java): it splits
    source text into token strings and counts unclosed parentheses and string
    literals, which the console uses to decide whether input is complete. */
module ParenLexer {
  import opened JavaLang

  /** What a successful run of the tokenizer leaves: its token list and the
      final value of its `unclosed` counter. */
  datatype Lexed = Lexed(tokens: seq<string>, unclosed: int)

  predicate IsSpace(c: char) { c == ' ' || c == '\t' || c == '\r' || c == '\n' }

  /** Characters that end the token being accumulated. */
  predicate IsDelimiter(c: char) { IsSpace(c) || c == ';' || c == '"' || c == '(' || c == ')' }

  /** A token built from ordinary characters only. */
  predicate IsAtom(t: string) { |t| > 0 && forall i :: 0 <= i < |t| ==> !IsDelimiter(t[i]) }

  /** The character an escape sequence `\c` stands for inside a string literal. */
  function DecodeEscape(c: char): char
  {
    if c == 'r' then '\r' else if c == 'n' then '\n' else if c == 't' then '\t' else c
  }

  /** The tokenizer's emit(): a non-empty accumulator becomes a token. */
  function Flush(toks: seq<string>, acc: string): seq<string>
  {
    if |acc| > 0 then toks + [acc] else toks
  }

  // ---------------------------------------------------------------------------
  // The tokenizer as a state machine over input positions. LexFrom is the
  // main loop, SkipComment the inner loop after `;`, LexString the inner loop
  // after an opening `"`.

  function LexFrom(s: string, pos: nat, acc: string, toks: seq<string>, unclosed: int): Result<Lexed>
    decreases |s| - pos
  {
    if pos >= |s| then Ok(Lexed(Flush(toks, acc), unclosed))
    else
      var c := s[pos];
      if IsSpace(c) then LexFrom(s, pos + 1, "", Flush(toks, acc), unclosed)
      else if c == ';' then SkipComment(s, pos + 1, Flush(toks, acc), unclosed)
      else if c == '"' then LexString(s, pos + 1, "\"", Flush(toks, acc), unclosed + 1)
      else if c == '(' then LexFrom(s, pos + 1, "", Flush(toks, acc) + ["("], unclosed + 1)
      else if c == ')' then LexFrom(s, pos + 1, "", Flush(toks, acc) + [")"], unclosed - 1)
      else LexFrom(s, pos + 1, acc + [c], toks, unclosed)
  }

  function SkipComment(s: string, pos: nat, toks: seq<string>, unclosed: int): Result<Lexed>
    decreases |s| - pos
  {
    if pos >= |s| then Ok(Lexed(toks, unclosed))
    else if s[pos] == '\n' then LexFrom(s, pos + 1, "", toks, unclosed)
    else SkipComment(s, pos + 1, toks, unclosed)
  }

  function LexString(s: string, pos: nat, acc: string, toks: seq<string>, unclosed: int): Result<Lexed>
    decreases |s| - pos
  {
    if pos >= |s| then Ok(Lexed(Flush(toks, acc), unclosed))
    else if s[pos] == '"' then LexFrom(s, pos + 1, "", Flush(toks, acc), unclosed - 1)
    else if s[pos] == '\\' then
      if pos + 1 >= |s| then Throw(IndexOutOfBounds)
      else LexString(s, pos + 2, acc + [DecodeEscape(s[pos + 1])], toks, unclosed)
    else LexString(s, pos + 1, acc + [s[pos]], toks, unclosed)
  }

  /** tokenize(s) on a fresh tokenizer. */
  function Tokenize(s: string): Result<Lexed>
  {
    LexFrom(s, 0, "", [], 0)
  }

  // ---------------------------------------------------------------------------
  // The tokenizer object

  class Tokenizer {
    var ret: seq<string>
    var acc: string
    const s: string
    var unclosed: int

    constructor (s: string)
      ensures this.s == s && ret == [] && acc == "" && unclosed == 0
    {
      this.s := s;
      ret := [];
      acc := "";
      unclosed := 0;
    }

    method Emit()
      modifies this`ret, this`acc
      ensures ret == Flush(old(ret), old(acc)) && acc == ""
    {
      if |acc| > 0 {
        ret := ret + [acc];
        acc := "";
      }
    }

    /** tokenize(): the character loop, with its two inner loops. It returns
        the tokens and leaves the counter in `unclosed`, as LexFrom says,
        starting from whatever the fields held. */
    method Tokenize() returns (r: Result<seq<string>>)
      modifies this
      ensures var spec := LexFrom(s, 0, old(acc), old(ret), old(unclosed));
              (spec.Ok? ==> r == Ok(spec.value.tokens) && unclosed == spec.value.unclosed) &&
              (spec.Err? ==> r == Err(spec.fault))
    {
      ghost var goal := LexFrom(s, 0, acc, ret, unclosed);
      var pos := 0;
      while pos < |s|
        invariant 0 <= pos <= |s| + 1
        invariant LexFrom(s, pos, acc, ret, unclosed) == goal
        decreases |s| - pos
      {
        var c := s[pos];
        if IsSpace(c) {
          Emit();
          assert LexFrom(s, pos + 1, acc, ret, unclosed) == goal;
        } else if c == ';' {
          Emit();
          pos := pos + 1;
          while pos < |s| && s[pos] != '\n'
            invariant pos <= |s| && acc == ""
            invariant SkipComment(s, pos, ret, unclosed) == goal
            decreases |s| - pos
          {
            pos := pos + 1;
          }
          assert LexFrom(s, pos + 1, acc, ret, unclosed) == goal;
        } else if c == '"' {
          assert LexFrom(s, pos, acc, ret, unclosed) == LexString(s, pos + 1, "\"", Flush(ret, acc), unclosed + 1);
          unclosed := unclosed + 1;
          Emit();
          acc := acc + ['"'];
          assert acc == "\"";
          pos := pos + 1;
          while pos < |s|
            invariant pos <= |s|
            invariant LexString(s, pos, acc, ret, unclosed) == goal
            decreases |s| - pos
          {
            if s[pos] == '"' {
              unclosed := unclosed - 1;
              assert LexFrom(s, pos + 1, "", Flush(ret, acc), unclosed) == goal;
              break;
            }
            if s[pos] == '\\' {
              if pos + 1 >= |s| {
                return Throw(IndexOutOfBounds);
              }
              acc := acc + [DecodeEscape(s[pos + 1])];
              pos := pos + 2;
            } else {
              acc := acc + [s[pos]];
              pos := pos + 1;
            }
          }
          Emit();
          assert LexFrom(s, pos + 1, acc, ret, unclosed) == goal;
        } else if c == '(' {
          assert LexFrom(s, pos, acc, ret, unclosed) == LexFrom(s, pos + 1, "", Flush(ret, acc) + ["("], unclosed + 1);
          unclosed := unclosed + 1;
          Emit();
          acc := acc + [c];
          assert acc == "(";
          Emit();
          assert LexFrom(s, pos + 1, acc, ret, unclosed) == goal;
        } else if c == ')' {
          assert LexFrom(s, pos, acc, ret, unclosed) == LexFrom(s, pos + 1, "", Flush(ret, acc) + [")"], unclosed - 1);
          unclosed := unclosed - 1;
          Emit();
          acc := acc + [c];
          assert acc == ")";
          Emit();
          assert LexFrom(s, pos + 1, acc, ret, unclosed) == goal;
        } else {
          acc := acc + [c];
          assert LexFrom(s, pos + 1, acc, ret, unclosed) == goal;
        }
        pos := pos + 1;
      }
      Emit();
      r := Ok(ret);
    }
  }

  // ---------------------------------------------------------------------------
  // Token shape

  /** Every token is `(`, `)`, a string token (a `"` followed by the decoded
      content), or an atom that holds no delimiter at all. */
  predicate WellFormedToken(t: string)
  {
    t == "(" || t == ")" || (|t| > 0 && t[0] == '"') || IsAtom(t)
  }

  predicate AllWellFormed(toks: seq<string>)
  {
    forall i :: 0 <= i < |toks| ==> WellFormedToken(toks[i])
  }

  lemma FlushWellFormed(toks: seq<string>, acc: string)
    requires AllWellFormed(toks) && (acc == "" || WellFormedToken(acc))
    ensures AllWellFormed(Flush(toks, acc))
  {
  }

  lemma {:induction false} ShapeFrom(s: string, pos: nat, acc: string, toks: seq<string>, unclosed: int)
    requires AllWellFormed(toks) && (acc == "" || IsAtom(acc))
    ensures LexFrom(s, pos, acc, toks, unclosed).Ok? ==> AllWellFormed(LexFrom(s, pos, acc, toks, unclosed).value.tokens)
    decreases |s| - pos
  {
    if pos < |s| {
      var c := s[pos];
      FlushWellFormed(toks, acc);
      var flushed := Flush(toks, acc);
      if IsSpace(c) {
        ShapeFrom(s, pos + 1, "", flushed, unclosed);
      } else if c == ';' {
        ShapeComment(s, pos + 1, flushed, unclosed);
      } else if c == '"' {
        ShapeString(s, pos + 1, "\"", flushed, unclosed + 1);
      } else if c == '(' {
        ShapeFrom(s, pos + 1, "", flushed + ["("], unclosed + 1);
      } else if c == ')' {
        ShapeFrom(s, pos + 1, "", flushed + [")"], unclosed - 1);
      } else {
        assert IsAtom(acc + [c]);
        ShapeFrom(s, pos + 1, acc + [c], toks, unclosed);
      }
    }
  }

  lemma {:induction false} ShapeComment(s: string, pos: nat, toks: seq<string>, unclosed: int)
    requires AllWellFormed(toks)
    ensures SkipComment(s, pos, toks, unclosed).Ok? ==> AllWellFormed(SkipComment(s, pos, toks, unclosed).value.tokens)
    decreases |s| - pos
  {
    if pos < |s| {
      if s[pos] == '\n' {
        ShapeFrom(s, pos + 1, "", toks, unclosed);
      } else {
        ShapeComment(s, pos + 1, toks, unclosed);
      }
    }
  }

  lemma {:induction false} ShapeString(s: string, pos: nat, acc: string, toks: seq<string>, unclosed: int)
    requires AllWellFormed(toks) && |acc| > 0 && acc[0] == '"'
    ensures LexString(s, pos, acc, toks, unclosed).Ok? ==> AllWellFormed(LexString(s, pos, acc, toks, unclosed).value.tokens)
    decreases |s| - pos
  {
    if pos < |s| {
      if s[pos] == '"' {
        ShapeFrom(s, pos + 1, "", Flush(toks, acc), unclosed - 1);
      } else if s[pos] == '\\' {
        if pos + 1 < |s| {
          ShapeString(s, pos + 2, acc + [DecodeEscape(s[pos + 1])], toks, unclosed);
        }
      } else {
        ShapeString(s, pos + 1, acc + [s[pos]], toks, unclosed);
      }
    }
  }

  /** Every token is non-empty; `(` and `)` outside string literals always
      form one-character tokens of their own; white space, `;` and `"` never
      end up inside a token that is not a string token. */
  lemma TokenShape(s: string)
    ensures Tokenize(s).Ok? ==> AllWellFormed(Tokenize(s).value.tokens)
  {
    ShapeFrom(s, 0, "", [], 0);
  }

  // ---------------------------------------------------------------------------
  // The unclosed counter, against an independent scan of the input

  /** Where a scanner of Paren source stands after a character: in code, in a
      comment, inside a string literal, or just after a backslash in one. */
  datatype Mode = Code | Comment | InString | AfterBackslash

  function Next(m: Mode, c: char): Mode
  {
    match m
    case Code => if c == ';' then Comment else if c == '"' then InString else Code
    case Comment => if c == '\n' then Code else Comment
    case InString => if c == '"' then Code else if c == '\\' then AfterBackslash else InString
    case AfterBackslash => InString
  }

  /** The parentheses that stand in code (outside strings and comments) from
      position pos on, and the mode at the end of the input. */
  datatype Census = Census(opens: nat, closes: nat, final: Mode)

  function Scan(s: string, pos: nat, m: Mode): Census
    decreases |s| - pos
  {
    if pos >= |s| then Census(0, 0, m)
    else
      var rest := Scan(s, pos + 1, Next(m, s[pos]));
      Census(rest.opens + (if m == Code && s[pos] == '(' then 1 else 0),
             rest.closes + (if m == Code && s[pos] == ')' then 1 else 0),
             rest.final)
  }

  /** What the counter should end as, given a census: parentheses opened
      minus those closed, plus one for a string literal left open. */
  function Balance(c: Census): int
  {
    c.opens - c.closes + (if c.final == InString then 1 else 0)
  }

  /** Scan from the start of a comment to its end: no parenthesis counts. */
  lemma {:induction false} CensusFrom(s: string, pos: nat, acc: string, toks: seq<string>, unclosed: int)
    ensures var r := LexFrom(s, pos, acc, toks, unclosed);
            var c := Scan(s, pos, Code);
            (r.Err? <==> c.final == AfterBackslash) &&
            (r.Err? ==> r.fault == Thrown(IndexOutOfBounds)) &&
            (r.Ok? ==> r.value.unclosed == unclosed + Balance(c))
    decreases |s| - pos
  {
    if pos < |s| {
      var c := s[pos];
      var flushed := Flush(toks, acc);
      if IsSpace(c) {
        CensusFrom(s, pos + 1, "", flushed, unclosed);
      } else if c == ';' {
        CensusComment(s, pos + 1, flushed, unclosed);
      } else if c == '"' {
        CensusString(s, pos + 1, "\"", flushed, unclosed + 1);
      } else if c == '(' {
        CensusFrom(s, pos + 1, "", flushed + ["("], unclosed + 1);
      } else if c == ')' {
        CensusFrom(s, pos + 1, "", flushed + [")"], unclosed - 1);
      } else {
        CensusFrom(s, pos + 1, acc + [c], toks, unclosed);
      }
    }
  }

  lemma {:induction false} CensusComment(s: string, pos: nat, toks: seq<string>, unclosed: int)
    ensures var r := SkipComment(s, pos, toks, unclosed);
            var c := Scan(s, pos, Comment);
            (r.Err? <==> c.final == AfterBackslash) &&
            (r.Err? ==> r.fault == Thrown(IndexOutOfBounds)) &&
            (r.Ok? ==> r.value.unclosed == unclosed + Balance(c))
    decreases |s| - pos
  {
    if pos < |s| {
      if s[pos] == '\n' {
        CensusFrom(s, pos + 1, "", toks, unclosed);
      } else {
        CensusComment(s, pos + 1, toks, unclosed);
      }
    }
  }

  /** Inside a string the counter already holds the literal's +1. */
  lemma {:induction false} CensusString(s: string, pos: nat, acc: string, toks: seq<string>, unclosed: int)
    ensures var r := LexString(s, pos, acc, toks, unclosed);
            var c := Scan(s, pos, InString);
            (r.Err? <==> c.final == AfterBackslash) &&
            (r.Err? ==> r.fault == Thrown(IndexOutOfBounds)) &&
            (r.Ok? ==> r.value.unclosed == unclosed - 1 + Balance(c))
    decreases |s| - pos
  {
    if pos < |s| {
      if s[pos] == '"' {
        CensusFrom(s, pos + 1, "", Flush(toks, acc), unclosed - 1);
      } else if s[pos] == '\\' {
        if pos + 1 < |s| {
          CensusString(s, pos + 2, acc + [DecodeEscape(s[pos + 1])], toks, unclosed);
          assert Scan(s, pos, InString) == Scan(s, pos + 2, InString);
        }
      } else {
        CensusString(s, pos + 1, acc + [s[pos]], toks, unclosed);
      }
    }
  }

  /** The counter ends as the number of `(` minus the number of `)` that
      stand outside strings and comments, plus one when the input ends inside
      a string literal; and tokenizing fails, with an index error, exactly
      when the input ends in a string right after a backslash. */
  lemma UnclosedCounts(s: string)
    ensures var c := Scan(s, 0, Code);
            (Tokenize(s).Err? <==> c.final == AfterBackslash) &&
            (Tokenize(s).Err? ==> Tokenize(s).fault == Thrown(IndexOutOfBounds)) &&
            (Tokenize(s).Ok? ==> Tokenize(s).value.unclosed == Balance(c))
  {
    CensusFrom(s, 0, "", [], 0);
  }

  /** A backslash as the very last character of an open string literal
      raises an index error. */
  lemma TrailingBackslash(body: string)
    requires forall i :: 0 <= i < |body| ==> body[i] != '"' && body[i] != '\\'
    ensures Tokenize("\"" + body + "\\").Err?
  {
    var s := "\"" + body + "\\";
    UnclosedCounts(s);
    var k := 1;
    while k < |s| - 1
      invariant 1 <= k <= |s| - 1
      invariant Scan(s, 0, Code) == Scan(s, k, InString)
    {
      assert s[k] == body[k - 1];
      k := k + 1;
    }
  }

  // ---------------------------------------------------------------------------
  // String literals and atoms, segment by segment

  /** Raw text that the tokenizer reads as the inside of one string literal:
      every `"` and every backslash in it is escaped. */
  predicate StringBody(raw: string)
    decreases |raw|
  {
    raw == [] ||
    (raw[0] == '\\' && |raw| >= 2 && StringBody(raw[2..])) ||
    (raw[0] != '\\' && raw[0] != '"' && StringBody(raw[1..]))
  }

  /** The content of a string literal: escapes `\r`, `\n`, `\t` decoded, any
      other escaped character kept as it is. */
  function Unescape(raw: string): string
    requires StringBody(raw)
    decreases |raw|
  {
    if raw == [] then ""
    else if raw[0] == '\\' then [DecodeEscape(raw[1])] + Unescape(raw[2..])
    else [raw[0]] + Unescape(raw[1..])
  }

  /** t occurs in s at position pos. */
  predicate At<T(==)>(s: seq<T>, pos: nat, t: seq<T>)
  {
    pos + |t| <= |s| && forall i :: 0 <= i < |t| ==> s[pos + i] == t[i]
  }

  /** Reading a whole string literal: the token is `"` and the decoded
      content; the closing quote is dropped and the counter is back where it
      was before the opening quote. */
  lemma {:induction false} LexStringBody(s: string, pos: nat, raw: string, acc: string, toks: seq<string>, unclosed: int)
    requires StringBody(raw) && At(s, pos, raw + "\"")
    ensures LexString(s, pos, acc, toks, unclosed)
         == LexFrom(s, pos + |raw| + 1, "", Flush(toks, acc + Unescape(raw)), unclosed - 1)
    decreases |raw|
  {
    assert s[pos] == (raw + "\"")[0];
    if raw == [] {
      assert acc + Unescape(raw) == acc;
    } else {
      var k := if raw[0] == '\\' then 2 else 1;
      assert s[pos + k - 1] == (raw + "\"")[k - 1];
      var rest := raw[k..];
      assert At(s, pos + k, rest + "\"") by {
        forall i | 0 <= i < |rest| + 1 ensures s[pos + k + i] == (rest + "\"")[i] {
          assert s[pos + (k + i)] == (raw + "\"")[k + i];
        }
      }
      var c := if raw[0] == '\\' then DecodeEscape(raw[1]) else raw[0];
      assert LexString(s, pos, acc, toks, unclosed) == LexString(s, pos + k, acc + [c], toks, unclosed);
      assert Unescape(raw) == [c] + Unescape(rest);
      LexStringBody(s, pos + k, rest, acc + [c], toks, unclosed);
      assert acc + [c] + Unescape(rest) == acc + Unescape(raw);
    }
  }

  /** A printer for string contents: the escapes the tokenizer understands. */
  function Escape(x: string): (raw: string)
  {
    if x == [] then ""
    else
      var c := x[0];
      (if c == '"' then "\\\"" else if c == '\\' then "\\\\" else if c == '\n' then "\\n"
       else if c == '\r' then "\\r" else if c == '\t' then "\\t" else [c]) + Escape(x[1..])
  }

  /** Escaped text is a string body that decodes back to the original. */
  lemma {:induction false} UnescapeEscape(x: string)
    ensures StringBody(Escape(x)) && Unescape(Escape(x)) == x
  {
    if x != [] {
      UnescapeEscape(x[1..]);
      var e := Escape(x);
      var c := x[0];
      if c == '"' || c == '\\' || c == '\n' || c == '\r' || c == '\t' {
        assert e[2..] == Escape(x[1..]);
      } else {
        assert e[1..] == Escape(x[1..]);
      }
    }
  }

  /** A printed string literal is one string token holding exactly the text. */
  lemma StringLiteralRoundTrip(x: string)
    ensures Tokenize("\"" + Escape(x) + "\"") == Ok(Lexed(["\"" + x], 0))
  {
    var raw := Escape(x);
    var s := "\"" + raw + "\"";
    UnescapeEscape(x);
    assert At(s, 1, raw + "\"") by {
      forall i | 0 <= i < |raw| + 1 ensures s[1 + i] == (raw + "\"")[i] { }
    }
    assert Tokenize(s) == LexString(s, 1, "\"", [], 1);
    LexStringBody(s, 1, raw, "\"", [], 1);
    assert Flush([], "\"" + x) == ["\"" + x];
  }

  /** Ordinary characters just accumulate. */
  lemma {:induction false} LexAtomRun(s: string, pos: nat, t: string, acc: string, toks: seq<string>, unclosed: int)
    requires At(s, pos, t) && forall i :: 0 <= i < |t| ==> !IsDelimiter(t[i])
    ensures LexFrom(s, pos, acc, toks, unclosed) == LexFrom(s, pos + |t|, acc + t, toks, unclosed)
    decreases |t|
  {
    if t == [] {
      assert acc + t == acc;
    } else {
      assert s[pos] == t[0] && !IsDelimiter(t[0]);
      var rest := t[1..];
      assert At(s, pos + 1, rest) by {
        forall i | 0 <= i < |rest| ensures s[pos + 1 + i] == rest[i] {
          assert s[pos + (1 + i)] == t[1 + i];
        }
      }
      LexAtomRun(s, pos + 1, rest, acc + [t[0]], toks, unclosed);
      assert acc + [t[0]] + rest == acc + t;
    }
  }
}
