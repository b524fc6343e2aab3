# Paren interpreters in Dafny

Paren is a small Lisp dialect implemented in Java. This project models the
core of two of its interpreters and proves properties of the model:

- **Paren 1.7** (`src/paren/paren.java`). Its tokenizer turns source text
  into tokens, and its parser turns the tokens into node trees. A compile
  pass then does several things:
  - it resolves symbols to the environment cells they are bound to;
  - it expands macros;
  - it handles the special forms `set`, `for`, `fn`, `quote`, `.`, `.get`,
    `.set`, `new` and `defmacro`.

  The evaluator runs the compiled nodes. Nodes are mutable objects: `set`,
  `for`, `++` and `--` write into them in place. Closures carry the frame
  that `fn` created when it was compiled (lexical scoping). `int` and
  `long` arithmetic wraps around as Java's does.
- **Paren 1.2.3** (`src/paren.java`). Its one-pass reader splits the text
  at spaces and reads nested lists by re-reading their text. Its evaluator
  works on a single table of globals. A closure call binds its parameters
  in that table and restores their earlier bindings afterwards (dynamic
  scoping).

## How the model is built

- **Java semantics** are written out in `java.dfy` (module `JavaLang`):
  - 32- and 64-bit wrap-around (`Wrap32`, `Wrap64`);
  - division and remainder that truncate toward zero;
  - `Integer.toString` and `parseInt`/`parseLong`;
  - the counting loop `for (; a <= last; a += step)`.

  A Java exception that escapes `eval` becomes `Err(Thrown(e))` of a
  `Result`. A path the model does not follow becomes `Err(Unmodelled(..))`,
  and an exhausted recursion or loop bound becomes `Err(OutOfFuel)`.
- **Paren 1.7's heap** is an explicit `Store` (`store.dfy`):
  - a sequence of node cells (value plus the `isData` mark);
  - a sequence of environment frames (bindings plus the enclosing frame);
  - the macro table.

  Node and frame references are indices. The shared constant nodes
  `node_true`, `node_false`, `node_0` and `node_1` are references 0 to 3,
  and frame 0 is `global_env`. The compile pass (`compile.dfy`), the
  macro expander (`macro.dfy`) and the evaluator (`eval.dfy`) are
  functions from a store to a result and a new store. The interpreter
  object is the class `ParenMachine.Interpreter` (`machine.dfy`). It holds
  the store, and its `CompileAll`, `EvalAll` and `EvalString` methods run
  the source's loops, each proved equal to the functions.
- **The tokenizer and the parser of 1.7** are the classes
  `ParenLexer.Tokenizer` and `ParenReader.Parser`. Their loops are proved
  equal to recursive definitions.
- **Paren 1.2.3** works on values (`old_reader.dfy`, `old_eval.dfy`), and
  every evaluation threads the table of globals. Besides the table, the
  only thing 1.2.3's evaluator changes in place is the call list that
  `map` and `filter` overwrite between calls (src/paren.java:689, 703);
  the model builds a fresh call for each element instead (see "Left
  out"). `OldParenReader.Parse` runs the reader's character loop and is
  proved equal to the function `OldParse`. The class
  `OldParenMachine.OldInterpreter` holds the table of globals.
- **The laws** are in `laws.dfy`, `builtin_laws.dfy`, `macro_laws.dfy` and
  `old_laws.dfy`. Each evaluator function's own contract says only how the
  store or the table may change; what a builtin computes is stated by a
  law about it, proved for operands that evaluate to themselves. The laws
  cover:
  - what compiling and evaluating a symbol does;
  - what `set` writes;
  - arithmetic as the exact result reduced to 32 or 64 bits, with the
    first operand's type deciding which;
  - equality, comparison and the short-circuit logic operators;
  - `if`, `when`, `while`, `begin`, and the run of forms of `eval_all`;
  - the string builtins, and `list`, `nth`, `length`, `apply`, `map`,
    `filter` and `fold`;
  - `for` and `range` against the counting loop, including the loops that
    never end;
  - the binding discipline of closure calls;
  - macro expansion against a substitution on forms;
  - reader round trips.

## Model

| member | source | states |
|---|---|---|
| JavaLang.Wrap32 | src/paren/paren.java:572-577 | the result is a Java int congruent to the exact value modulo 2^32 |
| JavaLang.Wrap64 | src/paren/paren.java:579-585 | the result is a Java long congruent to the exact value modulo 2^64 |
| JavaLang.Wrap32Unique | src/paren/paren.java:572-577 | an int congruent to x modulo 2^32 is Wrap32(x): Java int overflow has exactly one outcome |
| JavaLang.Wrap64Unique | src/paren/paren.java:579-585 | the same for long modulo 2^64 |
| JavaLang.WrapInRange | src/paren/paren.java:572-585 | a value that fits the type is left unchanged |
| JavaLang.Wrap32OfWrap64 | src/paren/paren.java:48-50 | `intValue()` of a Long keeps the low 32 bits of the exact value |
| JavaLang.Wrap32Congruent | src/paren/paren.java:574-576 | congruent values wrap to the same int |
| JavaLang.Wrap32AddMul | src/paren/paren.java:574-576 | wrapping the accumulator at every step of `+`, `-`, `*` gives the same int as wrapping once at the end |
| JavaLang.CommaJoinedCons | src/paren/paren.java:60-63 | the separator-joined text, built element by element from the end as `AbstractCollection.toString` appends, reads from the front as the first text, ", ", then the rest |
| JavaLang.TruncRemBounds | src/paren/paren.java:679-680 | Java's `%`: a == b*q + r, abs(r) < abs(b), and r is zero or has the sign of a |
| JavaLang.TruncDivRange | src/paren/paren.java:648-659 | the truncated quotient is no larger in magnitude than the dividend; for int operands the quotient is an int unless the division is MIN / -1, and the remainder is always an int |
| JavaLang.DivisionExamples | src/paren/paren.java:648-680 | -7/2 is -3 and -7%2 is -1 (unlike Euclidean division), 7%-2 is 1, MIN/-1 wraps to MIN, and a zero divisor throws ArithmeticException |
| JavaLang.ShowNat | src/paren/paren.java:60-63 | the decimal spelling of a natural is non-empty and all digits |
| JavaLang.DigitsOfShowNat | src/paren/paren.java:60-63 | the digits printed spell the number back |
| JavaLang.ParseShow | src/paren/paren.java:228-233 | parseInt/parseLong of what toString printed gives the number back exactly when it fits the range, else NumberFormatException |
| JavaLang.ParseShowNegative | src/paren/paren.java:228-233 | the same for negative numbers |
| JavaLang.ParseMinusDigits | src/paren/paren.java:228-233 | a minus sign followed by digits parses as the negated digit value when it fits |
| JavaLang.Progression | src/paren/paren.java:1064-1069 | a, a+step, ... has n elements, element k being a + k*step |
| JavaLang.ProgressionStep | src/paren/paren.java:1064-1069 | a progression is its first element followed by the progression from a + step |
| JavaLang.CountStep | src/paren/paren.java:891-906 | one iteration of the counting loop lowers the remaining count by one |
| JavaLang.StepsValues | src/paren/paren.java:891-906 | with a non-zero step that cannot wrap, the loop variable takes exactly start, start+step, ... up to end |
| JavaLang.StepsNeverEnd | src/paren/paren.java:891-906 | with step 0, or end at the edge of the type's range, the loop never ends: the variable wraps instead of passing end |
| JavaLang.StepsFuel | src/paren/paren.java:891-906 | every value visited costs one unit of the loop bound |
| ParenLexer.Tokenizer.constructor | src/paren/paren.java:137-139 | a new tokenizer holds the text, no tokens, an empty accumulator and a zero counter |
| ParenLexer.Tokenizer.Emit | src/paren/paren.java:141-143 | a non-empty accumulator is appended as a token and cleared |
| ParenLexer.Tokenizer.Tokenize | src/paren/paren.java:145-196 | the character loop with its comment and string loops returns the tokens and leaves the `unclosed` counter exactly as the recursive definition LexFrom, including its index error |
| ParenLexer.FlushWellFormed | src/paren/paren.java:141-143 | emitting keeps every token well formed |
| ParenLexer.ShapeFrom | src/paren/paren.java:145-196 | every token produced from any tokenizer state is `(`, `)`, a string token, or a non-empty run of ordinary characters |
| ParenLexer.ShapeComment | src/paren/paren.java:152-155 | the same for the comment loop |
| ParenLexer.ShapeString | src/paren/paren.java:156-177 | the same for the string loop |
| ParenLexer.TokenShape | src/paren/paren.java:199-201 | every token `tokenize` returns is well formed |
| ParenLexer.CensusFrom | src/paren/paren.java:145-196 | from any position, tokenizing fails exactly when the text ends right after a backslash inside a string, and the counter grows by the brackets outside strings and comments, plus one for an open string |
| ParenLexer.CensusComment | src/paren/paren.java:152-155 | the same from inside a comment |
| ParenLexer.CensusString | src/paren/paren.java:156-177 | the same from inside a string literal |
| ParenLexer.UnclosedCounts | src/paren/paren.java:135 | `unclosed` ends as the number of `(` minus `)` in code, plus one for an unterminated string, and tokenizing throws exactly when the text ends with a backslash inside a string |
| ParenLexer.TrailingBackslash | src/paren/paren.java:163-164 | a backslash as the last character of an open string literal raises an index error |
| ParenLexer.LexStringBody | src/paren/paren.java:156-177 | a whole string literal becomes one token: `"` followed by the decoded text |
| ParenLexer.UnescapeEscape | src/paren/paren.java:163-170 | escaped text is a valid string body that decodes back to the original |
| ParenLexer.StringLiteralRoundTrip | src/paren/paren.java:156-177 | a printed string literal tokenizes to exactly one token holding the text |
| ParenLexer.LexAtomRun | src/paren/paren.java:190-192 | ordinary characters only accumulate |
| ParenReader.ParseToken | src/paren/paren.java:213-237 | a token is a string when it starts with `"`, a symbol (named by the token) when it does not look numeric, never a list; it fails only on an empty token or, with NumberFormatException, a numeric-looking token that does not parse |
| ParenReader.ParseSeq | src/paren/paren.java:209-240 | parsing never moves backward, and stops either at the end of the tokens or on a `)` |
| ParenReader.Parser.constructor | src/paren/paren.java:206-208 | a new parser holds the tokens at position 0 |
| ParenReader.Parser.Parse | src/paren/paren.java:209-240 | the loop, which recurses on `(`, returns the forms and leaves `pos` exactly as the recursive definition ParseSeq |
| ParenReader.ShowIntNumeric | src/paren/paren.java:224-233 | a printed integer looks numeric, contains no `.` or `e`, and ends in a digit, so the parser reads it as an int |
| ParenReader.ParseTokenAtom | src/paren/paren.java:213-237 | every printable atom is one token that parses back as itself |
| ParenReader.ParseTokensOfForm | src/paren/paren.java:209-240 | the tokens of a form, wherever they stand, are read as that one form |
| ParenReader.ParseTokensOfForms | src/paren/paren.java:209-240 | the same for a sequence of forms |
| ParenReader.ReadTokensOf | src/paren/paren.java:209-240 | reading the tokens of printable forms gives exactly those forms |
| ParenReader.StrayCloseDropsRest | src/paren/paren.java:221-223 | a `)` at top level ends the program and every later token is ignored |
| ParenReader.MissingCloseAccepted | src/paren/paren.java:217-220 | a list still open at the end of the tokens is closed silently |
| ParenReader.PrintAtom | src/paren/paren.java:190-192 | the text of an atom is its single token |
| ParenReader.LexPrinted | src/paren/paren.java:145-196 | tokenizing the text of a printable form, wherever it stands, emits exactly that form's tokens |
| ParenReader.LexPrintedString | src/paren/paren.java:156-177 | the same for a string form |
| ParenReader.LexPrintedList | src/paren/paren.java:178-189 | the same for a list form |
| ParenReader.LexParen | src/paren/paren.java:178-189 | a parenthesis is a token of its own and moves the counter by one |
| ParenReader.LexSpace | src/paren/paren.java:149-151 | white space with nothing accumulated produces no token |
| ParenReader.LexPrintedSeq | src/paren/paren.java:145-196 | the same for a sequence of forms |
| ParenReader.ReadPrinted | src/paren/paren.java:243-245 | printing a program and reading it back gives the same forms with a zero counter |
| ParenReader.NumberTokenExamples | src/paren/paren.java:224-233 | "42" is an int, "-7" an int, "12L" a long, "1.5" a double |
| ParenReader.OtherTokenExamples | src/paren/paren.java:224-237 | "-" and "-x" are symbols, "12ab" throws NumberFormatException, a `"` token is a string |
| ParenStore.Alloc | src/paren/paren.java:39-41 | `new node(v)` is a new node holding v, and no other node changes |
| ParenStore.Clone | src/paren/paren.java:42-47 | `clone()` is a new node with the same value and data mark, and no other node changes |
| ParenStore.SetValue | src/paren/paren.java:751-754 | `n.value = v` changes that one node's value and nothing else |
| ParenStore.MarkData | src/paren/paren.java:410 | `found.isData = true` changes that one node's mark and nothing else |
| ParenStore.NewFrame | src/paren/paren.java:114 | `new environment(outer)` is a new empty frame enclosed by outer |
| ParenStore.Put | src/paren/paren.java:437 | `env.env.put` binds the name in that frame only |
| ParenStore.Chain | src/paren/paren.java:115-128 | the chain of frames `get` walks starts at the frame itself and stays in the store |
| ParenStore.GetInnermost | src/paren/paren.java:115-128 | `get` fails exactly when no frame of the chain binds the name, and otherwise returns the binding of the first frame that does |
| ParenStore.GetThroughNewFrame | src/paren/paren.java:114-128 | a new frame sees every binding of its enclosing frame |
| ParenStore.GetUnchanged | src/paren/paren.java:115-128 | `get` depends only on the frames of the chain |
| ParenStore.PutThenGet | src/paren/paren.java:111-128 | after `put`, `get` from the same frame finds the new binding |
| ParenStore.Show | src/paren/paren.java:60-63 | `stringValue()`: a string is itself, a symbol its name, null the empty string, an Integer or Long its decimal `toString`, a Boolean "true" or "false", and a builtin its enum name |
| ParenStore.ShowList | src/paren/paren.java:60-63 | a list prints in brackets (the text inside is stated by ShowListJoined) |
| ParenStore.ShowListJoined | src/paren/paren.java:60-63 | a list whose elements print as texts prints as "[" + those texts separated by ", " + "]" (`ArrayList.toString` over `node.toString`, 79-81), against the reference CommaJoined |
| ParenStore.ShowItemsJoined | src/paren/paren.java:60-63 | the elements from position i on print as their texts separated by ", " |
| ParenStore.IntValue | src/paren/paren.java:48-50 | `intValue()` is always an int; it succeeds exactly on an Integer or a Long; an Integer is itself, a Long is narrowed by wrap-around, null throws NullPointerException, and a string, symbol, Boolean, builtin, list or closure throws ClassCastException |
| ParenStore.LongValue | src/paren/paren.java:54-56 | `longValue()` is always a long; it succeeds exactly on an Integer or a Long, which is itself; null throws NullPointerException, and a string, symbol, Boolean, builtin, list or closure throws ClassCastException |
| ParenStore.DoubleFault | src/paren/paren.java:51-53 | `doubleValue()` of null throws NullPointerException, and of a non-number throws ClassCastException |
| ParenStore.BoolValue | src/paren/paren.java:57-59 | `booleanValue()` succeeds exactly on a Boolean, and null throws NullPointerException |
| ParenStore.ListValue | src/paren/paren.java:65-67 | `arrayListValue()` succeeds exactly on a list, and null throws NullPointerException |
| ParenStore.JEquals | src/paren/paren.java:755-761 | `a.equals(b)` is value equality on everything but doubles, and throws on a null receiver |
| ParenStore.AllocForm | src/paren/paren.java:209-240 | the parser's nodes for a form are new, the form's own node last, and old nodes are untouched |
| ParenStore.AllocForms | src/paren/paren.java:209-240 | one new node per form, and old nodes are untouched |
| ParenMacro.LeafKey | src/paren/paren.java:376-377 | the key of a template leaf: a symbol's name, a string itself |
| ParenMacro.GrowsTrans | src/paren/paren.java:363-403 | expansion steps compose: only nodes are added |
| ParenMacro.ApplyMacro | src/paren/paren.java:363-379 | only nodes are added; a list template gives a new list node, and a leaf gives the template node or the node of a variable |
| ParenMacro.ApplyItems | src/paren/paren.java:368-373 | the loop only appends to `ret` and only adds nodes |
| ParenMacro.MacroVars | src/paren/paren.java:386-399 | binding the parameters only adds nodes |
| ParenMacro.MacroExpand | src/paren/paren.java:381-403 | expansion only adds nodes: frames, macros and existing nodes are unchanged |
| ParenMacro.AsForms | src/paren/paren.java:209-240 | reading nodes back as forms keeps the number of elements |
| ParenMacro.AsFormStable | src/paren/paren.java:363-403 | adding nodes does not change what existing nodes read back as |
| ParenMacro.AsFormsStable | src/paren/paren.java:363-403 | the same for a sequence of nodes |
| ParenMacro.AllocFormReadsBack | src/paren/paren.java:209-240 | the nodes the parser builds for a form read back as that form |
| ParenMacro.AllocFormsReadBack | src/paren/paren.java:209-240 | the same for a sequence of forms |
| ParenMacroLaws.FormKey | src/paren/paren.java:376-377 | a reference definition of a template leaf's key on forms; only doubles and lists have none |
| ParenMacroLaws.Subst | src/paren/paren.java:363-379 | a reference definition of expansion on forms: a substitution of the variables into the template; it fails only where apply_macro fails |
| ParenMacroLaws.SubstItems | src/paren/paren.java:368-373 | the same for a list of template elements, where a `...` element splices the `...` variable's items |
| ParenMacroLaws.BindParams | src/paren/paren.java:386-399 | a reference definition of parameter binding on forms: parameter i takes argument i+1, `...` takes all the rest, and too few arguments throw an index error |
| ParenMacroLaws.Expansion | src/paren/paren.java:381-403 | the expansion of a macro call on forms: bind, then substitute |
| ParenMacroLaws.AsFormsEach | src/paren/paren.java:363-379 | a list reads back element by element |
| ParenMacroLaws.AsFormsConcat | src/paren/paren.java:368-373 | reading back distributes over concatenation |
| ParenMacroLaws.LeafOfForm | src/paren/paren.java:370-377 | on nodes that read back, the node test for `...` and a leaf's key agree with the form-level ones |
| ParenMacroLaws.VarsStable | src/paren/paren.java:385 | variables keep reading back as nodes are added |
| ParenMacroLaws.ApplyMacroReadsBack | src/paren/paren.java:363-379 | apply_macro on a template that reads back as t, with variables that read back as env, succeeds exactly when Subst(t, env) does, and its node reads back as Subst(t, env) |
| ParenMacroLaws.LeafTemplateReadsBack | src/paren/paren.java:375-378 | the same for a leaf template |
| ParenMacroLaws.ListTemplateReadsBack | src/paren/paren.java:364-374 | the same for a list template |
| ParenMacroLaws.ApplyItemsReadBack | src/paren/paren.java:368-373 | the element loop succeeds exactly when SubstItems does, and its list reads back as the accumulated forms followed by SubstItems |
| ParenMacroLaws.SpliceReadsBack | src/paren/paren.java:370-371 | a `...` element splices exactly the items of the `...` variable |
| ParenMacroLaws.ElementReadsBack | src/paren/paren.java:372 | any other element is expanded in place |
| ParenMacroLaws.MacroVarsReadBack | src/paren/paren.java:386-399 | binding the call's argument nodes succeeds exactly when BindParams does on their forms, and the variables read back as its result |
| ParenMacroLaws.RestReadsBack | src/paren/paren.java:389-395 | the `...` variable is a new list of the remaining arguments |
| ParenMacroLaws.NonMacroUnchanged | src/paren/paren.java:401-402 | a list whose head is not a macro name is returned unchanged |
| ParenMacroLaws.MacroCallReadsBack | src/paren/paren.java:381-403 | a macro call expands exactly when Expansion succeeds on the forms, and the expansion reads back as Expansion(params, args, template) |
| ParenMacroLaws.SetfnExpands | src/paren/paren.java:357 | (setfn f rest...) expands to (set f (fn rest...)) |
| ParenMacroLaws.SetfnCall | src/paren/paren.java:357 | the same for nodes in a store that define setfn |
| ParenMacroLaws.DefnExpands | src/paren/paren.java:358 | (defn args...) expands to (setfn args...) |
| ParenMacroLaws.SetfnNeedsName | src/paren/paren.java:397 | setfn with no arguments throws an index error |
| ParenCompile.Target | src/paren/paren.java:429-438 | the cell `set`/`for` assigns is the innermost existing binding, or else a new null node bound in the current frame |
| ParenCompile.Compile | src/paren/paren.java:405-555 | compiling only adds nodes and frames, marks nodes as data, adds bindings to the current frame and registers macros; no existing binding or node value changes |
| ParenCompile.CompileCall | src/paren/paren.java:419-550 | the same for a call |
| ParenCompile.CompileSpecial | src/paren/paren.java:427-538 | the same for the special forms |
| ParenCompile.CompileSet | src/paren/paren.java:428-443 | `(set NAME VALUE)` needs a symbol name and becomes a new node (set CELL compiled-VALUE), CELL being the assignment target |
| ParenCompile.CompileFor | src/paren/paren.java:444-464 | `(for NAME ...)` needs a symbol name and becomes a new node of the same length with the target cell in place of the name |
| ParenCompile.AssignTarget | src/paren/paren.java:429-438 | succeeds exactly when position 1 is a symbol, giving its target |
| ParenCompile.CompileDefmacro | src/paren/paren.java:526-529 | registers the parameter and template nodes under the name's stringValue() and returns one new null node |
| ParenCompile.CompileFrom | src/paren/paren.java:530-537 | compiles each remaining element in order, one result per element, leaving kept positions unchanged |
| ParenCompile.CompileAll | src/paren/paren.java:1320-1327 | one compiled node per form, in the global frame |
| ParenEval.Eval | src/paren/paren.java:557-1318 | evaluation never removes nodes, frames or macros |
| ParenEval.Arg | src/paren/paren.java:562 | `eval(nArrayList.get(i))`: an index error past the end, otherwise the element's value |
| ParenEval.DoubleArg | src/paren/paren.java:587-591 | a double operand succeeds only on a number |
| ParenEval.Seq | src/paren/paren.java:1332-1334 | evaluating a run of forms never removes anything |
| ParenEval.EvalEach | src/paren/paren.java:998-1003 | `list` gives one value per operand |
| ParenEval.Builtin | src/paren/paren.java:564-1286 | never removes anything |
| ParenEval.IntStep | src/paren/paren.java:574-576 | one int step stays an int, and fails only on division by zero |
| ParenEval.LongStep | src/paren/paren.java:581-583 | one long step stays a long, and fails only on division by zero |
| ParenEval.Arith | src/paren/paren.java:567-674 | with no operand, `+`/`-` give the shared 0 node and `*`/`/` the shared 1 node; otherwise the result is a new number node |
| ParenEval.IntFold | src/paren/paren.java:573-577 | the int fold yields an int |
| ParenEval.LongFold | src/paren/paren.java:580-584 | the long fold yields a long |
| ParenEval.Numeric | src/paren/paren.java:679-740 | never removes anything |
| ParenEval.Logic | src/paren/paren.java:755-863 | never removes anything |
| ParenEval.EqualsLoop | src/paren/paren.java:755-761 | `=` returns one of the shared true/false nodes |
| ParenEval.NumEqLoop | src/paren/paren.java:762-803 | `==`/`!=` return one of the shared true/false nodes |
| ParenEval.BoolLoop | src/paren/paren.java:852-861 | `&&`/`||` return one of the shared true/false nodes |
| ParenEval.Control | src/paren/paren.java:864-962 | never removes anything |
| ParenEval.WhileLoop | src/paren/paren.java:954-962 | never removes anything |
| ParenEval.For | src/paren/paren.java:882-953 | `for` returns a new null node |
| ParenEval.ForLoop | src/paren/paren.java:891-906 | never removes anything |
| ParenEval.Strings | src/paren/paren.java:963-991 | never removes anything |
| ParenEval.Convert | src/paren/paren.java:980-981 | `string` returns a new node holding the operand's stringValue() |
| ParenEval.CatLoop | src/paren/paren.java:965-973 | `strcat` only appends to its accumulator |
| ParenEval.Lists | src/paren/paren.java:992-1108 | never removes anything |
| ParenEval.Higher | src/paren/paren.java:1259-1269 | `cons` is a new list node of the element followed by the list's items |
| ParenEval.MapLoop | src/paren/paren.java:1029-1041 | `map` gives one value per element |
| ParenEval.FilterLoop | src/paren/paren.java:1042-1056 | `filter` keeps only elements of the list, after what was accumulated |
| ParenEval.FoldLoop | src/paren/paren.java:1014-1028 | never removes anything |
| ParenEval.Range | src/paren/paren.java:1057-1094 | `range` returns a list node |
| ParenEval.AllocNumbers | src/paren/paren.java:1065-1066 | one new number node per value, in order |
| ParenEval.Apply | src/paren/paren.java:1289-1308 | never removes anything |
| ParenEval.Bind | src/paren/paren.java:1296-1301 | never removes anything |
| ParenEval.Body | src/paren/paren.java:1303-1305 | never removes anything |
| ParenEval.EvalAll | src/paren/paren.java:1329-1336 | no forms gives a new null node |
| ParenEval.EvalString | src/paren/paren.java:1338-1341 | nodes and frames are only added |
| ParenEval.EvalForms | src/paren/paren.java:1338-1341 | the forms read are allocated, compiled in the global frame and evaluated; nodes and frames are only added |
| ParenLaws.EvalCopies | src/paren/paren.java:557-559 | a node that is not a call (not a list, or a list marked as data) evaluates to a new copy of itself, and nothing else changes |
| ParenLaws.CompileSymbol | src/paren/paren.java:406-418 | a bound symbol compiles to the very cell it is bound to (innermost frame first), now marked as data; an unbound symbol compiles to itself and changes nothing |
| ParenLaws.CompileShares | src/paren/paren.java:406-412 | two occurrences of one bound name compile to one shared cell |
| ParenLaws.BoundSymbolReadsCell | src/paren/paren.java:408-411 | a compiled bound symbol evaluates to a copy of its cell's current value, even a list |
| ParenLaws.UnboundSymbolEvaluatesToItself | src/paren/paren.java:413-417 | an unbound symbol compiles to itself and evaluates to a copy of itself |
| ParenLaws.SetWritesCell | src/paren/paren.java:751-754 | `(set CELL EXPR)` succeeds exactly when EXPR does, writes its value into the cell in place, and returns the cell |
| ParenLaws.FoldInts | src/paren/paren.java:574-576 | a reference left fold over int values yields an int |
| ParenLaws.FoldIntsSum | src/paren/paren.java:567-577 | `+` on ints gives the exact sum reduced to 32 bits, whatever overflows happen on the way |
| ParenLaws.FoldIntsProduct | src/paren/paren.java:621-647 | `*` on ints gives the exact product reduced to 32 bits |
| ParenLaws.ArithOfInts | src/paren/paren.java:567-674 | `+ - * /` over int literals is the reference fold: the same value, or the same exception |
| ParenLaws.IntThenLong | src/paren/paren.java:572-577 | `(+ 1 4294967298L)` is the Integer 3: a long operand after an int is narrowed |
| ParenLaws.NoOperands | src/paren/paren.java:569-570 | with no operand, `+`/`-` give the shared 0 node and `*`/`/` the shared 1 node, with the store unchanged |
| ParenLaws.IntDivide | src/paren/paren.java:648-659 | int `/` truncates toward zero and wraps MIN/-1; a zero divisor throws ArithmeticException |
| ParenLaws.IntRemainder | src/paren/paren.java:679-680 | int `%` is the truncating remainder, with the sign of the dividend; a zero divisor throws |
| ParenLaws.IntFoldNumbers | src/paren/paren.java:573-577 | the evaluator's int loop over number operands is the reference fold, each operand narrowed with `intValue()`, and it only adds nodes |
| ParenLaws.LongFoldNumbers | src/paren/paren.java:580-584 | the evaluator's long loop over number operands is the reference long fold, each operand widened with `longValue()` |
| ParenLaws.ArithOfLongs | src/paren/paren.java:567-674 | `+ - * /` whose first operand is a Long is the reference long fold, boxed as a Long; a zero divisor throws ArithmeticException |
| ParenLaws.FoldIntsDifference | src/paren/paren.java:594-620 | `-` on ints gives the exact difference reduced to 32 bits, whatever the overflows on the way |
| ParenLaws.FoldLongsSum | src/paren/paren.java:579-585 | `+` on longs gives the exact sum reduced to 64 bits |
| ParenLaws.FoldLongsDifference | src/paren/paren.java:594-620 | `-` on longs gives the exact difference reduced to 64 bits |
| ParenLaws.FoldLongsProduct | src/paren/paren.java:621-647 | `*` on longs gives the exact product reduced to 64 bits |
| ParenLaws.FoldIntsExact | src/paren/paren.java:567-647 | for `+ - *` the int fold is the exact result, with the first operand and every step wrapped, reduced once to 32 bits |
| ParenLaws.FoldLongsExact | src/paren/paren.java:567-647 | the same for the long fold modulo 2^64 |
| ParenLaws.ArithOfIntsExact | src/paren/paren.java:567-647 | `+ - *` with an Integer first operand gives the Integer holding the exact result over the narrowed operands, reduced to 32 bits |
| ParenLaws.ArithOfLongsExact | src/paren/paren.java:567-647 | `+ - *` with a Long first operand gives the Long holding the exact result over the widened operands, reduced to 64 bits |
| ParenLaws.IncDecOfAtom | src/paren/paren.java:683-710 | `inc`/`dec` return a new node one larger or smaller, wrapping as an int or a long by the operand's type; any other operand fails as `doubleValue()` does |
| ParenLaws.StepInPlace | src/paren/paren.java:711-740 | `++`/`--` write the stepped value into the operand's own node and return that node; no other node changes, and a non-number operand fails |
| ParenLaws.IncrementUndone | src/paren/paren.java:711-740 | `--` after `++` on an int cell gives back exactly the store before both |
| ParenLaws.AllEqualMeans | src/paren/paren.java:755-761 | the reference equality test holds exactly when every value equals the first |
| ParenLaws.EqualsLoopAtoms | src/paren/paren.java:755-761 | the `=` loop, from any position, is the reference test on the remaining operands |
| ParenLaws.EqualsOfAtoms | src/paren/paren.java:755-761 | `(= X ..)` is the true node exactly when every later operand `equals` the first |
| ParenLaws.NumEqLoopNumbers | src/paren/paren.java:762-803 | the `==`/`!=` loop gives true exactly when every remaining number agrees with (differs from) the first |
| ParenLaws.NumEqOfNumbers | src/paren/paren.java:762-803 | `==` is true exactly when every operand equals the first and `!=` exactly when none does, compared as ints or longs by the first operand's type |
| ParenLaws.CompareOfNumbers | src/paren/paren.java:804-851 | `< > <= >=` give the Boolean of the comparison, as ints or longs by the first operand's type |
| ParenLaws.BoolLoopBools | src/paren/paren.java:852-861 | the short-circuit loop over Booleans returns the stop value exactly when one operand has it |
| ParenLaws.AndOrOfBools | src/paren/paren.java:852-861 | `&&` is true exactly when every operand is, and `||` exactly when some operand is |
| ParenLaws.BoolStops | src/paren/paren.java:852-861 | the loop stops at the first operand holding the stop value, whatever follows it |
| ParenLaws.NotOfAtom | src/paren/paren.java:862-863 | `!` negates a Boolean and fails as `booleanValue()` does on anything else |
| ParenLaws.SeqSplit | src/paren/paren.java:1332-1334 | running forms i..end is running i..m and then m..end |
| ParenLaws.SeqAlign | src/paren/paren.java:1332-1334 | the run depends only on the forms, not on where they sit in the list |
| ParenLaws.SeqLast | src/paren/paren.java:1332-1334 | running one form more runs the others and then that form |
| ParenLaws.EvalAllSingle | src/paren/paren.java:1329-1336 | `eval_all` of one form is the value of that form |
| ParenLaws.EvalAllAppend | src/paren/paren.java:1329-1336 | `eval_all` of two runs of forms evaluates the first run and then the second, whose last value it returns |
| ParenLaws.BeginIsEvalAll | src/paren/paren.java:1102-1108 | `(begin X ..)` is `eval_all` of its operands |
| ParenLaws.IfPicks | src/paren/paren.java:864-871 | `if` evaluates the then-branch on true and the else-branch on false; without an else-branch false throws an index error; a non-Boolean fails |
| ParenLaws.WhenPicks | src/paren/paren.java:872-881 | `when` on true is `eval_all` of its body, or the condition's own value again when there is no body; on false it is a new null node |
| ParenLaws.WhileFalse | src/paren/paren.java:954-962 | `while` with a false condition returns a new null node |
| ParenLaws.WhileTrueLoops | src/paren/paren.java:954-962 | `(while true)` never ends, whatever the bound |
| ParenLaws.EvalStringPrinted | src/paren/paren.java:1338-1341 | `eval_string` of printed forms allocates, compiles and evaluates exactly those forms |
| ParenLaws.Listed | src/paren/paren.java:1065-1066 | the list node of new number nodes holds exactly the given numbers, in order |
| ParenLaws.RangeUnfold | src/paren/paren.java:1057-1094 | `range` over number literals is the counting loop's values boxed as new nodes |
| ParenLaws.RangeOfNumbers | src/paren/paren.java:1057-1094 | `range` over Integer or Long literals succeeds exactly when the counting loop ends, and then holds exactly its values, which form the arithmetic progression when no step can wrap |
| ParenLaws.ForLoopWalks | src/paren/paren.java:891-906 | with or without a body, the loop of `for` writes each counted value into the cell and then runs the body, in order |
| ParenLaws.ForUnfold | src/paren/paren.java:882-953 | `for` evaluates its bounds, runs the loop and returns a new null node |
| ParenLaws.ForOfNumbersWalks | src/paren/paren.java:882-953 | `for` over Integer or Long literals, with any body, is the walk over the counted values |
| ParenLaws.ForOfNumbers | src/paren/paren.java:882-953 | without a body, `for` finishes exactly when the counting loop ends, and never ends when the step is 0 or the end is the edge of the type |
| ParenLaws.ForLoopNoBody | src/paren/paren.java:891-906 | without a body, the loop of `for` ends exactly when the counting loop does, and leaves the cell at the last value counted (untouched if none) |
| ParenLaws.ForLoopCounts | src/paren/paren.java:891-906 | whatever its body does, a `for` loop that finishes has run a finite counting loop |
| ParenLaws.ForLeavesLastValue | src/paren/paren.java:889-906 | after `for` over Integer or Long literals, the cell holds the last value counted |
| ParenLaws.BindOverwrites | src/paren/paren.java:1296-1301 | binding a parameter writes the argument's value into the closure's own frame, overwriting any earlier binding; no frame is created |
| ParenLaws.BindAtom | src/paren/paren.java:1296-1301 | binding a parameter to a literal argument puts a copy of the argument in the call's frame |
| ParenLaws.ReadParameter | src/paren/paren.java:406-418 | a body symbol naming a bound parameter evaluates to the argument's value |
| ParenLaws.IdentityClosure | src/paren/paren.java:1289-1308 | a closure `(fn (x) x)` called on an argument that evaluates to itself returns a node holding the argument's value |
| ParenBuiltinLaws.ShowFlat | src/paren/paren.java:60-63 | the text of a value that is neither a list nor a closure does not depend on the store |
| ParenBuiltinLaws.CatLoopAtoms | src/paren/paren.java:965-973 | the `strcat` loop returns its accumulator followed by each remaining operand's `stringValue()`, in order |
| ParenBuiltinLaws.StrcatOfAtoms | src/paren/paren.java:965-973 | `(strcat X ..)` is the concatenation of the operands' texts |
| ParenBuiltinLaws.StrlenOfAtom | src/paren/paren.java:963-964 | `strlen` is the length of the operand's text, and `string` is that text |
| ParenBuiltinLaws.IntLongOfAtom | src/paren/paren.java:984-987 | `int` narrows an Integer or Long to 32 bits and `long` widens or wraps to 64 bits; anything else fails as `intValue()`/`longValue()` do |
| ParenBuiltinLaws.ChrOfAtom | src/paren/paren.java:976-979 | `chr` of an int whose low 16 bits lie outside the surrogate range 0xD800-0xDFFF is the one-character string of those 16 bits |
| ParenBuiltinLaws.CharAtOfAtoms | src/paren/paren.java:974-975 | `char-at` is the code of the character at that index, or an index error outside the text |
| ParenBuiltinLaws.ReadStringPrinted | src/paren/paren.java:988-989 | `read-string` of a printed form is a new node holding that form's value |
| ParenBuiltinLaws.EvalEachAtoms | src/paren/paren.java:998-1003 | the `list` loop appends one node per operand, holding the operand's value, in order |
| ParenBuiltinLaws.ListOfAtoms | src/paren/paren.java:998-1003 | `(list X ..)` is a list node holding exactly the operands' values, in order |
| ParenBuiltinLaws.LengthOfAtom | src/paren/paren.java:1099-1101 | `length` is the number of elements of a list, and fails as `arrayListValue()` does on anything else |
| ParenBuiltinLaws.NthOfList | src/paren/paren.java:1095-1098 | `nth` returns the list's own element node at that index, or throws an index error outside it |
| ParenBuiltinLaws.CallBuiltinHead | src/paren/paren.java:557-565 | a call whose head evaluates to a builtin runs that builtin on the call's elements |
| ParenBuiltinLaws.ConsOfAtoms | src/paren/paren.java:1259-1269 | `(cons X L)` is a new list whose first element holds X's value and whose other elements are the very element nodes of L |
| ParenBuiltinLaws.CallUnary | src/paren/paren.java:1032-1039 | the call node `(f item)` built for `map`/`filter` with `inc`, `dec` or `!` gives that builtin's result on the item |
| ParenBuiltinLaws.MapLoopUnary | src/paren/paren.java:1032-1039 | the `map` loop appends, in order, one node holding the call's value per element, and fails exactly where the first call fails |
| ParenBuiltinLaws.MapOfUnary | src/paren/paren.java:1029-1041 | `(map f LIST)` succeeds exactly when every call does, and is then a list node of the results, in order |
| ParenBuiltinLaws.FilterNotKeepsFalse | src/paren/paren.java:1042-1056 | filtering Booleans with `!` keeps exactly the false ones |
| ParenBuiltinLaws.FilterLoopUnary | src/paren/paren.java:1045-1054 | the `filter` loop appends exactly the elements whose call returns true, in order, and fails where a call or its `booleanValue()` fails |
| ParenBuiltinLaws.FilterOfUnary | src/paren/paren.java:1042-1056 | `(filter f LIST)` succeeds exactly when every call gives a Boolean, and is then a list node of the kept elements, in order |
| ParenBuiltinLaws.CallOfInts | src/paren/paren.java:1004-1013 | a call node of an arithmetic builtin over number nodes gives the reference int fold |
| ParenBuiltinLaws.CallArith | src/paren/paren.java:1017-1026 | one `fold` step `(f acc item)` gives the int step of the accumulator and the item |
| ParenBuiltinLaws.FoldLoopInts | src/paren/paren.java:1017-1026 | the `fold` loop over numbers is the left fold from the accumulator |
| ParenBuiltinLaws.FoldOfInts | src/paren/paren.java:1014-1028 | `(fold f LIST)` on an empty list throws an index error, and otherwise is the left fold from the first element |
| ParenBuiltinLaws.ApplyOfInts | src/paren/paren.java:1004-1013 | `(apply f LIST)` with an arithmetic builtin is that builtin called on the list's elements |
| ParenMachine.DefineMacro | src/paren/paren.java:526-528 | defining a macro allocates its parameter and template nodes, adds the name and keeps every other macro |
| ParenMachine.StartupMacros | src/paren/paren.java:357-358 | after start-up, setfn and defn are defined and nothing else changed in the macro table |
| ParenMachine.DefinedMacroReadsBack | src/paren/paren.java:526-528 | a defined macro's parameters and template read back as the forms given |
| ParenMachine.EarlierMacroReadsBack | src/paren/paren.java:526-528 | a macro keeps its reading when another is defined after it |
| ParenMachine.SymForms | src/paren/paren.java:235-237 | the symbol forms of a list of names |
| ParenMachine.ParamsFromForm | src/paren/paren.java:386-388 | a node that reads back as a list of symbols prints its elements as their names |
| ParenMachine.StartupSetfnMacro | src/paren/paren.java:357 | after start-up, setfn's parameters print as `name` and `...`, and its template reads back as (set name (fn ...)) |
| ParenMachine.StartupSetfn | src/paren/paren.java:541-542 | after start-up, a call (setfn f rest...) expands to a node that reads back as (set f (fn rest...)) |
| ParenMachine.StartupDefnMacro | src/paren/paren.java:358 | after start-up, defn's parameter prints as `...`, and its template reads back as (setfn ...) |
| ParenMachine.StartupDefn | src/paren/paren.java:541-542 | after start-up, a call (defn args...) expands to a node that reads back as (setfn args...) |
| ParenMachine.Interpreter.constructor | src/paren/paren.java:29-31 | the interpreter holds the given store |
| ParenMachine.Interpreter.CompileAll | src/paren/paren.java:1320-1327 | the loop compiles each form in the global frame; the result and new store are those of CompileAll, and the store is unchanged on an exception |
| ParenMachine.Interpreter.EvalAll | src/paren/paren.java:1329-1336 | the loop evaluates every form in order; the result and new store are those of EvalAll, and the store is unchanged on an exception |
| ParenMachine.Interpreter.EvalString | src/paren/paren.java:1338-1341 | read, compile all, evaluate all; the result and new store are those of EvalString, and the store is unchanged on an exception |
| OldParenReader.SkipLine | src/paren.java:72-75 | the comment loop stops at the first newline or at the end of the text |
| OldParenReader.AtomValue | src/paren.java:80-94 | a token starting with `'` or `"` is the string of the token without its first character, a numeric-looking one a number (a double exactly when it contains `.` or `e`), anything else the symbol of the whole token; never a list, null or Boolean; a numeric-looking token that does not parse throws NumberFormatException |
| OldParenReader.Parse | src/paren.java:63-131 | the character loop with its comment, string and bracket loops returns exactly OldParse |
| OldParenReader.SkipToNewline | src/paren.java:72-75 | the comment loop ends where SkipLine says |
| OldParenReader.ScanString | src/paren.java:95-112 | the string loop stops on the closing quote and continues as the reader's loop, or throws an index error when there is none |
| OldParenReader.ScanList | src/paren.java:113-125 | the bracket loop stops on the bracket that closes the list, or throws an index error when there is none |
| OldParenReader.LoopRun | src/paren.java:126-128 | ordinary characters only accumulate |
| OldParenReader.LoopSpace | src/paren.java:71-94 | white space ends the token: an empty accumulator adds nothing, otherwise the token is classified and appended |
| OldParenReader.LoopEmit | src/paren.java:71-94 | a finished token is appended, and a `;` also skips the rest of its line |
| OldParenReader.ReadStringBody | src/paren.java:95-112 | a whole string literal accumulates its decoded text |
| OldParenReader.ParenFreeScan | src/paren.java:118-122 | text with no brackets keeps the depth |
| OldParenReader.ScanAppend | src/paren.java:118-122 | the depth after two texts is the depth after the first continued by the second |
| OldParenReader.ReadListBody | src/paren.java:113-125 | the bracket loop accumulates the list text up to its closing bracket |
| OldParenReader.PrintedDepth | src/paren.java:113-125 | printed text never closes more brackets than it opens |
| OldParenReader.ParseIntToken | src/paren.java:86-91 | a printed int is read back as that int |
| OldParenReader.ReadPrintedValue | src/paren.java:63-131 | reading the text of a printable value, wherever it stands, appends that value |
| OldParenReader.ReadPrintedAtom | src/paren.java:76-94 | the same for an atom |
| OldParenReader.ReadPrintedString | src/paren.java:95-112 | the same for a string |
| OldParenReader.ReadPrintedList | src/paren.java:84-85 | the same for a list, read by re-reading its text |
| OldParenReader.ReadPrintedSeq | src/paren.java:63-131 | the same for a sequence of values |
| OldParenReader.ReadPrintedProgram | src/paren.java:63-131 | printing values and reading the text back gives the same values |
| OldParenReader.LastTokenEmitted | src/paren.java:64 | the sentinel space emits the last token of the text |
| OldParenReader.UnclosedListThrows | src/paren.java:117-125 | a list whose brackets never balance runs the bracket loop off the end: index error |
| OldParenReader.BracketInStringInsideList | src/paren.java:113-125 | brackets inside a string literal still count in the bracket loop, so `(g "(")` throws an index error |
| OldParenReader.CommentExample | src/paren.java:71-78 | a comment runs to the end of its line, and `;` also ends a token |
| OldParenReader.CommentOnlyExample | src/paren.java:71-78 | a text holding only a comment reads as no values |
| OldParenReader.GluedStringExample | src/paren.java:95-128 | a closing quote does not end a token |
| OldParenReader.TwoSymbols | src/paren.java:69-94 | tokens are split at spaces |
| OldParenReader.GluedListExample | src/paren.java:113-128 | a closing bracket does not end a token: what follows joins the list text |
| OldParenReader.QuotedAtomExample | src/paren.java:80-81 | a leading `'` makes the rest of the token a string |
| OldParenEval.IntValue | src/paren.java:30-32 | `intValue()` succeeds exactly on an Integer, giving it; null throws |
| OldParenEval.BooleanValue | src/paren.java:36-38 | `booleanValue()` succeeds exactly on a Boolean |
| OldParenEval.VectorValue | src/paren.java:44-46 | `vectorValue()` succeeds exactly on a list |
| OldParenEval.DoubleFault | src/paren.java:33-35 | `doubleValue()` throws exactly on a non-number, NullPointerException exactly on null |
| OldParenEval.StringValue | src/paren.java:39-42 | a string or a symbol is its text, null is "", an Integer is its decimal `toString`, and a Boolean is "true" or "false" (the text of a Vector is stated by StringValueOfList) |
| OldParenEval.StringValueOfList | src/paren.java:39-42 | a Vector whose elements print as texts prints as "[" + those texts separated by ", " + "]" (`Vector.toString` over `node.toString`, 58-60), against the reference CommaJoined |
| OldParenEval.JoinItemsJoined | src/paren.java:39-42 | the elements print as their texts separated by ", " |
| OldParenEval.Demote | src/paren.java:659-660 | `new node(x.value)` is never a symbol: a symbol becomes the string of its name, anything else is kept |
| OldParenEval.Arg | src/paren.java:275-277 | `nvector.get(k)` succeeds exactly below the size, otherwise an index error |
| OldParenEval.Lookup | src/paren.java:254-273 | a symbol's global binding, else itself when it names a builtin, else null |
| OldParenEval.Ints | src/paren.java:716-721 | one Integer per value, in order |
| OldParenLaws.AtomEvaluation | src/paren.java:247-273 | a non-list evaluates to itself without touching the table, except a symbol, which evaluates as Lookup says; an unknown name gives null |
| OldParenLaws.UnknownFunctionThrows | src/paren.java:277-281 | a call whose head is a symbol bound to nothing and naming no builtin throws NullPointerException (the symbol evaluates to null and the builtin lookup of null throws) |
| OldParenLaws.NonCallableHead | src/paren.java:277-311 | a call whose head is a name bound to a non-callable value: an Integer, Double, Boolean, or a string or symbol that names no builtin, throws ClassCastException; null, or a Vector of three or more elements whose first element is null, throws NullPointerException; any other Vector that is not `(fn ..)` is an unknown function and gives null with the table unchanged |
| OldParenLaws.Params | src/paren.java:284-289 | the parameter names of a closure |
| OldParenLaws.BindStep | src/paren.java:288-295 | one parameter: its earlier binding is saved, then it is bound to the argument's value |
| OldParenLaws.SavedStep | src/paren.java:288-295 | the saved bindings grow by the one of the current parameter |
| OldParenLaws.LiteralBind | src/paren.java:288-295 | an argument that evaluates to itself is bound without changing anything else: the next step starts from the table with that one binding added |
| OldParenLaws.BindLiterals | src/paren.java:288-295 | binding distinct parameters to literal arguments binds each one and saves exactly their earlier bindings |
| OldParenLaws.ClosureCall | src/paren.java:281-307 | a call of a closure with distinct parameters runs the body with the parameters bound, then removes the parameters and restores the bindings they had before |
| OldParenLaws.ClosureFrame | src/paren.java:296-306 | the body after binding, then the restore |
| OldParenLaws.ParametersRestored | src/paren.java:301-305 | after the call, each parameter has its binding from before the call (or none), and every other name keeps the binding the body left |
| OldParenLaws.BindFromBinds | src/paren.java:288-295 | the body sees every parameter bound to its argument and every other name unchanged |
| OldParenLaws.LaterArgumentSeesEarlierParameter | src/paren.java:288-295 | arguments are bound one at a time, so a later argument sees an earlier parameter's new binding |
| OldParenLaws.RestoreChained | src/paren.java:301-305 | the restore of that example puts the table back |
| OldParenLaws.BindChained | src/paren.java:288-295 | the binding of that example |
| OldParenLaws.DuplicateParameterLeaks | src/paren.java:288-305 | with a parameter named twice, the second save records the first argument, which stays bound after the call |
| OldParenLaws.BindDuplicate | src/paren.java:288-295 | the binding of that example |
| OldParenLaws.BodyAssignmentPersists | src/paren.java:296-305 | a global the body assigns under another name survives the call |
| OldParenLaws.AssignInBody | src/paren.java:296-300 | the body of that example |
| OldParenLaws.RestoreAfterAssign | src/paren.java:301-305 | the restore of that example |
| OldParenLaws.FoldStep | src/paren.java:315-334 | one fold step over an Integer literal wraps the exact result |
| OldParenLaws.FoldExactStep | src/paren.java:315-394 | wrapping at every step agrees with wrapping the exact result |
| OldParenLaws.FoldLiterals | src/paren.java:315-394 | folding over Integer literals is the exact fold reduced to 32 bits |
| OldParenLaws.ArithLiterals | src/paren.java:315-394 | `+ - *` over Integer literals: no operand gives 0 (1 for `*`), otherwise the exact result reduced to 32 bits |
| OldParenLaws.ArithStringOperand | src/paren.java:315-334 | a string first operand fails the cast to Double with ClassCastException |
| OldParenLaws.ArithExamples | src/paren.java:315-394 | `(+ 2147483647 1)` wraps to -2147483648, `(/ -7 2)` is -3, and division by zero throws |
| OldParenLaws.ForVisitsRange | src/paren.java:571-597 | `for` binds its variable to exactly the values of the counting loop, in order |
| OldParenLaws.ForWithoutBody | src/paren.java:581-596 | without a body, `for` leaves its variable at the last value visited |
| OldParenLaws.ForLiterals | src/paren.java:571-597 | `(for x a end step)` over Integer literals binds x to a, then to each value counted |
| OldParenLaws.CallBuiltin | src/paren.java:277-314 | a call whose head is an unbound builtin name runs that builtin |
| OldParenLaws.SetBinds | src/paren.java:469-474 | `(set x e)` binds x to the value of e in the table e leaves, and returns null |
| OldParenLaws.IncrementRebinds | src/paren.java:425-434 | `(++ x)` rebinds x to a new Integer one larger (wrapping); an unbound x throws NullPointerException |
| OldParenLaws.FoldDivLiterals | src/paren.java:375-394 | the `/` loop over Integer literals succeeds exactly when no divisor is zero, and otherwise throws ArithmeticException; the table is unchanged |
| OldParenLaws.FoldDivPositive | src/paren.java:375-394 | with a non-negative dividend and positive divisors, the `/` loop divides by their product |
| OldParenLaws.ArithDivLiterals | src/paren.java:375-394 | `(/ a b ..)` throws ArithmeticException exactly when a divisor is zero, and with a non-negative dividend and positive divisors is a divided by their product |
| OldParenLaws.EqChainLiterals | src/paren.java:475-504 | the `==`/`!=` loop gives true exactly when every remaining operand equals (differs from) the first |
| OldParenLaws.EqualsLiterals | src/paren.java:475-504 | `(== X ..)` is true exactly when every operand equals the first, `(!= X ..)` exactly when none does |
| OldParenLaws.CompareLiterals | src/paren.java:505-540 | `< > <= >=` on Integers give the Boolean of the comparison |
| OldParenLaws.NotLiteral | src/paren.java:551-552 | `!` succeeds exactly on a Boolean and negates it |
| OldParenLaws.AndOrLiterals | src/paren.java:541-550 | `&&` is true exactly when every operand is, `||` exactly when some operand is |
| OldParenLaws.AndOrStops | src/paren.java:541-550 | the loop stops at the first deciding operand, whatever follows it |
| OldParenLaws.EvalLastLiterals | src/paren.java:561-570 | evaluating a run of literal forms gives the last one, and the table is unchanged |
| OldParenLaws.RunLiterals | src/paren.java:623-631 | running literal body forms leaves the table unchanged |
| OldParenLaws.BeginLiterals | src/paren.java:743-748 | `begin` gives null without operands, else its last operand's value |
| OldParenLaws.IfLiteral | src/paren.java:553-560 | `if` evaluates the then-branch on true and the else-branch on false, and a missing branch throws an index error |
| OldParenLaws.WhenLiteral | src/paren.java:561-570 | `when` gives null on false, and its last form's value on true |
| OldParenLaws.WhileFalse | src/paren.java:623-631 | `while` with a false condition gives null and changes nothing |
| OldParenLaws.WhileTrueRunsOut | src/paren.java:623-631 | `(while true ..)` with a literal body never ends |
| OldParenLaws.RangeLiterals | src/paren.java:709-722 | `range` over Integer literals succeeds exactly when the counting loop ends, and is then the list of the counted values |
| OldParenLaws.DecrementRebinds | src/paren.java:442-457 | `(-- x)` rebinds x to a new Integer one smaller (wrapping), and throws NullPointerException when x is unbound |
| OldParenLaws.ConcatLiterals | src/paren.java:634-642 | the `strcat` loop appends each remaining string operand to the accumulator, in order |
| OldParenLaws.StrcatLiterals | src/paren.java:634-642 | `(strcat X ..)` is the concatenation of its string operands, and "" without operands |
| OldParenLaws.StrlenCharAtLiterals | src/paren.java:632-644 | `strlen` is the string's length; `char-at` is the code at that index, or an index error outside it |
| OldParenLaws.ReadStringPrinted | src/paren.java:655-656 | `read-string` of a printed value gives that value back as a new node |
| OldParenLaws.EvalEachLiterals | src/paren.java:665-670 | the `list` loop appends each literal operand, in order |
| OldParenLaws.ListLiterals | src/paren.java:665-670 | `(list X ..)` over literals is the list of those operands |
| OldParenLaws.LengthNthOfBound | src/paren.java:736-742 | `length` is the number of elements; `nth` is the element at that index, or an index error outside it |
| OldParenLaws.ApplyUnfold | src/paren.java:671-680 | `(apply f LIST)` evaluates the call of f on the list's elements |
| OldParenLaws.CallArithLiterals | src/paren.java:277-374 | a call of `+ - *` on Integer literals gives the exact result reduced to 32 bits |
| OldParenLaws.ApplyOfBound | src/paren.java:671-680 | `(apply + xs)` over Integers is the wrapped exact fold of the list's elements |
| OldParenLaws.CallIncDec | src/paren.java:403-424 | `inc`/`dec` of an Integer gives a new Integer one larger or smaller, wrapping |
| OldParenLaws.MapIncDec | src/paren.java:681-693 | the `map` loop with `inc`/`dec` appends each element stepped by one, in order |
| OldParenLaws.MapOfBound | src/paren.java:681-693 | `(map inc xs)` is the list of the elements each stepped by one, in order |
| OldParenLaws.FilterNot | src/paren.java:694-708 | the `filter` loop with `!` appends exactly the false elements, in order |
| OldParenLaws.FilterOfBound | src/paren.java:694-708 | `(filter ! xs)` over Booleans is the list of exactly the false elements, in order |
| OldParenLaws.EvalPrinted | src/paren.java:898-900 | evaluating printed text is evaluating the values it prints |
| OldParenMachine.OldInterpreter.constructor | src/paren.java:181-185 | a new interpreter's globals are true, false, E and PI |
| OldParenMachine.OldInterpreter.EvalAll | src/paren.java:889-896 | the loop evaluates every form in order; the value and table are those of EvalProgram (null for no forms), and the table is unchanged on an exception |
| OldParenMachine.OldInterpreter.EvalString | src/paren.java:898-900 | read, then evaluate all; the value and table are those of EvalString, and the table is unchanged on an exception |

## Left out

- Floating point is not modelled. A Double is a value with no content,
  and anything that needs its number ends in `Unmodelled`. This covers
  `^`, `sqrt`, `floor`, `ceil`, `ln`, `log10`, `rand`, `double`, the double
  branches of arithmetic, comparisons, `for` and `range`, and
  `Double.toString`.
- Java interoperability is not modelled: `.`, `.get`, `.set`, `new`,
  `cast`, `type` and the `clazz` type hint. They compile as the source
  does, but evaluating them ends in `Unmodelled`.
- Console and process I/O is not modelled: `pr`, `prn`, `exit`, `system`,
  `read-string`'s console use, `repl`, `eval_print`, `prompt`,
  `print_logo` and the symbol and function listings.
  `System.err` messages are dropped; their branches return the same node
  as the source.
- Recursion and loops carry a `fuel` bound. When it runs out the result is
  `Err(OutOfFuel)`, which the source has no counterpart for: the model
  says nothing about runs longer than the bound, and a stack overflow of
  the source is not distinguished from non-termination.
- `node` and `environment` of 1.7 are not Dafny classes. They are cells
  and frames of an explicit store addressed by index, so aliasing is
  explicit: two references are the same node exactly when the indices are
  equal. The interpreter object is a class that holds this store.
- ParenMachine.Interpreter.EvalAll: on an exception the store is left as
  it was before the call, whereas the Java object keeps the node and
  binding changes made before the throw, because the model's functions
  return no store on an exception.
- ParenMachine.Interpreter.EvalString: the same as EvalAll.
- ParenMachine.Interpreter.CompileAll: the same as EvalAll.
- OldParenMachine.OldInterpreter.EvalAll: on an exception the table is
  left as it was before the call, whereas Java keeps the bindings made
  before the throw.
- OldParenMachine.OldInterpreter.EvalString: the same as EvalAll.
- ParenMachine.Interpreter.constructor: it takes a store rather than
  building it. The builtin bindings that 1.7's `init` puts into
  `global_env` are not constructed.
- ParenMachine.StartupMacros: writes out the effect of the two
  `eval_string` calls at the end of `init` (lines 357-358) instead of
  reading and evaluating their text. Its laws (StartupSetfn, StartupDefn)
  are proved about that effect.
- ParenEval.Eval: like the other evaluator functions, its own contract
  states only that the store evolves (nothing is removed). What
  evaluation computes is stated by the lemmas of `ParenLaws`, each about
  one construct.
- Seq (ParenEval.Seq): its own contract states only that nothing is
  removed. SeqSplit, SeqAlign and SeqLast state that it runs the forms one
  after the other, in order.
- LongStep (ParenEval.LongStep): its own contract states only that the
  result is a long. The value is stated for whole folds: FoldLongsSum,
  FoldLongsDifference, FoldLongsProduct and FoldLongsExact give the exact
  result reduced modulo 2^64, and ArithOfLongs states that a zero divisor
  throws ArithmeticException.
- IntFold (ParenEval.IntFold): its own contract states only that the
  result is an int. IntFoldNumbers states that it is the reference fold
  over the operands narrowed with `intValue()`, for operands that evaluate
  to themselves; ArithOfInts and ArithOfIntsExact give the value.
- LongFold (ParenEval.LongFold): the same, with LongFoldNumbers,
  ArithOfLongs and ArithOfLongsExact.
- Numeric (ParenEval.Numeric): its own contract states only that nothing
  is removed. IntRemainder states `%`, IncDecOfAtom states `inc` and
  `dec`, and StepInPlace and IncrementUndone state `++` and `--`. The
  floating-point builtins end in `Unmodelled` (see above).
- EqualsLoop (ParenEval.EqualsLoop): its own contract states only that the
  result is the shared true or false node. EqualsLoopAtoms and
  EqualsOfAtoms state when it is true, for operands that evaluate to
  themselves.
- NumEqLoop (ParenEval.NumEqLoop): the same, with NumEqLoopNumbers and
  NumEqOfNumbers, for number operands.
- BoolLoop (ParenEval.BoolLoop): the same, with BoolLoopBools,
  AndOrOfBools and BoolStops, for Boolean operands.
- Convert (ParenEval.Convert): its own contract states only `string`.
  StrlenOfAtom, IntLongOfAtom, ChrOfAtom and ReadStringPrinted in
  ParenBuiltinLaws state `strlen`, `int`, `long`, `chr` and `read-string`,
  for an operand that evaluates to itself.
- CatLoop (ParenEval.CatLoop): its own contract states only that the
  accumulator is a prefix of the result. CatLoopAtoms states that the
  result is the accumulator followed by each operand's text, for operands
  that evaluate to themselves and are neither lists nor closures.
- Higher (ParenEval.Higher): its own contract states only `cons`, as the
  list it builds. What the other branches compute is stated for builtin
  function operands and lists of elements that evaluate to themselves:
  ConsOfAtoms, MapOfUnary and FilterOfUnary (with `inc`, `dec` or `!`),
  FoldOfInts and ApplyOfInts (with an arithmetic builtin over numbers).
  `map`, `filter`, `fold` and `apply` with a closure as the function are
  not covered by a law.
- MapLoop (ParenEval.MapLoop): its own contract states only that there is
  one result per element. MapLoopUnary states the results, in order, for
  the builtins `inc`, `dec` and `!`; a closure as the function is not
  covered by a law.
- FilterLoop (ParenEval.FilterLoop): its own contract states only that the
  kept elements come from the list. FilterLoopUnary states that exactly
  the elements whose call returns true are kept, in order, for the
  builtins `inc`, `dec` and `!`; a closure as the function is not covered
  by a law.
- Body (ParenEval.Body): its own contract states only that nothing is
  removed. BindAtom, BindOverwrites and IdentityClosure state the
  binding of the arguments and the result of a closure whose body is its
  parameter; a general law that a closure call returns the value of its
  last body form is not stated.
- EvalAll (ParenEval.EvalAll): its own contract states only the case
  without forms. EvalAllSingle and EvalAllAppend state the value of the
  last form after the others have run, BeginIsEvalAll ties it to `begin`,
  and EvalStringPrinted ties `eval_string` to it.
- FoldLoop (ParenEval.FoldLoop), MapLoop and FilterLoop: `fold`, `map` and
  `filter` in 1.7 build one `expr` list and overwrite its elements before
  each call (src/paren/paren.java:1014-1056). The model allocates a fresh
  call node for each call. The builtin `fn` returns its own call node
  (src/paren/paren.java:996-997), and that exposes the difference. In Java,
  `(map fn (list 1 2))` gives two nodes sharing one list, which ends as
  `[fn, 2]`; the model gives `[fn, 1]` and `[fn, 2]`. In Java,
  `(fold fn (list 1 2 3))` builds a list that contains itself; the model
  builds nested lists.
- MapEach (OldParenEval.MapEach) and FilterEach: the same for 1.2.3,
  whose `map` and `filter` overwrite `expr` with `expr.set(1, ..)`
  (src/paren.java:681-708) and whose `fn` returns a node holding its call
  list (src/paren.java:663-664). The model gives each element its own
  call.
- ParenLexer.Tokenizer.Tokenize: the `unclosed` counter is computed
  exactly, but the REPL that reads it is not modelled.
- Double literals are recognised by the readers (`1.5` is a Double), but
  `Double.parseDouble` is not checked: a malformed double token such as
  `1.2.3` is read as a Double instead of throwing.
- OldParenEval: in 1.2.3 an `Integer` first operand folds with 32-bit
  wrap-around, and every other first operand takes the Double branch,
  which is `Unmodelled` (or a ClassCastException for a non-number).
- The parser's reading of the `"` token, the lexer's escapes and the
  printers cover only characters; there is no Unicode normalisation.
- Convert (ParenEval.Convert), ParenEval.Strings and OldParenEval.Strings:
  a Dafny string is a sequence of Unicode scalar values, while Java's
  `length()` and `charAt` count UTF-16 code units
  (src/paren/paren.java:963-964, 974-975; src/paren.java:632-633, 643-644).
  They agree on text inside the Basic Multilingual Plane. Outside it they
  differ: Java gives 2 for `(strlen "😀")` and 0xDE00 for
  `(char-at "😀a" 1)`, where the model gives 1 and 97.
- ChrOfAtom (ParenBuiltinLaws.ChrOfAtom) and OldParenEval `chr`: when
  the low 16 bits of the code lie in the surrogate range 0xD800-0xDFFF,
  Java's `(char)` cast gives a one-character string holding a lone
  surrogate (src/paren/paren.java:976-979, src/paren.java:645-648). A
  Dafny string is a sequence of Unicode scalar values and cannot hold a
  lone surrogate, so both models answer `Unmodelled` for those codes and
  the lemma covers only the codes outside that range.
- JavaLang.IsDigit: it accepts only the ASCII digits `0`-`9`. Java's
  `Character.isDigit` and `parseInt` also accept the digits of other
  scripts, so Java reads the token "٣" as the Integer 3 and the model
  reads it as a symbol.
- ParseToken (ParenReader.ParseToken): reads number tokens with
  JavaLang.IsDigit, so a token of non-ASCII digits is a symbol (see the
  previous line; src/paren/paren.java:224-233).
- AtomValue (OldParenReader.AtomValue): the same for 1.2.3's reader
  (src/paren.java:86-91).
- `src/parenj.java` and `src/paren/parenj.java` (the command-line entry
  points) are not part of this model.
