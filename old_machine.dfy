/** The interpreter object of Paren 1.2.3 (class `paren` in src/paren.java):
    it owns the table of globals and runs `eval_all` and `eval_string`. An
    exception abandons the call and leaves the table as it was. */
module OldParenMachine {
  import opened JavaLang
  import opened OldParenReader
  import opened OldParenEval

  class OldInterpreter {
    /** `global_env`. */
    var globals: Globals

    /** `paren()`: `init` binds true, false, E and PI. */
    constructor ()
      ensures globals == InitialGlobals
    {
      globals := InitialGlobals;
    }

    /** `eval_all`: null for no forms, otherwise every form evaluated in
        order and the last one's value. */
    method EvalAll(forms: seq<OVal>, fuel: nat) returns (r: Result<OVal>)
      modifies this
      ensures var f := EvalProgram(old(globals), forms, fuel);
              && (r.Ok? <==> f.Ok?)
              && (f.Ok? ==> r.value == f.value.value && globals == f.value.globals)
              && (f.Err? ==> globals == old(globals))
    {
      if |forms| == 0 {
        return Ok(ONull);
      }
      var last := |forms| - 1;
      var g := globals;
      var i := 0;
      while i < last
        invariant i <= last
        invariant EvalLast(g, forms, i, fuel) == EvalLast(old(globals), forms, 0, fuel)
        invariant globals == old(globals)
        decreases last - i
      {
        var s := Eval(g, forms[i], fuel);
        if s.Err? {
          return Err(s.fault);
        }
        g := s.value.globals;
        i := i + 1;
      }
      var s := Eval(g, forms[last], fuel);
      if s.Err? {
        return Err(s.fault);
      }
      globals := s.value.globals;
      r := Ok(s.value.value);
    }

    /** `eval_string`: read the forms and evaluate them all. */
    method EvalString(s: string, fuel: nat) returns (r: Result<OVal>)
      modifies this
      ensures var f := OldParenEval.EvalString(old(globals), s, fuel);
              && (r.Ok? <==> f.Ok?)
              && (f.Ok? ==> r.value == f.value.value && globals == f.value.globals)
              && (f.Err? ==> globals == old(globals))
    {
      var forms := OldParse(s);
      if forms.Err? {
        return Err(forms.fault);
      }
      r := EvalAll(forms.value, fuel);
    }
  }
}
