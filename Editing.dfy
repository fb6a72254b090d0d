/** The calculator's input-buffer editor as a state machine over values:
    the display text and the "a result was just shown" flag.  Each function
    is the reference definition of one button handler; the lemmas state
    what the handlers promise about each other. */
module Editing {
  import opened Chunk

  datatype Option<T> = None | Some(value: T)

  /** The display text and whether it currently shows an evaluation result. */
  datatype State = State(text: string, justEvaluated: bool)

  /** The state of a freshly built calculator. */
  const Initial: State := State("0", false)

  /** The four binary operator keys. */
  predicate IsOperator(c: char) {
    c in "+-*/"
  }

  predicate EndsInOperator(t: string) {
    |t| > 0 && IsOperator(t[|t| - 1])
  }

  predicate EndsInTwoOperators(t: string) {
    |t| > 1 && IsOperator(t[|t| - 1]) && IsOperator(t[|t| - 2])
  }

  /** The characters the evaluator accepts. */
  predicate IsAllowed(c: char) {
    c in "0123456789+-*/.() "
  }

  predicate AllAllowed(t: string) {
    forall i :: 0 <= i < |t| ==> IsAllowed(t[i])
  }

  /** The text with one trailing operator, if any, removed. */
  function DropTrailingOperator(t: string): (r: string)
    ensures r <= t
    ensures |t| - 1 <= |r|
    ensures r == t <==> !EndsInOperator(t)
  {
    if EndsInOperator(t) then t[..|t| - 1] else t
  }

  /** The `C` key. */
  function Clear(s: State): (r: State)
    ensures r == Initial
  {
    State("0", false)
  }

  /** The backspace key. */
  function Backspace(s: State): (r: State)
    ensures !r.justEvaluated
    ensures r.text != "" && r.text != "-" && r.text != "-0"
    ensures s.justEvaluated || |s.text| <= 1 ==> r.text == "0"
    ensures r.text == "0" || (!s.justEvaluated && r.text + [s.text[|s.text| - 1]] == s.text)
    ensures !s.justEvaluated && |s.text| > 1 && s.text[..|s.text| - 1] !in {"-", "-0"} ==>
      r.text == s.text[..|s.text| - 1]
  {
    if s.justEvaluated then
      State("0", false)
    else
      var t := if |s.text| > 1 then s.text[..|s.text| - 1] else "0";
      State(if t in {"", "-", "-0"} then "0" else t, s.justEvaluated)
  }

  /** A digit key. */
  function AddDigit(s: State, d: char): (r: State)
    requires IsDigit(d)
    ensures !r.justEvaluated
    ensures r.text == [d] || r.text == s.text + [d]
    ensures r.text == [d] <==> s.justEvaluated || s.text == "0" || s.text == ""
  {
    if s.justEvaluated then
      State([d], false)
    else if s.text == "0" then
      State([d], s.justEvaluated)
    else
      State(s.text + [d], s.justEvaluated)
  }

  /** The decimal point key. */
  function AddDecimal(s: State): (r: State)
    ensures !r.justEvaluated
    ensures s.justEvaluated ==> r.text == "0."
    ensures !s.justEvaluated ==> r.text == s.text || r.text == s.text + "."
    ensures !s.justEvaluated ==> (r.text == s.text + "." <==> '.' !in LastChunk(s.text))
  {
    if s.justEvaluated then
      State("0.", false)
    else if '.' !in LastChunk(s.text) then
      State(s.text + ".", s.justEvaluated)
    else
      s
  }

  /** An operator key. */
  function AddOp(s: State, op: char): (r: State)
    requires IsOperator(op)
    ensures |s.text| <= |r.text| <= |s.text| + 1
    ensures r == s <==> (s.text == "0" && op in "*/") || (EndsInOperator(s.text) && s.text[|s.text| - 1] == op && !s.justEvaluated)
    ensures r != s ==> !r.justEvaluated && r.text == DropTrailingOperator(s.text) + [op]
    ensures EndsInTwoOperators(r.text) ==> EndsInTwoOperators(s.text)
  {
    // "0+" and "0-" may be typed, a leading "*" or "/" may not
    if s.text == "0" && op in "*/" then
      s
    else
      var t := s.text;
      if EndsInOperator(t) then State(t[..|t| - 1] + [op], false) else State(t + [op], false)
  }

  /** The sign key: flips the sign of the last number chunk. */
  function ToggleSign(s: State): (r: State)
    ensures !r.justEvaluated
  {
    var start := ChunkStart(s.text);
    var chunk := s.text[start..];
    if chunk == "" || chunk == "0" then
      State(s.text, false)
    else
      var newChunk := if chunk[0] == '-' then chunk[1..] else "-" + chunk;
      State(s.text[..start] + newChunk, false)
  }

  /** The percent key, up to its numeric part: `scale` stands for converting
      the chunk to a float, dividing it by 100 and formatting the result,
      and is None when the chunk is not a float literal. */
  function Percent(s: State, scale: string -> Option<string>): (r: State)
    ensures !r.justEvaluated
    ensures var st := ChunkStart(s.text);
      r.text == s.text || (scale(s.text[st..]).Some? && r.text == s.text[..st] + scale(s.text[st..]).value)
    ensures LastChunk(s.text) in {"", "-", ".", "-."} ==> r.text == s.text
    ensures scale(LastChunk(s.text)).None? ==> r.text == s.text
    ensures LastChunk(s.text) !in {"", "-", ".", "-."} && scale(LastChunk(s.text)).Some? ==>
      r.text == s.text[..ChunkStart(s.text)] + scale(LastChunk(s.text)).value
  {
    var start := ChunkStart(s.text);
    var chunk := s.text[start..];
    if chunk in {"", "-", ".", "-."} then
      State(s.text, false)
    else
      match scale(chunk)
      case None => State(s.text, false)
      case Some(scaled) => State(s.text[..start] + scaled, false)
  }

  /** The `=` key: `eval` stands for evaluating an expression and formatting
      its value, and is None when the evaluation raises. */
  function Evaluate(s: State, eval: string -> Option<string>): (r: State)
    ensures r.justEvaluated
    ensures var expr := DropTrailingOperator(s.text);
      r.text == "Error" || (AllAllowed(expr) && eval(expr) == Some(r.text))
    ensures !AllAllowed(DropTrailingOperator(s.text)) ==> r.text == "Error"
    ensures var e := DropTrailingOperator(s.text);
      AllAllowed(e) ==> r.text == (if eval(e).Some? then eval(e).value else "Error")
  {
    var expr := DropTrailingOperator(s.text);
    if !AllAllowed(expr) then
      State("Error", true)
    else
      match eval(expr)
      case Some(shown) => State(shown, true)
      case None => State("Error", true)
  }

  /** Backspace undoes a digit, except that it never leaves "", "-" or
      "-0" behind and that a digit typed over a result is not undone. */
  lemma BackspaceUndoesDigit(s: State, d: char)
    requires IsDigit(d)
    ensures Backspace(AddDigit(s, d)) ==
      if s.justEvaluated || s.text in {"", "-", "-0"} then Initial else State(s.text, false)
  {
  }

  /** A digit typed into an expression extends its last number. */
  lemma AddDigitExtendsChunk(s: State, d: char)
    requires IsDigit(d)
    requires !s.justEvaluated && s.text != "0"
    ensures LastChunk(AddDigit(s, d).text) == LastChunk(s.text) + [d]
  {
    AppendNumChar(s.text, d);
  }

  /** After the decimal point key the last number holds a point, and when
      the key changed anything the number holds exactly one. */
  lemma AddDecimalSingleDot(s: State)
    ensures '.' in LastChunk(AddDecimal(s).text)
    ensures AddDecimal(s) != s ==> DotCount(LastChunk(AddDecimal(s).text)) == 1
  {
    if s.justEvaluated {
      assert RunStart("0.", 2) == 0;
      assert LastChunk("0.") == "0.";
    } else if '.' !in LastChunk(s.text) {
      AppendNumChar(s.text, '.');
    }
  }

  /** Pressing the decimal point key twice is the same as pressing it once. */
  lemma AddDecimalIdempotent(s: State)
    ensures AddDecimal(AddDecimal(s)) == AddDecimal(s)
  {
    AddDecimalSingleDot(s);
  }

  /** Pressing the same operator key twice is the same as pressing it once. */
  lemma AddOpIdempotent(s: State, op: char)
    requires IsOperator(op)
    ensures AddOp(AddOp(s, op), op) == AddOp(s, op)
  {
  }

  /** Of two operator keys pressed in a row only the second one counts,
      unless it is a "*" or "/" that the text "0" would have refused. */
  lemma AddOpLastWins(s: State, op1: char, op2: char)
    requires IsOperator(op1) && IsOperator(op2)
    requires !(s.text == "0" && op2 in "*/")
    ensures AddOp(AddOp(s, op1), op2) == AddOp(s, op2)
  {
  }

  /** The sign key changes only the sign of the last number: the text
      before it and its digits stay, and the text changes unless the last
      number is empty or a lone "0". */
  lemma ToggleSignChangesOnlySign(s: State)
    ensures var r := ToggleSign(s); var st := ChunkStart(s.text);
      st <= |r.text| && r.text[..st] == s.text[..st] &&
      Magnitude(r.text[st..]) == Magnitude(s.text[st..])
    ensures ToggleSign(s).text == s.text <==> LastChunk(s.text) in {"", "0"}
  {
  }

  /** Toggling the sign twice restores the text, when the last number has
      digits other than a lone "0" and stands after the start of the text
      or after an operator that is not itself a sign. */
  lemma ToggleSignInvolution(s: State)
    requires Magnitude(LastChunk(s.text)) !in {"", "0"}
    requires OperandSeparated(s.text)
    ensures ToggleSign(ToggleSign(s)) == State(s.text, false)
  {
    var c := LastChunk(s.text);
    if c[0] == '-' {
      ToggleSignedBack(s);
    } else {
      ToggleUnsignedBack(s);
    }
  }

  lemma ToggleSignedBack(s: State)
    requires Magnitude(LastChunk(s.text)) !in {"", "0"}
    requires OperandSeparated(s.text)
    requires LastChunk(s.text)[0] == '-'
    ensures ToggleSign(ToggleSign(s)) == State(s.text, false)
  {
    var t := s.text;
    var st := ChunkStart(t);
    var c := t[st..];
    var u := t[..st] + t[st + 1..];
    assert ToggleSign(s) == State(u, false);
    assert ToggleSign(State(u, false)) == State(t, false) by {
      DropSign(t);
      assert u[st..] == c[1..];
      assert t[..st] + ("-" + c[1..]) == t;
    }
  }

  lemma ToggleUnsignedBack(s: State)
    requires Magnitude(LastChunk(s.text)) !in {"", "0"}
    requires OperandSeparated(s.text)
    requires LastChunk(s.text)[0] != '-'
    ensures ToggleSign(ToggleSign(s)) == State(s.text, false)
  {
    var t := s.text;
    var st := ChunkStart(t);
    var c := t[st..];
    var u := t[..st] + ("-" + c);
    assert ToggleSign(s) == State(u, false);
    assert ToggleSign(State(u, false)) == State(t, false) by {
      AddSign(t);
      assert u[st..] == "-" + c;
      assert u[..st] + c == t;
    }
  }

  /** A result on the display is replaced, not extended, by the next digit
      or decimal point. */
  lemma FreshAfterEvaluate(s: State, eval: string -> Option<string>, d: char)
    requires IsDigit(d)
    ensures AddDigit(Evaluate(s, eval), d) == State([d], false)
    ensures AddDecimal(Evaluate(s, eval)) == State("0.", false)
  {
  }
}
