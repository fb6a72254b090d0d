/** The calculator screen: the display text and the flag that records
    whether that text is a freshly shown result.  Every button handler
    updates the two fields in place and is proved to do exactly what the
    matching function of module Editing describes. */
module Calculator {
  import opened Chunk
  import opened Editing

  class CalculatorUI {
    /** The text of the display. */
    var text: string
    /** Whether the display shows a result, so that the next digit starts fresh. */
    var justEvaluated: bool

    /** The screen as a value of the editing model. */
    function Snapshot(): State
      reads this
    {
      State(text, justEvaluated)
    }

    constructor ()
      ensures Snapshot() == Initial
    {
      text := "0";
      justEvaluated := false;
    }

    method Clear()
      modifies this
      ensures Snapshot() == Editing.Clear(old(Snapshot()))
    {
      text := "0";
      justEvaluated := false;
    }

    method Backspace()
      modifies this
      ensures Snapshot() == Editing.Backspace(old(Snapshot()))
    {
      if justEvaluated {
        text := "0";
        justEvaluated := false;
        return;
      }
      var txt := text;
      txt := if |txt| > 1 then txt[..|txt| - 1] else "0";
      // keep "0" as the baseline
      if txt in {"", "-", "-0"} {
        txt := "0";
      }
      text := txt;
    }

    method AddDigit(digit: char)
      requires IsDigit(digit)
      modifies this
      ensures Snapshot() == Editing.AddDigit(old(Snapshot()), digit)
    {
      var txt := text;
      if justEvaluated {
        text := [digit];
        justEvaluated := false;
        return;
      }
      if txt == "0" {
        text := [digit];
      } else {
        text := txt + [digit];
      }
    }

    method AddDecimal()
      modifies this
      ensures Snapshot() == Editing.AddDecimal(old(Snapshot()))
    {
      var txt := text;
      if justEvaluated {
        text := "0.";
        justEvaluated := false;
        return;
      }
      // one decimal point per number
      var lastChunk := LastNumberChunk(txt);
      if '.' !in lastChunk {
        text := txt + ".";
      }
    }

    method AddOp(op: char)
      requires IsOperator(op)
      modifies this
      ensures Snapshot() == Editing.AddOp(old(Snapshot()), op)
    {
      var txt := text;
      if txt == "0" && op in "*/+" {
        // "0+" may be typed, a leading "*" or "/" may not
        if op in "*/" {
          return;
        }
      }
      if justEvaluated {
        justEvaluated := false;
      }
      // a repeated operator key replaces the trailing operator
      if |txt| > 0 && txt[|txt| - 1] in "+-*/" {
        text := txt[..|txt| - 1] + [op];
      } else {
        text := txt + [op];
      }
    }

    method ToggleSign()
      modifies this
      ensures Snapshot() == Editing.ToggleSign(old(Snapshot()))
    {
      var txt := text;
      if justEvaluated {
        justEvaluated := false;
      }
      var start, end, chunk := LastNumberChunkRange(txt);
      assert txt[end..] == "" && chunk == LastChunk(txt);
      if chunk == "" || chunk == "0" {
        return;
      }
      var newChunk := if chunk[0] == '-' then chunk[1..] else "-" + chunk;
      text := txt[..start] + newChunk + txt[end..];
    }

    /** `scale` converts a number chunk to a float, divides it by 100 and
        formats it; None stands for the chunk not being a float literal. */
    method Percent(scale: string -> Option<string>)
      modifies this
      ensures Snapshot() == Editing.Percent(old(Snapshot()), scale)
    {
      var txt := text;
      if justEvaluated {
        justEvaluated := false;
      }
      var start, end, chunk := LastNumberChunkRange(txt);
      assert chunk == LastChunk(txt);
      if chunk in {"", "-", ".", "-."} {
        return;
      }
      var scaled := scale(chunk);
      match scaled {
        case Some(newChunk) =>
          text := txt[..start] + newChunk + txt[end..];
        case None =>
      }
    }

    /** `eval` evaluates an expression and formats its value; None stands
        for the evaluation raising an exception. */
    method Evaluate(eval: string -> Option<string>)
      modifies this
      ensures Snapshot() == Editing.Evaluate(old(Snapshot()), eval)
    {
      var expr := text;
      // never evaluate a trailing operator
      if |expr| > 0 && expr[|expr| - 1] in "+-*/" {
        expr := expr[..|expr| - 1];
      }
      assert expr == DropTrailingOperator(old(text));
      if exists i :: 0 <= i < |expr| && expr[i] !in "0123456789+-*/.() " {
        assert !AllAllowed(expr);
        text := "Error";
        justEvaluated := true;
        return;
      }
      assert AllAllowed(expr);
      var result := eval(expr);
      match result {
        case Some(shown) =>
          text := shown;
        case None =>
          text := "Error";
      }
      justEvaluated := true;
    }

    /** The last number chunk of txt. */
    method LastNumberChunk(txt: string) returns (chunk: string)
      ensures chunk == LastChunk(txt)
    {
      var _, _, c := LastNumberChunkRange(txt);
      chunk := c;
    }

    /** Where the last number of txt starts and ends, and its text: a scan
        from the right over digits and points, then over a '-' that is a
        sign. */
    method LastNumberChunkRange(txt: string) returns (start: nat, end: nat, chunk: string)
      ensures start <= end == |txt|
      ensures chunk == txt[start..end]
      ensures start == ChunkStart(txt)
    {
      if |txt| == 0 {
        return 0, 0, "";
      }
      var i := |txt| - 1;
      // move left over digits and decimal points
      while i >= 0 && (IsDigit(txt[i]) || txt[i] == '.')
        invariant -1 <= i < |txt|
        invariant RunStart(txt, i + 1) == RunStart(txt, |txt|)
      {
        i := i - 1;
      }
      // a '-' at the start or after an operator is the number's sign
      if i >= 0 && txt[i] == '-' {
        if i == 0 || txt[i - 1] in "+-*/(" {
          i := i - 1;
        }
      }
      start := i + 1;
      end := |txt|;
      chunk := txt[start..end];
    }
  }
}
