/** The "last number chunk" of the calculator's display text: the run of
    digits and decimal points at the end of the text, together with a
    directly preceding '-' when that '-' reads as a unary sign.  This module
    gives the reference definition (ChunkStart) and a declarative
    characterisation (IsLastNumber) and proves that they agree. */
module Chunk {

  /** `str.isdigit` on the characters the display can hold. */
  predicate IsDigit(c: char) {
    '0' <= c <= '9'
  }

  /** A character that belongs to a number: a digit or a decimal point. */
  predicate IsNumChar(c: char) {
    IsDigit(c) || c == '.'
  }

  /** The characters after which a '-' is a sign and not a subtraction. */
  predicate IsSignContext(c: char) {
    c in "+-*/("
  }

  predicate AllNumChars(s: string) {
    forall i :: 0 <= i < |s| ==> IsNumChar(s[i])
  }

  /** There is a '-' at index j of txt that is a unary sign: it is the first
      character, or it follows an operator or an opening parenthesis. */
  predicate UnaryAt(txt: string, j: int) {
    0 <= j < |txt| && txt[j] == '-' && (j == 0 || IsSignContext(txt[j - 1]))
  }

  /** The number chunk without its sign. */
  function Magnitude(chunk: string): (m: string)
    ensures chunk == m || chunk == "-" + m
    ensures chunk == "-" + m <==> (|chunk| > 0 && chunk[0] == '-')
  {
    if |chunk| > 0 && chunk[0] == '-' then chunk[1..] else chunk
  }

  /** Start of the maximal run of digits and decimal points that ends just
      before index n. */
  function RunStart(txt: string, n: nat): (r: nat)
    requires n <= |txt|
    ensures r <= n
    ensures AllNumChars(txt[r..n])
    ensures r == 0 || !IsNumChar(txt[r - 1])
  {
    if n > 0 && IsNumChar(txt[n - 1]) then
      var r := RunStart(txt, n - 1);
      assert txt[r..n] == txt[r..n - 1] + [txt[n - 1]];
      r
    else
      n
  }

  /** What the last number of txt looks like, stated without reference to
      how it is found: s is its start, the text from s on is an optional
      unary '-' followed by digits and points only, the run of digits and
      points cannot be extended to the left, and the '-' before s, if any,
      is not a unary sign. */
  ghost predicate IsLastNumber(txt: string, s: int) {
    0 <= s <= |txt| &&
    var r := if s < |txt| && txt[s] == '-' then s + 1 else s;
    AllNumChars(txt[r..]) &&
    (r == 0 || !IsNumChar(txt[r - 1])) &&
    (r == s + 1 ==> UnaryAt(txt, s)) &&
    (r == s && s > 0 ==> !UnaryAt(txt, s - 1))
  }

  /** Reference definition of where the last number chunk starts. */
  function ChunkStart(txt: string): (s: nat)
    ensures s <= |txt|
    ensures IsLastNumber(txt, s)
  {
    var r := RunStart(txt, |txt|);
    assert txt[r..|txt|] == txt[r..];
    if r > 0 && UnaryAt(txt, r - 1) then r - 1 else r
  }

  /** The last number chunk itself. */
  function LastChunk(txt: string): (c: string)
    ensures |c| <= |txt| && c == txt[|txt| - |c|..]
    ensures AllNumChars(Magnitude(c))
    ensures |c| > 0 && c[0] == '-' ==> UnaryAt(txt, |txt| - |c|)
  {
    txt[ChunkStart(txt)..]
  }

  /** The last chunk starts the text, or follows an operator or an opening
      parenthesis that is not itself a unary sign. */
  predicate OperandSeparated(txt: string) {
    var st := ChunkStart(txt);
    st == 0 || (IsSignContext(txt[st - 1]) && !UnaryAt(txt, st - 1))
  }

  /** Number of decimal points in s. */
  function DotCount(s: string): nat {
    multiset(s)['.']
  }

  /** The run start is the only index that begins a run of number
      characters ending at n and not extendable to the left. */
  lemma {:induction false} RunStartUnique(txt: string, n: nat, r: nat)
    requires r <= n <= |txt|
    requires AllNumChars(txt[r..n])
    requires r == 0 || !IsNumChar(txt[r - 1])
    ensures r == RunStart(txt, n)
  {
    if n > 0 && IsNumChar(txt[n - 1]) {
      if r == n {
        assert false;
      } else {
        assert txt[r..n - 1] == txt[r..n][..n - 1 - r];
        RunStartUnique(txt, n - 1, r);
      }
    }
  }

  /** ChunkStart is the one and only start satisfying IsLastNumber. */
  lemma LastNumberUnique(txt: string, s: int)
    ensures IsLastNumber(txt, s) <==> s == ChunkStart(txt)
  {
    if IsLastNumber(txt, s) {
      var r := if s < |txt| && txt[s] == '-' then s + 1 else s;
      RunStartUnique(txt, |txt|, r);
    }
  }

  /** Appending a digit or a point extends the last chunk by that
      character and leaves its start where it was. */
  lemma AppendNumChar(txt: string, c: char)
    requires IsNumChar(c)
    ensures ChunkStart(txt + [c]) == ChunkStart(txt)
    ensures LastChunk(txt + [c]) == LastChunk(txt) + [c]
  {
    var t := txt + [c];
    var st: int := ChunkStart(txt);
    var r := if st < |txt| && txt[st] == '-' then st + 1 else st;
    assert t[r..] == txt[r..] + [c];
    assert t[st..] == txt[st..] + [c];
    assert st > 0 ==> UnaryAt(t, st - 1) == UnaryAt(txt, st - 1);
    assert IsLastNumber(t, st);
    LastNumberUnique(t, st);
  }

  /** Removing the sign of a separated, signed last number leaves its
      digits as the new last number, starting where the sign was. */
  lemma DropSign(txt: string)
    requires OperandSeparated(txt)
    requires var c := LastChunk(txt); |c| > 1 && c[0] == '-'
    ensures var st := ChunkStart(txt);
      ChunkStart(txt[..st] + txt[st + 1..]) == st
  {
    var st := ChunkStart(txt);
    DropSignAt(txt, st);
    LastNumberUnique(txt[..st] + txt[st + 1..], st);
  }

  lemma DropSignAt(txt: string, st: nat)
    requires IsLastNumber(txt, st)
    requires st + 1 < |txt| && txt[st] == '-'
    requires st == 0 || (IsSignContext(txt[st - 1]) && !UnaryAt(txt, st - 1))
    ensures IsLastNumber(txt[..st] + txt[st + 1..], st)
  {
    var u := txt[..st] + txt[st + 1..];
    assert AllNumChars(txt[st + 1..]);
    assert u[st..] == txt[st + 1..];
    assert IsNumChar(u[st]) && u[st] != '-';
    assert forall k :: 0 <= k < st ==> u[k] == txt[k];
    assert st > 0 ==> IsSignContext(u[st - 1]) && !UnaryAt(u, st - 1);
  }

  /** Prefixing a separated, unsigned last number with '-' makes the sign
      part of the new last number. */
  lemma AddSign(txt: string)
    requires OperandSeparated(txt)
    requires var c := LastChunk(txt); |c| > 0 && c[0] != '-'
    ensures var st := ChunkStart(txt);
      ChunkStart(txt[..st] + ("-" + txt[st..])) == st
  {
    var st := ChunkStart(txt);
    AddSignAt(txt, st);
    LastNumberUnique(txt[..st] + ("-" + txt[st..]), st);
  }

  lemma AddSignAt(txt: string, st: nat)
    requires IsLastNumber(txt, st)
    requires st < |txt| && txt[st] != '-'
    requires st == 0 || IsSignContext(txt[st - 1])
    ensures IsLastNumber(txt[..st] + ("-" + txt[st..]), st)
  {
    var u := txt[..st] + ("-" + txt[st..]);
    assert u[st + 1..] == txt[st..];
    assert u[st] == '-';
    assert st > 0 ==> u[st - 1] == txt[st - 1];
    assert UnaryAt(u, st);
  }
}
