/** Writing a statement of the program as text, and why wrapping it over lines changes nothing. */
module LpText {
  import opened Sums
  import opened LinearExpr

  const MAX_LINE_LEN := 200

  // ---- words: what a reader that skips blanks and newlines sees ----

  predicate IsBlank(c: char) {
    c == ' ' || c == '\n'
  }

  predicate IsWord(w: string) {
    w != "" && forall i :: 0 <= i < |w| ==> !IsBlank(w[i])
  }

  /** One more character: a blank ends a word, anything else starts one or extends the last. */
  function AddChar(words: seq<string>, c: char, glued: bool): seq<string> {
    if IsBlank(c) then words
    else if !glued || words == [] then words + [[c]]
    else words[..|words| - 1] + [words[|words| - 1] + [c]]
  }

  predicate EndsInWord(s: string) {
    s != "" && !IsBlank(s[|s| - 1])
  }

  function Words(s: string): (words: seq<string>)
    ensures EndsInWord(s) ==> words != []
  {
    if s == "" then [] else
    var init := s[..|s| - 1];
    AddChar(Words(init), s[|s| - 1], EndsInWord(init))
  }

  lemma WordsSnoc(s: string, c: char)
    ensures Words(s + [c]) == AddChar(Words(s), c, EndsInWord(s))
  {
    assert (s + [c])[..|s|] == s;
  }

  /** Between two texts a blank, or nothing on one side. */
  predicate Separated(a: string, b: string) {
    a == "" || b == "" || IsBlank(a[|a| - 1]) || IsBlank(b[0])
  }

  lemma {:induction false} WordsAppend(a: string, b: string)
    requires Separated(a, b)
    ensures Words(a + b) == Words(a) + Words(b)
    decreases |b|
  {
    hide Words;
    if b == "" {
      assert a + b == a;
      NoWords();
    } else {
      var init, c := b[..|b| - 1], b[|b| - 1];
      WordsAppend(a, init);
      WordsSnoc(init, c);
      WordsSnoc(a + init, c);
      assert init + [c] == b && a + init + [c] == a + b;
      NoWords();
      if init == "" {
        assert a + init == a;
      } else {
        assert EndsInWord(a + init) == EndsInWord(init);
      }
    }
  }

  lemma NoWords()
    ensures Words("") == []
  { }

  lemma {:induction false} WordIsOneWord(w: string)
    requires IsWord(w)
    ensures Words(w) == [w]
  {
    var init := w[..|w| - 1];
    if init == "" {
      assert w == [w[0]];
    } else {
      WordIsOneWord(init);
      assert w == init + [w[|w| - 1]];
    }
  }

  /** A blank, then a word. */
  lemma SpacedWord(a: string, w: string)
    requires IsWord(w)
    ensures Words(a + " " + w) == Words(a) + [w]
  {
    hide Words;
    WordsSnoc(a, ' ');
    assert a + [' '] == a + " ";
    WordsAppend(a + " ", w);
    WordIsOneWord(w);
  }

  lemma TwoWords(v: string, w: string)
    requires IsWord(v) && IsWord(w)
    ensures Words(" " + v + " " + w) == [v, w]
  {
    hide Words;
    NoWords();
    SpacedWord("", v);
    SpacedWord(" " + v, w);
    assert "" + " " + v == " " + v;
  }

  lemma ThreeWords(u: string, v: string, w: string)
    requires IsWord(u) && IsWord(v) && IsWord(w)
    ensures Words(" " + u + " " + v + " " + w) == [u, v, w]
  {
    hide Words;
    TwoWords(u, v);
    SpacedWord(" " + u + " " + v, w);
  }

  // ---- chunks ----

  /** How coefficients and columns are spelled. Numerals are opaque. */
  datatype Spelling = Spelling(numeral: real -> string, name: Column -> string)

  /** Numerals of non-negative coefficients are words without a sign, and names are words. */
  ghost predicate Readable(sp: Spelling) {
    && (forall c :: c >= 0.0 ==> IsWord(sp.numeral(c)) && sp.numeral(c)[0] !in {'-', '+'})
    && forall v :: IsWord(sp.name(v))
  }

  function Magnitude(c: real): real {
    if c < 0.0 then -c else c
  }

  function Chunk(sp: Spelling, t: Term, first: bool): string {
    if first && t.coef < 0.0 then " -" + sp.numeral(-t.coef) + " " + sp.name(t.column)
    else if first then " " + sp.numeral(t.coef) + " " + sp.name(t.column)
    else if t.coef < 0.0 then " - " + sp.numeral(-t.coef) + " " + sp.name(t.column)
    else " + " + sp.numeral(t.coef) + " " + sp.name(t.column)
  }

  ghost function ChunkWords(sp: Spelling, t: Term, first: bool): seq<string> {
    var n := sp.numeral(Magnitude(t.coef));
    if first then [(if t.coef < 0.0 then "-" else "") + n, sp.name(t.column)]
    else [if t.coef < 0.0 then "-" else "+", n, sp.name(t.column)]
  }

  ghost function TermWords(sp: Spelling, terms: seq<Term>, first: bool): seq<string> {
    if terms == [] then [] else ChunkWords(sp, terms[0], first) + TermWords(sp, terms[1..], false)
  }

  lemma {:induction false} TermWordsSnoc(sp: Spelling, terms: seq<Term>, t: Term, first: bool)
    ensures TermWords(sp, terms + [t], first) == TermWords(sp, terms, first) + ChunkWords(sp, t, first && terms == [])
  {
    if terms == [] {
      assert (terms + [t])[1..] == [];
    } else {
      TermWordsSnoc(sp, terms[1..], t, false);
      assert (terms + [t])[1..] == terms[1..] + [t];
    }
  }

  lemma ChunkAppends(sp: Spelling, a: string, t: Term, first: bool)
    requires Readable(sp)
    ensures Words(a + Chunk(sp, t, first)) == Words(a) + ChunkWords(sp, t, first)
  {
    hide Words;
    var n, v := sp.numeral(Magnitude(t.coef)), sp.name(t.column);
    var chunk := Chunk(sp, t, first);
    assert IsWord(n) && IsWord(v);
    WordsAppend(a, chunk);
    if first && t.coef < 0.0 {
      TwoWords("-" + n, v);
      assert chunk == " " + ("-" + n) + " " + v;
    } else if first {
      TwoWords(n, v);
      assert "" + n == n;
    } else if t.coef < 0.0 {
      ThreeWords("-", n, v);
      assert chunk == " " + "-" + " " + n + " " + v;
    } else {
      ThreeWords("+", n, v);
      assert chunk == " " + "+" + " " + n + " " + v;
    }
  }

  // ---- lines ----

  function Joined(lines: seq<string>): string {
    if lines == [] then "" else Joined(lines[..|lines| - 1]) + lines[|lines| - 1] + "\n"
  }

  lemma JoinedSnoc(lines: seq<string>, line: string)
    ensures Joined(lines + [line]) == Joined(lines) + line + "\n"
  {
    assert (lines + [line])[..|lines|] == lines;
  }

  predicate OneLine(s: string) {
    forall i :: 0 <= i < |s| ==> s[i] != '\n'
  }

  class Builder {
    var text: string

    constructor ()
      ensures text == ""
    {
      text := "";
    }

    method WriteString(s: string)
      modifies this
      ensures text == old(text) + s
    {
      text := text + s;
    }
  }

  /** The words of a statement, however it is wrapped. */
  ghost function StatementWords(sp: Spelling, labelText: string, terms: seq<Term>, suffix: string): seq<string> {
    [labelText] + TermWords(sp, terms, true) + Words(suffix)
  }

  /** Lines fit: every line but the last within the limit, the last within the limit plus the suffix. */
  ghost predicate LinesFit(lines: seq<string>, suffix: string) {
    && lines != []
    && (forall k :: 0 <= k < |lines| ==> OneLine(lines[k]))
    && (forall k :: 0 <= k < |lines| - 1 ==> |lines[k]| <= MAX_LINE_LEN)
    && |lines[|lines| - 1]| <= MAX_LINE_LEN + |suffix|
  }

  /** The label and every chunk leave room for the indentation of a continuation line. */
  ghost predicate Short(sp: Spelling, labelText: string, terms: seq<Term>) {
    && 1 + |labelText| <= MAX_LINE_LEN
    && forall i :: 0 <= i < |terms| ==> 3 + |Chunk(sp, terms[i], i == 0)| <= MAX_LINE_LEN
  }

  /** What the loop keeps: the words so far, and lines that fit when everything is short. */
  ghost predicate Written(sp: Spelling, labelText: string, terms: seq<Term>, i: nat, lines: seq<string>, line: string) {
    && i <= |terms|
    && Words(Joined(lines) + line) == [labelText] + TermWords(sp, terms[..i], true)
    && OneLine(line) && (forall k :: 0 <= k < |lines| ==> OneLine(lines[k]))
    && (Short(sp, labelText, terms) ==> |line| <= MAX_LINE_LEN)
    && (Short(sp, labelText, terms) ==> forall k :: 0 <= k < |lines| ==> |lines[k]| <= MAX_LINE_LEN)
  }

  method WriteStatement(sb: Builder, sp: Spelling, labelText: string, terms: seq<Term>, suffix: string)
    returns (ghost lines: seq<string>)
    requires Readable(sp) && IsWord(labelText) && OneLine(suffix) && (suffix == "" || suffix[0] == ' ')
    modifies sb
    ensures lines != [] && sb.text == old(sb.text) + Joined(lines)
    ensures Words(Joined(lines)) == StatementWords(sp, labelText, terms, suffix)
    ensures Short(sp, labelText, terms) ==> LinesFit(lines, suffix)
  {
    hide Words, TermWords, ChunkWords, Chunk, Written, Joined;
    lines := [];
    var line := " " + labelText;
    StartsWritten(sp, labelText, terms);
    assert Joined([]) == "" by { NothingJoined(); }
    for i := 0 to |terms|
      invariant sb.text == old(sb.text) + Joined(lines)
      invariant Written(sp, labelText, terms, i, lines, line)
    {
      var chunk := Chunk(sp, terms[i], i == 0);
      ghost var before := lines;
      StepKeepsWritten(sp, labelText, terms, i, lines, line);
      if |line| + |chunk| > MAX_LINE_LEN {
        sb.WriteString(line + "\n");
        JoinedSnoc(lines, line);
        assert old(sb.text) + Joined(lines) + (line + "\n") == old(sb.text) + (Joined(lines) + line + "\n");
        lines := lines + [line];
        line := "   ";
      }
      line := line + chunk;
    }
    sb.WriteString(line + suffix + "\n");
    JoinedSnoc(lines, line + suffix);
    assert old(sb.text) + Joined(lines) + (line + suffix + "\n")
      == old(sb.text) + (Joined(lines) + (line + suffix) + "\n");
    EndsWritten(sp, labelText, terms, lines, line, suffix);
    lines := lines + [line + suffix];
  }

  lemma NothingJoined()
    ensures Joined([]) == ""
  { }

  lemma StartsWritten(sp: Spelling, labelText: string, terms: seq<Term>)
    requires IsWord(labelText)
    ensures Written(sp, labelText, terms, 0, [], " " + labelText)
  {
    hide Words;
    SpacedWord("", labelText);
    NoWords();
    assert "" + " " + labelText == Joined([]) + (" " + labelText);
    assert terms[..0] == [];
  }

  lemma StepKeepsWritten(sp: Spelling, labelText: string, terms: seq<Term>, i: nat, lines: seq<string>, line: string)
    requires Readable(sp) && i < |terms| && Written(sp, labelText, terms, i, lines, line)
    ensures var chunk := Chunk(sp, terms[i], i == 0);
      if |line| + |chunk| > MAX_LINE_LEN
      then Written(sp, labelText, terms, i + 1, lines + [line], "   " + chunk)
      else Written(sp, labelText, terms, i + 1, lines, line + chunk)
  {
    hide Words, TermWords, ChunkWords, Chunk, Joined, Readable;
    var chunk := Chunk(sp, terms[i], i == 0);
    ChunkIsOneLine(sp, terms[i], i == 0);
    TermWordsSnoc(sp, terms[..i], terms[i], true);
    assert terms[..i + 1] == terms[..i] + [terms[i]];
    var text := Joined(lines) + line;
    if |line| + |chunk| > MAX_LINE_LEN {
      JoinedSnoc(lines, line);
      Wraps(text);
      ChunkAppends(sp, text + "\n   ", terms[i], i == 0);
      assert Joined(lines + [line]) + ("   " + chunk) == text + "\n   " + chunk;
    } else {
      ChunkAppends(sp, text, terms[i], i == 0);
      assert Joined(lines) + (line + chunk) == text + chunk;
    }
  }

  lemma EndsWritten(sp: Spelling, labelText: string, terms: seq<Term>, lines: seq<string>, line: string, suffix: string)
    requires OneLine(suffix) && (suffix == "" || suffix[0] == ' ')
    requires Written(sp, labelText, terms, |terms|, lines, line)
    ensures Words(Joined(lines + [line + suffix])) == StatementWords(sp, labelText, terms, suffix)
    ensures Short(sp, labelText, terms) ==> LinesFit(lines + [line + suffix], suffix)
  {
    hide Words, TermWords, Chunk, Joined;
    assert terms[..|terms|] == terms;
    JoinedSnoc(lines, line + suffix);
    Closes(Joined(lines) + line, suffix);
    assert Joined(lines + [line + suffix]) == Joined(lines) + line + suffix + "\n";
  }

  /** Breaking the line adds no word and splits none, because what follows starts with a blank. */
  lemma Wraps(a: string)
    ensures Words(a + "\n   ") == Words(a)
  {
    WordsAppend(a, "\n   ");
    NoWords();
    assert "\n   "[..3] == "\n  " && "\n  "[..2] == "\n " && "\n "[..1] == "\n" && "\n"[..0] == "";
  }

  lemma Closes(a: string, suffix: string)
    requires suffix == "" || suffix[0] == ' '
    ensures Words(a + suffix + "\n") == Words(a) + Words(suffix)
  {
    WordsAppend(a, suffix);
    assert (a + suffix + "\n")[..|a + suffix|] == a + suffix;
  }

  lemma ChunkIsOneLine(sp: Spelling, t: Term, first: bool)
    requires Readable(sp)
    ensures OneLine(Chunk(sp, t, first))
  {
    var n, v := sp.numeral(Magnitude(t.coef)), sp.name(t.column);
    assert IsWord(n) && IsWord(v);
    assert OneLine(n) && OneLine(v);
  }

  // ---- reading a statement back ----

  datatype ReadTerm = ReadTerm(negative: bool, numeral: string, name: string)

  /** A linear expression as a reader takes it in: signs apart or glued to the first numeral. */
  function ReadTerms(words: seq<string>): seq<ReadTerm> {
    if |words| >= 3 && words[0] in {"+", "-"} then
      [ReadTerm(words[0] == "-", words[1], words[2])] + ReadTerms(words[3..])
    else if |words| >= 2 then
      var glued := words[0] != "" && words[0][0] == '-';
      [ReadTerm(glued, if glued then words[0][1..] else words[0], words[1])] + ReadTerms(words[2..])
    else []
  }

  ghost function Signed(sp: Spelling, t: Term): ReadTerm {
    ReadTerm(t.coef < 0.0, sp.numeral(Magnitude(t.coef)), sp.name(t.column))
  }

  ghost function AllSigned(sp: Spelling, terms: seq<Term>): seq<ReadTerm> {
    if terms == [] then [] else [Signed(sp, terms[0])] + AllSigned(sp, terms[1..])
  }

  lemma {:induction false} ReadBack(sp: Spelling, terms: seq<Term>, first: bool)
    requires Readable(sp)
    ensures ReadTerms(TermWords(sp, terms, first)) == AllSigned(sp, terms)
  {
    if terms != [] {
      ReadBack(sp, terms[1..], false);
      var t, rest := terms[0], TermWords(sp, terms[1..], false);
      var n := sp.numeral(Magnitude(t.coef));
      assert IsWord(n) && n[0] !in {'-', '+'};
      if first {
        FirstReads(sp, t, rest);
      } else {
        assert (ChunkWords(sp, t, false) + rest)[3..] == rest;
      }
    }
  }

  lemma FirstReads(sp: Spelling, t: Term, rest: seq<string>)
    requires Readable(sp)
    ensures ReadTerms(ChunkWords(sp, t, true) + rest) == [Signed(sp, t)] + ReadTerms(rest)
  {
    var n := sp.numeral(Magnitude(t.coef));
    assert IsWord(n) && n[0] !in {'-', '+'};
    var words := ChunkWords(sp, t, true) + rest;
    assert words[2..] == rest;
    assert words[0] == (if t.coef < 0.0 then "-" else "") + n;
    assert words[0] !in {"+", "-"};
    assert words[0][0] == '-' <==> t.coef < 0.0;
    assert t.coef < 0.0 ==> words[0][1..] == n;
    assert !(t.coef < 0.0) ==> words[0] == n;
  }

  /** The value of what was read, given what numerals and names stand for. */
  ghost function ReadValue(read: seq<ReadTerm>, number: string -> real, column: string -> real): real {
    if read == [] then 0.0 else
    var c := number(read[0].numeral);
    Times(if read[0].negative then -c else c, column(read[0].name)) + ReadValue(read[1..], number, column)
  }

  /** The numerals written for these terms denote their coefficients, and the names their columns' values.
      Nothing is asked of numbers and columns that were not written. */
  ghost predicate NamesStandFor(sp: Spelling, terms: seq<Term>, number: string -> real, column: string -> real,
      a: Point) {
    forall t :: t in terms ==>
      number(sp.numeral(Magnitude(t.coef))) == Magnitude(t.coef) && column(sp.name(t.column)) == a(t.column)
  }

  lemma {:induction false} ReadMeansWritten(sp: Spelling, terms: seq<Term>, number: string -> real,
      column: string -> real, a: Point)
    requires NamesStandFor(sp, terms, number, column, a)
    ensures ReadValue(AllSigned(sp, terms), number, column) == Value(terms, a)
  {
    if terms != [] {
      var t := terms[0];
      ReadMeansWritten(sp, terms[1..], number, column, a);
      SeqSumAppend([t], terms[1..], TermValue(a));
      assert [t] + terms[1..] == terms;
      SeqSumSnoc([], t, TermValue(a));
      assert [] + [t] == [t];
      assert AllSigned(sp, terms)[1..] == AllSigned(sp, terms[1..]);
    }
  }

  /** What a reader makes of the written terms is the linear form they were. */
  lemma WrittenMeansValue(sp: Spelling, terms: seq<Term>, number: string -> real, column: string -> real, a: Point)
    requires Readable(sp)
    requires NamesStandFor(sp, terms, number, column, a)
    ensures ReadValue(ReadTerms(TermWords(sp, terms, true)), number, column) == Value(terms, a)
  {
    ReadBack(sp, terms, true);
    ReadMeansWritten(sp, terms, number, column, a);
  }

  // ---- column names ----

  function Digit(d: nat): char
    requires d < 10
  {
    '0' + d as char
  }

  function Decimal(n: nat): (s: string)
    ensures IsWord(s) && '_' !in s
  {
    if n < 10 then [Digit(n)] else Decimal(n / 10) + [Digit(n % 10)]
  }

  function ColumnName(v: Column): (s: string)
    ensures IsWord(s)
  {
    match v
    case X(b, f) => "x_" + Decimal(b) + "_" + Decimal(f)
    case C(e) => "c_" + Decimal(e)
    case M(b) => "m_" + Decimal(b)
    case Y(b, f) => "y_" + Decimal(b) + "_" + Decimal(f)
  }

  lemma {:induction false} DecimalInjective(m: nat, n: nat)
    ensures Decimal(m) == Decimal(n) ==> m == n
  {
    if m >= 10 && n >= 10 && Decimal(m) == Decimal(n) {
      assert Decimal(m)[..|Decimal(m)| - 1] == Decimal(m / 10);
      assert Decimal(n)[..|Decimal(n)| - 1] == Decimal(n / 10);
      assert Decimal(m)[|Decimal(m)| - 1] == Decimal(n)[|Decimal(n)| - 1];
      DecimalInjective(m / 10, n / 10);
    }
  }

  lemma SplitAtUnderscore(a: string, b: string, a': string, b': string)
    requires '_' !in a && '_' !in a' && a + "_" + b == a' + "_" + b'
    ensures a == a' && b == b'
  {
    var s := a + "_" + b;
    assert s[|a|] == '_' && s[|a'|] == '_';
    assert forall i :: 0 <= i < |a| ==> s[i] == a[i];
    assert forall i :: 0 <= i < |a'| ==> s[i] == a'[i];
    assert |a| == |a'|;
    assert a == s[..|a|] && a' == s[..|a|];
    assert b == s[|a| + 1..] && b' == s[|a| + 1..];
  }

  lemma PairNamesDistinct(b: nat, f: nat, b': nat, f': nat)
    ensures Decimal(b) + "_" + Decimal(f) == Decimal(b') + "_" + Decimal(f') ==> b == b' && f == f'
  {
    hide Decimal;
    if Decimal(b) + "_" + Decimal(f) == Decimal(b') + "_" + Decimal(f') {
      SplitAtUnderscore(Decimal(b), Decimal(f), Decimal(b'), Decimal(f'));
      DecimalInjective(b, b');
      DecimalInjective(f, f');
    }
  }

  /** What follows the letter and the underscore. */
  function Indices(v: Column): string {
    match v
    case X(b, f) => Decimal(b) + "_" + Decimal(f)
    case C(e) => Decimal(e)
    case M(b) => Decimal(b)
    case Y(b, f) => Decimal(b) + "_" + Decimal(f)
  }

  function Letter(v: Column): string {
    match v case X(_, _) => "x_" case C(_) => "c_" case M(_) => "m_" case Y(_, _) => "y_"
  }

  lemma NameIsLetterAndIndices(v: Column)
    ensures ColumnName(v) == Letter(v) + Indices(v)
    ensures ColumnName(v)[2..] == Indices(v) && ColumnName(v)[..2] == Letter(v)
  {
    hide Decimal;
    match v {
      case X(b, f) => assert "x_" + Decimal(b) + "_" + Decimal(f) == "x_" + (Decimal(b) + "_" + Decimal(f));
      case Y(b, f) => assert "y_" + Decimal(b) + "_" + Decimal(f) == "y_" + (Decimal(b) + "_" + Decimal(f));
      case C(e) =>
      case M(b) =>
    }
  }

  /** No two columns share a name, so the solver's report can be read back by name. */
  lemma ColumnNamesDistinct(v: Column, w: Column)
    ensures ColumnName(v) == ColumnName(w) ==> v == w
  {
    hide ColumnName, Decimal;
    NameIsLetterAndIndices(v);
    NameIsLetterAndIndices(w);
    if ColumnName(v) == ColumnName(w) {
      assert Letter(v)[0] == Letter(w)[0];
      match v {
        case X(b, f) => PairNamesDistinct(b, f, w.b, w.f);
        case Y(b, f) => PairNamesDistinct(b, f, w.b, w.f);
        case C(e) => DecimalInjective(e, w.e);
        case M(b) => DecimalInjective(b, w.b);
      }
    }
  }

  // ---- what the digits and the limit are ----

  function ReadDecimal(s: string): int {
    if s == "" then 0 else 10 * ReadDecimal(s[..|s| - 1]) + (s[|s| - 1] as int - '0' as int)
  }

  /** An index is written in decimal: read back digit by digit it is the number it was. */
  lemma {:induction false} DecimalReadsBack(n: nat)
    ensures ReadDecimal(Decimal(n)) == n
  {
    if n >= 10 {
      DecimalReadsBack(n / 10);
      assert Decimal(n)[..|Decimal(n)| - 1] == Decimal(n / 10);
    } else {
      assert Decimal(n)[..0] == "";
    }
  }

  /** Placement columns are `x_`, root and function; cut columns `c_` and the edge: what the solver's
      report is searched for. */
  lemma ReportedNames(b: nat, f: nat, e: nat)
    ensures ColumnName(X(b, f)) == "x_" + Decimal(b) + "_" + Decimal(f) && ColumnName(C(e)) == "c_" + Decimal(e)
    ensures forall v: Column :: ColumnName(v)[..2] == "x_" <==> v.X?
    ensures forall v: Column :: ColumnName(v)[..2] == "c_" <==> v.C?
  {
    hide Decimal;
    NameIsLetterAndIndices(X(b, f));
    NameIsLetterAndIndices(C(e));
    assert "x_" + Decimal(b) + "_" + Decimal(f) == "x_" + (Decimal(b) + "_" + Decimal(f));
    forall v: Column ensures ColumnName(v)[..2] == Letter(v) && Letter(v)[0] in {'x', 'c', 'm', 'y'} {
      NameIsLetterAndIndices(v);
    }
    assert "x_"[0] != "c_"[0] && "x_"[0] != "m_"[0] && "x_"[0] != "y_"[0] && "c_"[0] != "m_"[0] && "c_"[0] != "y_"[0];
  }

  /** No line is over 200 characters, but for what the last line's relation and bound add. */
  lemma LinesWithin200(lines: seq<string>, suffix: string, k: nat)
    requires LinesFit(lines, suffix) && k < |lines|
    ensures |lines[k]| <= if k == |lines| - 1 then 200 + |suffix| else 200
  { }
}
