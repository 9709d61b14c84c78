/** The whole program as text, and what a reader makes of it. */
module LpProgram {
  import opened Sums
  import opened LinearExpr
  import opened Domain
  import opened IlpModel
  import opened IlpBuilder
  import opened LpText

  // ---- spelling ----

  function Stem(n: RowName): string {
    match n
    case Assign(f) => "assign_" + Decimal(f)
    case Root(b, f) => "root_" + Decimal(b) + "_" + Decimal(f)
    case Mem(b, f) => "mem_" + Decimal(b) + "_" + Decimal(f)
    case Tier(b, f) => "tier_" + Decimal(b) + "_" + Decimal(f)
    case CutA(e, b) => "cutA_" + Decimal(e) + "_" + Decimal(b)
    case CutB(e, b) => "cutB_" + Decimal(e) + "_" + Decimal(b)
    case LatencyCap => "latency"
  }

  lemma JoinedWords(a: string, b: string)
    requires IsWord(a) && IsWord(b)
    ensures IsWord(a + b)
  { }

  lemma StemIsWord(n: RowName)
    ensures IsWord(Stem(n))
  {
    hide IsWord, Decimal;
    match n {
      case Assign(f) => Two("assign_", f);
      case Root(b, f) => Four("root_", b, f);
      case Mem(b, f) => Four("mem_", b, f);
      case Tier(b, f) => Four("tier_", b, f);
      case CutA(e, b) => Four("cutA_", e, b);
      case CutB(e, b) => Four("cutB_", e, b);
      case LatencyCap => Letters("latency");
    }
  }

  lemma Letters(s: string)
    requires s in {"assign_", "root_", "mem_", "tier_", "cutA_", "cutB_", "latency", "_", ":"}
    ensures IsWord(s)
  { }

  lemma Two(s: string, f: nat)
    requires s in {"assign_", "root_", "mem_", "tier_", "cutA_", "cutB_"}
    ensures IsWord(s + Decimal(f))
  {
    Letters(s);
    JoinedWords(s, Decimal(f));
  }

  lemma Four(s: string, b: nat, f: nat)
    requires s in {"root_", "mem_", "tier_", "cutA_", "cutB_"}
    ensures IsWord(s + Decimal(b) + "_" + Decimal(f))
  {
    Two(s, b);
    Letters("_");
    JoinedWords(s + Decimal(b), "_");
    JoinedWords(s + Decimal(b) + "_", Decimal(f));
  }

  /** What follows the letters of a row's name. */
  function Numbers(n: RowName): string {
    match n
    case Assign(f) => Decimal(f)
    case Root(b, f) => Decimal(b) + "_" + Decimal(f)
    case Mem(b, f) => Decimal(b) + "_" + Decimal(f)
    case Tier(b, f) => Decimal(b) + "_" + Decimal(f)
    case CutA(e, b) => Decimal(e) + "_" + Decimal(b)
    case CutB(e, b) => Decimal(e) + "_" + Decimal(b)
    case LatencyCap => ""
  }

  function Kind(n: RowName): string {
    match n
    case Assign(_) => "assign_" case Root(_, _) => "root_" case Mem(_, _) => "mem_" case Tier(_, _) => "tier_"
    case CutA(_, _) => "cutA_" case CutB(_, _) => "cutB_" case LatencyCap => "latency"
  }

  lemma StemParts(n: RowName)
    ensures Stem(n) == Kind(n) + Numbers(n)
  {
    hide Decimal;
    match n {
      case Root(b, f) => assert "root_" + Decimal(b) + "_" + Decimal(f) == "root_" + (Decimal(b) + "_" + Decimal(f));
      case Mem(b, f) => assert "mem_" + Decimal(b) + "_" + Decimal(f) == "mem_" + (Decimal(b) + "_" + Decimal(f));
      case Tier(b, f) => assert "tier_" + Decimal(b) + "_" + Decimal(f) == "tier_" + (Decimal(b) + "_" + Decimal(f));
      case CutA(e, b) => assert "cutA_" + Decimal(e) + "_" + Decimal(b) == "cutA_" + (Decimal(e) + "_" + Decimal(b));
      case CutB(e, b) => assert "cutB_" + Decimal(e) + "_" + Decimal(b) == "cutB_" + (Decimal(e) + "_" + Decimal(b));
      case _ =>
    }
  }

  lemma KindsDiffer(n: RowName, m: RowName)
    requires Kind(n) + Numbers(n) == Kind(m) + Numbers(m)
    ensures Kind(n) == Kind(m) && Numbers(n) == Numbers(m)
  {
    hide Numbers;
    var s := Kind(n) + Numbers(n);
    assert s[0] == Kind(n)[0] == Kind(m)[0] && s[3] == KindChar(n) == KindChar(m);
    assert |Kind(n)| == |Kind(m)|;
    assert Kind(n) == s[..|Kind(n)|] && Kind(m) == s[..|Kind(m)|];
    assert Numbers(n) == s[|Kind(n)|..] && Numbers(m) == s[|Kind(m)|..];
  }

  function KindChar(n: RowName): char {
    match n
    case Assign(_) => 'i' case Root(_, _) => 't' case Mem(_, _) => '_' case Tier(_, _) => 'r'
    case CutA(_, _) => 'A' case CutB(_, _) => 'B' case LatencyCap => 'e'
  }

  /** No two rows share a name. */
  lemma RowNamesDistinct(n: RowName, m: RowName)
    ensures Stem(n) == Stem(m) ==> n == m
  {
    hide Stem, Decimal;
    if Stem(n) == Stem(m) {
      StemParts(n);
      StemParts(m);
      KindsDiffer(n, m);
      match n {
        case Assign(f) => DecimalInjective(f, m.f);
        case Root(b, f) => PairNamesDistinct(b, f, m.b, m.f);
        case Mem(b, f) => PairNamesDistinct(b, f, m.b, m.f);
        case Tier(b, f) => PairNamesDistinct(b, f, m.b, m.f);
        case CutA(e, b) => PairNamesDistinct(e, b, m.e, m.b);
        case CutB(e, b) => PairNamesDistinct(e, b, m.e, m.b);
        case LatencyCap =>
      }
    }
  }

  function RowLabel(n: RowName): (s: string)
    ensures IsWord(s) && s[|s| - 1] == ':'
  {
    StemIsWord(n);
    Letters(":");
    JoinedWords(Stem(n), ":");
    Stem(n) + ":"
  }

  function RelationWord(r: Relation): (s: string)
    ensures IsWord(s) && s in RELATIONS
  {
    match r case Equal => "=" case AtMost => "<=" case AtLeast => ">="
  }

  const RELATIONS := {"=", "<=", ">="}
  const STOPS := {"=", "<=", ">=", "Minimize", "Subject", "Binary", "End"}
  const HEADING := ["\\*", "OptiFuse", "fusion", "model", "*\\"]

  /** How right-hand sides are spelled, row by row. */
  type Bounds = Statement -> string

  /** Numerals start with a digit, names are no keywords, right-hand sides are words and no heading. */
  ghost predicate Plain(sp: Spelling, bound: Bounds) {
    && Readable(sp)
    && (forall c :: c >= 0.0 ==> '0' <= sp.numeral(c)[0] <= '9')
    && (forall v :: sp.name(v) !in STOPS)
    && forall row :: IsWord(bound(row)) && bound(row) != "Binary"
  }

  lemma ColumnNamesArePlain(v: Column)
    ensures ColumnName(v) !in STOPS
  {
    hide Decimal;
    NameIsLetterAndIndices(v);
    assert ColumnName(v)[1] == '_';
  }

  function Suffix(bound: Bounds, row: Statement): string {
    " " + RelationWord(row.relation) + " " + bound(row)
  }

  // ---- the words of the text ----

  ghost function RowWords(sp: Spelling, bound: Bounds, row: Statement): seq<string> {
    [RowLabel(row.name)] + TermWords(sp, row.terms, true) + [RelationWord(row.relation), bound(row)]
  }

  ghost function RowsWords(sp: Spelling, bound: Bounds, rows: seq<Statement>): seq<string> {
    if rows == [] then [] else RowWords(sp, bound, rows[0]) + RowsWords(sp, bound, rows[1..])
  }

  ghost function ColumnWords(sp: Spelling, columns: seq<Column>): seq<string> {
    seq(|columns|, i requires 0 <= i < |columns| => sp.name(columns[i]))
  }

  ghost function ProgramWords(sp: Spelling, bound: Bounds, p: Program): seq<string> {
    HEADING + (["Minimize", "obj:"] + (TermWords(sp, p.objective, true) + (["Subject", "To"]
    + (RowsWords(sp, bound, p.rows) + (["Binary"] + (ColumnWords(sp, p.binaries) + ["End"]))))))
  }

  lemma {:induction false} RowsWordsSnoc(sp: Spelling, bound: Bounds, rows: seq<Statement>, row: Statement)
    ensures RowsWords(sp, bound, rows + [row]) == RowsWords(sp, bound, rows) + RowWords(sp, bound, row)
  {
    hide RowWords;
    if rows == [] {
      assert (rows + [row])[1..] == [];
    } else {
      RowsWordsSnoc(sp, bound, rows[1..], row);
      assert (rows + [row])[1..] == rows[1..] + [row];
      Associates(RowWords(sp, bound, rows[0]), RowsWords(sp, bound, rows[1..]), RowWords(sp, bound, row));
    }
  }

  // ---- writing ----

  predicate EndsBlank(s: string) {
    s == "" || IsBlank(s[|s| - 1])
  }

  lemma JoinedEnds(lines: seq<string>)
    requires lines != []
    ensures Joined(lines) != "" && EndsBlank(Joined(lines))
  { }

  lemma LineOfWord(w: string)
    requires IsWord(w)
    ensures Words(w + "\n") == [w] && Words(" " + w + "\n") == [w]
  {
    hide Words;
    WordIsOneWord(w);
    WordsSnoc(w, '\n');
    SpacedWord("", w);
    NoWords();
    assert "" + " " + w == " " + w;
    WordsSnoc(" " + w, '\n');
    assert w + ['\n'] == w + "\n" && " " + w + ['\n'] == " " + w + "\n";
  }

  lemma FixedLines()
    ensures Words("\\* OptiFuse fusion model *\\\n") == HEADING
    ensures Words("Subject To\n") == ["Subject", "To"]
  {
    hide Words;
    WordIsOneWord("\\*");
    SpacedWord("\\*", "OptiFuse");
    SpacedWord("\\* OptiFuse", "fusion");
    SpacedWord("\\* OptiFuse fusion", "model");
    SpacedWord("\\* OptiFuse fusion model", "*\\");
    assert "\\*" + " " + "OptiFuse" == "\\* OptiFuse";
    assert "\\* OptiFuse" + " " + "fusion" == "\\* OptiFuse fusion";
    assert "\\* OptiFuse fusion" + " " + "model" == "\\* OptiFuse fusion model";
    assert "\\* OptiFuse fusion model" + " " + "*\\" == "\\* OptiFuse fusion model *\\";
    WordsSnoc("\\* OptiFuse fusion model *\\", '\n');
    assert "\\* OptiFuse fusion model *\\" + ['\n'] == "\\* OptiFuse fusion model *\\\n";
    WordIsOneWord("Subject");
    SpacedWord("Subject", "To");
    assert "Subject" + " " + "To" == "Subject To";
    WordsSnoc("Subject To", '\n');
    assert "Subject To" + ['\n'] == "Subject To\n";
  }

  /** One more line of text after complete lines adds its words. */
  lemma MoreText(before: string, more: string)
    requires EndsBlank(before) && more != "" && EndsBlank(more)
    ensures Words(before + more) == Words(before) + Words(more) && EndsBlank(before + more)
  {
    WordsAppend(before, more);
  }

  method WriteLine(sb: Builder, line: string)
    requires EndsBlank(sb.text) && line != "" && EndsBlank(line)
    modifies sb
    ensures EndsBlank(sb.text) && Words(sb.text) == old(Words(sb.text)) + Words(line)
  {
    MoreText(sb.text, line);
    sb.WriteString(line);
  }

  lemma SuffixWords(bound: Bounds, row: Statement)
    requires IsWord(bound(row))
    ensures Words(Suffix(bound, row)) == [RelationWord(row.relation), bound(row)]
    ensures OneLine(Suffix(bound, row)) && Suffix(bound, row)[0] == ' '
  {
    hide Words, RelationWord;
    TwoWords(RelationWord(row.relation), bound(row));
  }

  method WriteRow(sb: Builder, sp: Spelling, bound: Bounds, row: Statement)
    requires Plain(sp, bound) && EndsBlank(sb.text)
    modifies sb
    ensures EndsBlank(sb.text) && Words(sb.text) == old(Words(sb.text)) + RowWords(sp, bound, row)
  {
    hide Words, TermWords, Joined, Suffix, RowLabel, RelationWord, LinesFit, Short;
    SuffixWords(bound, row);
    ghost var before := sb.text;
    ghost var lines := WriteStatement(sb, sp, RowLabel(row.name), row.terms, Suffix(bound, row));
    JoinedEnds(lines);
    MoreText(before, Joined(lines));
  }

  method WriteRows(sb: Builder, sp: Spelling, bound: Bounds, rows: seq<Statement>)
    requires Plain(sp, bound) && EndsBlank(sb.text)
    modifies sb
    ensures EndsBlank(sb.text) && Words(sb.text) == old(Words(sb.text)) + RowsWords(sp, bound, rows)
  {
    hide Words, RowWords, Plain, EndsBlank;
    NoRows(sp, bound);
    for i := 0 to |rows|
      invariant EndsBlank(sb.text) && Words(sb.text) == old(Words(sb.text)) + RowsWords(sp, bound, rows[..i])
    {
      WriteRow(sb, sp, bound, rows[i]);
      RowsWordsSnoc(sp, bound, rows[..i], rows[i]);
      assert rows[..i + 1] == rows[..i] + [rows[i]];
    }
    assert rows[..|rows|] == rows;
  }

  lemma NoRows(sp: Spelling, bound: Bounds)
    ensures RowsWords(sp, bound, []) == []
  { }

  method WriteBinaries(sb: Builder, sp: Spelling, columns: seq<Column>)
    requires Readable(sp) && EndsBlank(sb.text)
    modifies sb
    ensures EndsBlank(sb.text) && Words(sb.text) == old(Words(sb.text)) + ColumnWords(sp, columns)
  {
    hide Words;
    for i := 0 to |columns|
      invariant EndsBlank(sb.text) && Words(sb.text) == old(Words(sb.text)) + ColumnWords(sp, columns[..i])
    {
      LineOfWord(sp.name(columns[i]));
      WriteLine(sb, " " + sp.name(columns[i]) + "\n");
      assert ColumnWords(sp, columns[..i + 1]) == ColumnWords(sp, columns[..i]) + [sp.name(columns[i])];
    }
    assert columns[..|columns|] == columns;
  }

  method WriteObjective(sb: Builder, sp: Spelling, terms: seq<Term>)
    requires Readable(sp) && EndsBlank(sb.text)
    modifies sb
    ensures EndsBlank(sb.text)
    ensures Words(sb.text) == old(Words(sb.text)) + (["Minimize", "obj:"] + TermWords(sp, terms, true))
  {
    hide Words, TermWords, Joined, LinesFit, Short;
    LineOfWord("Minimize");
    assert "Minimize" + "\n" == "Minimize\n";
    WriteLine(sb, "Minimize\n");
    ghost var before := sb.text;
    ghost var lines := WriteStatement(sb, sp, "obj:", terms, "");
    NoWords();
    JoinedEnds(lines);
    MoreText(before, Joined(lines));
    ObjectiveGroups(old(Words(sb.text)), TermWords(sp, terms, true));
  }

  lemma ObjectiveGroups(before: seq<string>, terms: seq<string>)
    ensures before + ["Minimize"] + (["obj:"] + terms + []) == before + (["Minimize", "obj:"] + terms)
  { }

  lemma SectionsGroup(a: seq<string>, b: seq<string>, c: seq<string>)
    ensures HEADING + (["Minimize", "obj:"] + a) + ["Subject", "To"] + b + ["Binary"] + c + ["End"]
         == HEADING + (["Minimize", "obj:"] + (a + (["Subject", "To"] + (b + (["Binary"] + (c + ["End"]))))))
  { }

  /** The text of the whole program, section after section. */
  method WriteProgram(sp: Spelling, bound: Bounds, p: Program) returns (text: string)
    requires Plain(sp, bound)
    ensures Words(text) == ProgramWords(sp, bound, p)
  {
    hide Words, TermWords, RowsWords, ColumnWords, HEADING;
    var sb := new Builder();
    NoWords();
    assert [] + HEADING == HEADING;
    FixedLines();
    WriteLine(sb, "\\* OptiFuse fusion model *\\\n");
    WriteObjective(sb, sp, p.objective);
    WriteLine(sb, "Subject To\n");
    WriteRows(sb, sp, bound, p.rows);
    LineOfWord("Binary");
    assert "Binary" + "\n" == "Binary\n";
    WriteLine(sb, "Binary\n");
    WriteBinaries(sb, sp, p.binaries);
    LineOfWord("End");
    assert "End" + "\n" == "End\n";
    WriteLine(sb, "End\n");
    SectionsGroup(TermWords(sp, p.objective, true), RowsWords(sp, bound, p.rows), ColumnWords(sp, p.binaries));
    text := sb.text;
  }

  /** The text spells out a program that means what `FeasiblePoint` and `Objective` say. */
  ghost predicate IsTextOf(app: Application, edges: seq<Edge>, sp: Spelling, bound: Bounds, p: Program, text: string) {
    && (forall a :: Satisfies(p, a) <==> FeasiblePoint(app, edges, a))
    && (forall a :: Value(p.objective, a) == Objective(app, edges, a))
    && Words(text) == ProgramWords(sp, bound, p)
  }

  /** What the generator returns: the text of the program, or none where there is no edge. */
  method BuildText(app: Application, sp: Spelling, bound: Bounds)
    returns (text: Option<string>, edges: seq<Edge>, ghost p: Option<Program>)
    requires Plain(sp, bound)
    ensures AreEdges(app, edges) && (text.None? <==> edges == []) && (p.Some? <==> text.Some?)
    ensures text.Some? ==> IsTextOf(app, edges, sp, bound, p.value, text.value)
  {
    hide Words, ProgramWords, Plain, AreEdges, Satisfies, FeasiblePoint, Objective, Value;
    var program, es := BuildLP(app);
    edges, p := es, program;
    if program.None? {
      return None, edges, p;
    }
    var written := WriteProgram(sp, bound, program.value);
    text := Some(written);
  }

  // ---- reading ----

  datatype ReadRow = ReadRow(labelText: string, terms: seq<ReadTerm>, relation: string, bound: string)

  datatype ReadProgram = ReadProgram(objective: seq<ReadTerm>, rows: seq<ReadRow>, binaries: seq<string>)

  /** The position of the first word in `stop`. */
  function Until(words: seq<string>, stop: set<string>): (k: nat)
    ensures k <= |words|
  {
    if words == [] || words[0] in stop then 0 else 1 + Until(words[1..], stop)
  }

  lemma {:induction false} UntilAt(prefix: seq<string>, stop: set<string>, rest: seq<string>)
    requires (forall w :: w in prefix ==> w !in stop) && rest != [] && rest[0] in stop
    ensures Until(prefix + rest, stop) == |prefix|
  {
    if prefix == [] {
      assert prefix + rest == rest;
    } else {
      UntilAt(prefix[1..], stop, rest);
      assert (prefix + rest)[1..] == prefix[1..] + rest;
    }
  }

  /** Rows up to the next section: a label, terms up to a relation, the relation, a right-hand side. */
  function ReadRows(words: seq<string>): seq<ReadRow> {
    if words == [] || words[0] == "Binary" then [] else
    var k := 1 + Until(words[1..], RELATIONS);
    if k + 1 < |words| then
      [ReadRow(words[0], ReadTerms(words[1..k]), words[k], words[k + 1])] + ReadRows(words[k + 2..])
    else []
  }

  function Read(words: seq<string>): ReadProgram {
    var start := Until(words, {"Minimize"});
    var objective := if start + 2 <= |words| then words[start + 2..] else [];
    var subject := Until(objective, {"Subject"});
    var rows := if subject + 2 <= |objective| then objective[subject + 2..] else [];
    var binary := Until(rows, {"Binary"});
    var columns := if binary + 1 <= |rows| then rows[binary + 1..] else [];
    ReadProgram(ReadTerms(objective[..subject]), ReadRows(rows), columns[..Until(columns, {"End"})])
  }

  ghost function SignedRow(sp: Spelling, bound: Bounds, row: Statement): ReadRow {
    ReadRow(RowLabel(row.name), AllSigned(sp, row.terms), RelationWord(row.relation), bound(row))
  }

  ghost function SignedRows(sp: Spelling, bound: Bounds, rows: seq<Statement>): seq<ReadRow> {
    seq(|rows|, i requires 0 <= i < |rows| => SignedRow(sp, bound, rows[i]))
  }

  /** No word of a written expression ends it for the reader. */
  lemma {:induction false} TermsDoNotStop(sp: Spelling, bound: Bounds, terms: seq<Term>, first: bool)
    requires Plain(sp, bound)
    ensures forall w :: w in TermWords(sp, terms, first) ==> w !in STOPS
  {
    if terms != [] {
      TermsDoNotStop(sp, bound, terms[1..], false);
      var n := sp.numeral(Magnitude(terms[0].coef));
      assert IsWord(n) && '0' <= n[0] <= '9';
      assert ("-" + n)[0] == '-' && "" + n == n;
    }
  }

  lemma StopsInclude()
    ensures RELATIONS <= STOPS && {"Minimize"} <= STOPS && {"Subject"} <= STOPS && {"Binary"} <= STOPS
    ensures {"End"} <= STOPS
  { }

  lemma {:induction false} RowsReadBack(sp: Spelling, bound: Bounds, rows: seq<Statement>, rest: seq<string>)
    requires Plain(sp, bound) && rest != [] && rest[0] == "Binary"
    ensures ReadRows(RowsWords(sp, bound, rows) + rest) == SignedRows(sp, bound, rows)
  {
    hide TermWords, RowLabel, RelationWord, ReadTerms, AllSigned, Plain;
    if rows == [] {
      assert RowsWords(sp, bound, rows) + rest == rest;
    } else {
      var row, after := rows[0], RowsWords(sp, bound, rows[1..]) + rest;
      RowsReadBack(sp, bound, rows[1..], rest);
      OneRowReadsBack(sp, bound, row, after);
      assert RowsWords(sp, bound, rows) + rest == RowWords(sp, bound, row) + after;
      assert SignedRows(sp, bound, rows) == [SignedRow(sp, bound, row)] + SignedRows(sp, bound, rows[1..]);
    }
  }

  lemma OneRowReadsBack(sp: Spelling, bound: Bounds, row: Statement, after: seq<string>)
    requires Plain(sp, bound)
    ensures ReadRows(RowWords(sp, bound, row) + after) == [SignedRow(sp, bound, row)] + ReadRows(after)
  {
    hide TermWords, RowLabel, RelationWord, ReadTerms, AllSigned, Until, STOPS;
    var terms, words := TermWords(sp, row.terms, true), RowWords(sp, bound, row) + after;
    var tail := [RelationWord(row.relation), bound(row)] + after;
    TermsDoNotStop(sp, bound, row.terms, true);
    StopsInclude();
    UntilAt(terms, RELATIONS, tail);
    ReadBack(sp, row.terms, true);
    assert words[0] == RowLabel(row.name) && words[1..] == terms + tail;
    assert "Binary"[5] != ':';
    var k := 1 + |terms|;
    assert words[1..k] == terms && words[k] == tail[0] && words[k + 1] == tail[1] && words[k + 2..] == after;
  }

  lemma ColumnsDoNotStop(sp: Spelling, bound: Bounds, columns: seq<Column>)
    requires Plain(sp, bound)
    ensures forall w :: w in ColumnWords(sp, columns) ==> w !in STOPS
  { }

  lemma BoundsArePlain(sp: Spelling, bound: Bounds, row: Statement)
    requires Plain(sp, bound)
    ensures bound(row) != "Binary"
  { }

  lemma {:induction false} RowsDoNotBegin(sp: Spelling, bound: Bounds, rows: seq<Statement>)
    requires Plain(sp, bound)
    ensures forall w :: w in RowsWords(sp, bound, rows) ==> w != "Binary"
  {
    hide TermWords, RowLabel, Plain, STOPS;
    if rows != [] {
      var row := rows[0];
      RowsDoNotBegin(sp, bound, rows[1..]);
      BoundsArePlain(sp, bound, row);
      TermsDoNotStop(sp, bound, row.terms, true);
      StopsInclude();
      assert "Binary"[5] != ':';
      assert RelationWord(row.relation) != "Binary";
    }
  }

  /** Reading the words of the text gives back the program: the same terms with their signs, the same
      rows in the same order, the same binary columns. */
  lemma ProgramReadsBack(sp: Spelling, bound: Bounds, p: Program)
    requires Plain(sp, bound)
    ensures Read(ProgramWords(sp, bound, p)) ==
      ReadProgram(AllSigned(sp, p.objective), SignedRows(sp, bound, p.rows), ColumnWords(sp, p.binaries))
  {
    hide TermWords, RowsWords, ColumnWords, ReadTerms, ReadRows, AllSigned, SignedRows, Until, STOPS;
    var terms, rows := TermWords(sp, p.objective, true), RowsWords(sp, bound, p.rows);
    var columns := ColumnWords(sp, p.binaries);
    var end := ["End"];
    var binary := ["Binary"] + (columns + end);
    var subject := ["Subject", "To"] + (rows + binary);
    var minimize := ["Minimize", "obj:"] + (terms + subject);
    StopsInclude();
    TermsDoNotStop(sp, bound, p.objective, true);
    RowsDoNotBegin(sp, bound, p.rows);
    ColumnsDoNotStop(sp, bound, p.binaries);
    UntilAt(HEADING, {"Minimize"}, minimize);
    UntilAt(terms, {"Subject"}, subject);
    UntilAt(rows, {"Binary"}, binary);
    UntilAt(columns, {"End"}, end);
    ReadBack(sp, p.objective, true);
    RowsReadBack(sp, bound, p.rows, binary);
    assert (HEADING + minimize)[|HEADING| + 2..] == terms + subject;
    assert (terms + subject)[|terms| + 2..] == rows + binary && (terms + subject)[..|terms|] == terms;
    assert (rows + binary)[|rows| + 1..] == columns + end && (columns + end)[..|columns|] == columns;
  }

  // ---- the meaning of what was read ----

  ghost predicate ReadHolds(row: ReadRow, number: string -> real, column: string -> real) {
    var value := ReadValue(row.terms, number, column);
    if row.relation == "=" then value == number(row.bound)
    else if row.relation == "<=" then value <= number(row.bound)
    else value >= number(row.bound)
  }

  /** The numerals and names written for a program denote what they were written for. */
  ghost predicate Denotes(sp: Spelling, bound: Bounds, p: Program, number: string -> real, column: string -> real,
      a: Point) {
    && NamesStandFor(sp, p.objective, number, column, a)
    && forall row :: row in p.rows ==> NamesStandFor(sp, row.terms, number, column, a) && number(bound(row)) == row.rhs
  }

  /** What a reader takes from the text holds and costs exactly what the program says. */
  lemma TextMeansProgram(sp: Spelling, bound: Bounds, p: Program, number: string -> real, column: string -> real,
      a: Point)
    requires Plain(sp, bound)
    requires Denotes(sp, bound, p, number, column, a)
    ensures var read := Read(ProgramWords(sp, bound, p));
      && ReadValue(read.objective, number, column) == Value(p.objective, a)
      && |read.rows| == |p.rows|
      && forall i :: 0 <= i < |p.rows| ==> (ReadHolds(read.rows[i], number, column) <==> Holds(p.rows[i], a))
  {
    hide Read, ProgramWords, Plain, AllSigned, ReadValue, Value, NamesStandFor;
    ProgramReadsBack(sp, bound, p);
    ReadMeansWritten(sp, p.objective, number, column, a);
    forall i | 0 <= i < |p.rows|
      ensures ReadHolds(SignedRow(sp, bound, p.rows[i]), number, column) <==> Holds(p.rows[i], a)
    {
      assert p.rows[i] in p.rows;
      ReadMeansWritten(sp, p.rows[i].terms, number, column, a);
    }
  }

  // ---- the optimum of what was read ----

  /** The numerals written for a program denote what they were written for. */
  ghost predicate NumeralsDenote(sp: Spelling, bound: Bounds, p: Program, number: string -> real) {
    && (forall t :: t in p.objective ==> number(sp.numeral(Magnitude(t.coef))) == Magnitude(t.coef))
    && forall row :: row in p.rows ==>
      && number(bound(row)) == row.rhs
      && forall t :: t in row.terms ==> number(sp.numeral(Magnitude(t.coef))) == Magnitude(t.coef)
  }

  /** A reader's assignment of values to names, taken as a point. */
  ghost function PointOf(sp: Spelling, column: string -> real): Point {
    (c: Column) => column(sp.name(c))
  }

  /** Names never clash, so every point is some assignment's. */
  ghost predicate NamesApart(sp: Spelling) {
    forall v, w :: sp.name(v) == sp.name(w) ==> v == w
  }

  ghost function Naming(sp: Spelling, a: Point): string -> real {
    (name: string) => if exists v :: sp.name(v) == name then var v :| sp.name(v) == name; a(v) else 0.0
  }

  ghost predicate ReadSatisfied(read: ReadProgram, number: string -> real, column: string -> real) {
    && (forall name :: column(name) >= 0.0)
    && (forall name :: name in read.binaries ==> IsBinary(column(name)))
    && forall i :: 0 <= i < |read.rows| ==> ReadHolds(read.rows[i], number, column)
  }

  /** An optimal solution of the program as read: nothing here mentions the program that was written. */
  ghost predicate ReadLeast(read: ReadProgram, number: string -> real, column: string -> real) {
    && ReadSatisfied(read, number, column)
    && forall other :: ReadSatisfied(read, number, other) ==>
      ReadValue(read.objective, number, column) <= ReadValue(read.objective, number, other)
  }

  lemma NamingPoint(sp: Spelling, a: Point)
    requires NamesApart(sp) && forall v :: a(v) >= 0.0
    ensures forall v :: Naming(sp, a)(sp.name(v)) == a(v)
    ensures forall name :: Naming(sp, a)(name) >= 0.0
  {
    forall name ensures Naming(sp, a)(name) >= 0.0 {
      if exists v :: sp.name(v) == name { var v :| sp.name(v) == name && Naming(sp, a)(name) == a(v); }
    }
  }

  /** What an assignment satisfies and costs as read, its point satisfies and costs as written. */
  lemma ReadIsWritten(sp: Spelling, bound: Bounds, p: Program, number: string -> real, column: string -> real, a: Point)
    requires Plain(sp, bound) && NumeralsDenote(sp, bound, p, number)
    requires (forall v :: column(sp.name(v)) == a(v)) && (forall name :: column(name) >= 0.0)
    ensures ReadSatisfied(Read(ProgramWords(sp, bound, p)), number, column) <==> Satisfies(p, a)
    ensures ReadValue(Read(ProgramWords(sp, bound, p)).objective, number, column) == Value(p.objective, a)
  {
    hide Read, ProgramWords, Plain, ReadValue, Value, ReadHolds, Holds;
    var read := Read(ProgramWords(sp, bound, p));
    ProgramReadsBack(sp, bound, p);
    TextMeansProgram(sp, bound, p, number, column, a);
    BinariesRead(sp, p.binaries, column, a);
    assert forall v :: a(v) == column(sp.name(v)) >= 0.0;
  }

  lemma BinariesRead(sp: Spelling, columns: seq<Column>, column: string -> real, a: Point)
    requires forall v :: column(sp.name(v)) == a(v)
    ensures (forall name :: name in ColumnWords(sp, columns) ==> IsBinary(column(name))) <==>
      forall c :: c in columns ==> IsBinary(a(c))
  {
    forall c | c in columns ensures sp.name(c) in ColumnWords(sp, columns) {
      var i :| 0 <= i < |columns| && columns[i] == c;
      assert ColumnWords(sp, columns)[i] == sp.name(c);
    }
  }

  /** An optimal solution of what the text says is a least-objective point of the program. */
  lemma LeastReadIsLeast(sp: Spelling, bound: Bounds, p: Program, number: string -> real, column: string -> real)
    requires Plain(sp, bound) && NamesApart(sp) && NumeralsDenote(sp, bound, p, number)
    requires ReadLeast(Read(ProgramWords(sp, bound, p)), number, column)
    ensures LeastObjective(p, PointOf(sp, column))
  {
    hide Read, ProgramWords, Plain, ReadValue, Value, ReadHolds, Holds, NumeralsDenote, Satisfies;
    var a := PointOf(sp, column);
    ReadIsWritten(sp, bound, p, number, column, a);
    forall a' | Satisfies(p, a') ensures Value(p.objective, a) <= Value(p.objective, a') {
      PointsNotNegative(p, a');
      NamingPoint(sp, a');
      ReadIsWritten(sp, bound, p, number, Naming(sp, a'), a');
    }
  }

  lemma PointsNotNegative(p: Program, a: Point)
    requires Satisfies(p, a)
    ensures forall c :: a(c) >= 0.0
  { }
}
