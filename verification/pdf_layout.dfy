/**
  The PDF generator reduced to its cursor and pagination logic. Every
  section is a function from the cursor y (in millimetres) to a Block: the
  drawing operations it appends and the cursor it leaves behind. A page
  break is the operation NewPage, so the page count of a document is one
  more than the NewPage operations in its trace. The page is A4 portrait
  (297 mm) with a 20 mm bottom margin. jsPDF itself is not modelled: text
  wrapping (`splitTextToSize` at 170 mm) is a parameter returning a line
  count, and whether `addImage` accepts a signature image is a parameter too.
 */
module PdfLayout {
  import opened Common
  import opened Forms
  import opened PdfFormat

  const PageHeight: int := 297
  const MarginBottom: int := 20
  /** The lowest y a block may reach: 297 - 20. */
  const PageBottom: int := PageHeight - MarginBottom
  /** The cursor after a page break, just below the short header. */
  const AfterHeaderY: int := 40
  /** The cursor on a page the minutes signatures open themselves. */
  const TopY: int := 20

  /** The fixed captions the generator prints. */
  datatype Caption =
    | University | Centre | StudentData | Evaluation | Observations | EvaluatorTitle | SignaturesTitle

  function CaptionText(c: Caption): string {
    match c
    case University => "UNIVERSIDADE FEDERAL DE SANTA MARIA"
    case Centre => "CENTRO DE TECNOLOGIA"
    case StudentData => "DADOS DO TRABALHO"
    case Evaluation => "AVALIAÇÃO"
    case Observations => "OBSERVAÇÕES"
    case EvaluatorTitle => "ASSINATURA DO AVALIADOR"
    case SignaturesTitle => "ASSINATURAS"
  }

  /** The four signers of the minutes, in the order they sign. */
  datatype AtaRole = AdvisorSigner | FirstExaminer | SecondExaminer | StudentSigner

  /** The caption above each signature of the minutes. */
  function RoleCaption(r: AtaRole): string {
    match r
    case AdvisorSigner => "Assinatura do(a) Orientador(a)"
    case FirstExaminer => "Assinatura do(a) Avaliador(a) 1"
    case SecondExaminer => "Assinatura do(a) Avaliador(a) 2"
    case StudentSigner => "Assinatura do Estudante"
  }

  /** The name printed when the form leaves the signer's name empty. */
  function RoleFallback(r: AtaRole): (name: string)
    ensures name != ""
  {
    match r
    case AdvisorSigner => "Orientador"
    case FirstExaminer => "Avaliador 1"
    case SecondExaminer => "Avaliador 2"
    case StudentSigner => "Estudante"
  }

  /** The fixed prefix of a wrapped text line; `Plain` has none. */
  datatype Label =
    | Plain | StudentName | Registration | WorkTitle | Advisor | Coadvisor | Term
    | SignerCaption(role: AtaRole)

  function LabelText(l: Label): string {
    match l
    case Plain => ""
    case StudentName => "Aluno: "
    case Registration => "Matrícula: "
    case WorkTitle => "Título: "
    case Advisor => "Orientador: "
    case Coadvisor => "Coorientador: "
    case Term => "Ano/Semestre: "
    case SignerCaption(r) => RoleCaption(r)
  }

  /** A text line: a fixed prefix and the form value after it. */
  datatype Line = Line(prefix: Label, value: string)

  /** The text jsPDF receives for a line. */
  function LineText(l: Line): string {
    LabelText(l.prefix) + l.value
  }

  /** `doc.splitTextToSize(LineText(line), 170).length` */
  type Wrap = Line -> nat
  /** Whether `doc.addImage` accepts a data URL (false: it throws). */
  type Embeds = string -> bool

  /** What the generator draws, at which y. Bordered table cells and font
      changes are folded into the table and text operations. `PageHeader`
      is the short three-line header of a continuation page, `CourseLine`
      prints `CourseText(course)`, `TitleLine` prints `PdfTitle(kind)`,
      `StudentDate` prints `StudentDateLine(date)` and `PlaceDate` prints
      `SignatureDateLine(date)`. */
  datatype DrawOp =
    | NewPage
    | PageHeader(course: string)
    | Heading(caption: Caption, y: int)
    | CourseLine(course: string, y: int)
    | TitleLine(kind: FormType, y: int)
    | TextLine(line: Line, y: int)
    | StudentDate(date: string, y: int)
    | PlaceDate(date: string, y: int)
    | Rule(y: int)
    | TableHead(y: int)
    | TableRow(key: CriterionKey, weight: int, score: real, y: int)
    | TableTotal(cell: TotalText, y: int)
    | SignatureImage(data: string, y: int, height: int)
    | SignatureLine(y: int)

  /** What a section draws and the cursor it returns. */
  datatype Block = Block(ops: seq<DrawOp>, y: int)

  /** A generated document: its drawing trace and the name it is saved under. */
  datatype Document = Document(course: string, trace: seq<DrawOp>, fileName: string)

  /** The page breaks of a trace: its NewPage operations. */
  function PageBreaks(ops: seq<DrawOp>): nat {
    if |ops| == 0 then 0 else (if ops[0].NewPage? then 1 else 0) + PageBreaks(ops[1..])
  }

  /** The number of pages of a document. */
  function Pages(d: Document): nat {
    1 + PageBreaks(d.trace)
  }

  /** Operations that draw on the current page without opening a new one. */
  predicate OnPage(ops: seq<DrawOp>) {
    forall i :: 0 <= i < |ops| ==> !ops[i].NewPage?
  }

  /** Every embedded image is a data URL of an image. */
  predicate ImagesValid(ops: seq<DrawOp>) {
    forall i :: 0 <= i < |ops| && ops[i].SignatureImage? ==> StartsWith(ops[i].data, "data:image/")
  }

  /** Every page break is immediately followed by the short header of the course. */
  predicate Headed(course: string, ops: seq<DrawOp>) {
    forall i {:trigger ops[i].NewPage?} :: 0 <= i < |ops| && ops[i].NewPage? ==>
      i + 1 < |ops| && ops[i + 1] == PageHeader(course)
  }

  lemma {:induction false} PageBreaksAppend(a: seq<DrawOp>, b: seq<DrawOp>)
    ensures PageBreaks(a + b) == PageBreaks(a) + PageBreaks(b)
    decreases |a|
  {
    if |a| > 0 {
      assert (a + b)[0] == a[0];
      assert (a + b)[1..] == a[1..] + b;
      PageBreaksAppend(a[1..], b);
    } else {
      assert a + b == b;
    }
  }

  /** Drawing on the current page adds no page break and leaves every page headed. */
  lemma {:induction false} OnPageNoBreaks(ops: seq<DrawOp>)
    requires OnPage(ops)
    ensures PageBreaks(ops) == 0
    ensures forall course :: Headed(course, ops)
    decreases |ops|
  {
    if |ops| > 0 {
      OnPageNoBreaks(ops[1..]);
    }
  }

  /** Concatenation stays on the current page. */
  lemma OnPageConcat(a: seq<DrawOp>, b: seq<DrawOp>)
    requires OnPage(a) && OnPage(b)
    ensures OnPage(a + b)
  {
    forall i | 0 <= i < |a + b|
      ensures !(a + b)[i].NewPage?
    {
      if i >= |a| {
        assert (a + b)[i] == b[i - |a|];
      }
    }
  }

  /** The first and last operations of a concatenation. */
  lemma Ends(a: seq<DrawOp>, b: seq<DrawOp>)
    ensures |a| > 0 ==> (a + b)[0] == a[0]
    ensures |b| > 0 ==> (a + b)[|a + b| - 1] == b[|b| - 1]
  {
  }

  /** Concatenation keeps images valid. */
  lemma ImagesConcat(a: seq<DrawOp>, b: seq<DrawOp>)
    requires ImagesValid(a) && ImagesValid(b)
    ensures ImagesValid(a + b)
  {
    forall i | 0 <= i < |a + b| && (a + b)[i].SignatureImage?
      ensures StartsWith((a + b)[i].data, "data:image/")
    {
      if i >= |a| {
        assert (a + b)[i] == b[i - |a|];
      }
    }
  }

  /** Concatenation adds page breaks and keeps images valid and pages headed. */
  lemma Concat(course: string, a: seq<DrawOp>, b: seq<DrawOp>)
    ensures PageBreaks(a + b) == PageBreaks(a) + PageBreaks(b)
    ensures ImagesValid(a) && ImagesValid(b) ==> ImagesValid(a + b)
    ensures Headed(course, a) && Headed(course, b) ==> Headed(course, a + b)
  {
    PageBreaksAppend(a, b);
    if ImagesValid(a) && ImagesValid(b) {
      ImagesConcat(a, b);
    }
    HeadedConcat(course, a, b);
  }

  /** Concatenation keeps pages headed. */
  lemma HeadedConcat(course: string, a: seq<DrawOp>, b: seq<DrawOp>)
    ensures Headed(course, a) && Headed(course, b) ==> Headed(course, a + b)
  {
    if Headed(course, a) && Headed(course, b) {
      var t := a + b;
      forall i | 0 <= i < |t| && t[i].NewPage?
        ensures i + 1 < |t| && t[i + 1] == PageHeader(course)
      {
        if i < |a| {
          assert a[i].NewPage?;
          assert t[i + 1] == a[i + 1];
        } else {
          assert t[i] == b[i - |a|];
          assert b[i - |a|].NewPage?;
          assert t[i + 1] == b[i - |a| + 1];
        }
      }
    }
  }

  /** The signer captions a trace prints, in order. */
  function Captions(ops: seq<DrawOp>): seq<AtaRole>
    decreases |ops|
  {
    if |ops| == 0 then []
    else
      var here := if ops[0].TextLine? && ops[0].line.prefix.SignerCaption? then [ops[0].line.prefix.role] else [];
      here + Captions(ops[1..])
  }

  /** The unlabelled text lines a trace prints, in order: signer and evaluator
      names, the institution, the comments. */
  function PlainTexts(ops: seq<DrawOp>): seq<string>
    decreases |ops|
  {
    if |ops| == 0 then []
    else
      var here := if ops[0].TextLine? && ops[0].line.prefix == Plain then [ops[0].line.value] else [];
      here + PlainTexts(ops[1..])
  }

  /** Every text line of the trace carries a field label: none is a signer
      caption or an unlabelled line. */
  predicate Labelled(ops: seq<DrawOp>) {
    forall i :: 0 <= i < |ops| && ops[i].TextLine? ==>
      !ops[i].line.prefix.SignerCaption? && ops[i].line.prefix != Plain
  }

  /** Captions and plain lines of a concatenation are those of its parts, in order. */
  lemma {:induction false} PrintedAppend(a: seq<DrawOp>, b: seq<DrawOp>)
    ensures Captions(a + b) == Captions(a) + Captions(b)
    ensures PlainTexts(a + b) == PlainTexts(a) + PlainTexts(b)
    decreases |a|
  {
    if |a| > 0 {
      assert (a + b)[0] == a[0];
      assert (a + b)[1..] == a[1..] + b;
      PrintedAppend(a[1..], b);
    } else {
      assert a + b == b;
    }
  }

  /** What a single operation prints. */
  lemma PrintedOne(op: DrawOp)
    ensures Captions([op]) == if op.TextLine? && op.line.prefix.SignerCaption? then [op.line.prefix.role] else []
    ensures PlainTexts([op]) == if op.TextLine? && op.line.prefix == Plain then [op.line.value] else []
  {
    assert [op][1..] == [];
  }

  /** What four traces print, one after the other. */
  lemma PrintedFour(a: seq<DrawOp>, b: seq<DrawOp>, c: seq<DrawOp>, d: seq<DrawOp>)
    ensures Captions(a + b + c + d) == Captions(a) + Captions(b) + Captions(c) + Captions(d)
    ensures PlainTexts(a + b + c + d) == PlainTexts(a) + PlainTexts(b) + PlainTexts(c) + PlainTexts(d)
  {
    PrintedAppend(a, b);
    PrintedAppend(a + b, c);
    PrintedAppend(a + b + c, d);
  }

  /** What three operations print, one after the other. */
  lemma PrintedThree(ops: seq<DrawOp>)
    requires |ops| == 3
    ensures Captions(ops) == Captions([ops[0]]) + (Captions([ops[1]]) + Captions([ops[2]]))
    ensures PlainTexts(ops) == PlainTexts([ops[0]]) + (PlainTexts([ops[1]]) + PlainTexts([ops[2]]))
  {
    assert ops == [ops[0]] + ([ops[1]] + [ops[2]]);
    PrintedAppend([ops[1]], [ops[2]]);
    PrintedAppend([ops[0]], [ops[1]] + [ops[2]]);
  }

  /** What five operations print, one after the other. */
  lemma PrintedFive(ops: seq<DrawOp>)
    requires |ops| == 5
    ensures Captions(ops)
      == Captions([ops[0]]) + (Captions([ops[1]]) + (Captions([ops[2]]) + (Captions([ops[3]]) + Captions([ops[4]]))))
    ensures PlainTexts(ops)
      == PlainTexts([ops[0]]) + (PlainTexts([ops[1]]) + (PlainTexts([ops[2]]) + (PlainTexts([ops[3]]) + PlainTexts([ops[4]]))))
  {
    assert ops == [ops[0]] + ([ops[1]] + ([ops[2]] + ([ops[3]] + [ops[4]])));
    PrintedNested([ops[0]], [ops[1]], [ops[2]], [ops[3]], [ops[4]]);
  }

  /** A trace whose text lines are all labelled prints no caption and no plain line. */
  lemma {:induction false} LabelledPrintsNone(ops: seq<DrawOp>)
    requires Labelled(ops)
    ensures Captions(ops) == [] && PlainTexts(ops) == []
    decreases |ops|
  {
    if |ops| > 0 {
      LabelledPrintsNone(ops[1..]);
    }
  }

  /** The course line of both headers. */
  function CourseText(course: string): string {
    if course == "CC" then "CURSO DE CIÊNCIA DA COMPUTAÇÃO" else "CURSO DE SISTEMAS DE INFORMAÇÃO"
  }

  /** The value `currentCourse` takes: the course code of the student. */
  function CourseCode(c: CourseType): (code: string)
    ensures code != ""
  {
    match c
    case CC => "CC"
    case SI => "SI"
  }

  /** The document titles of `generateFormPDF`. */
  function PdfTitle(t: FormType): string {
    match t
    case AndamentoCC => "FICHA DE AVALIAÇÃO DE ANDAMENTO DE TCC - CIÊNCIA DA COMPUTAÇÃO"
    case FinalCC => "FICHA DE AVALIAÇÃO FINAL DE TCC - CIÊNCIA DA COMPUTAÇÃO"
    case FinalSI => "FICHA DE AVALIAÇÃO FINAL DE TCC - SISTEMAS DE INFORMAÇÃO"
    case Ata => "ATA DE APRESENTAÇÃO DE TCC"
  }

  // ------------------------------------------------------------ page breaks

  /** `checkPageBreak(y, required)` */
  function CheckPageBreak(course: string, y: int, required: int): (b: Block)
    ensures y + required > PageBottom ==> PageBreaks(b.ops) == 1 && b.y == AfterHeaderY
    ensures y + required <= PageBottom ==> b.ops == [] && b.y == y
    ensures required <= PageBottom - AfterHeaderY ==> b.y + required <= PageBottom
    ensures ImagesValid(b.ops)
    ensures course != "" ==> Headed(course, b.ops)
  {
    if y + required > PageBottom then
      var header := if course != "" then [PageHeader(course)] else [];
      OnPageNoBreaks(header);
      Concat(course, [NewPage], header);
      Block([NewPage] + header, AfterHeaderY)
    else
      Block([], y)
  }

  /** A page check prints neither a caption nor a plain line. */
  lemma PageCheckPrintsNothing(course: string, y: int, required: int)
    ensures var b := CheckPageBreak(course, y, required);
      Captions(b.ops) == [] && PlainTexts(b.ops) == []
  {
    var b := CheckPageBreak(course, y, required);
    if y + required > PageBottom {
      if course != "" {
        PrintedAppend([NewPage], [PageHeader(course)]);
        PrintedOne(PageHeader(course));
      }
      PrintedOne(NewPage);
    }
  }

  /** A page break without the short header, as the minutes signatures open them. */
  function BareBreak(y: int, limit: int): (b: Block)
    ensures y > limit ==> b.ops == [NewPage] && b.y == TopY
    ensures y <= limit ==> b.ops == [] && b.y == y
    ensures PageBreaks(b.ops) == (if y > limit then 1 else 0)
  {
    if y > limit then Block([NewPage], TopY) else Block([], y)
  }

  /** A bare page break prints neither a caption nor a plain line. */
  lemma BareBreakPrintsNothing(y: int, limit: int)
    ensures Captions(BareBreak(y, limit).ops) == [] && PlainTexts(BareBreak(y, limit).ops) == []
  {
    PrintedOne(NewPage);
  }

  // -------------------------------------------------------------- sections

  /** `addHeader`: institution, centre, course and title lines, then a rule. */
  function HeaderOps(t: FormType, course: string): (ops: seq<DrawOp>)
    ensures OnPage(ops) && ImagesValid(ops)
    ensures |ops| == 5 && ops[3] == TitleLine(t, 50)
  {
    [Heading(University, 20), Heading(Centre, 28), CourseLine(course, 36), TitleLine(t, 50), Rule(55)]
  }

  /** The 7 mm lines of the student block: every wrapped field, one line for
      a registration, one for the term. */
  function StudentLines(s: StudentInfo, wrap: Wrap): nat {
    wrap(Line(StudentName, s.name))
    + (if Truthy(s.registration) then 1 else 0)
    + wrap(Line(WorkTitle, s.title))
    + wrap(Line(Advisor, s.advisor))
    + (if Truthy(s.coadvisor) then wrap(Line(Coadvisor, s.coadvisor.value)) else 0)
    + 1
  }

  /** `addStudentInfo`: starts at y = 70 whatever came before, never checks for
      a page break, and returns 15 mm below the date line. */
  function StudentInfoBlock(s: StudentInfo, date: string, wrap: Wrap): (b: Block)
    ensures OnPage(b.ops) && ImagesValid(b.ops)
    ensures b.y == 70 + 10 + 7 * StudentLines(s, wrap) + 15
    ensures |b.ops| > 0 && b.ops[|b.ops| - 1] == StudentDate(date, b.y - 15)
  {
    var y1 := 70 + 10;
    var y2 := y1 + 7 * wrap(Line(StudentName, s.name));
    var y3 := if Truthy(s.registration) then y2 + 7 else y2;
    var y4 := y3 + 7 * wrap(Line(WorkTitle, s.title));
    var y5 := y4 + 7 * wrap(Line(Advisor, s.advisor));
    var y6 := if Truthy(s.coadvisor) then y5 + 7 * wrap(Line(Coadvisor, s.coadvisor.value)) else y5;
    var y7 := y6 + 7;
    var registration := if Truthy(s.registration) then [TextLine(Line(Registration, s.registration.value), y2)] else [];
    var coadvisor := if Truthy(s.coadvisor) then [TextLine(Line(Coadvisor, s.coadvisor.value), y5)] else [];
    var ops := [Heading(StudentData, 70), TextLine(Line(StudentName, s.name), y1)] + registration
      + [TextLine(Line(WorkTitle, s.title), y3), TextLine(Line(Advisor, s.advisor), y4)] + coadvisor
      + [TextLine(Line(Term, s.semester), y6), StudentDate(date, y7)];
    Block(ops, y7 + 15)
  }

  /** One bordered row per criterion, 8 mm apart, with the stored score or 0. */
  function TableRows(cs: seq<Criterion>, entries: seq<EvaluationScore>, y: int): (ops: seq<DrawOp>)
    ensures |ops| == |cs|
    ensures forall i :: 0 <= i < |cs| ==>
      ops[i] == TableRow(cs[i].key, cs[i].weight, RowScore(entries, cs[i].id()), y + 8 * i)
    ensures OnPage(ops) && ImagesValid(ops)
  {
    if |cs| == 0 then []
    else [TableRow(cs[0].key, cs[0].weight, RowScore(entries, cs[0].id()), y)] + TableRows(cs[1..], entries, y + 8)
  }

  /** `18 + criteria.length * 8 + 8`: title and header row, the rows, the total row. */
  function TableHeight(n: nat): int {
    18 + 8 * n + 8
  }

  /** The table below its page check: the title, the header row, a row per
      criterion with the stored score or 0, and the final-score row showing the
      cell the score calculator computes. */
  function TableBody(top: int, cs: seq<Criterion>, entries: seq<EvaluationScore>): (ops: seq<DrawOp>)
    ensures |ops| == |cs| + 3
    ensures ops[0] == Heading(Evaluation, top) && ops[1] == TableHead(top + 10)
    ensures ops[2..|cs| + 2] == TableRows(cs, entries, top + 18)
    ensures ops[|cs| + 2] == TableTotal(TotalCell(cs, entries), top + 18 + 8 * |cs|)
    ensures OnPage(ops) && ImagesValid(ops)
  {
    var head := [Heading(Evaluation, top), TableHead(top + 10)];
    var rows := TableRows(cs, entries, top + 18);
    var total := [TableTotal(TotalCell(cs, entries), top + 18 + 8 * |cs|)];
    OnPageConcat(head, rows);
    OnPageConcat(head + rows, total);
    ImagesConcat(head, rows);
    ImagesConcat(head + rows, total);
    assert (head + rows + total)[2..|cs| + 2] == rows;
    head + rows + total
  }

  /** The table drawing of `addEvaluationTable` for a criterion list: one
      page-break check for the whole table, then the table itself. */
  function TableBlock(course: string, y: int, cs: seq<Criterion>, entries: seq<EvaluationScore>): (b: Block)
    ensures PageBreaks(b.ops) <= 1
    ensures b.y == CheckPageBreak(course, y, TableHeight(|cs|)).y + 18 + 8 * |cs| + 15
    ensures |cs| <= 26 ==> b.y - 15 + 8 <= PageBottom
    ensures ImagesValid(b.ops)
    ensures course != "" ==> Headed(course, b.ops)
  {
    var pb := CheckPageBreak(course, y, TableHeight(|cs|));
    var body := TableBody(pb.y, cs, entries);
    OnPageNoBreaks(body);
    Concat(course, pb.ops, body);
    Block(pb.ops + body, pb.y + 18 + 8 * |cs| + 15)
  }

  /** Whatever the page check did, the table is drawn in full after it, its
      final-score row 15 mm above the returned cursor. */
  lemma TableEndsWithTotal(course: string, y: int, cs: seq<Criterion>, entries: seq<EvaluationScore>)
    ensures var b := TableBlock(course, y, cs, entries);
      && |b.ops| >= |cs| + 3
      && b.ops[|b.ops| - |cs| - 3..] == TableBody(CheckPageBreak(course, y, TableHeight(|cs|)).y, cs, entries)
      && b.ops[|b.ops| - 1] == TableTotal(TotalCell(cs, entries), b.y - 15)
  {
    var pb := CheckPageBreak(course, y, TableHeight(|cs|));
    var body := TableBody(pb.y, cs, entries);
    var b := TableBlock(course, y, cs, entries);
    assert b.ops == pb.ops + body;
    assert b.ops[|pb.ops|..] == body;
    assert |b.ops| - |cs| - 3 == |pb.ops|;
  }

  /** `addEvaluationTable`: the criteria of the form kind, drawn as one block
      that never straddles a page break. */
  function AddEvaluationTable(course: string, y: int, t: FormType, entries: seq<EvaluationScore>): (b: Block)
    ensures PageBreaks(b.ops) <= 1
    ensures b.y == CheckPageBreak(course, y, TableHeight(|Criteria(t)|)).y + 18 + 8 * |Criteria(t)| + 15
    ensures b.y - 15 + 8 <= PageBottom
    ensures ImagesValid(b.ops)
    ensures course != "" ==> Headed(course, b.ops)
  {
    CriteriaCount(t);
    TableBlock(course, y, Criteria(t), entries)
  }

  /** `addComments`: nothing for absent or empty comments; otherwise a page
      check for the title (30 mm), the title, a page check for the wrapped
      text (5 mm a line), the text, and 10 mm below it. */
  function AddComments(course: string, y: int, comments: Option<string>, wrap: Wrap): (b: Block)
    ensures !Truthy(comments) ==> b == Block([], y)
    ensures Truthy(comments) ==>
      var h := 5 * wrap(Line(Plain, comments.value));
      && |b.ops| > 0
      && b.ops[|b.ops| - 1] == TextLine(Line(Plain, comments.value), b.y - h - 10)
      && (h <= PageBottom - AfterHeaderY ==> b.y - 10 <= PageBottom)
    ensures PageBreaks(b.ops) <= 2
    ensures ImagesValid(b.ops)
    ensures course != "" ==> Headed(course, b.ops)
  {
    if !Truthy(comments) then Block([], y)
    else
      var pb1 := CheckPageBreak(course, y, 30);
      var title := [Heading(Observations, pb1.y)];
      var h := 5 * wrap(Line(Plain, comments.value));
      var pb2 := CheckPageBreak(course, pb1.y + 10, h);
      var text := [TextLine(Line(Plain, comments.value), pb2.y)];
      OnPageNoBreaks(title);
      OnPageNoBreaks(text);
      Concat(course, pb1.ops, title);
      Concat(course, pb1.ops + title, pb2.ops);
      Concat(course, pb1.ops + title + pb2.ops, text);
      Block(pb1.ops + title + pb2.ops + text, pb2.y + h + 10)
  }

  /** The operations of present comments, part by part. */
  lemma CommentsOps(course: string, y: int, comments: Option<string>, wrap: Wrap)
    requires Truthy(comments)
    ensures var pb1 := CheckPageBreak(course, y, 30);
      var line := Line(Plain, comments.value);
      var pb2 := CheckPageBreak(course, pb1.y + 10, 5 * wrap(line));
      AddComments(course, y, comments, wrap).ops
        == pb1.ops + [Heading(Observations, pb1.y)] + pb2.ops + [TextLine(line, pb2.y)]
  {
  }

  /** Present comments: after the 30 mm page check comes the Observations
      heading; when the text fits below it, the text follows 10 mm under the
      heading with no second break, and the cursor ends 10 mm under the text. */
  lemma CommentsLayout(course: string, y: int, comments: Option<string>, wrap: Wrap)
    requires Truthy(comments)
    ensures var b := AddComments(course, y, comments, wrap);
      var pb := CheckPageBreak(course, y, 30);
      |b.ops| > |pb.ops| && b.ops[..|pb.ops|] == pb.ops && b.ops[|pb.ops|] == Heading(Observations, pb.y)
    ensures var b := AddComments(course, y, comments, wrap);
      var pb := CheckPageBreak(course, y, 30);
      var text := Line(Plain, comments.value);
      var h := 5 * wrap(text);
      pb.y + 10 + h <= PageBottom ==>
        b == Block(pb.ops + [Heading(Observations, pb.y), TextLine(text, pb.y + 10)], pb.y + 20 + h)
  {
    var pb := CheckPageBreak(course, y, 30);
    var title := [Heading(Observations, pb.y)];
    var h := 5 * wrap(Line(Plain, comments.value));
    var pb2 := CheckPageBreak(course, pb.y + 10, h);
    var text := [TextLine(Line(Plain, comments.value), pb2.y)];
    assert AddComments(course, y, comments, wrap).ops == pb.ops + title + pb2.ops + text;
    assert (pb.ops + title + pb2.ops + text)[..|pb.ops|] == pb.ops;
  }

  /** Comments that fit, heading and text, below the cursor are drawn there
      without any page break. */
  lemma CommentsWithoutBreak(course: string, y: int, comments: Option<string>, wrap: Wrap)
    requires Truthy(comments)
    requires y + 30 <= PageBottom && y + 10 + 5 * wrap(Line(Plain, comments.value)) <= PageBottom
    ensures var text := Line(Plain, comments.value);
      AddComments(course, y, comments, wrap)
        == Block([Heading(Observations, y), TextLine(text, y + 10)], y + 20 + 5 * wrap(text))
  {
    CommentsLayout(course, y, comments, wrap);
  }

  /** The embed condition: a non-empty data URL of an image that `addImage` accepts. */
  predicate Embeddable(sig: Option<string>, embeds: Embeds) {
    Truthy(sig) && StartsWith(sig.value, "data:image/") && embeds(sig.value)
  }

  /** The signature mark and the cursor below it: the image when it embeds;
      otherwise (missing, not an image, or `addImage` threw) a blank line. */
  function Mark(sig: Option<string>, embeds: Embeds, y: int, imageHeight: int, imageAdvance: int,
                lineOffset: int, lineAdvance: int): (r: (DrawOp, int))
    ensures Embeddable(sig, embeds) ==> r == (SignatureImage(sig.value, y, imageHeight), y + imageAdvance)
    ensures !Embeddable(sig, embeds) ==> r == (SignatureLine(y + lineOffset), y + lineAdvance)
  {
    if Truthy(sig) && StartsWith(sig.value, "data:image/") then
      if embeds(sig.value) then (SignatureImage(sig.value, y, imageHeight), y + imageAdvance)
      else (SignatureLine(y + lineOffset), y + lineAdvance)
    else (SignatureLine(y + lineOffset), y + lineAdvance)
  }

  /** `signatures?.avaliador || signature`: the evaluator signature, falling
      back to the legacy field. */
  function EvaluatorSignature(f: FormData): (sig: Option<string>)
    ensures f.signatures.Some? && Truthy(f.signatures.value.avaliador) ==> sig == f.signatures.value.avaliador
    ensures !(f.signatures.Some? && Truthy(f.signatures.value.avaliador)) ==> sig == f.signature
  {
    var structured := if f.signatures.Some? then f.signatures.value.avaliador else None;
    OrElse(structured, f.signature)
  }

  /** `n` copies of a character. */
  function Repeat(c: char, n: nat): (s: string)
    ensures |s| == n && forall i :: 0 <= i < n ==> s[i] == c
  {
    if n == 0 then [] else [c] + Repeat(c, n - 1)
  }

  /** The placeholder printed for a blank evaluator name or institution: 33 underscores. */
  function BlankName(): string {
    Repeat('_', 33)
  }

  /** `name && name.trim() ? name : BlankName` */
  function OrBlank(s: string): (r: string)
    ensures HasVisibleText(r)
    ensures HasVisibleText(s) ==> r == s
    ensures !HasVisibleText(s) ==> r == BlankName()
  {
    if HasVisibleText(s) then s
    else
      assert !IsSpace(BlankName()[0]);
      BlankName()
  }

  /** `addEvaluatorSignature`: title, signature mark, name and institution
      (placeholders when blank), and the dated place line. */
  function EvaluatorSignatureBlock(y: int, f: FormData, wrap: Wrap, embeds: Embeds): (b: Block)
    ensures OnPage(b.ops) && ImagesValid(b.ops)
    ensures |b.ops| == 5 && b.ops[0] == Heading(EvaluatorTitle, y)
    ensures b.ops[1] ==
      if Embeddable(EvaluatorSignature(f), embeds) then SignatureImage(EvaluatorSignature(f).value, y + 15, 20)
      else SignatureLine(y + 30)
    ensures b.ops[2].TextLine? && HasVisibleText(b.ops[2].line.value)
    ensures b.ops[3].TextLine? && HasVisibleText(b.ops[3].line.value)
    ensures b.ops[4] == PlaceDate(f.evaluationDate, b.y)
    ensures b.ops[2].line == Line(Plain, OrBlank(f.evaluatorInfo.name))
    ensures b.ops[3].line == Line(Plain, OrBlank(f.evaluatorInfo.institution))
  {
    var (mark, y1) := Mark(EvaluatorSignature(f), embeds, y + 15, 20, 25, 15, 20);
    var name := Line(Plain, OrBlank(f.evaluatorInfo.name));
    var institution := Line(Plain, OrBlank(f.evaluatorInfo.institution));
    var y2 := y1 + 5 * wrap(name);
    var y3 := y2 + 5 * wrap(institution) + 15;
    Block([Heading(EvaluatorTitle, y), mark, TextLine(name, y1), TextLine(institution, y2),
           PlaceDate(f.evaluationDate, y3)], y3)
  }

  /** The evaluator's section prints no signer caption, and exactly two
      plain lines: the name and the institution, each replaced by the
      placeholder when blank. */
  lemma EvaluatorSignaturePrints(y: int, f: FormData, wrap: Wrap, embeds: Embeds)
    ensures var b := EvaluatorSignatureBlock(y, f, wrap, embeds);
      && Captions(b.ops) == []
      && PlainTexts(b.ops) == [OrBlank(f.evaluatorInfo.name), OrBlank(f.evaluatorInfo.institution)]
  {
    var ops := EvaluatorSignatureBlock(y, f, wrap, embeds).ops;
    var name, institution := OrBlank(f.evaluatorInfo.name), OrBlank(f.evaluatorInfo.institution);
    assert Captions([ops[0]]) == [] && PlainTexts([ops[0]]) == [] by {
      assert ops[0].Heading?;
      PrintedOne(ops[0]);
    }
    assert Captions([ops[1]]) == [] && PlainTexts([ops[1]]) == [] by {
      assert ops[1].SignatureImage? || ops[1].SignatureLine?;
      PrintedOne(ops[1]);
    }
    assert Captions([ops[2]]) == [] && PlainTexts([ops[2]]) == [name] by {
      PrintedOne(ops[2]);
    }
    assert Captions([ops[3]]) == [] && PlainTexts([ops[3]]) == [institution] by {
      PrintedOne(ops[3]);
    }
    assert Captions([ops[4]]) == [] && PlainTexts([ops[4]]) == [] by {
      assert ops[4].PlaceDate?;
      PrintedOne(ops[4]);
    }
    PrintedFive(ops);
    assert [name] + ([institution] + []) == [name, institution];
  }

  /** One signer of the minutes. */
  datatype Signer = Signer(role: AtaRole, name: string, signature: Option<string>)

  /** The roles of the signers, in order. */
  function Roles(ss: seq<Signer>): seq<AtaRole> {
    seq(|ss|, i requires 0 <= i < |ss| => ss[i].role)
  }

  /** The names of the signers, in order. */
  function Names(ss: seq<Signer>): seq<string> {
    seq(|ss|, i requires 0 <= i < |ss| => ss[i].name)
  }

  /** `name || fallback` */
  function NameOr(name: string, fallback: string): (r: string)
    requires fallback != ""
    ensures r != ""
    ensures name != "" ==> r == name
    ensures name == "" ==> r == fallback
  {
    if name != "" then name else fallback
  }

  /** `info?.name || fallback` */
  function InfoNameOr(info: Option<EvaluatorInfo>, fallback: string): (r: string)
    requires fallback != ""
    ensures r != ""
    ensures info.Some? && info.value.name != "" ==> r == info.value.name
    ensures !(info.Some? && info.value.name != "") ==> r == fallback
  {
    NameOr(if info.Some? then info.value.name else "", fallback)
  }

  /** The signature record, empty when the form has none (`signatures?.x`). */
  function SignaturesOf(f: FormData): SignatureData {
    if f.signatures.Some? then f.signatures.value else SignatureData(None, None, None, None, None)
  }

  /** The four signers of the minutes, in order, each name falling back to a role name. */
  function AtaSigners(f: FormData): (s: seq<Signer>)
    ensures |s| == 4
    ensures s[0].role == AdvisorSigner && s[1].role == FirstExaminer
    ensures s[2].role == SecondExaminer && s[3].role == StudentSigner
    ensures forall i :: 0 <= i < 4 ==> s[i].name != ""
  {
    var sig := SignaturesOf(f);
    [ Signer(AdvisorSigner, NameOr(f.evaluatorInfo.name, RoleFallback(AdvisorSigner)), sig.orientador),
      Signer(FirstExaminer, InfoNameOr(f.evaluatorInfo2, RoleFallback(FirstExaminer)), sig.avaliador1),
      Signer(SecondExaminer, InfoNameOr(f.evaluatorInfo3, RoleFallback(SecondExaminer)), sig.avaliador2),
      Signer(StudentSigner, NameOr(f.studentInfo.name, RoleFallback(StudentSigner)), sig.estudante) ]
  }

  /** The roles of the minutes' signers, in order. */
  lemma AtaSignerRoles(f: FormData)
    ensures Roles(AtaSigners(f)) == [AdvisorSigner, FirstExaminer, SecondExaminer, StudentSigner]
  {
    var s := AtaSigners(f);
    assert Roles(s)[0] == AdvisorSigner && Roles(s)[1] == FirstExaminer;
    assert Roles(s)[2] == SecondExaminer && Roles(s)[3] == StudentSigner;
  }

  /** The y a signer block starts at: a block that would start below 240 mm
      opens a new page and starts at 20 mm. */
  function BlockTop(y: int): (top: int)
    ensures top <= 240
    ensures y <= 240 ==> top == y
  {
    if y > 240 then TopY else y
  }

  /** A signer's caption, signature mark and name, from `top` down. */
  function SignerBody(top: int, s: Signer, wrap: Wrap, embeds: Embeds): (b: Block)
    ensures OnPage(b.ops) && ImagesValid(b.ops)
    ensures |b.ops| == 3 && b.ops[0] == TextLine(Line(SignerCaption(s.role), ""), top)
    ensures b.ops[1] ==
      var below := top + 5 * wrap(Line(SignerCaption(s.role), "")) + 3;
      if Embeddable(s.signature, embeds) then SignatureImage(s.signature.value, below, 15)
      else SignatureLine(below + 10)
    ensures b.ops[2].TextLine? && b.ops[2].line == Line(Plain, s.name)
  {
    var caption := Line(SignerCaption(s.role), "");
    var (mark, y2) := Mark(s.signature, embeds, top + 5 * wrap(caption) + 3, 15, 20, 10, 15);
    var name := Line(Plain, s.name);
    Block([TextLine(caption, top), mark, TextLine(name, y2)], y2 + 5 * wrap(name) + 15)
  }

  /** A signer's body prints the signer's caption and name, once each. */
  lemma SignerBodyPrints(top: int, s: Signer, wrap: Wrap, embeds: Embeds)
    ensures var b := SignerBody(top, s, wrap, embeds);
      Captions(b.ops) == [s.role] && PlainTexts(b.ops) == [s.name]
  {
    var ops := SignerBody(top, s, wrap, embeds).ops;
    assert Captions([ops[0]]) == [s.role] && PlainTexts([ops[0]]) == [] by {
      PrintedOne(ops[0]);
    }
    assert Captions([ops[1]]) == [] && PlainTexts([ops[1]]) == [] by {
      assert ops[1].SignatureImage? || ops[1].SignatureLine?;
      PrintedOne(ops[1]);
    }
    assert Captions([ops[2]]) == [] && PlainTexts([ops[2]]) == [s.name] by {
      PrintedOne(ops[2]);
    }
    PrintedThree(ops);
  }

  /** One signer block of the minutes: a bare page break when the cursor is
      below 240 mm, then the signer's caption, mark and name. */
  function SignerBlock(y: int, s: Signer, wrap: Wrap, embeds: Embeds): (b: Block)
    ensures PageBreaks(b.ops) == (if y > 240 then 1 else 0)
    ensures ImagesValid(b.ops)
    ensures |b.ops| >= 3 && b.ops[|b.ops| - 3..] == SignerBody(BlockTop(y), s, wrap, embeds).ops
    ensures Captions(b.ops) == [s.role] && PlainTexts(b.ops) == [s.name]
  {
    var pb := BareBreak(y, 240);
    var body := SignerBody(pb.y, s, wrap, embeds);
    BareBreakPrintsNothing(y, 240);
    SignerBodyPrints(pb.y, s, wrap, embeds);
    PrintedAppend(pb.ops, body.ops);
    OnPageNoBreaks(body.ops);
    PageBreaksAppend(pb.ops, body.ops);
    ImagesConcat(pb.ops, body.ops);
    assert (pb.ops + body.ops)[|pb.ops|..] == body.ops;
    Block(pb.ops + body.ops, body.y)
  }

  /** The signer blocks in order, then 10 mm of space and the dated place line. */
  function SignerBlocks(y: int, signers: seq<Signer>, date: string, wrap: Wrap, embeds: Embeds): (b: Block)
    ensures PageBreaks(b.ops) <= |signers|
    ensures ImagesValid(b.ops)
    ensures |b.ops| > 0 && b.ops[|b.ops| - 1] == PlaceDate(date, b.y)
    decreases |signers|
  {
    if |signers| == 0 then
      var dateLine := [PlaceDate(date, y + 10)];
      OnPageNoBreaks(dateLine);
      Block(dateLine, y + 10)
    else
      var first := SignerBlock(y, signers[0], wrap, embeds);
      var rest := SignerBlocks(first.y, signers[1..], date, wrap, embeds);
      PageBreaksAppend(first.ops, rest.ops);
      ImagesConcat(first.ops, rest.ops);
      Ends(first.ops, rest.ops);
      Block(first.ops + rest.ops, rest.y)
  }

  lemma RolesNamesCons(ss: seq<Signer>)
    requires |ss| > 0
    ensures Roles(ss) == [ss[0].role] + Roles(ss[1..])
    ensures Names(ss) == [ss[0].name] + Names(ss[1..])
  {
  }

  /** The signer blocks print one caption and one name per signer, in the
      order of the signers, and nothing else of either kind. */
  lemma {:induction false} SignerBlocksPrint(y: int, signers: seq<Signer>, date: string, wrap: Wrap, embeds: Embeds)
    ensures var b := SignerBlocks(y, signers, date, wrap, embeds);
      Captions(b.ops) == Roles(signers) && PlainTexts(b.ops) == Names(signers)
    decreases |signers|
  {
    if |signers| == 0 {
      PrintedOne(PlaceDate(date, y + 10));
    } else {
      var first := SignerBlock(y, signers[0], wrap, embeds);
      var rest := SignerBlocks(first.y, signers[1..], date, wrap, embeds);
      assert SignerBlocks(y, signers, date, wrap, embeds).ops == first.ops + rest.ops;
      SignerBlocksPrint(first.y, signers[1..], date, wrap, embeds);
      PrintedAppend(first.ops, rest.ops);
      RolesNamesCons(signers);
    }
  }

  /** The minutes' signature section from `top` down: the title, then the
      signer blocks 15 mm below it. */
  function AtaBody(top: int, signers: seq<Signer>, date: string, wrap: Wrap, embeds: Embeds): (b: Block)
    ensures PageBreaks(b.ops) <= |signers|
    ensures ImagesValid(b.ops)
    ensures |b.ops| >= 2 && b.ops[0] == Heading(SignaturesTitle, top)
    ensures b.ops[|b.ops| - 1] == PlaceDate(date, b.y)
  {
    var title := [Heading(SignaturesTitle, top)];
    var signed := SignerBlocks(top + 15, signers, date, wrap, embeds);
    OnPageNoBreaks(title);
    PageBreaksAppend(title, signed.ops);
    ImagesConcat(title, signed.ops);
    Ends(title, signed.ops);
    Block(title + signed.ops, signed.y)
  }

  /** `addAtaSignatures` for the given signers: a new page, without the short
      header, when the section would start below 150 mm; then the title, the
      signer blocks and the dated place line. */
  function AtaSignaturesBlock(y: int, signers: seq<Signer>, date: string, wrap: Wrap, embeds: Embeds): (b: Block)
    ensures var extra := if y > 150 then 1 else 0;
      extra <= PageBreaks(b.ops) <= extra + |signers|
    ensures ImagesValid(b.ops)
  {
    var pb := BareBreak(y, 150);
    var body := AtaBody(pb.y, signers, date, wrap, embeds);
    PageBreaksAppend(pb.ops, body.ops);
    ImagesConcat(pb.ops, body.ops);
    Block(pb.ops + body.ops, body.y)
  }

  /** The signatures section of the minutes prints its signers' captions and
      names in their order, after a title and before the dated place line. */
  lemma AtaBodyPrints(top: int, signers: seq<Signer>, date: string, wrap: Wrap, embeds: Embeds)
    ensures var b := AtaBody(top, signers, date, wrap, embeds);
      Captions(b.ops) == Roles(signers) && PlainTexts(b.ops) == Names(signers)
  {
    var signed := SignerBlocks(top + 15, signers, date, wrap, embeds);
    PrintedOne(Heading(SignaturesTitle, top));
    PrintedAppend([Heading(SignaturesTitle, top)], signed.ops);
    SignerBlocksPrint(top + 15, signers, date, wrap, embeds);
  }

  /** Whether or not it opens a page, `addAtaSignatures` prints the signers'
      captions and names in their order. */
  lemma AtaSignaturesPrint(y: int, signers: seq<Signer>, date: string, wrap: Wrap, embeds: Embeds)
    ensures var b := AtaSignaturesBlock(y, signers, date, wrap, embeds);
      Captions(b.ops) == Roles(signers) && PlainTexts(b.ops) == Names(signers)
  {
    var pb := BareBreak(y, 150);
    var body := AtaBody(pb.y, signers, date, wrap, embeds);
    BareBreakPrintsNothing(y, 150);
    AtaBodyPrints(pb.y, signers, date, wrap, embeds);
    PrintedAppend(pb.ops, body.ops);
  }

  /** The page break of the minutes opens a bare page: the title comes right
      after it at the top margin, with no short header in between. */
  lemma AtaSignaturesOpening(y: int, signers: seq<Signer>, date: string, wrap: Wrap, embeds: Embeds)
    ensures var b := AtaSignaturesBlock(y, signers, date, wrap, embeds);
      && (y > 150 ==> b.ops == [NewPage] + AtaBody(TopY, signers, date, wrap, embeds).ops)
      && (y <= 150 ==> b.ops == AtaBody(y, signers, date, wrap, embeds).ops)
  {
    var body := AtaBody(BareBreak(y, 150).y, signers, date, wrap, embeds);
    assert [] + body.ops == body.ops;
  }

  /** `addSignature`: 20 mm of space, one page check for 80 mm, then the
      variant's signature section. */
  function AddSignature(course: string, y: int, f: FormData, wrap: Wrap, embeds: Embeds): (b: Block)
    ensures f.kind != Ata ==> PageBreaks(b.ops) <= 1
    ensures f.kind == Ata ==> PageBreaks(b.ops) <= 6
    ensures ImagesValid(b.ops)
    ensures f.kind != Ata && course != "" ==> Headed(course, b.ops)
  {
    var pb := CheckPageBreak(course, y + 20, 80);
    if f.kind == Ata then
      var section := AtaSignaturesBlock(pb.y, AtaSigners(f), f.evaluationDate, wrap, embeds);
      PageBreaksAppend(pb.ops, section.ops);
      ImagesConcat(pb.ops, section.ops);
      Block(pb.ops + section.ops, section.y)
    else
      var section := EvaluatorSignatureBlock(pb.y, f, wrap, embeds);
      OnPageNoBreaks(section.ops);
      Concat(course, pb.ops, section.ops);
      Block(pb.ops + section.ops, section.y)
  }

  /** The operations of `addSignature`: the page check, then the variant's section. */
  lemma SignatureOps(course: string, y: int, f: FormData, wrap: Wrap, embeds: Embeds)
    ensures var pb := CheckPageBreak(course, y + 20, 80);
      var section :=
        if f.kind == Ata then AtaSignaturesBlock(pb.y, AtaSigners(f), f.evaluationDate, wrap, embeds)
        else EvaluatorSignatureBlock(pb.y, f, wrap, embeds);
      AddSignature(course, y, f, wrap, embeds).ops == pb.ops + section.ops
  {
  }

  /** The signature section of the minutes prints the four captions in the
      order advisor, first examiner, second examiner, student, and the four
      signers' names in the same order. */
  lemma MinutesSignaturePrints(course: string, y: int, f: FormData, wrap: Wrap, embeds: Embeds)
    requires f.kind == Ata
    ensures var b := AddSignature(course, y, f, wrap, embeds);
      && Captions(b.ops) == [AdvisorSigner, FirstExaminer, SecondExaminer, StudentSigner]
      && PlainTexts(b.ops) == Names(AtaSigners(f))
  {
    var pb := CheckPageBreak(course, y + 20, 80);
    PageCheckPrintsNothing(course, y + 20, 80);
    var signers := AtaSigners(f);
    var section := AtaSignaturesBlock(pb.y, signers, f.evaluationDate, wrap, embeds);
    SignatureOps(course, y, f, wrap, embeds);
    AtaSignaturesPrint(pb.y, signers, f.evaluationDate, wrap, embeds);
    PrintedAppend(pb.ops, section.ops);
    AtaSignerRoles(f);
  }

  /** The evaluation forms' signature section prints no caption and only the
      evaluator's name and institution. */
  lemma EvaluatorFormSignaturePrints(course: string, y: int, f: FormData, wrap: Wrap, embeds: Embeds)
    requires f.kind != Ata
    ensures var b := AddSignature(course, y, f, wrap, embeds);
      && Captions(b.ops) == []
      && PlainTexts(b.ops) == [OrBlank(f.evaluatorInfo.name), OrBlank(f.evaluatorInfo.institution)]
  {
    var pb := CheckPageBreak(course, y + 20, 80);
    PageCheckPrintsNothing(course, y + 20, 80);
    var section := EvaluatorSignatureBlock(pb.y, f, wrap, embeds);
    SignatureOps(course, y, f, wrap, embeds);
    EvaluatorSignaturePrints(pb.y, f, wrap, embeds);
    PrintedAppend(pb.ops, section.ops);
  }

  // ------------------------------------------------------ what is printed

  /** The header prints no caption and no plain line. */
  lemma HeaderPrintsNone(t: FormType, course: string)
    ensures Captions(HeaderOps(t, course)) == [] && PlainTexts(HeaderOps(t, course)) == []
  {
    LabelledPrintsNone(HeaderOps(t, course));
  }

  /** Every line of the student block carries its field label. */
  lemma StudentInfoPrintsNone(s: StudentInfo, date: string, wrap: Wrap)
    ensures var b := StudentInfoBlock(s, date, wrap);
      Captions(b.ops) == [] && PlainTexts(b.ops) == []
  {
    var ops := StudentInfoBlock(s, date, wrap).ops;
    assert Labelled(ops);
    LabelledPrintsNone(ops);
  }

  /** The table body prints no text line at all. */
  lemma TableBodyPrintsNone(top: int, cs: seq<Criterion>, entries: seq<EvaluationScore>)
    ensures Captions(TableBody(top, cs, entries)) == [] && PlainTexts(TableBody(top, cs, entries)) == []
  {
    var ops := TableBody(top, cs, entries);
    forall i | 0 <= i < |ops|
      ensures !ops[i].TextLine?
    {
      if 2 <= i < |cs| + 2 {
        assert ops[i] == ops[2..|cs| + 2][i - 2];
      }
    }
    LabelledPrintsNone(ops);
  }

  /** The evaluation table, after its page check, prints no text line at all. */
  lemma TablePrintsNone(course: string, y: int, cs: seq<Criterion>, entries: seq<EvaluationScore>)
    ensures var b := TableBlock(course, y, cs, entries);
      Captions(b.ops) == [] && PlainTexts(b.ops) == []
  {
    var pb := CheckPageBreak(course, y, TableHeight(|cs|));
    var body := TableBody(pb.y, cs, entries);
    assert TableBlock(course, y, cs, entries).ops == pb.ops + body;
    PageCheckPrintsNothing(course, y, TableHeight(|cs|));
    TableBodyPrintsNone(pb.y, cs, entries);
    PrintedAppend(pb.ops, body);
  }

  /** The comments section prints the comment text as its one plain line,
      and nothing when the comments are absent or empty. */
  lemma CommentsPrint(course: string, y: int, comments: Option<string>, wrap: Wrap)
    ensures var b := AddComments(course, y, comments, wrap);
      && Captions(b.ops) == []
      && PlainTexts(b.ops) == if Truthy(comments) then [comments.value] else []
  {
    if Truthy(comments) {
      var pb1 := CheckPageBreak(course, y, 30);
      var heading := Heading(Observations, pb1.y);
      var line := Line(Plain, comments.value);
      var h := 5 * wrap(line);
      var pb2 := CheckPageBreak(course, pb1.y + 10, h);
      var text := TextLine(line, pb2.y);
      CommentsOps(course, y, comments, wrap);
      assert Captions(pb1.ops) == [] && PlainTexts(pb1.ops) == [] by {
        PageCheckPrintsNothing(course, y, 30);
      }
      assert Captions(pb2.ops) == [] && PlainTexts(pb2.ops) == [] by {
        PageCheckPrintsNothing(course, pb1.y + 10, h);
      }
      assert Captions([heading]) == [] && PlainTexts([heading]) == [] by {
        PrintedOne(heading);
      }
      assert Captions([text]) == [] && PlainTexts([text]) == [comments.value] by {
        PrintedOne(text);
      }
      PrintedFour(pb1.ops, [heading], pb2.ops, [text]);
    }
  }

  /** The signer captions of a whole document: the minutes print the four
      signer captions in order (advisor, first examiner, second examiner,
      student) and nowhere else; the evaluation forms print none. */
  lemma DocumentCaptions(f: FormData, wrap: Wrap, embeds: Embeds, ms: nat)
    ensures Captions(GenerateFormPdf(f, wrap, embeds, ms).trace)
      == if f.kind == Ata then [AdvisorSigner, FirstExaminer, SecondExaminer, StudentSigner] else []
  {
    DocumentParts(f, wrap, embeds, ms);
    var course := CourseCode(f.studentInfo.course);
    var student := StudentInfoBlock(f.studentInfo, f.evaluationDate, wrap);
    var table := AddEvaluationTable(course, student.y, f.kind, f.scores);
    var comments := AddComments(course, table.y, f.generalComments, wrap);
    CommentsPrint(course, table.y, f.generalComments, wrap);
    if f.kind == Ata {
      MinutesSignaturePrints(course, comments.y, f, wrap, embeds);
    } else {
      EvaluatorFormSignaturePrints(course, comments.y, f, wrap, embeds);
    }
  }

  /** The plain lines of a whole document: the comments when present, then
      the four signers' names for the minutes, or the evaluator's name and
      institution for the evaluation forms. */
  lemma DocumentPlainLines(f: FormData, wrap: Wrap, embeds: Embeds, ms: nat)
    ensures PlainTexts(GenerateFormPdf(f, wrap, embeds, ms).trace)
      == (if Truthy(f.generalComments) then [f.generalComments.value] else [])
         + (if f.kind == Ata then Names(AtaSigners(f))
            else [OrBlank(f.evaluatorInfo.name), OrBlank(f.evaluatorInfo.institution)])
  {
    DocumentParts(f, wrap, embeds, ms);
    var course := CourseCode(f.studentInfo.course);
    var student := StudentInfoBlock(f.studentInfo, f.evaluationDate, wrap);
    var table := AddEvaluationTable(course, student.y, f.kind, f.scores);
    var comments := AddComments(course, table.y, f.generalComments, wrap);
    CommentsPrint(course, table.y, f.generalComments, wrap);
    if f.kind == Ata {
      MinutesSignaturePrints(course, comments.y, f, wrap, embeds);
    } else {
      EvaluatorFormSignaturePrints(course, comments.y, f, wrap, embeds);
    }
  }

  /** What five traces print, the later ones nested to the right. */
  lemma PrintedNested(a: seq<DrawOp>, b: seq<DrawOp>, c: seq<DrawOp>, d: seq<DrawOp>, e: seq<DrawOp>)
    ensures Captions(a + (b + (c + (d + e)))) == Captions(a) + (Captions(b) + (Captions(c) + (Captions(d) + Captions(e))))
    ensures PlainTexts(a + (b + (c + (d + e)))) == PlainTexts(a) + (PlainTexts(b) + (PlainTexts(c) + (PlainTexts(d) + PlainTexts(e))))
  {
    PrintedAppend(d, e);
    PrintedAppend(c, d + e);
    PrintedAppend(b, c + (d + e));
    PrintedAppend(a, b + (c + (d + e)));
  }

  /** The trace of a document, section by section. */
  lemma DocumentTrace(f: FormData, wrap: Wrap, embeds: Embeds, ms: nat)
    ensures var course := CourseCode(f.studentInfo.course);
      var student := StudentInfoBlock(f.studentInfo, f.evaluationDate, wrap);
      var table := AddEvaluationTable(course, student.y, f.kind, f.scores);
      var comments := AddComments(course, table.y, f.generalComments, wrap);
      var signature := AddSignature(course, comments.y, f, wrap, embeds);
      GenerateFormPdf(f, wrap, embeds, ms).trace
        == HeaderOps(f.kind, course) + (student.ops + (table.ops + (comments.ops + signature.ops)))
  {
  }

  /** The trace of a document printed section by section. */
  lemma DocumentParts(f: FormData, wrap: Wrap, embeds: Embeds, ms: nat)
    ensures var course := CourseCode(f.studentInfo.course);
      var student := StudentInfoBlock(f.studentInfo, f.evaluationDate, wrap);
      var table := AddEvaluationTable(course, student.y, f.kind, f.scores);
      var comments := AddComments(course, table.y, f.generalComments, wrap);
      var signature := AddSignature(course, comments.y, f, wrap, embeds);
      var trace := GenerateFormPdf(f, wrap, embeds, ms).trace;
      && Captions(trace) == Captions(signature.ops)
      && PlainTexts(trace) == PlainTexts(comments.ops) + PlainTexts(signature.ops)
  {
    var course := CourseCode(f.studentInfo.course);
    var header := HeaderOps(f.kind, course);
    var student := StudentInfoBlock(f.studentInfo, f.evaluationDate, wrap);
    var table := AddEvaluationTable(course, student.y, f.kind, f.scores);
    var comments := AddComments(course, table.y, f.generalComments, wrap);
    var signature := AddSignature(course, comments.y, f, wrap, embeds);
    DocumentTrace(f, wrap, embeds, ms);
    HeaderPrintsNone(f.kind, course);
    StudentInfoPrintsNone(f.studentInfo, f.evaluationDate, wrap);
    TablePrintsNone(course, student.y, Criteria(f.kind), f.scores);
    CommentsPrint(course, table.y, f.generalComments, wrap);
    PrintedNested(header, student.ops, table.ops, comments.ops, signature.ops);
  }

  /** `generateFormPDF`: header, student block (for every variant, the
      minutes included), table, comments, signatures, and the file name. */
  function GenerateFormPdf(f: FormData, wrap: Wrap, embeds: Embeds, ms: nat): (d: Document)
    ensures d.course == CourseCode(f.studentInfo.course)
    ensures ImagesValid(d.trace)
    ensures f.kind != Ata ==> Headed(d.course, d.trace) && Pages(d) <= 5
    ensures f.kind == Ata ==> Pages(d) <= 10
    ensures |d.trace| >= 5 && d.trace[3] == TitleLine(f.kind, 50)
    ensures NoSpace(d.fileName) && StartsWith(d.fileName, FormTypeName(f.kind) + "_")
  {
    var course := CourseCode(f.studentInfo.course);
    var header := HeaderOps(f.kind, course);
    var student := StudentInfoBlock(f.studentInfo, f.evaluationDate, wrap);
    var table := AddEvaluationTable(course, student.y, f.kind, f.scores);
    var comments := AddComments(course, table.y, f.generalComments, wrap);
    var signature := AddSignature(course, comments.y, f, wrap, embeds);
    var tail := comments.ops + signature.ops;
    var body := student.ops + (table.ops + tail);
    var trace := header + body;
    Concat(course, comments.ops, signature.ops);
    Concat(course, table.ops, tail);
    OnPageNoBreaks(student.ops);
    Concat(course, student.ops, table.ops + tail);
    OnPageNoBreaks(header);
    Concat(course, header, body);
    Document(course, trace, FileName(f.kind, f.studentInfo.name, ms))
  }
}
