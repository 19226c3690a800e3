/**
  The text the PDF generator computes before drawing: the timezone-free date
  rewrite from `YYYY-MM-DD` (the ISO 8601 extended calendar date of section
  4.1.2.2 of ISO 8601:2004, optionally followed by a `T...` time) to
  `DD/MM/YYYY`, the download file name, and the final-score cell of the
  evaluation table, which the generator recomputes with its own copy of the
  on-screen formula.
 */
module PdfFormat {
  import opened Common
  import opened Forms
  import opened Scoring

  // ---------------------------------------------------------------- dates

  /** `d.includes('T') ? d.split('T')[0] : d`: the text before the first 'T'. */
  function DatePart(date: string): (r: string)
    ensures 'T' !in r
    ensures 'T' !in date ==> r == date
    ensures 'T' in date ==> |r| < |date| && date[..|r|] == r && date[|r|] == 'T'
  {
    if 'T' in date then SplitFirstPiece(date, 'T'); Split(date, 'T')[0]
    else SplitNoSeparator(date, 'T'); date
  }

  /** Destructuring `const [year, month, day] = parts`: a missing element is
      `undefined`, which the template literal prints as "undefined". */
  function Field(parts: seq<string>, i: nat): string {
    if i < |parts| then parts[i] else "undefined"
  }

  /** The `day/month/year` rewrite by string splitting (no date parsing). */
  function FormatDate(date: string): string {
    var parts := Split(DatePart(date), '-');
    Field(parts, 2) + "/" + Field(parts, 1) + "/" + Field(parts, 0)
  }

  /** The date line of both signature blocks: a placeholder for an empty date. */
  function SignatureDateLine(date: string): string {
    "Santa Maria, " + (if date == "" then "___/___/______" else FormatDate(date))
  }

  /** The date line of the student-information block: no placeholder. */
  function StudentDateLine(date: string): string {
    "Data da Avaliação: " + FormatDate(date)
  }

  lemma {:induction false} SplitFirstPart(a: string, b: string, sep: char)
    requires sep !in a
    ensures Split(a + [sep] + b, sep)[0] == a
    decreases |a|
  {
    var s := a + [sep] + b;
    if |a| == 0 {
      assert s[0] == sep;
    } else {
      assert s[1..] == a[1..] + [sep] + b;
      assert a[0] != sep by { assert a[0] in a; }
      SplitFirstPart(a[1..], b, sep);
      assert [a[0]] + a[1..] == a;
    }
  }

  /** Any `YYYY-MM-DD` date, with or without a `T...` time suffix, becomes
      `DD/MM/YYYY`: the three fields are moved, never reinterpreted. */
  lemma FormatIsoDate(year: string, month: string, day: string, time: string)
    requires '-' !in year && '-' !in month && '-' !in day
    requires 'T' !in year && 'T' !in month && 'T' !in day
    requires time == "" || time[0] == 'T'
    ensures FormatDate(year + "-" + month + "-" + day + time) == day + "/" + month + "/" + year
  {
    var ymd := year + "-" + month + "-" + day;
    assert 'T' !in ymd;
    if time == "" {
      assert ymd + time == ymd;
    } else {
      assert ymd + time == ymd + ['T'] + time[1..];
      SplitFirstPart(ymd, time[1..], 'T');
    }
    assert DatePart(ymd + time) == ymd;
    var parts := [year, month, day];
    assert Join(parts[2..], '-') == day;
    assert Join(parts[1..], '-') == month + "-" + day;
    assert Join(parts, '-') == ymd;
    SplitJoin(parts, '-');
  }

  /** 2025-03-05 prints as 05/03/2025, with or without a time: the time is dropped. */
  lemma DateExample()
    ensures FormatDate("2025" + "-" + "03" + "-" + "05" + "") == "05" + "/" + "03" + "/" + "2025"
    ensures FormatDate("2025" + "-" + "03" + "-" + "05" + "T10:00:00Z") == "05" + "/" + "03" + "/" + "2025"
  {
    FormatIsoDate("2025", "03", "05", "");
    FormatIsoDate("2025", "03", "05", "T10:00:00Z");
  }

  /** The signature blocks print a placeholder for an empty date and the
      rewritten date otherwise. */
  lemma SignatureDateCases(date: string)
    ensures date == "" ==> SignatureDateLine(date) == "Santa Maria, ___/___/______"
    ensures date != "" ==> SignatureDateLine(date) == "Santa Maria, " + FormatDate(date)
  {
  }

  /** The signature blocks print an ISO date as `DD/MM/YYYY` after the place name. */
  lemma SignatureDateOfIsoDate(year: string, month: string, day: string, time: string)
    requires '-' !in year && '-' !in month && '-' !in day
    requires 'T' !in year && 'T' !in month && 'T' !in day
    requires time == "" || time[0] == 'T'
    ensures SignatureDateLine(year + "-" + month + "-" + day + time) == "Santa Maria, " + (day + "/" + month + "/" + year)
  {
    var date := year + "-" + month + "-" + day + time;
    assert date != "" by { assert |date| >= 2; }
    FormatIsoDate(year, month, day, time);
    SignatureDateCases(date);
  }

  /** The student block prints an ISO date as `DD/MM/YYYY` after its label. */
  lemma StudentDateOfIsoDate(year: string, month: string, day: string, time: string)
    requires '-' !in year && '-' !in month && '-' !in day
    requires 'T' !in year && 'T' !in month && 'T' !in day
    requires time == "" || time[0] == 'T'
    ensures StudentDateLine(year + "-" + month + "-" + day + time) == "Data da Avaliação: " + (day + "/" + month + "/" + year)
  {
    FormatIsoDate(year, month, day, time);
  }

  /** The student block has no empty-date guard: an empty date prints
      "undefined/undefined/". */
  lemma StudentDateOfEmptyDate()
    ensures StudentDateLine("") == "Data da Avaliação: undefined/undefined/"
  {
    assert Split("", '-') == [""];
  }

  // ------------------------------------------------------------ file name

  /** Drops a leading run of white space. */
  function SkipSpaces(s: string): (r: string)
    ensures |r| <= |s| && r == s[|s| - |r|..]
    ensures |r| == 0 || !IsSpace(r[0])
  {
    if |s| > 0 && IsSpace(s[0]) then SkipSpaces(s[1..]) else s
  }

  /** `s.replace(/\s+/g, '_')`: every maximal run of white space becomes one '_'. */
  function Underscored(s: string): (r: string)
    ensures NoSpace(r)
    ensures |r| <= |s|
    decreases |s|
  {
    if |s| == 0 then ""
    else if IsSpace(s[0]) then "_" + Underscored(SkipSpaces(s[1..]))
    else [s[0]] + Underscored(s[1..])
  }

  /** The characters that are neither white space nor '_', in order. */
  function Visible(s: string): string {
    if |s| == 0 then ""
    else if IsSpace(s[0]) || s[0] == '_' then Visible(s[1..])
    else [s[0]] + Visible(s[1..])
  }

  lemma {:induction false} VisibleSkipSpaces(s: string)
    ensures Visible(SkipSpaces(s)) == Visible(s)
    decreases |s|
  {
    if |s| > 0 && IsSpace(s[0]) {
      VisibleSkipSpaces(s[1..]);
    }
  }

  /** The rewrite keeps every visible character of the name, in order. */
  lemma {:induction false} UnderscoredKeepsVisible(s: string)
    ensures Visible(Underscored(s)) == Visible(s)
    decreases |s|
  {
    if |s| > 0 {
      if IsSpace(s[0]) {
        var rest := SkipSpaces(s[1..]);
        UnderscoredKeepsVisible(rest);
        VisibleSkipSpaces(s[1..]);
        assert ("_" + Underscored(rest))[1..] == Underscored(rest);
      } else {
        UnderscoredKeepsVisible(s[1..]);
        assert ([s[0]] + Underscored(s[1..]))[1..] == Underscored(s[1..]);
      }
    }
  }

  /** A name without white space is used unchanged. */
  lemma {:induction false} UnderscoredIdentity(s: string)
    requires NoSpace(s)
    ensures Underscored(s) == s
    decreases |s|
  {
    if |s| > 0 {
      assert !IsSpace(s[0]);
      UnderscoredIdentity(s[1..]);
      assert [s[0]] + s[1..] == s;
    }
  }

  /** Skipping spaces consumes a whole run of white space and nothing after it. */
  lemma {:induction false} SkipSpacesRun(w: string, b: string)
    requires forall i :: 0 <= i < |w| ==> IsSpace(w[i])
    requires |b| == 0 || !IsSpace(b[0])
    ensures SkipSpaces(w + b) == b
    decreases |w|
  {
    if |w| > 0 {
      assert (w + b)[0] == w[0];
      assert (w + b)[1..] == w[1..] + b;
      SkipSpacesRun(w[1..], b);
    } else {
      assert w + b == b;
    }
  }

  /** A run of white space after a word becomes exactly one '_', and the
      rest of the name is rewritten on its own. */
  lemma {:induction false} UnderscoredRun(a: string, w: string, b: string)
    requires NoSpace(a)
    requires |w| > 0 && forall i :: 0 <= i < |w| ==> IsSpace(w[i])
    requires |b| == 0 || !IsSpace(b[0])
    ensures Underscored(a + w + b) == a + ("_" + Underscored(b))
    decreases |a|
  {
    var s := a + w + b;
    if |a| == 0 {
      assert s == w + b;
      assert s[0] == w[0];
      assert s[1..] == w[1..] + b;
      SkipSpacesRun(w[1..], b);
    } else {
      var tail := "_" + Underscored(b);
      assert s[0] == a[0] && !IsSpace(a[0]);
      assert s[1..] == a[1..] + w + b;
      assert Underscored(s) == [a[0]] + Underscored(a[1..] + w + b);
      UnderscoredRun(a[1..], w, b);
      assert [a[0]] + (a[1..] + tail) == ([a[0]] + a[1..]) + tail;
      assert [a[0]] + a[1..] == a;
    }
  }

  lemma FormTypeNameNoSpace(t: FormType)
    ensures NoSpace(FormTypeName(t))
  {
    var name := FormTypeName(t);
    FormTypeNameSnakeCase(t);
    forall i | 0 <= i < |name|
      ensures !IsSpace(name[i])
    {
      assert 'a' <= name[i] <= 'z' || name[i] == '_';
    }
  }

  lemma NoSpaceConcat(a: string, b: string)
    requires NoSpace(a) && NoSpace(b)
    ensures NoSpace(a + b)
  {
    forall i | 0 <= i < |a + b|
      ensures !IsSpace((a + b)[i])
    {
      if i < |a| {
        assert (a + b)[i] == a[i];
      } else {
        assert (a + b)[i] == b[i - |a|];
      }
    }
  }

  lemma NoSpaceFileName(kind: string, name: string, stamp: string)
    requires NoSpace(kind) && NoSpace(name) && NoSpace(stamp)
    ensures NoSpace(kind + "_" + name + "_" + stamp + ".pdf")
  {
    NoSpaceConcat(kind, "_");
    NoSpaceConcat(kind + "_", name);
    NoSpaceConcat(kind + "_" + name, "_");
    NoSpaceConcat(kind + "_" + name + "_", stamp);
    NoSpaceConcat(kind + "_" + name + "_" + stamp, ".pdf");
  }

  /** `kind_name_digits.pdf`, with the position of each part. */
  function Assemble(kind: string, name: string, digits: string): (r: string)
    ensures StartsWith(r, kind + "_")
    ensures |r| == |kind| + |name| + |digits| + 6
    ensures r[|kind| + 1..|r| - 5 - |digits|] == name
    ensures r[|r| - 5 - |digits|] == '_'
    ensures r[|r| - 4 - |digits|..|r| - 4] == digits
    ensures r[|r| - 4..] == ".pdf"
    ensures NoSpace(kind) && NoSpace(name) && NoSpace(digits) ==> NoSpace(r)
  {
    var head := kind + "_" + name + "_";
    var r := head + digits + ".pdf";
    assert r[..|kind| + 1] == kind + "_";
    assert r[|kind| + 1..|head| - 1] == name;
    assert r[|head|..|head| + |digits|] == digits;
    assert r[|r| - 4..] == ".pdf";
    if NoSpace(kind) && NoSpace(name) && NoSpace(digits) then NoSpaceFileName(kind, name, digits); r
    else r
  }

  /** The download name `type_name-with-underscores_ms.pdf`. */
  function FileName(t: FormType, studentName: string, ms: nat): (r: string)
    ensures NoSpace(r)
    ensures StartsWith(r, FormTypeName(t) + "_")
    ensures |r| >= 4 + |Decimal(ms)| && r[|r| - 4..] == ".pdf"
    ensures r[|r| - 4 - |Decimal(ms)|..|r| - 4] == Decimal(ms)
    ensures |r| >= |FormTypeName(t)| + 2 + |Decimal(ms)| + 4
    ensures r[|FormTypeName(t)| + 1..|r| - 5 - |Decimal(ms)|] == Underscored(studentName)
    ensures r[|r| - 5 - |Decimal(ms)|] == '_'
  {
    FormTypeNameNoSpace(t);
    Assemble(FormTypeName(t), Underscored(studentName), Decimal(ms))
  }

  /** The timestamp can be read back from the end of the file name. */
  lemma FileNameTimestamp(t: FormType, studentName: string, ms: nat)
    ensures var r := FileName(t, studentName, ms);
      var stamp := r[|r| - 4 - |Decimal(ms)|..|r| - 4];
      AllDigits(stamp) && DecimalValue(stamp) == ms
  {
    DecimalRoundTrip(ms);
  }

  // ------------------------------------------------------ table total

  /** `scores.find(s => s.criteriaId === id)?.score || 0`: the first entry wins. */
  function RowScore(entries: seq<EvaluationScore>, id: string): real {
    if |entries| == 0 then 0.0
    else if entries[0].criteriaId == id then entries[0].score
    else RowScore(entries[1..], id)
  }

  /** The record an entry list stands for (the first entry for an id wins);
      the form page builds the list from the record with `Object.entries`. */
  function AsRecord(entries: seq<EvaluationScore>): (m: ScoreRecord)
    ensures forall id :: id in m <==> exists i :: 0 <= i < |entries| && entries[i].criteriaId == id
  {
    if |entries| == 0 then map[]
    else
      var rest := AsRecord(entries[1..]);
      assert forall i :: 1 <= i < |entries| ==> entries[i] == entries[1..][i - 1];
      rest[entries[0].criteriaId := entries[0].score]
  }

  /** The generator's loop: the capped total and the maximum total. */
  function TableTotals(cs: seq<Criterion>, entries: seq<EvaluationScore>): (real, real) {
    if |cs| == 0 then (0.0, 0.0)
    else
      var rest := TableTotals(cs[1..], entries);
      (Capped(RowScore(entries, cs[0].id()), cs[0].maxScore) + rest.0, cs[0].maxScore + rest.1)
  }

  /** The final-score cell: `toFixed(1)` of the normalised score, or the
      literal "0.0" when the maximum total is not positive. */
  datatype TotalText = ZeroText | Fixed1(value: real)

  function TotalCell(cs: seq<Criterion>, entries: seq<EvaluationScore>): TotalText {
    var (total, maxTotal) := TableTotals(cs, entries);
    if maxTotal > 0.0 then Fixed1((total / maxTotal) * 10.0) else ZeroText
  }

  /** Looking a criterion up in the list agrees with looking it up in the record. */
  lemma {:induction false} RowScoreMatchesRecord(entries: seq<EvaluationScore>, id: string)
    ensures RowScore(entries, id) == StoredScore(AsRecord(entries), id)
    decreases |entries|
  {
    if |entries| > 0 && entries[0].criteriaId != id {
      RowScoreMatchesRecord(entries[1..], id);
    }
  }

  lemma {:induction false} TableTotalsMatchCalculator(cs: seq<Criterion>, entries: seq<EvaluationScore>)
    ensures TableTotals(cs, entries).0 == TotalScore(cs, AsRecord(entries))
    ensures TableTotals(cs, entries).1 == SumMaxScores(cs)
  {
    if |cs| > 0 {
      TableTotalsMatchCalculator(cs[1..], entries);
      RowScoreMatchesRecord(entries, cs[0].id());
    }
  }

  /** The two copies of the formula agree: the PDF cell shows the on-screen
      final score of the same scores, and "0.0" exactly when the on-screen
      calculator falls back to 0. */
  lemma CopiesAgree(cs: seq<Criterion>, entries: seq<EvaluationScore>)
    ensures SumMaxScores(cs) > 0.0 ==> TotalCell(cs, entries) == Fixed1(FinalScore(cs, AsRecord(entries)))
    ensures SumMaxScores(cs) <= 0.0 ==> TotalCell(cs, entries) == ZeroText && FinalScore(cs, AsRecord(entries)) == 0.0
  {
    TableTotalsMatchCalculator(cs, entries);
  }
}
