/**
  The prefill link codec: `generatePrefilledUrl` turns the non-empty fields of
  a prefill payload into the query of a `/forms/<type>` link, `parseUrlParams`
  reads an allow-list of fields back out of the page's query, and
  `getFormTypeFromPath` recognises the form kind in a route.

  The query is an ordered list of name/value pairs. Its text form is the
  application/x-www-form-urlencoded format of section 5 of the WHATWG URL
  Standard: pairs joined by '&', each pair `name=value`. The byte-level
  percent-encoding of one name or value is a pair of functions `enc`/`dec`
  supplied by the caller; the round trip needs only that `dec` inverts `enc`
  and that encoded text never contains '&' or '='.
 */
module UrlCodec {
  import opened Common
  import opened Forms

  // ------------------------------------------------------------- payload

  /** The keys of the prefill payload, in declaration order, which is also
      the order of the parser's allow-list. */
  datatype Field =
    | StudentName | Registration | Course | Advisor | Coadvisor | Title
    | Semester | Year | EvaluatorName | EvaluatorInstitution | EvaluationDate

  /** `validFields`: the only keys the parser reads. */
  const ValidFields: seq<Field> := [
    StudentName, Registration, Course, Advisor, Coadvisor, Title,
    Semester, Year, EvaluatorName, EvaluatorInstitution, EvaluationDate
  ]

  /** The property name of a payload field, as it appears in the query. */
  function FieldKey(f: Field): string {
    match f
    case StudentName => "studentName"
    case Registration => "registration"
    case Course => "course"
    case Advisor => "advisor"
    case Coadvisor => "coadvisor"
    case Title => "title"
    case Semester => "semester"
    case Year => "year"
    case EvaluatorName => "evaluatorName"
    case EvaluatorInstitution => "evaluatorInstitution"
    case EvaluationDate => "evaluationDate"
  }

  /** The reverse lookup of `FieldKey`: which field, if any, a query name belongs to. */
  function KeyField(key: string): (f: Option<Field>)
    ensures f.Some? ==> FieldKey(f.value) == key
  {
    if key == "studentName" then Some(StudentName)
    else if key == "registration" then Some(Registration)
    else if key == "course" then Some(Course)
    else if key == "advisor" then Some(Advisor)
    else if key == "coadvisor" then Some(Coadvisor)
    else if key == "title" then Some(Title)
    else if key == "semester" then Some(Semester)
    else if key == "year" then Some(Year)
    else if key == "evaluatorName" then Some(EvaluatorName)
    else if key == "evaluatorInstitution" then Some(EvaluatorInstitution)
    else if key == "evaluationDate" then Some(EvaluationDate)
    else None
  }

  /** Every field's key leads back to the field, so no two fields share a key. */
  lemma KeyFieldInverse(f: Field)
    ensures KeyField(FieldKey(f)) == Some(f)
  {
  }

  lemma FieldKeyInjective(f: Field, g: Field)
    ensures FieldKey(f) == FieldKey(g) ==> f == g
  {
    KeyFieldInverse(f);
    KeyFieldInverse(g);
  }

  /** Every field is on the allow-list. */
  lemma AllFieldsValid(f: Field)
    ensures f in ValidFields
  {
  }

  /** One own property of the payload object handed to the generator; `None`
      stands for both `undefined` and `null`. */
  datatype Entry = Entry(field: Field, value: Option<string>)

  /** An object has each property at most once. */
  predicate DistinctFields(entries: seq<Entry>) {
    forall i, j :: 0 <= i < j < |entries| ==> entries[i].field != entries[j].field
  }

  /** What the payload supplies for `f`: its value when that is defined and
      not empty. */
  function Supplied(entries: seq<Entry>, f: Field): Option<string> {
    if |entries| == 0 then None
    else if entries[0].field == f then (if Truthy(entries[0].value) then entries[0].value else None)
    else Supplied(entries[1..], f)
  }

  // --------------------------------------------------------------- query

  datatype Pair = Pair(name: string, value: string)

  /** The `forEach`/`append` loop of `generatePrefilledUrl`: one pair per
      entry whose value is neither undefined, null nor "", in entry order. */
  function AppendedPairs(entries: seq<Entry>): (pairs: seq<Pair>)
    ensures |pairs| <= |entries|
    ensures forall i :: 0 <= i < |pairs| ==> pairs[i].value != "" && KeyField(pairs[i].name).Some?
  {
    if |entries| == 0 then []
    else
      KeyFieldInverse(entries[0].field);
      var head := if Truthy(entries[0].value) then [Pair(FieldKey(entries[0].field), entries[0].value.value)] else [];
      head + AppendedPairs(entries[1..])
  }

  /** `params.get(name)`: the value of the first pair with that name. */
  function Get(pairs: seq<Pair>, name: string): Option<string> {
    if |pairs| == 0 then None
    else if pairs[0].name == name then Some(pairs[0].value)
    else Get(pairs[1..], name)
  }

  /** `params.get` finds a value exactly when some pair has the name, and the
      value it finds is that of the first such pair. */
  lemma {:induction false} GetFirst(pairs: seq<Pair>, name: string)
    ensures Get(pairs, name).None? <==> forall i :: 0 <= i < |pairs| ==> pairs[i].name != name
    ensures Get(pairs, name).Some? ==>
      exists i :: (0 <= i < |pairs| && pairs[i] == Pair(name, Get(pairs, name).value)
                   && forall j :: 0 <= j < i ==> pairs[j].name != name)
  {
    if |pairs| > 0 && pairs[0].name != name {
      var tail := pairs[1..];
      GetFirst(tail, name);
      assert forall i :: 0 < i < |pairs| ==> pairs[i] == tail[i - 1];
      if Get(tail, name).Some? {
        var i :| 0 <= i < |tail| && tail[i] == Pair(name, Get(tail, name).value)
          && forall j :: 0 <= j < i ==> tail[j].name != name;
        assert pairs[i + 1] == tail[i];
      }
    }
  }

  /** Each payload field reads back, through `params.get`, exactly what the
      payload supplied for it. */
  lemma {:induction false} GetAppended(entries: seq<Entry>, f: Field)
    requires DistinctFields(entries)
    ensures Get(AppendedPairs(entries), FieldKey(f)) == Supplied(entries, f)
  {
    if |entries| > 0 {
      var e := entries[0];
      var rest := entries[1..];
      assert DistinctFields(rest) by {
        forall i, j | 0 <= i < j < |rest| ensures rest[i].field != rest[j].field {
          assert rest[i] == entries[i + 1] && rest[j] == entries[j + 1];
        }
      }
      GetAppended(rest, f);
      FieldKeyInjective(e.field, f);
      if e.field == f {
        SuppliedAbsent(rest, f);
        if !Truthy(e.value) {
          assert AppendedPairs(entries) == AppendedPairs(rest);
        }
      } else if Truthy(e.value) {
        var head := Pair(FieldKey(e.field), e.value.value);
        assert AppendedPairs(entries) == [head] + AppendedPairs(rest);
        assert ([head] + AppendedPairs(rest))[1..] == AppendedPairs(rest);
      } else {
        assert AppendedPairs(entries) == AppendedPairs(rest);
      }
    }
  }

  /** A field the entries never mention is not supplied. */
  lemma {:induction false} SuppliedAbsent(entries: seq<Entry>, f: Field)
    requires forall i :: 0 <= i < |entries| ==> entries[i].field != f
    ensures Supplied(entries, f) == None
  {
    if |entries| > 0 {
      SuppliedAbsent(entries[1..], f);
    }
  }

  // ------------------------------------------------- text form of a query

  /** The percent-encoding of a name or value and its decoding are inverse,
      and the encoding escapes both separators. */
  ghost predicate InversePair(enc: string -> string, dec: string -> string) {
    forall s :: dec(enc(s)) == s && '&' !in enc(s) && '=' !in enc(s)
  }

  function EncodePair(p: Pair, enc: string -> string): string {
    enc(p.name) + "=" + enc(p.value)
  }

  function EncodePairs(pairs: seq<Pair>, enc: string -> string): (pieces: seq<string>)
    ensures |pieces| == |pairs|
    ensures forall i :: 0 <= i < |pairs| ==> pieces[i] == EncodePair(pairs[i], enc)
  {
    if |pairs| == 0 then [] else [EncodePair(pairs[0], enc)] + EncodePairs(pairs[1..], enc)
  }

  /** `params.toString()`: the encoded pairs joined by '&'. */
  function Serialize(pairs: seq<Pair>, enc: string -> string): string {
    if |pairs| == 0 then "" else Join(EncodePairs(pairs, enc), '&')
  }

  /** The position of the first `c` in `s`. */
  function IndexOf(s: string, c: char): (i: Option<nat>)
    ensures i.None? <==> c !in s
    ensures i.Some? ==> i.value < |s| && s[i.value] == c && c !in s[..i.value]
  {
    if |s| == 0 then None
    else if s[0] == c then Some(0)
    else
      match IndexOf(s[1..], c)
      case None => None
      case Some(k) =>
        assert s[..k + 1] == [s[0]] + s[1..][..k];
        Some(k + 1)
  }

  /** One '&'-separated piece: the name runs to the first '=', the value is
      the rest (empty when there is no '='). */
  function ParsePiece(piece: string, dec: string -> string): Pair {
    match IndexOf(piece, '=')
    case None => Pair(dec(piece), "")
    case Some(i) => Pair(dec(piece[..i]), dec(piece[i + 1..]))
  }

  /** Empty pieces are skipped. */
  function ParsePieces(pieces: seq<string>, dec: string -> string): seq<Pair> {
    if |pieces| == 0 then []
    else (if pieces[0] == "" then [] else [ParsePiece(pieces[0], dec)]) + ParsePieces(pieces[1..], dec)
  }

  /** `new URLSearchParams(search)`: a leading '?' is dropped, the rest split on '&'. */
  function ParseQuery(search: string, dec: string -> string): seq<Pair> {
    var query := if |search| > 0 && search[0] == '?' then search[1..] else search;
    ParsePieces(Split(query, '&'), dec)
  }

  /** An encoded pair is one non-empty piece that parses back to the pair. */
  lemma PieceRoundTrip(p: Pair, enc: string -> string, dec: string -> string)
    requires InversePair(enc, dec)
    ensures '&' !in EncodePair(p, enc) && EncodePair(p, enc) != ""
    ensures ParsePiece(EncodePair(p, enc), dec) == p
  {
    var n, v := enc(p.name), enc(p.value);
    var piece := n + "=" + v;
    assert piece[|n|] == '=';
    assert piece[..|n|] == n;
    assert piece[|n| + 1..] == v;
    assert dec(n) == p.name && dec(v) == p.value;
    assert '=' !in n;
  }

  lemma {:induction false} ParseEncoded(pairs: seq<Pair>, enc: string -> string, dec: string -> string)
    requires InversePair(enc, dec)
    ensures ParsePieces(EncodePairs(pairs, enc), dec) == pairs
  {
    if |pairs| > 0 {
      var pieces := EncodePairs(pairs, enc);
      PieceRoundTrip(pairs[0], enc, dec);
      assert pieces[1..] == EncodePairs(pairs[1..], enc);
      ParseEncoded(pairs[1..], enc, dec);
      assert pairs == [pairs[0]] + pairs[1..];
    }
  }

  /** Parsing `"?" + params.toString()` gives back exactly the appended pairs. */
  lemma ParseSerialize(pairs: seq<Pair>, enc: string -> string, dec: string -> string)
    requires InversePair(enc, dec)
    ensures ParseQuery("?" + Serialize(pairs, enc), dec) == pairs
  {
    var query := Serialize(pairs, enc);
    var search := "?" + query;
    assert |search| > 0 && search[0] == '?';
    assert search[1..] == query;
    if |pairs| > 0 {
      var pieces := EncodePairs(pairs, enc);
      forall i | 0 <= i < |pieces| ensures '&' !in pieces[i] {
        PieceRoundTrip(pairs[i], enc, dec);
      }
      SplitJoin(pieces, '&');
      ParseEncoded(pairs, enc, dec);
      assert ParseQuery(search, dec) == ParsePieces(pieces, dec);
    } else {
      assert Split(query, '&') == [""];
      assert ParsePieces([""], dec) == [] + ParsePieces([], dec);
    }
  }

  // ---------------------------------------------------------- generation

  const FormsSegment: string := "/forms/"

  /** `generatePrefilledUrl`: `baseUrl || window.location.origin`, then the
      form route, then the query of the non-empty entries. */
  function GeneratePrefilledUrl(t: FormType, entries: seq<Entry>, baseUrl: Option<string>,
                                origin: string, enc: string -> string): (url: string)
    ensures StartsWith(url, OrElse(baseUrl, Some(origin)).value + FormsSegment + FormTypeName(t) + "?")
  {
    var base := OrElse(baseUrl, Some(origin)).value;
    var route := base + FormsSegment + FormTypeName(t) + "?";
    var url := route + Serialize(AppendedPairs(entries), enc);
    assert url[..|route|] == route;
    url
  }

  /** `location.search`: the URL from its first '?' on ("" when there is none). */
  function Search(url: string): (search: string)
    ensures search == "" || search[0] == '?'
  {
    match IndexOf(url, '?')
    case None => ""
    case Some(i) => url[i..]
  }

  // ------------------------------------------------------------- parsing

  /** The allow-listed fields' values: `data[field] = value` whenever
      `params.get(field)` is truthy. */
  function Collect(fields: seq<Field>, pairs: seq<Pair>): (data: map<Field, string>)
    ensures forall f :: f in data <==> f in fields && Truthy(Get(pairs, FieldKey(f)))
    ensures forall f :: f in data ==> Get(pairs, FieldKey(f)).Some? && data[f] == Get(pairs, FieldKey(f)).value
  {
    if |fields| == 0 then map[]
    else
      var rest := Collect(fields[1..], pairs);
      var v := Get(pairs, FieldKey(fields[0]));
      assert forall f :: f in fields <==> f == fields[0] || f in fields[1..];
      if Truthy(v) then rest[fields[0] := v.value] else rest
  }

  /** `parseUrlParams`: the empty payload without a window, otherwise the
      allow-listed fields with a non-empty value in the query. */
  function ParseUrlParams(search: Option<string>, dec: string -> string): (data: map<Field, string>)
    ensures search.None? ==> data == map[]
    ensures forall f :: f in data ==> data[f] != ""
  {
    if search.None? then map[]
    else Collect(ValidFields, ParseQuery(search.value, dec))
  }

  /** A pair whose name is off the allow-list never changes the parsed
      payload, wherever it sits in the query. */
  lemma IgnoresUnknownKeys(pairs: seq<Pair>, extra: Pair, at: nat)
    requires at <= |pairs|
    requires KeyField(extra.name).None?
    ensures Collect(ValidFields, pairs[..at] + [extra] + pairs[at..]) == Collect(ValidFields, pairs)
  {
    var longer := pairs[..at] + [extra] + pairs[at..];
    forall f: Field ensures Get(longer, FieldKey(f)) == Get(pairs, FieldKey(f)) {
      KeyFieldInverse(f);
      GetInsert(pairs, extra, at, FieldKey(f));
    }
    CollectCongruent(ValidFields, longer, pairs);
  }

  /** Collecting depends on the query only through `params.get` of each field. */
  lemma {:induction false} CollectCongruent(fields: seq<Field>, a: seq<Pair>, b: seq<Pair>)
    requires forall f: Field :: Get(a, FieldKey(f)) == Get(b, FieldKey(f))
    ensures Collect(fields, a) == Collect(fields, b)
  {
    if |fields| > 0 {
      CollectCongruent(fields[1..], a, b);
      assert Get(a, FieldKey(fields[0])) == Get(b, FieldKey(fields[0]));
    }
  }

  /** `params.get` on a query with a known first pair. */
  lemma GetCons(p: Pair, rest: seq<Pair>, name: string)
    ensures Get([p] + rest, name) == if p.name == name then Some(p.value) else Get(rest, name)
  {
    assert ([p] + rest)[0] == p;
    assert ([p] + rest)[1..] == rest;
  }

  /** Inserting a pair with another name leaves `params.get(name)` unchanged. */
  lemma {:induction false} GetInsert(pairs: seq<Pair>, extra: Pair, at: nat, name: string)
    requires at <= |pairs| && extra.name != name
    ensures Get(pairs[..at] + [extra] + pairs[at..], name) == Get(pairs, name)
  {
    if at == 0 {
      assert pairs[..0] + [extra] + pairs[0..] == [extra] + pairs;
      GetCons(extra, pairs, name);
    } else {
      var tail := pairs[1..];
      var inserted := tail[..at - 1] + [extra] + tail[at - 1..];
      GetInsert(tail, extra, at - 1, name);
      assert pairs[..at] + [extra] + pairs[at..] == [pairs[0]] + inserted;
      assert pairs == [pairs[0]] + tail;
      GetCons(pairs[0], inserted, name);
      GetCons(pairs[0], tail, name);
    }
  }

  /** The prefill round trip: opening a generated link and parsing its query
      yields exactly the non-empty fields of the payload, with their values. */
  lemma PrefillRoundTrip(t: FormType, entries: seq<Entry>, baseUrl: Option<string>, origin: string,
                         enc: string -> string, dec: string -> string)
    requires DistinctFields(entries)
    requires InversePair(enc, dec)
    requires '?' !in OrElse(baseUrl, Some(origin)).value
    ensures var data := ParseUrlParams(Some(Search(GeneratePrefilledUrl(t, entries, baseUrl, origin, enc))), dec);
      forall f :: (f in data <==> Supplied(entries, f).Some?) && (f in data ==> data[f] == Supplied(entries, f).value)
  {
    var pairs := AppendedPairs(entries);
    SearchOfGeneratedUrl(t, entries, baseUrl, origin, enc);
    ParseSerialize(pairs, enc, dec);
    forall f: Field ensures Get(pairs, FieldKey(f)) == Supplied(entries, f) {
      GetAppended(entries, f);
    }
    forall f: Field ensures f in ValidFields {
      AllFieldsValid(f);
    }
    SuppliedTruthy(entries);
  }

  /** The query a generated link carries is the serialized appended pairs,
      provided the base has no query of its own. */
  lemma SearchOfGeneratedUrl(t: FormType, entries: seq<Entry>, baseUrl: Option<string>, origin: string,
                             enc: string -> string)
    requires '?' !in OrElse(baseUrl, Some(origin)).value
    ensures Search(GeneratePrefilledUrl(t, entries, baseUrl, origin, enc)) == "?" + Serialize(AppendedPairs(entries), enc)
  {
    var base := OrElse(baseUrl, Some(origin)).value;
    var query := Serialize(AppendedPairs(entries), enc);
    var head := base + FormsSegment + FormTypeName(t);
    assert GeneratePrefilledUrl(t, entries, baseUrl, origin, enc) == head + "?" + query;
    FormTypeNameNoQuery(t);
    assert '?' !in FormsSegment;
    SearchAfter(head, query);
  }

  /** The query starts at the first '?'. */
  lemma SearchAfter(head: string, query: string)
    requires '?' !in head
    ensures Search(head + "?" + query) == "?" + query
  {
    var url := head + "?" + query;
    assert url[|head|] == '?';
    assert url[..|head|] == head;
    assert IndexOf(url, '?') == Some(|head|);
    assert url[|head|..] == "?" + query;
  }

  lemma FormTypeNameNoQuery(t: FormType)
    ensures '?' !in FormTypeName(t)
  {
    var name := FormTypeName(t);
    FormTypeNameSnakeCase(t);
    forall i | 0 <= i < |name| ensures name[i] != '?' {
      assert 'a' <= name[i] <= 'z' || name[i] == '_';
    }
  }

  /** Whatever the payload supplies is non-empty. */
  lemma {:induction false} SuppliedTruthy(entries: seq<Entry>)
    ensures forall f :: Supplied(entries, f).Some? ==> Truthy(Supplied(entries, f))
  {
    if |entries| > 0 {
      SuppliedTruthy(entries[1..]);
    }
  }

  // ---------------------------------------------------------- form route

  /** The validated form-type enum: the form kind whose identifier is `name`. */
  function ParseFormType(name: string): (t: Option<FormType>)
    ensures forall u :: t == Some(u) <==> name == FormTypeName(u)
  {
    if name == "avaliacao_andamento_cc" then Some(AndamentoCC)
    else if name == "avaliacao_final_cc" then Some(FinalCC)
    else if name == "avaliacao_final_si" then Some(FinalSI)
    else if name == "ata_apresentacao" then Some(Ata)
    else None
  }

  /** The regular expression `/\/forms\/(.+)/` can match at `i`: "/forms/"
      followed by at least one character that `.` accepts. */
  predicate MatchesAt(s: string, i: nat) {
    i + 8 <= |s| && s[i..i + 7] == FormsSegment && !IsLineTerminator(s[i + 7])
  }

  /** The first line terminator at or after `from`, or the end. */
  function LineEnd(s: string, from: nat): (j: nat)
    requires from <= |s|
    ensures from <= j <= |s|
    ensures j < |s| ==> IsLineTerminator(s[j])
    ensures forall k :: from <= k < j ==> !IsLineTerminator(s[k])
    decreases |s| - from
  {
    if from == |s| || IsLineTerminator(s[from]) then from else LineEnd(s, from + 1)
  }

  /** The leftmost match position at or after `from`. */
  function FirstMatch(s: string, from: nat): (m: Option<nat>)
    requires from <= |s|
    ensures m.Some? ==> from <= m.value && MatchesAt(s, m.value)
    ensures m.Some? ==> forall k :: from <= k < m.value ==> !MatchesAt(s, k)
    ensures m.None? ==> forall k :: from <= k ==> !MatchesAt(s, k)
    decreases |s| - from
  {
    if from + 8 > |s| then None
    else if MatchesAt(s, from) then Some(from)
    else FirstMatch(s, from + 1)
  }

  /** Capture group 1: the greedy `.+` after "/forms/", up to the end of the line. */
  function Capture(s: string, i: nat): (c: string)
    requires MatchesAt(s, i)
    ensures |c| >= 1
  {
    s[i + 7..LineEnd(s, i + 7)]
  }

  /** `getFormTypeFromPath`: the remainder after the first match of
      "/forms/", accepted only when it is exactly a form identifier. */
  function FormTypeFromPath(path: string): (t: Option<FormType>)
    ensures t.Some? ==> exists i :: MatchesAt(path, i) && Capture(path, i) == FormTypeName(t.value)
    ensures (forall i :: !MatchesAt(path, i)) ==> t.None?
    ensures forall i: nat :: MatchesAt(path, i) && (forall j: nat :: j < i ==> !MatchesAt(path, j)) ==>
      t == ParseFormType(Capture(path, i))
  {
    match FirstMatch(path, 0)
    case None => None
    case Some(i) =>
      assert forall k: nat :: MatchesAt(path, k) && (forall j: nat :: j < k ==> !MatchesAt(path, j)) ==> k == i;
      ParseFormType(Capture(path, i))
  }

  /** A route `prefix` + "/forms/" + `tail`, where the pattern does not
      match inside the prefix and `tail` is one non-empty line, is recognised
      exactly when `tail` is a form identifier. */
  lemma RouteCapture(prefix: string, tail: string)
    requires |tail| >= 1
    requires forall k :: 0 <= k < |tail| ==> !IsLineTerminator(tail[k])
    requires forall k :: 0 <= k < |prefix| ==> !MatchesAt(prefix + FormsSegment + tail, k)
    ensures FormTypeFromPath(prefix + FormsSegment + tail) == ParseFormType(tail)
  {
    var path := prefix + FormsSegment + tail;
    var i := |prefix|;
    assert path[i..i + 7] == FormsSegment;
    assert path[i + 7] == tail[0];
    assert MatchesAt(path, i);
    forall k | i + 7 <= k < |path| ensures !IsLineTerminator(path[k]) {
      assert path[k] == tail[k - i - 7];
    }
    assert LineEnd(path, i + 7) == |path|;
    assert path[i + 7..] == tail;
  }

  /** In particular, any prefix without a '/' (the empty one included) cannot
      hold a match, so the route after it is recognised by its tail alone. */
  lemma RouteAfterPlainPrefix(prefix: string, tail: string)
    requires '/' !in prefix
    requires |tail| >= 1
    requires forall k :: 0 <= k < |tail| ==> !IsLineTerminator(tail[k])
    ensures FormTypeFromPath(prefix + FormsSegment + tail) == ParseFormType(tail)
  {
    var path := prefix + FormsSegment + tail;
    forall k | 0 <= k < |prefix| ensures !MatchesAt(path, k) {
      assert path[k] == prefix[k] != '/';
    }
    RouteCapture(prefix, tail);
  }

  /** The route of every form kind is recognised as that kind. */
  lemma FormRouteRecognised(t: FormType)
    ensures FormTypeFromPath(FormsSegment + FormTypeName(t)) == Some(t)
  {
    var name := FormTypeName(t);
    FormTypeNameSnakeCase(t);
    forall k | 0 <= k < |name| ensures !IsLineTerminator(name[k]) {
      assert 'a' <= name[k] <= 'z' || name[k] == '_';
    }
    assert "" + FormsSegment + name == FormsSegment + name;
    RouteAfterPlainPrefix("", name);
  }

  /** A sub-route of a form, such as its generator page
      "/forms/ata_apresentacao/generator", is not a form kind. */
  lemma SubRouteRejected(t: FormType, sub: string)
    requires forall k :: 0 <= k < |sub| ==> !IsLineTerminator(sub[k])
    ensures FormTypeFromPath(FormsSegment + FormTypeName(t) + "/" + sub) == None
  {
    var name := FormTypeName(t);
    var tail := name + "/" + sub;
    FormTypeNameSnakeCase(t);
    forall k | 0 <= k < |tail| ensures !IsLineTerminator(tail[k]) {
      if k < |name| {
        assert 'a' <= name[k] <= 'z' || name[k] == '_';
      } else if k > |name| {
        assert tail[k] == sub[k - |name| - 1];
      }
    }
    assert FormsSegment + tail == FormsSegment + FormTypeName(t) + "/" + sub;
    assert "" + FormsSegment + tail == FormsSegment + tail;
    RouteAfterPlainPrefix("", tail);
    forall u: FormType ensures tail != FormTypeName(u) {
      FormTypeNameSnakeCase(u);
      assert tail[|name|] == '/';
    }
  }

  /** `getFormTitle`: the page title of each form kind. */
  function FormTitle(t: FormType): (title: string)
    ensures title != ""
  {
    match t
    case AndamentoCC => "Avaliação de Andamento - Ciência da Computação"
    case FinalCC => "Avaliação Final - Ciência da Computação"
    case FinalSI => "Avaliação Final - Sistemas de Informação"
    case Ata => "Ata de Apresentação de TCC"
  }

  /** Distinct form kinds get distinct titles. */
  lemma FormTitlesDistinct(t: FormType, u: FormType)
    requires t != u
    ensures FormTitle(t) != FormTitle(u)
  {
  }
}
