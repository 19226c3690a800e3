/**
  The static form definitions: the four form kinds, the two courses, the
  criterion table of each form kind, and the per-course approval limits.
 */
module Forms {
  import opened Common

  datatype CourseType = CC | SI

  /** The four form variants; `Ata` is the minutes of a thesis defence session. */
  datatype FormType = AndamentoCC | FinalCC | FinalSI | Ata

  const AllFormTypes: seq<FormType> := [AndamentoCC, FinalCC, FinalSI, Ata]

  /** The identifier each form kind carries in URLs, file names and tables. */
  function FormTypeName(t: FormType): string {
    match t
    case AndamentoCC => "avaliacao_andamento_cc"
    case FinalCC => "avaliacao_final_cc"
    case FinalSI => "avaliacao_final_si"
    case Ata => "ata_apresentacao"
  }

  /** Lower-case ASCII letters and underscores only. */
  predicate SnakeCase(s: string) {
    forall i :: 0 <= i < |s| ==> 'a' <= s[i] <= 'z' || s[i] == '_'
  }

  /** Form identifiers are non-empty snake_case words, safe in paths, queries and file names. */
  lemma FormTypeNameSnakeCase(t: FormType)
    ensures |FormTypeName(t)| > 0 && SnakeCase(FormTypeName(t))
  {
  }

  datatype Role = Orientador | Coorientador | Banca | Coordenador

  /** An optional field is None when the form left it undefined. */
  datatype StudentInfo = StudentInfo(
    name: string,
    registration: Option<string>,
    course: CourseType,
    advisor: string,
    coadvisor: Option<string>,
    title: string,
    semester: string,
    year: string)

  datatype EvaluatorInfo = EvaluatorInfo(name: string, institution: string, role: Role)

  datatype EvaluationScore = EvaluationScore(criteriaId: string, score: real, comments: Option<string>)

  /** Signature images as data URLs, one per signer role; `avaliador` is the
      evaluator of the scoring forms, the other four sign the minutes. */
  datatype SignatureData = SignatureData(
    orientador: Option<string>,
    avaliador1: Option<string>,
    avaliador2: Option<string>,
    estudante: Option<string>,
    avaliador: Option<string>)

  /** One submitted form. `signature` is the legacy single signature. */
  datatype FormData = FormData(
    id: string,
    kind: FormType,
    studentInfo: StudentInfo,
    evaluatorInfo: EvaluatorInfo,
    evaluatorInfo2: Option<EvaluatorInfo>,
    evaluatorInfo3: Option<EvaluatorInfo>,
    evaluationDate: string,
    scores: seq<EvaluationScore>,
    generalComments: Option<string>,
    finalScore: Option<real>,
    approved: Option<bool>,
    signature: Option<string>,
    signatures: Option<SignatureData>,
    presentationTime: Option<string>,
    room: Option<string>,
    finalDeliveryDate: Option<string>,
    createdAt: string,
    updatedAt: string)

  /** The criteria that appear in the tables; one description per id. */
  datatype CriterionKey =
    | Apresentacao | QualidadeConteudo | RelevanciaOriginalidade
    | ConteudoApresentacao | DominioRecursosDidaticos | UtilizacaoTempoSintese
    | EstruturaTrabalho | RelevanciaQualidadeConteudo | GrauConhecimento
    | AdequacaoBibliografia | NotaFinal

  /** The id a criterion is stored under in the scores record. */
  function KeyId(k: CriterionKey): string {
    match k
    case Apresentacao => "apresentacao"
    case QualidadeConteudo => "qualidade_conteudo"
    case RelevanciaOriginalidade => "relevancia_originalidade"
    case ConteudoApresentacao => "conteudo_apresentacao"
    case DominioRecursosDidaticos => "dominio_recursos_didaticos"
    case UtilizacaoTempoSintese => "utilizacao_tempo_sintese"
    case EstruturaTrabalho => "estrutura_trabalho"
    case RelevanciaQualidadeConteudo => "relevancia_qualidade_conteudo"
    case GrauConhecimento => "grau_conhecimento"
    case AdequacaoBibliografia => "adequacao_bibliografia"
    case NotaFinal => "nota_final"
  }

  /** The label shown in the table and printed in the PDF. */
  function KeyDescription(k: CriterionKey): string {
    match k
    case Apresentacao => "Apresentação"
    case QualidadeConteudo => "Qualidade do Conteúdo"
    case RelevanciaOriginalidade => "Relevância e Originalidade"
    case ConteudoApresentacao => "Conteúdo da Apresentação"
    case DominioRecursosDidaticos => "Domínio dos Recursos Didáticos"
    case UtilizacaoTempoSintese => "Utilização do Tempo e Poder de Síntese"
    case EstruturaTrabalho => "Estrutura do Trabalho"
    case RelevanciaQualidadeConteudo => "Relevância, Originalidade e Qualidade do Conteúdo do Texto"
    case GrauConhecimento => "Grau de Conhecimento Demonstrado no Trabalho Escrito"
    case AdequacaoBibliografia => "Adequação da Bibliografia Apresentada"
    case NotaFinal => "Nota Final"
  }

  /** One row of a criterion table. `weight` is informational only: no
      computation reads it. */
  datatype Criterion = Criterion(key: CriterionKey, weight: int, maxScore: real) {
    function id(): string { KeyId(key) }
    function description(): string { KeyDescription(key) }
  }

  /** EVALUATION_CRITERIA: the scored criteria of each form kind, in display order. */
  function Criteria(t: FormType): seq<Criterion> {
    match t
    case AndamentoCC => [
      Criterion(Apresentacao, 1, 5.0),
      Criterion(QualidadeConteudo, 1, 3.0),
      Criterion(RelevanciaOriginalidade, 1, 2.0)
    ]
    case FinalCC => [
      Criterion(ConteudoApresentacao, 1, 2.0),
      Criterion(UtilizacaoTempoSintese, 1, 1.0),
      Criterion(EstruturaTrabalho, 1, 1.0),
      Criterion(RelevanciaQualidadeConteudo, 1, 3.0),
      Criterion(GrauConhecimento, 1, 2.0),
      Criterion(AdequacaoBibliografia, 1, 1.0)
    ]
    case FinalSI => [
      Criterion(ConteudoApresentacao, 1, 1.0),
      Criterion(DominioRecursosDidaticos, 1, 1.0),
      Criterion(UtilizacaoTempoSintese, 1, 1.0),
      Criterion(EstruturaTrabalho, 1, 1.0),
      Criterion(RelevanciaQualidadeConteudo, 1, 3.0),
      Criterion(GrauConhecimento, 1, 2.0),
      Criterion(AdequacaoBibliografia, 1, 1.0)
    ]
    case Ata => [
      Criterion(NotaFinal, 1, 10.0)
    ]
  }

  /** The sum of the maximum scores of a criterion list: the normalisation denominator. */
  function SumMaxScores(cs: seq<Criterion>): real {
    if |cs| == 0 then 0.0 else cs[0].maxScore + SumMaxScores(cs[1..])
  }

  predicate UniqueIds(cs: seq<Criterion>) {
    forall i, j :: 0 <= i < j < |cs| ==> cs[i].id() != cs[j].id()
  }

  /** Every form kind's maximum scores add up to exactly 10. */
  lemma MaxScoresSumToTen(t: FormType)
    ensures SumMaxScores(Criteria(t)) == 10.0
  {
    var cs := Criteria(t);
    match t
    case AndamentoCC =>
      assert SumMaxScores(cs) == 5.0 + SumMaxScores(cs[1..]);
      assert SumMaxScores(cs[1..]) == 3.0 + SumMaxScores(cs[2..]);
      assert SumMaxScores(cs[2..]) == 2.0 + SumMaxScores(cs[3..]);
    case FinalCC =>
      assert SumMaxScores(cs[5..]) == 1.0 + SumMaxScores(cs[6..]);
      assert SumMaxScores(cs[4..]) == 2.0 + SumMaxScores(cs[5..]);
      assert SumMaxScores(cs[3..]) == 3.0 + SumMaxScores(cs[4..]);
      assert SumMaxScores(cs[2..]) == 1.0 + SumMaxScores(cs[3..]);
      assert SumMaxScores(cs[1..]) == 1.0 + SumMaxScores(cs[2..]);
      assert SumMaxScores(cs) == 2.0 + SumMaxScores(cs[1..]);
    case FinalSI =>
      assert SumMaxScores(cs[6..]) == 1.0 + SumMaxScores(cs[7..]);
      assert SumMaxScores(cs[5..]) == 2.0 + SumMaxScores(cs[6..]);
      assert SumMaxScores(cs[4..]) == 3.0 + SumMaxScores(cs[5..]);
      assert SumMaxScores(cs[3..]) == 1.0 + SumMaxScores(cs[4..]);
      assert SumMaxScores(cs[2..]) == 1.0 + SumMaxScores(cs[3..]);
      assert SumMaxScores(cs[1..]) == 1.0 + SumMaxScores(cs[2..]);
      assert SumMaxScores(cs) == 1.0 + SumMaxScores(cs[1..]);
    case Ata =>
      assert SumMaxScores(cs) == 10.0 + SumMaxScores(cs[1..]);
  }

  /** No form kind lists the same criterion id twice. */
  lemma CriterionIdsUnique(t: FormType)
    ensures UniqueIds(Criteria(t))
  {
    var cs := Criteria(t);
    assert forall i, j :: 0 <= i < j < |cs| ==> cs[i].key != cs[j].key;
    forall i, j | 0 <= i < j < |cs| ensures cs[i].id() != cs[j].id() {
      KeyIdInjective(cs[i].key, cs[j].key);
    }
  }

  /** The reverse lookup of `KeyId`. */
  function IdKey(id: string): (k: Option<CriterionKey>)
    ensures k.Some? ==> KeyId(k.value) == id
  {
    if id == "apresentacao" then Some(Apresentacao)
    else if id == "qualidade_conteudo" then Some(QualidadeConteudo)
    else if id == "relevancia_originalidade" then Some(RelevanciaOriginalidade)
    else if id == "conteudo_apresentacao" then Some(ConteudoApresentacao)
    else if id == "dominio_recursos_didaticos" then Some(DominioRecursosDidaticos)
    else if id == "utilizacao_tempo_sintese" then Some(UtilizacaoTempoSintese)
    else if id == "estrutura_trabalho" then Some(EstruturaTrabalho)
    else if id == "relevancia_qualidade_conteudo" then Some(RelevanciaQualidadeConteudo)
    else if id == "grau_conhecimento" then Some(GrauConhecimento)
    else if id == "adequacao_bibliografia" then Some(AdequacaoBibliografia)
    else if id == "nota_final" then Some(NotaFinal)
    else None
  }

  /** Distinct criteria are stored under distinct ids. */
  lemma KeyIdInjective(a: CriterionKey, b: CriterionKey)
    ensures KeyId(a) == KeyId(b) ==> a == b
  {
    IdKeyInverse(a);
    IdKeyInverse(b);
  }

  lemma IdKeyInverse(k: CriterionKey)
    ensures IdKey(KeyId(k)) == Some(k)
  {
  }

  /** Every criterion has a positive maximum and weight 1. */
  lemma CriteriaWellFormed(t: FormType)
    ensures forall i :: 0 <= i < |Criteria(t)| ==>
      Criteria(t)[i].maxScore > 0.0 && Criteria(t)[i].weight == 1
  {
  }

  /** No form kind has more than seven criteria. */
  lemma CriteriaCount(t: FormType)
    ensures 1 <= |Criteria(t)| <= 7
  {
    match t
    case AndamentoCC => assert |Criteria(t)| == 3;
    case FinalCC => assert |Criteria(t)| == 6;
    case FinalSI => assert |Criteria(t)| == 7;
    case Ata => assert |Criteria(t)| == 1;
  }

  /** The minutes form has a single criterion, the final grade out of 10. */
  lemma AtaHasOnlyFinalGrade()
    ensures |Criteria(Ata)| == 1
    ensures Criteria(Ata)[0].id() == "nota_final" && Criteria(Ata)[0].maxScore == 10.0
  {
  }

  /** APPROVAL_LIMITS / getApprovalLimit: defined for both courses, and never consulted
      by the score calculator, which uses a flat threshold of 6. */
  function ApprovalLimit(course: CourseType): (limit: real)
    ensures ShouldShowApprovalStatus(Some(limit))
    ensures limit == 6.0 <==> course == CC
    ensures limit == 7.0 <==> course == SI
  {
    match course
    case CC => 6.0
    case SI => 7.0
  }

  /** `shouldShowApprovalStatus`: the limit is defined and positive. */
  predicate ShouldShowApprovalStatus(limit: Option<real>) {
    limit.Some? && limit.value > 0.0
  }
}
