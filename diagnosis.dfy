/** The whole of `diagnosticar`: score every disease of the table, pick the
    first disease with the largest score, and either report it with its
    confidence band or report that nothing could be determined. */
module Diagnosis {
  import opened KnowledgeBase
  import opened Scoring
  import opened Classification

  /** What a diagnosis call returns: `(None, None, None)` or the disease's
      name, description and band. */
  datatype Outcome = Undetermined | Diagnosed(nombre: string, descripcion: string, banda: Banda)

  /** The score dictionary's values, in the table's order. */
  function Values(t: DiseaseTable, puntajes: map<DiseaseId, real>): (v: seq<real>)
    requires Ids(t) <= puntajes.Keys
    ensures |v| == |t|
    ensures forall i :: 0 <= i < |t| ==> v[i] == puntajes[t[i].id]
  {
    seq(|t|, i requires 0 <= i < |t| => puntajes[t[i].id])
  }

  /** Each disease's score, in the table's order. */
  function ScoreList(t: DiseaseTable, rel: Relaciones, sel: seq<Selection>): (v: seq<real>)
    ensures |v| == |t|
    ensures forall i :: 0 <= i < |t| ==> v[i] == Score(sel, rel, t[i].id)
  {
    seq(|t|, i requires 0 <= i < |t| => Score(sel, rel, t[i].id))
  }

  /** The decision of `diagnosticar` over the finished score dictionary. */
  function Diagnose(t: DiseaseTable, rel: Relaciones, sel: seq<Selection>, edad: int, imc: real): (r: Result<Outcome>)
    ensures r == Failure(EmptyTable) ==> t == []
    ensures r.Success? && r.value.Diagnosed? ==>
              exists k :: 0 <= k < |t| && t[k].nombre == r.value.nombre && t[k].descripcion == r.value.descripcion &&
                Score(sel, rel, t[k].id) > 0.0
  {
    match Scores(t, rel, sel)
    case Failure(e) => Failure(e)
    case Success(puntajes) =>
      if t == [] then Failure(EmptyTable)
      else
        var v := Values(t, puntajes);
        var maxPuntaje := MaxOf(v);
        var k := ArgMax(v);
        if maxPuntaje > 0.0 then
          if Sum(v) == 0.0 then Failure(DivisionByZero)
          else
            var p := Probability(maxPuntaje, Sum(v), edad, imc);
            Success(Diagnosed(t[k].nombre, t[k].descripcion, Classify(p)))
        else Success(Undetermined)
  }

  /** `diagnosticar` step by step: the scoring loop, the maximum and the
      first disease reaching it, the probability and its band. */
  method Diagnosticar(t: DiseaseTable, rel: Relaciones, sel: seq<Selection>, edad: int, imc: real)
    returns (r: Result<Outcome>)
    ensures r == Diagnose(t, rel, sel, edad, imc)
  {
    var scored := ComputeScores(t, rel, sel);
    if scored.Failure? {
      return Failure(scored.error);
    }
    var puntajes := scored.value;
    if |t| == 0 {
      return Failure(EmptyTable);
    }
    var v := Values(t, puntajes);
    var maxPuntaje := MaxOf(v);
    var k := ArgMax(v);
    if maxPuntaje > 0.0 {
      var total := Sum(v);
      if total == 0.0 {
        return Failure(DivisionByZero);
      }
      var p := ComputeProbability(maxPuntaje, total, edad, imc);
      return Success(Diagnosed(t[k].nombre, t[k].descripcion, Classify(p)));
    }
    return Success(Undetermined);
  }

  /** When the scoring pass succeeds, the dictionary's values in table order
      are the scores of the table's diseases. */
  lemma ValuesAreScores(t: DiseaseTable, rel: Relaciones, sel: seq<Selection>)
    requires Scores(t, rel, sel).Success?
    ensures Values(t, Scores(t, rel, sel).value) == ScoreList(t, rel, sel)
  {
  }

  /** The error outcomes: KeyError exactly when a selected symptom has an
      association naming a disease outside the table; otherwise ValueError
      exactly when the table is empty; otherwise ZeroDivisionError exactly
      when the largest score is positive and the scores sum to 0. */
  lemma DiagnoseErrors(t: DiseaseTable, rel: Relaciones, sel: seq<Selection>, edad: int, imc: real)
    ensures (exists x :: Diagnose(t, rel, sel, edad, imc) == Failure(UnknownDisease(x))) <==>
              exists i, j :: 0 <= i < |sel| && 0 <= j < |AssocsOf(rel, sel[i].sintoma)| &&
                AssocsOf(rel, sel[i].sintoma)[j].enfermedad !in Ids(t)
    ensures Diagnose(t, rel, sel, edad, imc) == Failure(EmptyTable) <==>
              FirstUnknown(sel, rel, Ids(t)) == None && t == []
    ensures Diagnose(t, rel, sel, edad, imc) == Failure(DivisionByZero) <==>
              FirstUnknown(sel, rel, Ids(t)) == None && t != [] &&
              MaxOf(ScoreList(t, rel, sel)) > 0.0 && Sum(ScoreList(t, rel, sel)) == 0.0
  {
    FirstUnknownSpec(sel, rel, Ids(t));
    if Scores(t, rel, sel).Success? {
      ValuesAreScores(t, rel, sel);
    }
  }

  /** The result is "undetermined", whatever the age and BMI, exactly when
      the scoring pass succeeds over a non-empty table and no disease has a
      positive score. */
  lemma UndeterminedIff(t: DiseaseTable, rel: Relaciones, sel: seq<Selection>, edad: int, imc: real)
    ensures Diagnose(t, rel, sel, edad, imc) == Success(Undetermined) <==>
              FirstUnknown(sel, rel, Ids(t)) == None && t != [] &&
              forall i :: 0 <= i < |t| ==> Score(sel, rel, t[i].id) <= 0.0
  {
  }

  /** A reported disease is the first of the table with the largest score,
      that score is positive, and its band classifies the clamped
      probability `max / sum * 100` plus the loadings. */
  lemma DiagnosedIsFirstMaximum(t: DiseaseTable, rel: Relaciones, sel: seq<Selection>, edad: int, imc: real,
                                nombre: string, descripcion: string, banda: Banda)
    requires Diagnose(t, rel, sel, edad, imc) == Success(Diagnosed(nombre, descripcion, banda))
    ensures exists k :: 0 <= k < |t| && t[k].nombre == nombre && t[k].descripcion == descripcion &&
              Score(sel, rel, t[k].id) > 0.0 &&
              (forall j :: 0 <= j < |t| ==> Score(sel, rel, t[j].id) <= Score(sel, rel, t[k].id)) &&
              (forall j :: 0 <= j < k ==> Score(sel, rel, t[j].id) < Score(sel, rel, t[k].id)) &&
              Sum(ScoreList(t, rel, sel)) != 0.0 &&
              banda == Classify(Probability(Score(sel, rel, t[k].id), Sum(ScoreList(t, rel, sel)), edad, imc))
  {
    ValuesAreScores(t, rel, sel);
    var v := ScoreList(t, rel, sel);
    var k := ArgMax(v);
    ArgMaxAttainsMax(v);
    assert t[k].nombre == nombre;
  }

  /** Every intensity 0 gives "undetermined" whatever the age and BMI, as
      long as the associations visited name diseases of a non-empty table
      (at intensity 0 the pass still visits them, and still raises KeyError
      on an unknown one). */
  lemma ZeroIntensitiesUndetermined(t: DiseaseTable, rel: Relaciones, sel: seq<Selection>, edad: int, imc: real)
    requires t != []
    requires forall i :: 0 <= i < |sel| ==> sel[i].intensidad == 0
    requires forall i, j :: 0 <= i < |sel| && 0 <= j < |AssocsOf(rel, sel[i].sintoma)| ==>
               AssocsOf(rel, sel[i].sintoma)[j].enfermedad in Ids(t)
    ensures Diagnose(t, rel, sel, edad, imc) == Success(Undetermined)
  {
    FirstUnknownSpec(sel, rel, Ids(t));
    forall i | 0 <= i < |t| ensures Score(sel, rel, t[i].id) <= 0.0 {
      ZeroIntensityScore(sel, rel, t[i].id);
    }
    UndeterminedIff(t, rel, sel, edad, imc);
  }

  /** When no selected symptom has associations (in particular with no
      selections, or with no associations at all), a non-empty table gives
      "undetermined" whatever the age and BMI. */
  lemma NoEvidenceUndetermined(t: DiseaseTable, rel: Relaciones, sel: seq<Selection>, edad: int, imc: real)
    requires t != []
    requires forall i :: 0 <= i < |sel| ==> sel[i].sintoma !in rel
    ensures Diagnose(t, rel, sel, edad, imc) == Success(Undetermined)
  {
    FirstUnknownSpec(sel, rel, Ids(t));
    forall i | 0 <= i < |t| ensures Score(sel, rel, t[i].id) <= 0.0 {
      NoIncomingScore(sel, rel, t[i].id);
    }
    UndeterminedIff(t, rel, sel, edad, imc);
  }

  /** One symptom at intensity 5 with weight 2 towards the only disease:
      score 10, base probability 100, band "alta". */
  lemma SingleDiseaseExample()
    ensures Score([Selection(1, 5)], map[1 := [Association(1, 2.0)]], 1) == 10.0
    ensures Probability(10.0, 10.0, 30, 22.0) == 100.0
    ensures Diagnose([Disease(1, "D1", "desc")], map[1 := [Association(1, 2.0)]], [Selection(1, 5)], 30, 22.0)
            == Success(Diagnosed("D1", "desc", Alta))
  {
    assert [Selection(1, 5)][..0] == [];
    assert [Association(1, 2.0)][..0] == [];
  }

  /** Two diseases scoring 6 and 4, no loadings: base probability 60 for the
      first, band "media". */
  lemma TwoDiseaseExample()
    ensures Diagnose([Disease(1, "D1", "a"), Disease(2, "D2", "b")],
                     map[1 := [Association(1, 3.0), Association(2, 2.0)]], [Selection(1, 2)], 30, 20.0)
            == Success(Diagnosed("D1", "a", Media))
    ensures Score([Selection(1, 2)], map[1 := [Association(1, 3.0), Association(2, 2.0)]], 1) == 6.0
    ensures Score([Selection(1, 2)], map[1 := [Association(1, 3.0), Association(2, 2.0)]], 2) == 4.0
    ensures Probability(6.0, 10.0, 30, 20.0) == 60.0
  {
    var t: DiseaseTable := [Disease(1, "D1", "a"), Disease(2, "D2", "b")];
    var rel := map[1 := [Association(1, 3.0), Association(2, 2.0)]];
    var sel := [Selection(1, 2)];
    var assocs := [Association(1, 3.0), Association(2, 2.0)];
    assert sel[..0] == [];
    assert assocs[..1] == [Association(1, 3.0)];
    assert assocs[..1][..0] == [];
    assert AssocsOf(rel, 1) == assocs;
    assert AssocScore(assocs[..1], 1, 2) == 6.0;
    assert AssocScore(assocs, 1, 2) == 6.0;
    assert AssocScore(assocs[..1], 2, 2) == 0.0;
    assert AssocScore(assocs, 2, 2) == 4.0;
    assert Score(sel, rel, 1) == 6.0;
    assert Score(sel, rel, 2) == 4.0;
    assert Ids(t) == {1, 2};
    assert UnknownIn(assocs[..1], Ids(t)) == None;
    assert FirstUnknown(sel, rel, Ids(t)) == None;
    ValuesAreScores(t, rel, sel);
    var v := ScoreList(t, rel, sel);
    assert v == [6.0, 4.0];
    assert v[..1] == [6.0];
    assert v[..1][..0] == [];
    assert Sum(v[..1]) == 6.0;
    assert Sum(v) == 10.0;
    assert Probability(6.0, 10.0, 30, 20.0) == 60.0;
  }
}
