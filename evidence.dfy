/** How the association rows reach the scores once grouped: a disease's
    score, read straight off the rows, and the effect of one more row. */
module Evidence {
  import opened KnowledgeBase
  import opened Grouping
  import opened Scoring

  /** What the rows of symptom `s` add to disease `d` at intensity `k`,
      read straight off the rows, duplicates included. */
  function RowScore(rows: seq<Row>, s: SymptomId, d: DiseaseId, k: int): real
    decreases |rows|
  {
    if rows == [] then 0.0
    else
      var r := rows[|rows| - 1];
      RowScore(rows[..|rows| - 1], s, d, k) +
        (if r.sintoma == s && r.enfermedad == d then r.peso * k as real else 0.0)
  }

  /** Reference definition of a disease's score over the ungrouped rows. */
  function SelectedRowScore(sel: seq<Selection>, rows: seq<Row>, d: DiseaseId): real
    decreases |sel|
  {
    if sel == [] then 0.0
    else
      var s := sel[|sel| - 1];
      SelectedRowScore(sel[..|sel| - 1], rows, d) + RowScore(rows, s.sintoma, d, s.intensidad)
  }

  /** Scoring a symptom's group adds up exactly its rows. */
  lemma {:induction false} GroupScore(rows: seq<Row>, s: SymptomId, d: DiseaseId, k: int)
    ensures AssocScore(RowsOf(rows, s), d, k) == RowScore(rows, s, d, k)
    decreases |rows|
  {
    if rows != [] {
      var init := rows[..|rows| - 1];
      var r := rows[|rows| - 1];
      GroupScore(init, s, d, k);
      if r.sintoma == s {
        AssocScoreAppend(RowsOf(init, s), Entry(r), d, k);
      } else {
        assert RowsOf(rows, s) == RowsOf(init, s) + [];
        assert RowsOf(init, s) + [] == RowsOf(init, s);
      }
    }
  }

  /** Appending one association adds its weighted value to its own disease. */
  lemma AssocScoreAppend(assocs: seq<Association>, a: Association, d: DiseaseId, k: int)
    ensures AssocScore(assocs + [a], d, k) ==
              AssocScore(assocs, d, k) + (if a.enfermedad == d then a.peso * k as real else 0.0)
  {
  }

  /** With the associations grouped from `rows`, every score is the sum over
      the selections of the weighted rows of their symptom: each row counts,
      once per occurrence, duplicates adding up. */
  lemma {:induction false} ScoreFromRows(sel: seq<Selection>, rows: seq<Row>, rel: Relaciones, d: DiseaseId)
    requires rel.Keys == SymptomsOf(rows)
    requires forall s :: s in rel ==> rel[s] == RowsOf(rows, s)
    ensures Score(sel, rel, d) == SelectedRowScore(sel, rows, d)
    decreases |sel|
  {
    if sel != [] {
      var s := sel[|sel| - 1];
      ScoreFromRows(sel[..|sel| - 1], rows, rel, d);
      if s.sintoma !in rel {
        RowsOfEmpty(rows, s.sintoma);
      }
      GroupScore(rows, s.sintoma, d, s.intensidad);
    }
  }

  /** Appending one list after another adds their scores. */
  lemma {:induction false} AssocScoreConcat(xs: seq<Association>, ys: seq<Association>, d: DiseaseId, k: int)
    ensures AssocScore(xs + ys, d, k) == AssocScore(xs, d, k) + AssocScore(ys, d, k)
    decreases |ys|
  {
    if ys == [] {
      assert xs + ys == xs;
    } else {
      var init := ys[..|ys| - 1];
      var last := ys[|ys| - 1];
      AssocScoreConcat(xs, init, d, k);
      assert xs + ys == (xs + init) + [last];
      AssocScoreAppend(xs + init, last, d, k);
    }
  }

  /** `both` holds, for every symptom, the list of `first` followed by the
      list of `second`. */
  ghost predicate Concatenated(first: Relaciones, second: Relaciones, both: Relaciones) {
    forall x :: AssocsOf(both, x) == AssocsOf(first, x) + AssocsOf(second, x)
  }

  /** Scores are additive over the association lists: concatenating the
      lists of two relations adds their scores. */
  lemma {:induction false} ScoreConcat(sel: seq<Selection>, first: Relaciones, second: Relaciones, both: Relaciones, d: DiseaseId)
    requires Concatenated(first, second, both)
    ensures Score(sel, both, d) == Score(sel, first, d) + Score(sel, second, d)
    decreases |sel|
  {
    if sel != [] {
      var s := sel[|sel| - 1];
      ScoreConcat(sel[..|sel| - 1], first, second, both, d);
      AssocScoreConcat(AssocsOf(first, s.sintoma), AssocsOf(second, s.sintoma), d, s.intensidad);
    }
  }

  /** The relation holding row `r` alone. */
  function Single(r: Row): Relaciones {
    map[r.sintoma := [Entry(r)]]
  }

  /** The grouping step that appends row `r` to the list of its symptom. */
  function Append(rel: Relaciones, r: Row): Relaciones {
    rel[r.sintoma := AssocsOf(rel, r.sintoma) + [Entry(r)]]
  }

  /** The grouping step concatenates the row alone after the old lists. */
  lemma AppendConcatenates(rel: Relaciones, r: Row)
    ensures Concatenated(rel, Single(r), Append(rel, r))
  {
  }

  /** The row alone scores nothing for a disease other than its own. */
  lemma SingleScoreOther(sel: seq<Selection>, r: Row, d: DiseaseId)
    requires r.enfermedad != d
    ensures Score(sel, Single(r), d) == 0.0
  {
    NoIncomingScore(sel, Single(r), d);
  }

  /** One grouping step adds the score of the appended row alone to every
      disease, and that is nothing for a disease other than the row's. */
  lemma AppendRowScore(sel: seq<Selection>, rel: Relaciones, r: Row, d: DiseaseId)
    ensures Score(sel, Append(rel, r), d) == Score(sel, rel, d) + Score(sel, Single(r), d)
    ensures r.enfermedad != d ==> Score(sel, Append(rel, r), d) == Score(sel, rel, d)
  {
    AppendConcatenates(rel, r);
    ScoreConcat(sel, rel, Single(r), Append(rel, r), d);
    if r.enfermedad != d {
      SingleScoreOther(sel, r, d);
    }
  }

  /** A row that occurs twice counts twice: duplicates accumulate. */
  lemma DuplicateRowScore(sel: seq<Selection>, rel: Relaciones, r: Row, d: DiseaseId)
    ensures Score(sel, Append(Append(rel, r), r), d) == Score(sel, rel, d) + 2.0 * Score(sel, Single(r), d)
  {
    AppendRowScore(sel, rel, r, d);
    AppendRowScore(sel, Append(rel, r), r, d);
  }
}
