/** Grouping of the association rows by symptom id: the loop at the end of
    `obtener_relaciones`, which creates a list the first time it meets a
    symptom id and appends every row to the list of its own symptom. */
module Grouping {
  import opened KnowledgeBase

  /** The association entry a row becomes in its symptom's list. */
  function Entry(r: Row): Association {
    Association(r.enfermedad, r.peso)
  }

  /** The symptom ids that occur in some row. */
  function SymptomsOf(rows: seq<Row>): set<SymptomId> {
    set r | r in rows :: r.sintoma
  }

  /** Reference definition of one group: the entries of the rows with
      symptom `s`, in row order. */
  function RowsOf(rows: seq<Row>, s: SymptomId): seq<Association>
    decreases |rows|
  {
    if rows == [] then []
    else
      var last := rows[|rows| - 1];
      RowsOf(rows[..|rows| - 1], s) + (if last.sintoma == s then [Entry(last)] else [])
  }

  /** The grouping loop: a fresh list for each new symptom id, then an append. */
  method GroupRows(rows: seq<Row>) returns (rel: Relaciones)
    ensures rel.Keys == SymptomsOf(rows)
    ensures forall s :: s in rel ==> rel[s] == RowsOf(rows, s)
    ensures forall s :: s in rel ==> rel[s] != []
  {
    rel := map[];
    var i := 0;
    while i < |rows|
      invariant 0 <= i <= |rows|
      invariant rel.Keys == SymptomsOf(rows[..i])
      invariant forall s :: s in rel ==> rel[s] == RowsOf(rows[..i], s)
      invariant forall s :: s in rel ==> rel[s] != []
    {
      var row := rows[i];
      assert rows[..i + 1][..i] == rows[..i];
      if row.sintoma !in rel {
        RowsOfEmpty(rows[..i], row.sintoma);
        rel := rel[row.sintoma := []];
      }
      rel := rel[row.sintoma := rel[row.sintoma] + [Entry(row)]];
      i := i + 1;
    }
    assert rows[..i] == rows;
  }

  /** A symptom's group is empty exactly when no row carries that symptom. */
  lemma {:induction false} RowsOfEmpty(rows: seq<Row>, s: SymptomId)
    ensures RowsOf(rows, s) == [] <==> s !in SymptomsOf(rows)
    decreases |rows|
  {
    if rows != [] {
      var init := rows[..|rows| - 1];
      RowsOfEmpty(init, s);
      assert rows == init + [rows[|rows| - 1]];
      assert SymptomsOf(rows) == SymptomsOf(init) + {rows[|rows| - 1].sintoma};
    }
  }

  /** Growing the rows only extends each group: the group of a prefix is a
      prefix of the group. */
  lemma {:induction false} RowsOfPrefix(rows: seq<Row>, n: nat, s: SymptomId)
    requires n <= |rows|
    ensures |RowsOf(rows[..n], s)| <= |RowsOf(rows, s)|
    ensures RowsOf(rows[..n], s) == RowsOf(rows, s)[..|RowsOf(rows[..n], s)|]
    decreases |rows| - n
  {
    if n < |rows| {
      RowsOfPrefix(rows, n + 1, s);
      assert rows[..n + 1][..n] == rows[..n];
    } else {
      assert rows[..n] == rows;
    }
  }

  /** Every row appears in the group of its own symptom, at the position
      given by the number of earlier rows of that symptom: each row once,
      in input order. */
  lemma RowPlacement(rows: seq<Row>, i: nat)
    requires i < |rows|
    ensures |RowsOf(rows[..i], rows[i].sintoma)| < |RowsOf(rows, rows[i].sintoma)|
    ensures RowsOf(rows, rows[i].sintoma)[|RowsOf(rows[..i], rows[i].sintoma)|] == Entry(rows[i])
  {
    var s := rows[i].sintoma;
    assert rows[..i + 1][..i] == rows[..i];
    assert RowsOf(rows[..i + 1], s) == RowsOf(rows[..i], s) + [Entry(rows[i])];
    RowsOfPrefix(rows, i + 1, s);
  }

  /** Two rows of the same symptom take different positions in its group,
      the earlier row the earlier position. */
  lemma RowPositionsDistinct(rows: seq<Row>, i: nat, i': nat)
    requires i < i' < |rows| && rows[i].sintoma == rows[i'].sintoma
    ensures |RowsOf(rows[..i], rows[i].sintoma)| < |RowsOf(rows[..i'], rows[i].sintoma)|
  {
    var s := rows[i].sintoma;
    assert rows[..i + 1][..i] == rows[..i];
    assert rows[..i'][..i + 1] == rows[..i + 1];
    RowsOfPrefix(rows[..i'], i + 1, s);
  }

  /** No entry is invented: each position of a group holds the entry of the
      row of that symptom that `RowPlacement` puts there. With
      `RowPlacement` and `RowPositionsDistinct`, rows of a symptom and
      positions of its group match one to one. */
  lemma {:induction false} RowsOfFromRows(rows: seq<Row>, s: SymptomId, p: nat)
    requires p < |RowsOf(rows, s)|
    ensures exists i :: 0 <= i < |rows| && rows[i].sintoma == s && |RowsOf(rows[..i], s)| == p &&
              Entry(rows[i]) == RowsOf(rows, s)[p]
    decreases |rows|
  {
    var init := rows[..|rows| - 1];
    if p < |RowsOf(init, s)| {
      RowsOfFromRows(init, s, p);
      var i :| 0 <= i < |init| && init[i].sintoma == s && |RowsOf(init[..i], s)| == p &&
        Entry(init[i]) == RowsOf(init, s)[p];
      assert rows[i] == init[i];
      assert init[..i] == rows[..i];
    } else {
      assert rows[|rows| - 1].sintoma == s;
      assert rows[..|rows| - 1] == init;
    }
  }
}
