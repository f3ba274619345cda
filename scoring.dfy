/** The scoring pass of `diagnosticar`: every disease of the table starts at
    0, and every association of every selected symptom that has associations
    adds `peso * intensidad` to its disease's score. */
module Scoring {
  import opened KnowledgeBase

  /** What the associations `assocs`, met at intensity `k`, add to disease `d`. */
  function AssocScore(assocs: seq<Association>, d: DiseaseId, k: int): real
    decreases |assocs|
  {
    if assocs == [] then 0.0
    else
      var a := assocs[|assocs| - 1];
      AssocScore(assocs[..|assocs| - 1], d, k) + (if a.enfermedad == d then a.peso * k as real else 0.0)
  }

  /** Reference definition of a disease's score: the sum, over the
      selections, of what their symptom's associations add to it. */
  function Score(sel: seq<Selection>, rel: Relaciones, d: DiseaseId): real
    decreases |sel|
  {
    if sel == [] then 0.0
    else
      var s := sel[|sel| - 1];
      Score(sel[..|sel| - 1], rel, d) + AssocScore(AssocsOf(rel, s.sintoma), d, s.intensidad)
  }

  /** The first association of `assocs` whose disease is not in `ids`. */
  function UnknownIn(assocs: seq<Association>, ids: set<DiseaseId>): Option<DiseaseId>
    decreases |assocs|
  {
    if assocs == [] then None
    else
      match UnknownIn(assocs[..|assocs| - 1], ids)
      case Some(x) => Some(x)
      case None => if assocs[|assocs| - 1].enfermedad in ids then None else Some(assocs[|assocs| - 1].enfermedad)
  }

  /** The first association met by the scoring pass whose disease is not in
      `ids`, in the order the pass visits them. */
  function FirstUnknown(sel: seq<Selection>, rel: Relaciones, ids: set<DiseaseId>): Option<DiseaseId>
    decreases |sel|
  {
    if sel == [] then None
    else
      match FirstUnknown(sel[..|sel| - 1], rel, ids)
      case Some(x) => Some(x)
      case None => UnknownIn(AssocsOf(rel, sel[|sel| - 1].sintoma), ids)
  }

  /** The score table the pass produces, or the KeyError it raises. */
  function Scores(t: DiseaseTable, rel: Relaciones, sel: seq<Selection>): (r: Result<map<DiseaseId, real>>)
    ensures r.Success? ==> r.value.Keys == Ids(t)
  {
    match FirstUnknown(sel, rel, Ids(t))
    case Some(x) => Failure(UnknownDisease(x))
    case None => Success(map d | d in Ids(t) :: Score(sel, rel, d))
  }

  /** The outer scoring loop, over a score dictionary updated in place:
      every disease starts at 0, then each selected symptom that has
      associations adds them in. */
  method ComputeScores(t: DiseaseTable, rel: Relaciones, sel: seq<Selection>)
    returns (r: Result<map<DiseaseId, real>>)
    ensures r == Scores(t, rel, sel)
  {
    var ids := Ids(t);
    var puntajes := map d | d in ids :: 0.0;
    var i := 0;
    while i < |sel|
      invariant 0 <= i <= |sel|
      invariant FirstUnknown(sel[..i], rel, ids) == None
      invariant puntajes.Keys == ids
      invariant forall d :: d in ids ==> puntajes[d] == Score(sel[..i], rel, d)
    {
      var s := sel[i];
      ScoreStep(sel, rel, ids, i);
      if s.sintoma in rel {
        var added := AddAssociations(puntajes, rel[s.sintoma], s.intensidad);
        if added.Failure? {
          FirstUnknownPrefix(sel, rel, ids, i + 1);
          return Failure(added.error);
        }
        puntajes := added.value;
      }
      i := i + 1;
    }
    assert sel[..i] == sel;
    TableEquality(t, puntajes, sel, rel);
    return Success(puntajes);
  }

  /** The inner scoring loop: each association of one selected symptom adds
      `peso * intensidad` to its disease's entry, and an association naming
      a disease without an entry raises KeyError. */
  method AddAssociations(puntajes: map<DiseaseId, real>, assocs: seq<Association>, k: int)
    returns (r: Result<map<DiseaseId, real>>)
    ensures r.Failure? <==> UnknownIn(assocs, puntajes.Keys).Some?
    ensures r.Failure? ==> r.error == UnknownDisease(UnknownIn(assocs, puntajes.Keys).value)
    ensures r.Success? ==> r.value.Keys == puntajes.Keys
    ensures r.Success? ==> forall d :: d in puntajes ==> r.value[d] == puntajes[d] + AssocScore(assocs, d, k)
  {
    var acc := puntajes;
    var j := 0;
    while j < |assocs|
      invariant 0 <= j <= |assocs|
      invariant UnknownIn(assocs[..j], puntajes.Keys) == None
      invariant acc.Keys == puntajes.Keys
      invariant forall d :: d in puntajes ==> acc[d] == puntajes[d] + AssocScore(assocs[..j], d, k)
    {
      var a := assocs[j];
      AssocStep(assocs, puntajes.Keys, j, k);
      if a.enfermedad !in acc {
        UnknownInPrefix(assocs, j + 1, puntajes.Keys);
        return Failure(UnknownDisease(a.enfermedad));
      }
      acc := acc[a.enfermedad := acc[a.enfermedad] + a.peso * k as real];
      j := j + 1;
    }
    assert assocs[..j] == assocs;
    return Success(acc);
  }

  /** One more selection adds its symptom's associations to every score and
      checks them for unknown diseases. */
  lemma ScoreStep(sel: seq<Selection>, rel: Relaciones, ids: set<DiseaseId>, i: nat)
    requires i < |sel|
    ensures forall d :: Score(sel[..i + 1], rel, d) ==
              Score(sel[..i], rel, d) + AssocScore(AssocsOf(rel, sel[i].sintoma), d, sel[i].intensidad)
    ensures FirstUnknown(sel[..i], rel, ids) == None ==>
              FirstUnknown(sel[..i + 1], rel, ids) == UnknownIn(AssocsOf(rel, sel[i].sintoma), ids)
  {
    assert sel[..i + 1][..i] == sel[..i];
  }

  /** One more association adds to the score of its own disease only. */
  lemma AssocStep(assocs: seq<Association>, ids: set<DiseaseId>, j: nat, k: int)
    requires j < |assocs|
    ensures forall d :: AssocScore(assocs[..j + 1], d, k) ==
              AssocScore(assocs[..j], d, k) + (if assocs[j].enfermedad == d then assocs[j].peso * k as real else 0.0)
    ensures UnknownIn(assocs[..j], ids) == None ==>
              UnknownIn(assocs[..j + 1], ids) == (if assocs[j].enfermedad in ids then None else Some(assocs[j].enfermedad))
  {
    assert assocs[..j + 1][..j] == assocs[..j];
  }

  /** A dictionary with the table's keys holding each disease's score is the
      score table. */
  lemma TableEquality(t: DiseaseTable, puntajes: map<DiseaseId, real>, sel: seq<Selection>, rel: Relaciones)
    requires FirstUnknown(sel, rel, Ids(t)) == None
    requires puntajes.Keys == Ids(t)
    requires forall d :: d in Ids(t) ==> puntajes[d] == Score(sel, rel, d)
    ensures Scores(t, rel, sel) == Success(puntajes)
  {
    var m := map d | d in Ids(t) :: Score(sel, rel, d);
    assert m == puntajes;
  }

  /** Once a prefix of the associations has met an unknown disease, every
      longer prefix reports that same first one. */
  lemma {:induction false} UnknownInPrefix(assocs: seq<Association>, n: nat, ids: set<DiseaseId>)
    requires n <= |assocs| && UnknownIn(assocs[..n], ids).Some?
    ensures UnknownIn(assocs, ids) == UnknownIn(assocs[..n], ids)
    decreases |assocs| - n
  {
    if n < |assocs| {
      assert assocs[..n + 1][..n] == assocs[..n];
      UnknownInPrefix(assocs, n + 1, ids);
    } else {
      assert assocs[..n] == assocs;
    }
  }

  /** Once a prefix of the selections has met an unknown disease, the whole
      pass reports that same first one. */
  lemma {:induction false} FirstUnknownPrefix(sel: seq<Selection>, rel: Relaciones, ids: set<DiseaseId>, n: nat)
    requires n <= |sel| && FirstUnknown(sel[..n], rel, ids).Some?
    ensures FirstUnknown(sel, rel, ids) == FirstUnknown(sel[..n], rel, ids)
    decreases |sel| - n
  {
    if n < |sel| {
      assert sel[..n + 1][..n] == sel[..n];
      FirstUnknownPrefix(sel, rel, ids, n + 1);
    } else {
      assert sel[..n] == sel;
    }
  }

  /** The reported unknown disease is that of the first entry naming a
      disease outside `ids`, and there is none exactly when every entry
      names a known disease. */
  lemma {:induction false} UnknownInSpec(assocs: seq<Association>, ids: set<DiseaseId>)
    ensures UnknownIn(assocs, ids) == None <==> forall j :: 0 <= j < |assocs| ==> assocs[j].enfermedad in ids
    ensures UnknownIn(assocs, ids).Some? ==>
              UnknownIn(assocs, ids).value !in ids &&
              exists j :: 0 <= j < |assocs| && assocs[j].enfermedad == UnknownIn(assocs, ids).value &&
                forall j' :: 0 <= j' < j ==> assocs[j'].enfermedad in ids
    decreases |assocs|
  {
    if assocs != [] {
      var init := assocs[..|assocs| - 1];
      UnknownInSpec(init, ids);
      if UnknownIn(init, ids).Some? {
        var j :| 0 <= j < |init| && init[j].enfermedad == UnknownIn(init, ids).value &&
          forall j' :: 0 <= j' < j ==> init[j'].enfermedad in ids;
        assert assocs[j] == init[j];
        assert forall j' :: 0 <= j' < j ==> assocs[j'] == init[j'];
      } else {
        assert forall j' :: 0 <= j' < |init| ==> assocs[j'] == init[j'];
      }
    }
  }

  /** The pass raises KeyError exactly when some selected symptom has an
      association naming a disease outside the table, and the id it reports
      is such a disease. */
  lemma {:induction false} FirstUnknownSpec(sel: seq<Selection>, rel: Relaciones, ids: set<DiseaseId>)
    ensures FirstUnknown(sel, rel, ids) == None <==>
              forall i, j :: 0 <= i < |sel| && 0 <= j < |AssocsOf(rel, sel[i].sintoma)| ==>
                AssocsOf(rel, sel[i].sintoma)[j].enfermedad in ids
    ensures FirstUnknown(sel, rel, ids).Some? ==>
              FirstUnknown(sel, rel, ids).value !in ids &&
              exists i, j :: 0 <= i < |sel| && 0 <= j < |AssocsOf(rel, sel[i].sintoma)| &&
                AssocsOf(rel, sel[i].sintoma)[j].enfermedad == FirstUnknown(sel, rel, ids).value
    decreases |sel|
  {
    if sel != [] {
      var init := sel[..|sel| - 1];
      var last := sel[|sel| - 1];
      FirstUnknownSpec(init, rel, ids);
      UnknownInSpec(AssocsOf(rel, last.sintoma), ids);
      forall i | 0 <= i < |init| ensures sel[i] == init[i] { }
      if FirstUnknown(init, rel, ids).Some? {
        var i, j :| 0 <= i < |init| && 0 <= j < |AssocsOf(rel, init[i].sintoma)| &&
          AssocsOf(rel, init[i].sintoma)[j].enfermedad == FirstUnknown(init, rel, ids).value;
        assert sel[i] == init[i];
      } else if UnknownIn(AssocsOf(rel, last.sintoma), ids).Some? {
        var j :| 0 <= j < |AssocsOf(rel, last.sintoma)| &&
          AssocsOf(rel, last.sintoma)[j].enfermedad == UnknownIn(AssocsOf(rel, last.sintoma), ids).value;
        assert AssocsOf(rel, sel[|sel| - 1].sintoma)[j].enfermedad == FirstUnknown(sel, rel, ids).value;
      }
    }
  }

  /** Every association of the first `n` selections names a disease in `ids`. */
  ghost predicate KnownBefore(sel: seq<Selection>, rel: Relaciones, ids: set<DiseaseId>, n: nat)
    requires n <= |sel|
  {
    forall i, j :: 0 <= i < n && 0 <= j < |AssocsOf(rel, sel[i].sintoma)| ==>
      AssocsOf(rel, sel[i].sintoma)[j].enfermedad in ids
  }

  /** The KeyError names the first unknown disease in the order the pass
      visits the associations: every association of an earlier selection,
      and every earlier association of the same selection, is known. */
  lemma {:induction false} FirstUnknownIsFirst(sel: seq<Selection>, rel: Relaciones, ids: set<DiseaseId>)
    requires FirstUnknown(sel, rel, ids).Some?
    ensures exists i, j :: 0 <= i < |sel| && 0 <= j < |AssocsOf(rel, sel[i].sintoma)| &&
              AssocsOf(rel, sel[i].sintoma)[j].enfermedad == FirstUnknown(sel, rel, ids).value &&
              KnownBefore(sel, rel, ids, i) &&
              forall j' :: 0 <= j' < j ==> AssocsOf(rel, sel[i].sintoma)[j'].enfermedad in ids
    decreases |sel|
  {
    var init := sel[..|sel| - 1];
    var last := sel[|sel| - 1];
    var v := FirstUnknown(sel, rel, ids).value;
    if FirstUnknown(init, rel, ids).Some? {
      FirstUnknownIsFirst(init, rel, ids);
      var i, j :| 0 <= i < |init| && 0 <= j < |AssocsOf(rel, init[i].sintoma)| &&
        AssocsOf(rel, init[i].sintoma)[j].enfermedad == v &&
        KnownBefore(init, rel, ids, i) &&
        forall j' :: 0 <= j' < j ==> AssocsOf(rel, init[i].sintoma)[j'].enfermedad in ids;
      assert sel[i] == init[i];
      assert KnownBefore(sel, rel, ids, i) by {
        forall i' | 0 <= i' < i ensures sel[i'] == init[i'] { }
      }
    } else {
      var assocs := AssocsOf(rel, last.sintoma);
      FirstUnknownSpec(init, rel, ids);
      UnknownInSpec(assocs, ids);
      var j :| 0 <= j < |assocs| && assocs[j].enfermedad == v &&
        forall j' :: 0 <= j' < j ==> assocs[j'].enfermedad in ids;
      assert KnownBefore(sel, rel, ids, |sel| - 1) by {
        forall i' | 0 <= i' < |init| ensures sel[i'] == init[i'] { }
      }
    }
  }

  /** At intensity 0 an association list adds nothing to any disease. */
  lemma {:induction false} AssocScoreZero(assocs: seq<Association>, d: DiseaseId)
    ensures AssocScore(assocs, d, 0) == 0.0
    decreases |assocs|
  {
    if assocs != [] {
      AssocScoreZero(assocs[..|assocs| - 1], d);
    }
  }

  /** A list with no entry for `d` adds nothing to `d`. */
  lemma {:induction false} AssocScoreUntouched(assocs: seq<Association>, d: DiseaseId, k: int)
    requires forall j :: 0 <= j < |assocs| ==> assocs[j].enfermedad != d
    ensures AssocScore(assocs, d, k) == 0.0
    decreases |assocs|
  {
    if assocs != [] {
      AssocScoreUntouched(assocs[..|assocs| - 1], d, k);
    }
  }

  /** When every selected intensity is 0, every score stays 0. */
  lemma {:induction false} ZeroIntensityScore(sel: seq<Selection>, rel: Relaciones, d: DiseaseId)
    requires forall i :: 0 <= i < |sel| ==> sel[i].intensidad == 0
    ensures Score(sel, rel, d) == 0.0
    decreases |sel|
  {
    if sel != [] {
      ZeroIntensityScore(sel[..|sel| - 1], rel, d);
      AssocScoreZero(AssocsOf(rel, sel[|sel| - 1].sintoma), d);
    }
  }

  /** A disease that no association of a selected symptom names keeps score 0. */
  lemma {:induction false} NoIncomingScore(sel: seq<Selection>, rel: Relaciones, d: DiseaseId)
    requires forall i, j :: 0 <= i < |sel| && 0 <= j < |AssocsOf(rel, sel[i].sintoma)| ==>
               AssocsOf(rel, sel[i].sintoma)[j].enfermedad != d
    ensures Score(sel, rel, d) == 0.0
    decreases |sel|
  {
    if sel != [] {
      var init := sel[..|sel| - 1];
      forall i, j | 0 <= i < |init| && 0 <= j < |AssocsOf(rel, init[i].sintoma)|
        ensures AssocsOf(rel, init[i].sintoma)[j].enfermedad != d
      {
        assert sel[i] == init[i];
      }
      NoIncomingScore(init, rel, d);
      AssocScoreUntouched(AssocsOf(rel, sel[|sel| - 1].sintoma), d, sel[|sel| - 1].intensidad);
    }
  }

  /** The selections whose symptom has associations. */
  function Known(sel: seq<Selection>, rel: Relaciones): (r: seq<Selection>)
    ensures forall i :: 0 <= i < |r| ==> r[i].sintoma in rel
    decreases |sel|
  {
    if sel == [] then []
    else Known(sel[..|sel| - 1], rel) + (if sel[|sel| - 1].sintoma in rel then [sel[|sel| - 1]] else [])
  }

  /** Selected symptoms absent from the associations change nothing: the
      scores equal those of the selections that have associations. */
  lemma {:induction false} AbsentSymptomsIgnored(sel: seq<Selection>, rel: Relaciones, d: DiseaseId)
    ensures Score(sel, rel, d) == Score(Known(sel, rel), rel, d)
    decreases |sel|
  {
    if sel != [] {
      var init := sel[..|sel| - 1];
      var last := sel[|sel| - 1];
      AbsentSymptomsIgnored(init, rel, d);
      if last.sintoma in rel {
        var k := Known(init, rel) + [last];
        assert k[..|k| - 1] == Known(init, rel);
      } else {
        assert Known(sel, rel) == Known(init, rel);
      }
    }
  }

  /** Raising one association's intensity cannot lower a disease that the
      symptom only weighs non-negatively. */
  lemma {:induction false} AssocScoreMonotone(assocs: seq<Association>, d: DiseaseId, k: int, k': int)
    requires k <= k'
    requires forall j :: 0 <= j < |assocs| && assocs[j].enfermedad == d ==> assocs[j].peso >= 0.0
    ensures AssocScore(assocs, d, k) <= AssocScore(assocs, d, k')
    decreases |assocs|
  {
    if assocs != [] {
      var a := assocs[|assocs| - 1];
      AssocScoreMonotone(assocs[..|assocs| - 1], d, k, k');
      if a.enfermedad == d {
        assert a.peso * k as real <= a.peso * k' as real by {
          assert a.peso * k' as real - a.peso * k as real == a.peso * (k' - k) as real;
        }
      }
    }
  }

  /** Raising the intensity of one selected symptom never lowers the score of
      a disease it is only non-negatively associated with, and leaves the
      score of a disease it has no association with unchanged. */
  lemma {:induction false} IntensityMonotone(sel: seq<Selection>, rel: Relaciones, d: DiseaseId, i: nat, k: int)
    requires i < |sel| && sel[i].intensidad <= k
    requires forall j :: 0 <= j < |AssocsOf(rel, sel[i].sintoma)| && AssocsOf(rel, sel[i].sintoma)[j].enfermedad == d ==>
               AssocsOf(rel, sel[i].sintoma)[j].peso >= 0.0
    ensures Score(sel, rel, d) <= Score(sel[i := Selection(sel[i].sintoma, k)], rel, d)
    ensures (forall j :: 0 <= j < |AssocsOf(rel, sel[i].sintoma)| ==> AssocsOf(rel, sel[i].sintoma)[j].enfermedad != d) ==>
              Score(sel, rel, d) == Score(sel[i := Selection(sel[i].sintoma, k)], rel, d)
    decreases |sel|
  {
    var sel' := sel[i := Selection(sel[i].sintoma, k)];
    var n := |sel| - 1;
    if i == n {
      assert sel'[..n] == sel[..n];
      AssocScoreMonotone(AssocsOf(rel, sel[i].sintoma), d, sel[i].intensidad, k);
      if forall j :: 0 <= j < |AssocsOf(rel, sel[i].sintoma)| ==> AssocsOf(rel, sel[i].sintoma)[j].enfermedad != d {
        AssocScoreUntouched(AssocsOf(rel, sel[i].sintoma), d, sel[i].intensidad);
        AssocScoreUntouched(AssocsOf(rel, sel[i].sintoma), d, k);
      }
    } else {
      assert sel'[..n] == sel[..n][i := Selection(sel[i].sintoma, k)];
      IntensityMonotone(sel[..n], rel, d, i, k);
    }
  }
}
