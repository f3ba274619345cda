# Rule-based cardiac diagnosis scorer — Dafny model

This project models the decision logic of `Proyecto3.py`, a small expert
system. The logic works in three steps:

- It groups the symptom→disease association rows `(id_sintoma, id_enfermedad,
  peso)` by symptom.
- It scores every disease of the table from the intensities the patient gave
  (0–5) for each symptom.
- It picks the disease with the largest score. When that score is not
  positive, the result is "undetermined". Otherwise it turns the score into a
  percentage `max / sum * 100`, adds +20 for age over 60 and +20 for BMI over
  25, caps the result at 100, and reports the disease's name and description
  with the band "baja" (< 30), "media" (< 70) or "alta".

Scores, weights, BMI and probabilities are Dafny `real`s. Ids, intensities and
age are `int`s.

Modules, one per component:

- `KnowledgeBase` (`knowledge_base.dfy`): the data model. `Row`,
  `Association`, `Relaciones` (symptom id → association list), `Disease`,
  `Selection` and `Error` (the three exceptions the code can raise).
  `DiseaseTable` is a sequence of diseases with distinct ids. It stands for
  the dictionary built at `Proyecto3.py:30`: its order is the dictionary's
  insertion order, and that order decides ties.
- `Grouping` (`grouping.dfy`): the grouping loop of `obtener_relaciones`. It
  is a method over a local map reassigned entry by entry in a loop, proved
  equal to the reference function `RowsOf`.
- `Scoring` (`scoring.dfy`): the scoring loops of `diagnosticar`. The outer
  loop is `ComputeScores` and the inner loop over one symptom's associations
  is `AddAssociations`. Both reassign a local score map entry by entry in a
  loop. They are proved equal to the reference sums `Score`/`AssocScore`, and
  to `FirstUnknown`, which finds the first association whose disease is not in
  the table.
- `Classification` (`classification.dfy`): the maximum and the first
  position that reaches it, the loadings, the cap at 100, the step-by-step
  `base_probabilidad` computation and the bands.
- `Evidence` (`evidence.dfy`): how the scores relate to the ungrouped rows.
  Each row counts once per occurrence, so duplicate rows add up.
- `Diagnosis` (`diagnosis.dfy`): `Diagnose`, the whole decision as a
  function, and `Diagnosticar`, the same steps as a method proved equal to
  it. Lemmas cover the error, "undetermined" and chosen-disease outcomes.

The inputs that the source reads from SQLite are parameters here: the disease
table, the grouped associations and the completed selections. The three
exceptions the code can raise are modelled as `Failure` results:

- `UnknownDisease(id)` is the `KeyError` at line 57. It is raised at the first
  association visited whose disease is not in the table.
- `EmptyTable` is the `ValueError` from `max()` at line 59.
- `DivisionByZero` is raised at line 63 when the largest score is positive
  but the scores sum to 0.

The model follows the code in these points:

- `diagnosticar` does not validate intensities, age or BMI, so no contract
  restricts them.
- An empty disease table makes `max()` raise `ValueError`.
- Ties go to the first disease in table order.
- A symptom at intensity 0 still has its associations visited. An unknown
  disease there still raises `KeyError`.
- The probability has a ceiling of 100 and no floor. With negative weights,
  the base value can be negative.

## Model

| member | source | states |
|---|---|---|
| Grouping.GroupRows | Proyecto3.py:40-46 | the grouped map has exactly the symptom ids of the rows as keys; each key's list is the entries of that symptom's rows in input order; no list is empty |
| Grouping.RowsOfEmpty | Proyecto3.py:43-45 | a symptom's group is empty exactly when no row carries that symptom |
| Grouping.RowsOfPrefix | Proyecto3.py:41-45 | processing more rows only appends to a group: the group of a prefix of the rows is a prefix of the group |
| Grouping.RowPlacement | Proyecto3.py:41-45 | every row appears in its own symptom's group at the position given by the number of earlier rows of that symptom |
| Grouping.RowPositionsDistinct | Proyecto3.py:41-45 | two rows of the same symptom take different positions, the earlier row the earlier position, so the rows keep their input order |
| Grouping.RowsOfFromRows | Proyecto3.py:45 | no entry is invented: every position of a group holds the entry of the row of that symptom that `RowPlacement` puts there, so rows and positions match one to one and each row appears exactly once |
| Scoring.Scores | Proyecto3.py:52-57 | a successful pass yields a score for exactly the table's ids (with `FirstUnknownSpec`, `FirstUnknownIsFirst` and `ComputeScores`: each disease's summed `peso * intensidad`, or the KeyError of the first unknown disease visited) |
| Scoring.ComputeScores | Proyecto3.py:52-57 | the scoring loop returns a map over exactly the table's ids with each disease's summed `peso * intensidad`, or the KeyError for the first visited association whose disease is not in the table |
| Scoring.AddAssociations | Proyecto3.py:56-57 | one symptom's associations add `peso * intensidad` to their diseases' entries and change no key; the loop fails exactly when an association names a disease without an entry, and it reports the first such disease |
| Scoring.UnknownInSpec | Proyecto3.py:56-57 | within one list, an unknown disease is reported exactly when some entry names a disease outside the table, and the reported id is that of the first such entry |
| Scoring.FirstUnknownSpec | Proyecto3.py:54-57 | the pass raises KeyError exactly when some selected symptom has an association naming a disease outside the table, and the id it reports is such a disease |
| Scoring.FirstUnknownIsFirst | Proyecto3.py:54-57 | the KeyError names the first unknown disease in visiting order: every association of an earlier selection, and every earlier association of the same selection, names a disease of the table |
| Scoring.ZeroIntensityScore | Proyecto3.py:54-57 | when every selected intensity is 0, every score stays 0 |
| Scoring.NoIncomingScore | Proyecto3.py:52-57 | a disease that no association of any selected symptom names keeps its initial score 0 |
| Scoring.AbsentSymptomsIgnored | Proyecto3.py:55 | the scores are those of the selections whose symptom has associations: selected symptoms absent from the map change nothing |
| Scoring.IntensityMonotone | Proyecto3.py:54-57 | raising one selected symptom's intensity never lowers the score of a disease that symptom weighs only non-negatively, and leaves unchanged the score of a disease it has no association with |
| Classification.MaxOf | Proyecto3.py:59 | the maximum score is one of the scores and no score exceeds it |
| Classification.ArgMax | Proyecto3.py:60 | the chosen position holds a score that no other score exceeds, and every earlier position holds a strictly smaller score, so among equal maxima the first in table order is chosen |
| Classification.ArgMaxAttainsMax | Proyecto3.py:59-60 | the chosen disease's score equals `max_puntaje` |
| Classification.Probability | Proyecto3.py:63-71 | the probability never exceeds 100, and it is `max/sum*100` plus the loadings whenever that does not exceed 100 |
| Classification.ComputeProbability | Proyecto3.py:63-71 | the step-by-step `base_probabilidad` is the capped probability of the ratio plus the loadings, and it is never above 100 |
| Classification.ProbabilityClamp | Proyecto3.py:63-71 | the probability is never above 100; it equals `max/sum*100` plus the loadings whenever that is at most 100, and 100 otherwise; there is no lower bound |
| Classification.Loadings | Proyecto3.py:65-68 | the age loading is 20 exactly when `edad > 60` (60 gets none), the BMI loading is 20 exactly when `imc > 25` (25 gets none), and together they add 0, 20 or 40 |
| Classification.AgeLoadingIndependent | Proyecto3.py:65-71 | with scores and BMI fixed, an age over 60 raises the probability by exactly 20 until the cap at 100 |
| Classification.BmiLoadingIndependent | Proyecto3.py:63-71 | with scores and age fixed, a BMI over 25 raises the probability by exactly 20 until the cap at 100 |
| Classification.Classify | Proyecto3.py:73-78 | the band is "baja" exactly below 30 and "alta" exactly from 70 (the rest, "media", by `ClassifyBands`) |
| Classification.ClassifyBands | Proyecto3.py:73-78 | "baja" exactly below 30, "media" exactly on [30, 70), "alta" exactly from 70; 30 is "media", 70 is "alta"; the band never falls as the probability rises |
| Evidence.GroupScore | Proyecto3.py:40-57 | scoring a symptom's grouped list gives the sum of the weighted rows of that symptom and disease |
| Evidence.ScoreFromRows | Proyecto3.py:40-57 | with the associations grouped from the rows, every disease's score is the sum, over the selections, of `peso * intensidad` over the rows of that symptom and disease, each row counted once per occurrence |
| Evidence.ScoreConcat | Proyecto3.py:56-57 | scores are additive over association lists: concatenating two relations' lists adds their scores |
| Evidence.AppendRowScore | Proyecto3.py:45-57 | one grouping step that appends a row adds that row's own score to every disease, which is nothing for any disease other than the row's |
| Evidence.DuplicateRowScore | Proyecto3.py:45-57 | a row appended twice adds its score twice: duplicate (symptom, disease) rows accumulate additively |
| Diagnosis.Diagnose | Proyecto3.py:48-82 | an empty-table error only for an empty table; a reported name and description are those of a table disease with a positive score (the full case split is in `DiagnoseErrors`, `UndeterminedIff` and `DiagnosedIsFirstMaximum`) |
| Diagnosis.Diagnosticar | Proyecto3.py:48-82 | the step-by-step diagnosis (scoring loop, maximum, arg-max, probability, band) returns exactly what `Diagnose` decides |
| Diagnosis.DiagnoseErrors | Proyecto3.py:57-63 | KeyError exactly when an association of a selected symptom names a disease outside the table; otherwise ValueError exactly for an empty table; otherwise ZeroDivisionError exactly when the largest score is positive and the scores sum to 0 |
| Diagnosis.UndeterminedIff | Proyecto3.py:59-82 | the result is `(None, None, None)`, whatever the age and BMI, exactly when scoring succeeds over a non-empty table and no disease has a positive score |
| Diagnosis.DiagnosedIsFirstMaximum | Proyecto3.py:59-80 | a reported disease is the first in table order with the largest score; that score is positive, the sum is non-zero, and the band classifies the capped probability of its score |
| Diagnosis.ZeroIntensitiesUndetermined | Proyecto3.py:54-62 | all intensities 0 give "undetermined" whatever the age and BMI, provided every visited association names a disease of a non-empty table |
| Diagnosis.NoEvidenceUndetermined | Proyecto3.py:55-62 | when no selected symptom has associations (no selections, or no associations at all), a non-empty table gives "undetermined" |
| Diagnosis.SingleDiseaseExample | Proyecto3.py:48-80 | one symptom at intensity 5 with weight 2 towards the only disease, age 30, BMI 22: score 10, probability 100, band "alta" |
| Diagnosis.TwoDiseaseExample | Proyecto3.py:48-80 | weights 3 and 2 at intensity 2 give scores 6 and 4; with no loadings the first disease is reported at probability 60, band "media" |

## Left out

- SQLite access is left out because it is I/O through a library outside the
  model: `conectar_bd`, the queries of `obtener_sintomas`,
  `obtener_enfermedades` and `obtener_relaciones`, and `obtener_id_sintoma`.
  Their rows are parameters of the model. The `[]` returned on a connection
  failure is not modelled either. An empty association map gives
  "undetermined" for a non-empty table (`NoEvidenceUndetermined`).
- The dictionary comprehension that builds the disease table
  (`Proyecto3.py:30`) is left out. The model takes the finished table, with
  distinct ids. What it does with a repeated id (first position, last row's
  values) is not modelled.
- The tkinter application `SistemaExpertoApp` is left out because it is UI
  and event handling. This includes the interview stepping in
  `siguiente_sintoma`, which records one radio value per symptom. The model
  takes the completed selections as a sequence in dictionary insertion order.
  Keys are not required to be distinct; the model would simply sum repeated
  keys, which a dictionary cannot hold.
- The BMI computation from height and weight (line 189) is left out because
  `imc` is an input of `diagnosticar`.
- Floating-point behaviour is left out because the model uses exact `real`
  arithmetic. Rounding in the weights, the products, the sum and the division
  is not modelled.
- Scoring.IntensityMonotone: stated only for diseases the raised symptom
  weighs non-negatively. With a negative weight, the score can fall as the
  intensity rises.
