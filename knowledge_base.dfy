/** The knowledge-base data model that the diagnostic scorer reads: the rows
    of the symptom-disease association relation, the grouped associations,
    the disease table, the interview's selections, and the error outcomes of
    a diagnosis call. */
module KnowledgeBase {

  type SymptomId = int
  type DiseaseId = int

  /** One row `(id_sintoma, id_enfermedad, peso)` of the association relation. */
  datatype Row = Row(sintoma: SymptomId, enfermedad: DiseaseId, peso: real)

  /** One entry `{id_enfermedad, peso}` of a symptom's association list. */
  datatype Association = Association(enfermedad: DiseaseId, peso: real)

  /** Associations grouped by symptom id. */
  type Relaciones = map<SymptomId, seq<Association>>

  /** One disease of the table: id, display name and description. */
  datatype Disease = Disease(id: DiseaseId, nombre: string, descripcion: string)

  /** The disease table is a dictionary keyed by id; the sequence keeps its
      insertion order, which decides ties between equal scores. */
  predicate DistinctIds(t: seq<Disease>) {
    forall i, j :: 0 <= i < j < |t| ==> t[i].id != t[j].id
  }

  type DiseaseTable = t: seq<Disease> | DistinctIds(t) witness []

  /** One answered question of the interview: a symptom and its intensity. */
  datatype Selection = Selection(sintoma: SymptomId, intensidad: int)

  /** The exceptions a diagnosis call can raise. */
  datatype Error =
    | UnknownDisease(id: DiseaseId)  // KeyError: an association names a disease not in the table
    | EmptyTable                     // ValueError: max() over no scores
    | DivisionByZero                 // ZeroDivisionError: positive maximum, scores summing to 0

  datatype Option<+T> = None | Some(value: T)

  datatype Result<+R> = Success(value: R) | Failure(error: Error)

  /** The set of ids in a disease table. */
  function Ids(t: seq<Disease>): (s: set<DiseaseId>)
    ensures forall i :: 0 <= i < |t| ==> t[i].id in s
  {
    set x | x in t :: x.id
  }

  /** The association list a symptom id has, empty when it has none. */
  function AssocsOf(rel: Relaciones, s: SymptomId): seq<Association> {
    if s in rel then rel[s] else []
  }
}
