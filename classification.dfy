/** Selection and classification in `diagnosticar`: the maximum score and
    the first disease that reaches it, the probability `max / sum * 100`
    with its age and BMI loadings and its ceiling of 100, and the band the
    probability falls in. */
module Classification {

  /** The scores summed, as `sum` does. */
  function Sum(s: seq<real>): real
    decreases |s|
  {
    if s == [] then 0.0 else Sum(s[..|s| - 1]) + s[|s| - 1]
  }

  /** The largest score, as `max` over the values does. */
  function MaxOf(s: seq<real>): (m: real)
    requires s != []
    ensures m in s
    ensures forall j :: 0 <= j < |s| ==> s[j] <= m
    decreases |s|
  {
    if |s| == 1 then s[0]
    else
      var m := MaxOf(s[..|s| - 1]);
      if s[|s| - 1] > m then s[|s| - 1] else m
  }

  /** The position `max` with a key returns: a largest score, and the first
      of them, since a later candidate replaces the current one only when it
      is strictly larger. */
  function ArgMax(s: seq<real>): (k: nat)
    requires s != []
    ensures k < |s|
    ensures forall j :: 0 <= j < |s| ==> s[j] <= s[k]
    ensures forall j :: 0 <= j < k ==> s[j] < s[k]
    decreases |s|
  {
    if |s| == 1 then 0
    else
      var k := ArgMax(s[..|s| - 1]);
      if s[|s| - 1] > s[k] then |s| - 1 else k
  }

  /** The chosen position holds the maximum score. */
  lemma ArgMaxAttainsMax(s: seq<real>)
    requires s != []
    ensures s[ArgMax(s)] == MaxOf(s)
  {
  }

  /** +20 for a patient older than 60. */
  function AgeLoading(edad: int): real {
    if edad > 60 then 20.0 else 0.0
  }

  /** +20 for a BMI above 25. */
  function BmiLoading(imc: real): real {
    if imc > 25.0 then 20.0 else 0.0
  }

  /** The ceiling of 100; there is no floor. */
  function Clamp(p: real): real {
    if p > 100.0 then 100.0 else p
  }

  /** The probability of the chosen disease, in percent. */
  function Probability(maxScore: real, total: real, edad: int, imc: real): (p: real)
    requires total != 0.0
    ensures p <= 100.0
    ensures maxScore / total * 100.0 + AgeLoading(edad) + BmiLoading(imc) <= 100.0 ==>
              p == maxScore / total * 100.0 + AgeLoading(edad) + BmiLoading(imc)
  {
    Clamp(maxScore / total * 100.0 + AgeLoading(edad) + BmiLoading(imc))
  }

  /** The step-by-step computation of `base_probabilidad`. */
  method ComputeProbability(maxScore: real, total: real, edad: int, imc: real) returns (p: real)
    requires total != 0.0
    ensures p == Probability(maxScore, total, edad, imc)
    ensures p <= 100.0
  {
    p := maxScore / total * 100.0;
    if edad > 60 {
      p := p + 20.0;
    }
    if imc > 25.0 {
      p := p + 20.0;
    }
    if p > 100.0 {
      p := 100.0;
    }
  }

  /** The probability never exceeds 100, and it is the base value plus the
      loadings whenever that sum does not exceed 100; below, nothing is
      clamped, so a negative or oversized ratio from negative weights is
      passed through. */
  lemma ProbabilityClamp(maxScore: real, total: real, edad: int, imc: real)
    requires total != 0.0
    ensures Probability(maxScore, total, edad, imc) <= 100.0
    ensures var raw := maxScore / total * 100.0 + AgeLoading(edad) + BmiLoading(imc);
            Probability(maxScore, total, edad, imc) == (if raw <= 100.0 then raw else 100.0)
  {
  }

  /** The age loading applies exactly above 60 (60 itself gets none), the BMI
      loading exactly above 25 (25 itself gets none), and they stack. */
  lemma Loadings(edad: int, imc: real)
    ensures AgeLoading(edad) == 20.0 <==> edad > 60
    ensures AgeLoading(edad) == 0.0 <==> edad <= 60
    ensures BmiLoading(imc) == 20.0 <==> imc > 25.0
    ensures BmiLoading(imc) == 0.0 <==> imc <= 25.0
    ensures AgeLoading(60) == 0.0 && BmiLoading(25.0) == 0.0
    ensures 0.0 <= AgeLoading(edad) + BmiLoading(imc) <= 40.0
    ensures AgeLoading(edad) + BmiLoading(imc) == 40.0 <==> edad > 60 && imc > 25.0
  {
  }

  /** Holding the scores and BMI fixed, an age above 60 raises the
      probability by exactly 20 until the ceiling is reached. */
  lemma AgeLoadingIndependent(maxScore: real, total: real, elder: int, younger: int, imc: real)
    requires total != 0.0
    requires elder > 60 && younger <= 60
    ensures Probability(maxScore, total, elder, imc) ==
              Clamp(Probability(maxScore, total, younger, imc) + 20.0)
  {
  }

  /** Holding the scores and age fixed, a BMI above 25 raises the
      probability by exactly 20 until the ceiling is reached. */
  lemma BmiLoadingIndependent(maxScore: real, total: real, edad: int, heavy: real, light: real)
    requires total != 0.0
    requires heavy > 25.0 && light <= 25.0
    ensures Probability(maxScore, total, edad, heavy) ==
              Clamp(Probability(maxScore, total, edad, light) + 20.0)
  {
  }

  /** The confidence band. */
  datatype Banda = Baja | Media | Alta

  /** The `if/elif/else` chain over the probability. */
  function Classify(p: real): (b: Banda)
    ensures b == Baja <==> p < 30.0
    ensures b == Alta <==> 70.0 <= p
  {
    if p < 30.0 then Baja
    else if p < 70.0 then Media
    else Alta
  }

  function Rank(b: Banda): nat {
    match b
    case Baja => 0
    case Media => 1
    case Alta => 2
  }

  /** The bands split the line at 30 and 70, each cut-off belonging to the
      upper band, and a larger probability never falls in a lower band. */
  lemma ClassifyBands(p: real, q: real)
    ensures Classify(p) == Baja <==> p < 30.0
    ensures Classify(p) == Media <==> 30.0 <= p < 70.0
    ensures Classify(p) == Alta <==> 70.0 <= p
    ensures Classify(30.0) == Media && Classify(70.0) == Alta
    ensures p <= q ==> Rank(Classify(p)) <= Rank(Classify(q))
  {
  }
}
