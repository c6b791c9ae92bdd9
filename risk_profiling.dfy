/**
 * The risk class of the suitability questionnaire (ui/risk_profiling.py):
 * knowledge, experience, loss tolerance, horizon and age are weighted into
 * one score, which is banded into the classes 1 (security first) to 5
 * (speculative).
 */
module RiskProfiling {
  import opened RealMath

  const LowestClass: int := 1
  const HighestClass: int := 5

  /** A longer horizon can carry more risk: -1 below 5 years, 0 below 10, 0.5 below 20, otherwise 1. */
  function HorizonModifier(investmentHorizon: int): (m: real)
    ensures -1.0 <= m <= 1.0
    ensures investmentHorizon < 5 <==> m == -1.0
    ensures investmentHorizon >= 20 <==> m == 1.0
  {
    if investmentHorizon < 5 then -1.0
    else if investmentHorizon < 10 then 0.0
    else if investmentHorizon < 20 then 0.5
    else 1.0
  }

  /** Younger savers have more time: 0.5 below 30, 0.25 below 40, 0 below 50, -0.25 below 60, otherwise -0.5. */
  function AgeModifier(age: int): (m: real)
    ensures -0.5 <= m <= 0.5
    ensures age < 30 <==> m == 0.5
    ensures age >= 60 <==> m == -0.5
  {
    if age < 30 then 0.5
    else if age < 40 then 0.25
    else if age < 50 then 0.0
    else if age < 60 then -0.25
    else -0.5
  }

  lemma HorizonModifierMonotone(shorter: int, longer: int)
    requires shorter <= longer
    ensures HorizonModifier(shorter) <= HorizonModifier(longer)
  {
  }

  lemma AgeModifierAntitone(younger: int, older: int)
    requires younger <= older
    ensures AgeModifier(older) <= AgeModifier(younger)
  {
  }

  /** The capacity term: loss tolerance moved by horizon and age, clamped to 1..5. */
  function Capacity(lossTolerance: int, investmentHorizon: int, age: int): (c: real)
    ensures 1.0 <= c <= 5.0
    ensures 1.0 <= (lossTolerance as real) + HorizonModifier(investmentHorizon) + AgeModifier(age) <= 5.0
        ==> c == (lossTolerance as real) + HorizonModifier(investmentHorizon) + AgeModifier(age)
  {
    Min(5.0, Max(1.0, (lossTolerance as real) + HorizonModifier(investmentHorizon) + AgeModifier(age)))
  }

  /**
   * The weighted score: loss tolerance 60 %, the mean of knowledge and
   * experience 30 %, the capacity term 10 %.
   */
  function TotalScore(knowledgeLevel: int, experienceLevel: int, lossTolerance: int,
                      investmentHorizon: int, age: int): (score: real)
    ensures score * 20.0
         == (lossTolerance as real) * 12.0 + ((knowledgeLevel + experienceLevel) as real) * 3.0
            + Capacity(lossTolerance, investmentHorizon, age) * 2.0
  {
    (lossTolerance as real) * 0.6
    + (((knowledgeLevel + experienceLevel) as real) / 2.0) * 0.3
    + Capacity(lossTolerance, investmentHorizon, age) * 0.1
  }

  /**
   * The class for a score: the score rounded to the nearest whole class, a
   * half rounding down, and clamped to 1..5.
   */
  function ClassForScore(score: real): (riskClass: int)
    ensures LowestClass <= riskClass <= HighestClass
    ensures riskClass == LowestClass || score > (riskClass as real) - 0.5
    ensures riskClass == HighestClass || score <= (riskClass as real) + 0.5
  {
    if score <= 1.5 then 1
    else if score <= 2.5 then 2
    else if score <= 3.5 then 3
    else if score <= 4.5 then 4
    else 5
  }

  /** A higher score never gives a lower class. */
  lemma ClassForScoreMonotone(lower: real, higher: real)
    requires lower <= higher
    ensures ClassForScore(lower) <= ClassForScore(higher)
  {
  }

  /** `calculate_risk_class`, without the explanation text. */
  function RiskClass(knowledgeLevel: int, experienceLevel: int, lossTolerance: int,
                     investmentHorizon: int, age: int): (riskClass: int)
    ensures LowestClass <= riskClass <= HighestClass
  {
    ClassForScore(TotalScore(knowledgeLevel, experienceLevel, lossTolerance, investmentHorizon, age))
  }

  /**
   * On the questionnaire's answers (knowledge and experience 1..4, loss
   * tolerance 1..5) the score lies between 1 and 4.7, so class 5 needs the
   * top loss tolerance.
   */
  lemma ScoreOnAnswers(knowledgeLevel: int, experienceLevel: int, lossTolerance: int,
                       investmentHorizon: int, age: int)
    requires 1 <= knowledgeLevel <= 4 && 1 <= experienceLevel <= 4 && 1 <= lossTolerance <= 5
    ensures 1.0 <= TotalScore(knowledgeLevel, experienceLevel, lossTolerance, investmentHorizon, age) <= 4.7
    ensures RiskClass(knowledgeLevel, experienceLevel, lossTolerance, investmentHorizon, age) == HighestClass
        ==> lossTolerance == 5
  {
    var c := Capacity(lossTolerance, investmentHorizon, age);
    var score := TotalScore(knowledgeLevel, experienceLevel, lossTolerance, investmentHorizon, age);
    if lossTolerance <= 4 {
      assert score * 20.0 <= 4.0 * 12.0 + 8.0 * 3.0 + c * 2.0;
      assert score <= 4.1;
    }
  }

  /**
   * Every answer moves the class the expected way: more knowledge, more
   * experience, more loss tolerance and a longer horizon never lower it,
   * and being older never raises it.
   */
  lemma RiskClassMonotone(k: int, e: int, l: int, h: int, a: int,
                          k2: int, e2: int, l2: int, h2: int, a2: int)
    requires k <= k2 && e <= e2 && l <= l2 && h <= h2 && a2 <= a
    ensures RiskClass(k, e, l, h, a) <= RiskClass(k2, e2, l2, h2, a2)
  {
    HorizonModifierMonotone(h, h2);
    AgeModifierAntitone(a2, a);
    var c := Capacity(l, h, a);
    var c2 := Capacity(l2, h2, a2);
    assert c <= c2;
    var s := TotalScore(k, e, l, h, a);
    var s2 := TotalScore(k2, e2, l2, h2, a2);
    assert s * 20.0 <= s2 * 20.0;
    ClassForScoreMonotone(s, s2);
  }
}
