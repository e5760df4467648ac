/** The analysis result record as the application uses it, and the fixed record
    `createFallbackResult` substitutes when the reply cannot be parsed. */
module AnalysisResults {
  import opened Wrappers

  /** One recognised food. `portion` may be absent in a parsed reply. */
  datatype FoodItem = FoodItem(name: string, calories: int, portion: Option<string>)

  /** One suggested exercise (`kind` is the reply's `type` field). */
  datatype Exercise = Exercise(name: string, duration: string, kind: string)

  /** A parsed reply. A missing `foods`, `calculationProcess` or `exercises` array is
      represented by the empty sequence, which every consumer treats the same way; a missing
      `totalCalories` is kept as `None` because the copied text shows it. */
  datatype AnalysisResult = AnalysisResult(
    foods: seq<FoodItem>,
    totalCalories: Option<int>,
    calculationProcess: seq<string>,
    exercises: seq<Exercise>)

  function SumCalories(foods: seq<FoodItem>): int
  {
    if foods == [] then 0 else SumCalories(foods[..|foods| - 1]) + foods[|foods| - 1].calories
  }

  /** The generic estimate used when the reply is not JSON. The reply text is ignored. */
  function CreateFallbackResult(responseText: string): (r: AnalysisResult)
    ensures r.foods == [FoodItem("인식된 음식", 300, Some("1인분"))]
    ensures r.totalCalories == Some(SumCalories(r.foods)) == Some(300)
    ensures |r.calculationProcess| == 3
    ensures |r.exercises| == 2
    ensures r.exercises[0].duration == "45분" && r.exercises[1].duration == "25분"
  {
    AnalysisResult(
      [FoodItem("인식된 음식", 300, Some("1인분"))],
      Some(300),
      [ "AI가 이미지를 분석했습니다",
        "일반적인 음식의 평균 칼로리를 계산했습니다",
        "약 300kcal로 추정됩니다" ],
      [ Exercise("빠른 걷기", "45분", "유산소"),
        Exercise("달리기", "25분", "유산소") ])
  }

  /** The fallback does not depend on the reply text. */
  lemma FallbackIgnoresText(a: string, b: string)
    ensures CreateFallbackResult(a) == CreateFallbackResult(b)
  {
  }
}
