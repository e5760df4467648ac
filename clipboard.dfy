/** The text `copyResult` puts on the clipboard, as a function of the analysis result. */
module Clipboard {
  import opened Wrappers
  import opened Strings
  import opened AnalysisResults

  const CopyHeader := "🍽️ 칼로리 분석 결과\n\n"
  const FoodsHeading := "📋 인식된 음식:\n"
  const ExercisesHeading := "🏃‍♀️ 칼로리 소모 운동량:\n"

  /** One food line; a missing or empty portion renders as nothing. */
  function FoodLine(f: FoodItem): string
  {
    "• " + f.name + " " + f.portion.GetOr("") + ": " + IntToString(f.calories) + "kcal\n"
  }

  function ExerciseLine(e: Exercise): string
  {
    "• " + e.name + ": " + e.duration + "\n"
  }

  /** The total line. The copied text has no default: a missing total prints "undefined". */
  function TotalLine(total: Option<int>): string
  {
    "🔥 총 예상 칼로리: " + (match total { case Some(n) => IntToString(n) case None => "undefined" }) + "kcal\n\n"
  }

  /** The lines of `xs`, one per element, in order. */
  function Lines<T>(xs: seq<T>, line: T -> string): string
  {
    if xs == [] then "" else Lines(xs[..|xs| - 1], line) + line(xs[|xs| - 1])
  }

  /** The copied text: header, food block (only with foods), total, exercise block (only with
      exercises). The calculation steps are not part of it. */
  function CopyText(r: AnalysisResult): string
  {
    CopyHeader + FoodBlock(r.foods) + TotalLine(r.totalCalories) + ExerciseBlock(r.exercises)
  }

  /** Lines of a concatenation are the concatenated lines: one line per element, in order. */
  lemma {:induction false} LinesAppend<T>(a: seq<T>, b: seq<T>, line: T -> string)
    ensures Lines(a + b, line) == Lines(a, line) + Lines(b, line)
  {
    if b == [] {
      assert a + b == a;
    } else {
      var b' := b[..|b| - 1];
      assert (a + b)[..|a + b| - 1] == a + b';
      LinesAppend(a, b', line);
    }
  }

  /** The first line of the food block is the first food's. */
  lemma LinesStartWithFirst<T>(xs: seq<T>, line: T -> string)
    requires xs != []
    ensures StartsWith(Lines(xs, line), line(xs[0]))
  {
    LinesAppend([xs[0]], xs[1..], line);
    assert [xs[0]] + xs[1..] == xs;
    assert Lines([xs[0]], line) == Lines([], line) + line(xs[0]);
  }

  /** The food block and the exercise block, each empty when its list is. */
  function FoodBlock(foods: seq<FoodItem>): string
  {
    if |foods| > 0 then FoodsHeading + Lines(foods, FoodLine) + "\n" else ""
  }

  function ExerciseBlock(exercises: seq<Exercise>): string
  {
    if |exercises| > 0 then ExercisesHeading + Lines(exercises, ExerciseLine) else ""
  }

  /** The copied text always opens with the header. */
  lemma CopyTextStartsWithHeader(r: AnalysisResult)
    ensures StartsWith(CopyText(r), CopyHeader)
  {
    assert StartsWith(CopyHeader, CopyHeader);
    StartsWithAppend(CopyHeader, CopyHeader, FoodBlock(r.foods));
    StartsWithAppend(CopyHeader + FoodBlock(r.foods), CopyHeader, TotalLine(r.totalCalories));
    StartsWithAppend(CopyHeader + FoodBlock(r.foods) + TotalLine(r.totalCalories), CopyHeader, ExerciseBlock(r.exercises));
  }

  /** Without foods, the total line follows the header directly. */
  lemma CopyTextWithoutFoods(r: AnalysisResult)
    requires r.foods == []
    ensures StartsWith(CopyText(r), CopyHeader + TotalLine(r.totalCalories))
  {
    var p := CopyHeader + TotalLine(r.totalCalories);
    assert CopyHeader + FoodBlock(r.foods) == CopyHeader;
    assert StartsWith(p, p);
    StartsWithAppend(p, p, ExerciseBlock(r.exercises));
  }

  /** With foods, the header is followed by the food heading and the first food's line. */
  lemma CopyTextWithFoods(r: AnalysisResult)
    requires r.foods != []
    ensures StartsWith(CopyText(r), CopyHeader + FoodsHeading + FoodLine(r.foods[0]))
  {
    var first := FoodLine(r.foods[0]);
    var lines := Lines(r.foods, FoodLine);
    var q := CopyHeader + (FoodsHeading + first);
    LinesStartWithFirst(r.foods, FoodLine);
    StartsWithExtend(FoodsHeading, lines, first);
    StartsWithAppend(FoodsHeading + lines, FoodsHeading + first, "\n");
    StartsWithExtend(CopyHeader, FoodBlock(r.foods), FoodsHeading + first);
    StartsWithAppend(CopyHeader + FoodBlock(r.foods), q, TotalLine(r.totalCalories));
    StartsWithAppend(CopyHeader + FoodBlock(r.foods) + TotalLine(r.totalCalories), q, ExerciseBlock(r.exercises));
    AppendAssoc(CopyHeader, FoodsHeading, first);
  }

  /** Without exercises, the text ends with the total line. */
  lemma CopyTextWithoutExercises(r: AnalysisResult)
    requires r.exercises == []
    ensures |CopyText(r)| >= |TotalLine(r.totalCalories)|
    ensures CopyText(r)[|CopyText(r)| - |TotalLine(r.totalCalories)|..] == TotalLine(r.totalCalories)
  {
    var p := CopyHeader + FoodBlock(r.foods);
    assert CopyText(r) == p + TotalLine(r.totalCalories);
  }

  /** The calculation steps do not appear in the copied text. */
  lemma CopyTextIgnoresSteps(r: AnalysisResult, steps: seq<string>)
    ensures CopyText(r.(calculationProcess := steps)) == CopyText(r)
  {
  }

  lemma FallbackFoodLines(replyText: string)
    ensures Lines(CreateFallbackResult(replyText).foods, FoodLine) == "• 인식된 음식 1인분: 300kcal\n"
  {
    var r := CreateFallbackResult(replyText);
    assert IntToString(300) == "300";
    assert FoodLine(r.foods[0]) == "• 인식된 음식 1인분: 300kcal\n";
  }

  lemma FallbackTotalLine(replyText: string)
    ensures TotalLine(CreateFallbackResult(replyText).totalCalories) == "🔥 총 예상 칼로리: 300kcal\n\n"
  {
    assert IntToString(300) == "300";
  }

  lemma FallbackExerciseLines(replyText: string)
    ensures Lines(CreateFallbackResult(replyText).exercises, ExerciseLine)
            == "• 빠른 걷기: 45분\n" + "• 달리기: 25분\n"
  {
    var r := CreateFallbackResult(replyText);
    assert r.exercises[..1] == [r.exercises[0]];
    assert ExerciseLine(r.exercises[0]) == "• 빠른 걷기: 45분\n";
    assert ExerciseLine(r.exercises[1]) == "• 달리기: 25분\n";
  }

  /** The text copied for the fallback result. */
  lemma FallbackCopyText(replyText: string)
    ensures CopyText(CreateFallbackResult(replyText)) ==
      CopyHeader
      + (FoodsHeading + "• 인식된 음식 1인분: 300kcal\n" + "\n")
      + "🔥 총 예상 칼로리: 300kcal\n\n"
      + (ExercisesHeading + ("• 빠른 걷기: 45분\n" + "• 달리기: 25분\n"))
  {
    FallbackFoodLines(replyText);
    FallbackTotalLine(replyText);
    FallbackExerciseLines(replyText);
  }
}
