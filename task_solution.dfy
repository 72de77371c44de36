/** The task-solution page: stepping through the sample task's solution
    steps, the like toggle, and the difficulty badge colour. */
module TaskSolution {

  /** The sample task shown by the page has four steps and 342 likes. */
  const SampleStepCount := 4
  const SampleLikes := 342

  function Max(a: int, b: int): int { if a >= b then a else b }
  function Min(a: int, b: int): int { if a <= b then a else b }

  /** "Previous step": `Math.max(0, currentStep - 1)`. */
  function PrevStep(current: int): int {
    Max(0, current - 1)
  }

  /** "Next step": `Math.min(steps.length - 1, currentStep + 1)`. */
  function NextStep(current: int, stepCount: int): int {
    Min(stepCount - 1, current + 1)
  }

  predicate PrevDisabled(current: int) { current == 0 }

  predicate NextDisabled(current: int, stepCount: int) { current == stepCount - 1 }

  predicate InRange(current: int, stepCount: int) { 0 <= current < stepCount }

  /** Both buttons keep the current step a valid index; an enabled button
      moves by exactly one step, a disabled one would not move at all. */
  lemma StepButtons(current: int, stepCount: int)
    requires InRange(current, stepCount)
    ensures InRange(PrevStep(current), stepCount) && InRange(NextStep(current, stepCount), stepCount)
    ensures PrevDisabled(current) <==> PrevStep(current) == current
    ensures !PrevDisabled(current) ==> PrevStep(current) == current - 1
    ensures NextDisabled(current, stepCount) <==> NextStep(current, stepCount) == current
    ensures !NextDisabled(current, stepCount) ==> NextStep(current, stepCount) == current + 1
  {
  }

  /** The step card drawn highlighted: the one whose index is the current step. */
  predicate Highlighted(index: int, current: int) { index == current }

  /** While the current step is in range exactly one of the step cards is
      highlighted; the counter under them reads "step current + 1 of n". */
  lemma {:induction false} OneHighlightedCard(current: int, stepCount: int)
    requires InRange(current, stepCount)
    ensures Highlighted(current, current)
    ensures forall i :: 0 <= i < stepCount && Highlighted(i, current) ==> i == current
    ensures |set i | 0 <= i < stepCount && Highlighted(i, current)| == 1
    ensures 1 <= current + 1 <= stepCount
  {
    assert (set i | 0 <= i < stepCount && Highlighted(i, current)) == {current};
  }

  /** Pressing "next" k times. */
  function NextTimes(current: int, stepCount: int, k: nat): int
    decreases k
  {
    if k == 0 then current else NextTimes(NextStep(current, stepCount), stepCount, k - 1)
  }

  /** Pressing "prev" k times. */
  function PrevTimes(current: int, k: nat): int
    decreases k
  {
    if k == 0 then current else PrevTimes(PrevStep(current), k - 1)
  }

  /** k presses of "next" advance k steps but stop at the last one; k presses
      of "prev" go back k steps but stop at the first. */
  lemma {:induction false} RepeatedPresses(current: int, stepCount: int, k: nat)
    requires InRange(current, stepCount)
    ensures NextTimes(current, stepCount, k) == Min(stepCount - 1, current + k)
    ensures PrevTimes(current, k) == Max(0, current - k)
    decreases k
  {
    if k > 0 {
      RepeatedPresses(NextStep(current, stepCount), stepCount, k - 1);
      RepeatedPresses(PrevStep(current), stepCount, k - 1);
    }
  }

  /** The like button's count: the task's likes plus one while liked. */
  function LikeCount(likes: int, isLiked: bool): int {
    likes + (if isLiked then 1 else 0)
  }

  /** Each press moves the count by one, down when it was liked and up
      otherwise; the count exceeds the task's likes exactly while liked. */
  lemma LikeToggle(likes: int, isLiked: bool)
    ensures LikeCount(likes, isLiked) == likes + 1 <==> isLiked
    ensures !isLiked ==> LikeCount(likes, isLiked) == likes
    ensures LikeCount(likes, !isLiked) - LikeCount(likes, isLiked) == (if isLiked then -1 else 1)
  {
  }

  /** The badge colour of a Russian difficulty name. */
  function DifficultyColor(difficulty: string): (c: string)
    ensures difficulty == "Лёгкая" <==> c == "bg-green-500"
    ensures difficulty == "Средняя" <==> c == "bg-yellow-500"
    ensures difficulty == "Сложная" <==> c == "bg-red-500"
    ensures difficulty != "Лёгкая" && difficulty != "Средняя" && difficulty != "Сложная" <==> c == "bg-gray-500"
  {
    match difficulty
    case "Лёгкая" => "bg-green-500"
    case "Средняя" => "bg-yellow-500"
    case "Сложная" => "bg-red-500"
    case _ => "bg-gray-500"
  }

  // ---------------------------------------------------------------------
  // The page's state cells
  // ---------------------------------------------------------------------

  class TaskSolutionPage {
    var currentStep: int
    var isLiked: bool
    const stepCount: int
    const likes: int

    ghost predicate Valid()
      reads this
    {
      InRange(currentStep, stepCount)
    }

    constructor ()
      ensures Valid() && currentStep == 0 && !isLiked
      ensures stepCount == SampleStepCount && likes == SampleLikes
    {
      currentStep, isLiked := 0, false;
      stepCount, likes := SampleStepCount, SampleLikes;
    }

    function ShownLikes(): int
      reads this
    {
      LikeCount(likes, isLiked)
    }

    method PrevClick()
      requires Valid()
      modifies this
      ensures Valid() && currentStep == PrevStep(old(currentStep)) && isLiked == old(isLiked)
    {
      currentStep := if 0 >= currentStep - 1 then 0 else currentStep - 1;
    }

    method NextClick()
      requires Valid()
      modifies this
      ensures Valid() && currentStep == NextStep(old(currentStep), stepCount) && isLiked == old(isLiked)
    {
      currentStep := if stepCount - 1 <= currentStep + 1 then stepCount - 1 else currentStep + 1;
    }

    method LikeClick()
      requires Valid()
      modifies this
      ensures Valid() && isLiked == !old(isLiked) && currentStep == old(currentStep)
      ensures ShownLikes() == old(ShownLikes()) + (if old(isLiked) then -1 else 1)
    {
      isLiked := !isLiked;
    }
  }
}
