/** The puzzles page: the grade/difficulty filter, the typed answers, and the
    answer check that reveals a solved puzzle. */
module Puzzles {
  import opened Common

  datatype Puzzle = Puzzle(
    id: int, gradeId: int, subjectId: int, puzzleType: string, puzzleText: string,
    answer: string, hint: string, difficulty: string)

  predicate KeepPuzzle(p: Puzzle, grade: Option<int>, difficulty: Option<string>) {
    (!IsSetNumber(grade) || p.gradeId == grade.value) &&
    (!IsSetText(difficulty) || p.difficulty == difficulty.value)
  }

  function FilteredPuzzles(puzzles: seq<Puzzle>, grade: Option<int>, difficulty: Option<string>): seq<Puzzle> {
    Filter(puzzles, p => KeepPuzzle(p, grade, difficulty))
  }

  lemma FilteredPuzzlesSpec(puzzles: seq<Puzzle>, grade: Option<int>, difficulty: Option<string>)
    ensures IsSubsequence(FilteredPuzzles(puzzles, grade, difficulty), puzzles)
    ensures forall p :: multiset(FilteredPuzzles(puzzles, grade, difficulty))[p] == if KeepPuzzle(p, grade, difficulty) then multiset(puzzles)[p] else 0
    ensures forall p :: p in FilteredPuzzles(puzzles, grade, difficulty) <==>
              p in puzzles && (grade.None? || grade.value == 0 || p.gradeId == grade.value)
                           && (difficulty.None? || difficulty.value == "" || p.difficulty == difficulty.value)
  {
    var keep := p => KeepPuzzle(p, grade, difficulty);
    FilterIsSubsequence(puzzles, keep);
    forall p ensures multiset(Filter(puzzles, keep))[p] == if keep(p) then multiset(puzzles)[p] else 0 {
      FilterCounts(puzzles, keep, p);
    }
    forall p ensures p in Filter(puzzles, keep) <==> p in puzzles && keep(p) {
      FilterMembership(puzzles, keep, p);
    }
  }

  /** `s.toLowerCase().trim()`. */
  function Normalize(s: string): string {
    Trim(Lower(s))
  }

  /** `userAnswers[id]?.toLowerCase().trim() === correct.toLowerCase().trim()`:
      a puzzle with no stored answer yields `undefined`, which equals no string. */
  predicate IsCorrect(userAnswers: map<int, string>, id: int, correctAnswer: string) {
    id in userAnswers && Normalize(userAnswers[id]) == Normalize(correctAnswer)
  }

  /** The `revealed` map after checking puzzle `id`. */
  function Checked(userAnswers: map<int, string>, revealed: map<int, bool>, id: int, correctAnswer: string): (r: map<int, bool>)
    ensures IsCorrect(userAnswers, id, correctAnswer) ==> id in r && r[id]
    ensures !IsCorrect(userAnswers, id, correctAnswer) ==> r == revealed
    ensures r.Keys == revealed.Keys || r.Keys == revealed.Keys + {id}
    ensures forall k :: k in revealed && k != id ==> r[k] == revealed[k]
  {
    if IsCorrect(userAnswers, id, correctAnswer) then revealed[id := true] else revealed
  }

  /** Typing into the answer field of puzzle `id`. */
  function Typed(userAnswers: map<int, string>, id: int, text: string): (r: map<int, string>)
    ensures r.Keys == userAnswers.Keys + {id} && r[id] == text
    ensures forall k :: k in userAnswers && k != id ==> r[k] == userAnswers[k]
  {
    userAnswers[id := text]
  }

  /** Nothing typed yet: never correct, whatever the answer. */
  lemma MissingAnswerNeverCorrect(userAnswers: map<int, string>, id: int, correctAnswer: string)
    requires id !in userAnswers
    ensures !IsCorrect(userAnswers, id, correctAnswer)
    ensures Checked(userAnswers, map[], id, correctAnswer) == map[]
  {
  }

  /** The check ignores case and surrounding whitespace: after typing
      `pre + text + post` with blank `pre`, `post`, the verdict is that of
      typing `text` lower-cased. */
  lemma CheckIgnoresCaseAndPadding(userAnswers: map<int, string>, id: int, pre: string, text: string, post: string, correctAnswer: string)
    requires AllSpace(pre) && AllSpace(post)
    ensures IsCorrect(Typed(userAnswers, id, pre + text + post), id, correctAnswer) <==>
            IsCorrect(Typed(userAnswers, id, Lower(text)), id, correctAnswer)
  {
    LowerAppend(pre + text, post);
    LowerAppend(pre, text);
    assert AllSpace(Lower(pre)) && AllSpace(Lower(post)) by {
      forall i | 0 <= i < |pre| { LowerCharKeepsSpace(pre[i]); }
      forall i | 0 <= i < |post| { LowerCharKeepsSpace(post[i]); }
    }
    TrimIgnoresPadding(Lower(pre), Lower(text), Lower(post));
    LowerIdempotent(text);
  }

  /** The typed text matches the stored answer exactly when their trimmed,
      lower-cased forms agree; the stored answer may itself be padded. */
  lemma TypedThenChecked(userAnswers: map<int, string>, id: int, text: string, correctAnswer: string)
    ensures IsCorrect(Typed(userAnswers, id, text), id, correctAnswer) <==>
            Lower(Trim(text)) == Lower(Trim(correctAnswer))
  {
    TrimLowerCommute(text);
    TrimLowerCommute(correctAnswer);
  }

  /** Entries of `revealed` only ever become true. */
  predicate AllRevealed(revealed: map<int, bool>) {
    forall k :: k in revealed ==> revealed[k]
  }

  lemma CheckKeepsRevealed(userAnswers: map<int, string>, revealed: map<int, bool>, id: int, correctAnswer: string)
    requires AllRevealed(revealed)
    ensures AllRevealed(Checked(userAnswers, revealed, id, correctAnswer))
    ensures forall k :: k in revealed ==> k in Checked(userAnswers, revealed, id, correctAnswer)
  {
  }

  // ---------------------------------------------------------------------
  // The page's state cells
  // ---------------------------------------------------------------------

  class PuzzlesPage {
    var userAnswers: map<int, string>
    var revealed: map<int, bool>

    ghost predicate Valid()
      reads this
    {
      AllRevealed(revealed)
    }

    constructor ()
      ensures Valid() && userAnswers == map[] && revealed == map[]
    {
      userAnswers, revealed := map[], map[];
    }

    /** The answer field's change handler. */
    method TypeAnswer(puzzleId: int, text: string)
      requires Valid()
      modifies this
      ensures Valid()
      ensures userAnswers == Typed(old(userAnswers), puzzleId, text) && revealed == old(revealed)
    {
      userAnswers := userAnswers[puzzleId := text];
    }

    /** The "check" button and the Enter key; the returned verdict selects the
        success or failure alert. */
    method CheckAnswer(puzzleId: int, correctAnswer: string) returns (correct: bool)
      requires Valid()
      modifies this
      ensures Valid()
      ensures correct == IsCorrect(old(userAnswers), puzzleId, correctAnswer)
      ensures revealed == Checked(old(userAnswers), old(revealed), puzzleId, correctAnswer)
      ensures userAnswers == old(userAnswers)
    {
      var userAnswer: Option<string> := if puzzleId in userAnswers then Some(Trim(Lower(userAnswers[puzzleId]))) else None;
      var expected := Trim(Lower(correctAnswer));
      correct := userAnswer == Some(expected);
      if correct {
        revealed := revealed[puzzleId := true];
      }
    }
  }
}
