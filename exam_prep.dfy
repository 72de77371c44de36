/** The exam-preparation page: the materials of the chosen exam tab and the
    difficulty badge's colour and label. */
module ExamPrep {
  import opened Common

  datatype ExamMaterial = ExamMaterial(
    id: int, examType: string, subjectId: int, title: string, description: string,
    content: string, difficulty: string, subjectName: Option<string>, subjectIcon: Option<string>)

  const Endpoint := "https://functions.poehali.dev/e2c4f10f-f443-47fa-92ab-b0565d2fa160/"

  /** The two tabs; the page opens on "ege". */
  const Tabs: seq<string> := ["ege", "oge"]
  const InitialTab := "ege"

  /** The address requested whenever the active tab changes. */
  function MaterialsUrl(tab: string): (url: string)
    ensures |url| >= |Endpoint| && url[..|Endpoint|] == Endpoint && url[|Endpoint|..] == "?type=" + tab
  {
    Endpoint + "?type=" + tab
  }

  lemma TabRequestsDiffer(tab: string, tab': string)
    ensures MaterialsUrl(tab) == MaterialsUrl(tab') <==> tab == tab'
  {
    if MaterialsUrl(tab) == MaterialsUrl(tab') {
      assert "?type=" + tab == MaterialsUrl(tab)[|Endpoint|..];
      assert tab == ("?type=" + tab)[6..];
      assert tab' == ("?type=" + tab')[6..];
    }
  }

  /** `data.materials || []`. */
  function LoadedMaterials(materials: Option<seq<ExamMaterial>>): (r: seq<ExamMaterial>)
    ensures materials.None? ==> r == []
    ensures materials.Some? ==> r == materials.value
  {
    OrEmpty(materials)
  }

  predicate KnownDifficulty(difficulty: string) {
    difficulty == "easy" || difficulty == "medium" || difficulty == "hard"
  }

  function DifficultyColor(difficulty: string): (c: string)
    ensures difficulty == "easy" <==> c == "bg-green-500"
    ensures difficulty == "medium" <==> c == "bg-yellow-500"
    ensures difficulty == "hard" <==> c == "bg-red-500"
    ensures !KnownDifficulty(difficulty) <==> c == "bg-gray-500"
  {
    match difficulty
    case "easy" => "bg-green-500"
    case "medium" => "bg-yellow-500"
    case "hard" => "bg-red-500"
    case _ => "bg-gray-500"
  }

  function DifficultyLabel(difficulty: string): (text: string)
    ensures difficulty == "easy" ==> text == "Лёгкий"
    ensures difficulty == "medium" ==> text == "Средний"
    ensures difficulty == "hard" ==> text == "Сложный"
    ensures !KnownDifficulty(difficulty) ==> text == difficulty
  {
    match difficulty
    case "easy" => "Лёгкий"
    case "medium" => "Средний"
    case "hard" => "Сложный"
    case _ => difficulty
  }

  /** A badge shows a translated label exactly when it has one of the three
      colours, and among the three the label tells the difficulty back. */
  lemma BadgeAgrees(difficulty: string, other: string)
    ensures DifficultyLabel(difficulty) != difficulty <==> DifficultyColor(difficulty) != "bg-gray-500"
    ensures KnownDifficulty(difficulty) && KnownDifficulty(other) ==>
              (DifficultyLabel(difficulty) == DifficultyLabel(other) <==> difficulty == other)
  {
  }

  /** Unknown difficulties pass through untranslated, so a material whose
      difficulty is already the Russian word gets the same label as "easy",
      but the gray badge. */
  lemma LabelsCanCoincide()
    ensures DifficultyLabel("Лёгкий") == DifficultyLabel("easy")
    ensures DifficultyColor("Лёгкий") != DifficultyColor("easy")
  {
  }
}
