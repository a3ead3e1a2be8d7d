/** The record types and label tables of types.ts. */
module Types {
  import opened Wrappers
  import opened Json

  /** The four difficulty tiers: recall, comprehension, application, high application. */
  datatype Difficulty = NB | TH | VD | VDC

  datatype QuestionType = MCQ | Essay | TF | SA

  /** What a question's `type` field holds. Ingestion copies the parsed value without
      checking it against the four type codes, so a value that is none of them is kept
      as it was parsed. */
  datatype TypeTag = Listed(kind: QuestionType) | Unlisted(raw: Json)

  /** `Question`: `options`, `correctAnswer` and `explanation` are optional. The
      record type declares `content`, `explanation` and each option as text, but
      ingestion copies these values from the parsed file without converting them,
      so they are kept here as the values that were read (text in a well-formed
      file). */
  datatype Question = Question(
    id: string,
    content: Json,
    qtype: TypeTag,
    difficulty: Difficulty,
    options: Option<seq<Json>>,
    correctAnswer: Option<string>,
    explanation: Option<Json>)

  datatype Mode = Custom | Standard

  /** A filter value that is either the literal 'ALL' or one specific value. */
  datatype Choice<T> = All | Only(value: T)

  /** `ExamConfig`, with the single `questionType` every reader and writer uses. */
  datatype ExamConfig = ExamConfig(
    mode: Mode,
    difficulty: Choice<Difficulty>,
    questionType: Choice<QuestionType>,
    limit: int,
    durationMinutes: int)

  /** `ExamState.status`. */
  datatype Status = Upload | Config | Running | Result

  function DifficultyCode(d: Difficulty): string {
    match d
    case NB => "NB"
    case TH => "TH"
    case VD => "VD"
    case VDC => "VDC"
  }

  function TypeCode(t: QuestionType): string {
    match t
    case MCQ => "MCQ"
    case Essay => "Essay"
    case TF => "TF"
    case SA => "SA"
  }

  predicate IsMCQ(q: Question) {
    q.qtype == Listed(MCQ)
  }

  const DIFFICULTY_LABELS: map<string, string> := map[
    "NB" := "Nhận biết",
    "TH" := "Thông hiểu",
    "VD" := "Vận dụng",
    "VDC" := "Vận dụng cao",
    "ALL" := "Tất cả mức độ"]

  const TYPE_LABELS: map<string, string> := map[
    "MCQ" := "Trắc nghiệm",
    "Essay" := "Tự luận",
    "TF" := "Đúng/Sai",
    "SA" := "Trả lời ngắn",
    "ALL" := "Tất cả loại câu hỏi"]

  /** Tier codes name their tiers unambiguously. */
  lemma DifficultyCodeInjective(a: Difficulty, b: Difficulty)
    requires DifficultyCode(a) == DifficultyCode(b)
    ensures a == b
  {
  }

  /** The label table has exactly one entry per tier code plus 'ALL'. */
  lemma DifficultyLabelsKeys()
    ensures forall d: Difficulty :: DifficultyCode(d) in DIFFICULTY_LABELS
    ensures DIFFICULTY_LABELS.Keys == {"NB", "TH", "VD", "VDC", "ALL"}
  {
  }

  /** The label table has exactly one entry per type code plus 'ALL'. */
  lemma TypeLabelsKeys()
    ensures forall t: QuestionType :: TypeCode(t) in TYPE_LABELS
    ensures TYPE_LABELS.Keys == {"MCQ", "Essay", "TF", "SA", "ALL"}
  {
  }
}
