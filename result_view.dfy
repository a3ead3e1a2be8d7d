/** ResultView.tsx: the result screen. It counts the correct multiple-choice
    answers, turns the count into a score out of 10 and a percentage, grades the
    percentage, and marks each question in the detail list. */
module ResultView {
  import opened Wrappers
  import opened Json
  import opened Seqs
  import opened JsStrings
  import opened JsMath
  import opened Types
  import opened ExamRunner

  // ------------------------------------------------------------ scoring

  /** The form both sides of the scoring comparison take: trimmed and with the
      first dot removed. Case is kept. */
  function ScoringKey(s: string): string {
    RemoveFirst(Trim(s), '.')
  }

  /** `userAnswers[q.id] || ''`. */
  function AnswerText(answers: map<string, string>, id: string): string {
    if id in answers then answers[id] else ""
  }

  /** Whether question q adds one to `correctCount`: it is multiple choice, has a
      non-empty correct answer, and the two keys agree. */
  predicate Counted(answers: map<string, string>, q: Question): (c: bool)
    ensures c ==> IsMCQ(q) && q.correctAnswer.Some? && q.correctAnswer.value != ""
  {
    && IsMCQ(q) && q.correctAnswer.Some? && q.correctAnswer.value != ""
    && KeysAgree(AnswerText(answers, q.id), q.correctAnswer.value)
  }

  /** The comparison itself: equal after trimming and removing the first dot. */
  predicate KeysAgree(answer: string, correct: string) {
    ScoringKey(answer) == ScoringKey(correct)
  }

  function CountedTest(answers: map<string, string>): Question -> bool {
    q => Counted(answers, q)
  }

  /** The number of counted questions among qs. */
  function CorrectCount(answers: map<string, string>, qs: seq<Question>): (c: nat)
    ensures c <= |qs|
  {
    if qs == [] then 0
    else CorrectCount(answers, qs[..|qs| - 1]) + (if Counted(answers, qs[|qs| - 1]) then 1 else 0)
  }

  /** The `forEach` that accumulates `correctCount`. */
  method CountCorrect(answers: map<string, string>, qs: seq<Question>) returns (count: nat)
    ensures count == CorrectCount(answers, qs)
  {
    count := 0;
    var i := 0;
    while i < |qs|
      invariant 0 <= i <= |qs|
      invariant count == CorrectCount(answers, qs[..i])
    {
      assert qs[..i + 1][..i] == qs[..i];
      if Counted(answers, qs[i]) {
        count := count + 1;
      }
      i := i + 1;
    }
    assert qs[..|qs|] == qs;
  }

  /** The count of a joined list is the sum of the counts. */
  lemma {:induction false} CorrectCountAppend(answers: map<string, string>, a: seq<Question>, b: seq<Question>)
    ensures CorrectCount(answers, a + b) == CorrectCount(answers, a) + CorrectCount(answers, b)
    decreases |b|
  {
    if b == [] {
      assert a + b == a;
    } else {
      var b' := b[..|b| - 1];
      CorrectCountAppend(answers, a, b');
      assert (a + b)[..|a + b| - 1] == a + b';
      assert (a + b)[|a + b| - 1] == b[|b| - 1];
    }
  }

  /** `correctCount` is exactly the number of counted questions: the length of
      the list filtered by `Counted`. */
  lemma {:induction false} CorrectCountIsFilter(answers: map<string, string>, qs: seq<Question>)
    ensures CorrectCount(answers, qs) == |Filter(qs, CountedTest(answers))|
    decreases |qs|
  {
    if qs != [] {
      var init, last := qs[..|qs| - 1], qs[|qs| - 1];
      CorrectCountIsFilter(answers, init);
      assert qs == init + [last];
      FilterConcat(init, [last], CountedTest(answers));
      assert [last][1..] == [];
    }
  }

  /** The count depends only on which questions there are, not on their order. */
  lemma CorrectCountPermutation(answers: map<string, string>, a: seq<Question>, b: seq<Question>)
    requires multiset(a) == multiset(b)
    ensures CorrectCount(answers, a) == CorrectCount(answers, b)
  {
    var p := CountedTest(answers);
    CorrectCountIsFilter(answers, a);
    CorrectCountIsFilter(answers, b);
    forall x ensures multiset(Filter(a, p))[x] == multiset(Filter(b, p))[x] {
      FilterMultiplicity(a, p, x);
      FilterMultiplicity(b, p, x);
    }
    assert multiset(Filter(a, p)) == multiset(Filter(b, p));
    assert |multiset(Filter(a, p))| == |multiset(Filter(b, p))|;
  }

  /** Questions that are not multiple choice, or have no correct answer, never count. */
  lemma {:induction false} UncountedQuestions(answers: map<string, string>, qs: seq<Question>)
    requires forall k :: 0 <= k < |qs| ==> !IsMCQ(qs[k]) || qs[k].correctAnswer in {None, Some("")}
    ensures CorrectCount(answers, qs) == 0
    decreases |qs|
  {
    if qs != [] {
      UncountedQuestions(answers, qs[..|qs| - 1]);
    }
  }

  /** The comparison keeps case and removes one dot only. */
  lemma ScoringExamples()
    ensures ScoringKey("a") != ScoringKey("A")
    ensures ScoringKey("A.") == ScoringKey(" A ") == ScoringKey("A")
    ensures ScoringKey("A..") != ScoringKey("A")
  {
    LetterKey('a');
    LetterKey('A');
    LetterDotKey('A');
    PaddedLetterKey('A');
    LetterDotsKey('A');
  }

  lemma LetterKey(c: char)
    requires !IsJsSpace(c) && c != '.'
    ensures ScoringKey([c]) == [c]
  {
    var s := [c];
    assert TrimStart(s) == s;
    assert TrimEnd(s) == s;
    assert IndexOf(s, '.') == -1;
  }

  lemma LetterDotKey(c: char)
    requires 'A' <= c <= 'Z' || 'a' <= c <= 'z'
    ensures ScoringKey([c, '.']) == [c]
  {
    var s := [c, '.'];
    assert !IsJsSpace(c) && !IsJsSpace('.');
    assert TrimStart(s) == s;
    assert TrimEnd(s) == s;
    assert IndexOf(s, '.') == 1;
  }

  lemma PaddedLetterKey(c: char)
    requires 'A' <= c <= 'Z' || 'a' <= c <= 'z'
    ensures ScoringKey([' ', c, ' ']) == [c]
  {
    var s := [' ', c, ' '];
    assert IsJsSpace(' ') && !IsJsSpace(c) && c != '.';
    assert s[1..] == [c, ' '];
    assert TrimStart(s) == [c, ' '];
    assert [c, ' '][..1] == [c];
    assert TrimEnd([c, ' ']) == TrimEnd([c]);
    LetterKey(c);
  }

  lemma LetterDotsKey(c: char)
    requires 'A' <= c <= 'Z' || 'a' <= c <= 'z'
    ensures ScoringKey([c, '.', '.']) == [c, '.']
  {
    var s := [c, '.', '.'];
    assert !IsJsSpace(c) && !IsJsSpace('.');
    assert TrimStart(s) == s;
    assert TrimEnd(s) == s;
    assert IndexOf(s, '.') == 1;
    assert s[..1] + s[2..] == [c, '.'];
  }

  /** Every answer the result screen counts as right is also drawn as right in the
      practice-mode sidebar of the exam screen, whose comparison also ignores case. */
  lemma CountedIsRightInSidebar(answers: map<string, string>, q: Question)
    requires Counted(answers, q)
    ensures NormalizeAnswer(AnswerOf(answers, q.id)) == NormalizeAnswer(q.correctAnswer)
  {
  }

  /** The converse fails: the sidebar takes a lower-case letter for the upper-case
      one, the result screen does not. */
  lemma SidebarRightNotCounted()
    ensures var answers := map["q1" := "a"];
      var q := Question("q1", JStr(""), Listed(MCQ), NB, Some([]), Some("A"), Some(JStr("")));
      !Counted(answers, q)
      && NormalizeAnswer(AnswerOf(answers, q.id)) == NormalizeAnswer(q.correctAnswer)
  {
    ScoringExamples();
    LoneLetter('a');
    LoneLetter('A');
  }

  // ------------------------------------------------------------ score and grade

  /** `Math.round((correct / n) * 10)`; None is NaN, what an exam without
      questions shows. */
  function Score(correct: nat, n: nat): (s: Option<int>)
    ensures s.None? <==> n == 0
    ensures s.Some? ==> 2 * n * s.value <= 20 * correct + n < 2 * n * s.value + 2 * n
  {
    if n == 0 then None else Some(RoundRatio(correct, n, 10))
  }

  /** `Math.round((correct / n) * 100)`. */
  function Percentage(correct: nat, n: nat): (p: Option<int>)
    ensures p.None? <==> n == 0
    ensures p.Some? ==> 2 * n * p.value <= 200 * correct + n < 2 * n * p.value + 2 * n
  {
    if n == 0 then None else Some(RoundRatio(correct, n, 100))
  }

  /** For a count within the exam the score is between 0 and 10: all right gives
      10, none right 0, and more right answers never lower it. */
  lemma ScoreBounds(correct: nat, other: nat, n: nat)
    requires 0 < n && correct <= other <= n
    ensures 0 <= Score(correct, n).value <= Score(other, n).value <= 10
    ensures Score(n, n) == Some(10) && Score(0, n) == Some(0)
  {
    RoundRatioMonotone(0, correct, n, 10);
    RoundRatioMonotone(correct, other, n, 10);
    RoundRatioMonotone(other, n, n, 10);
    RoundRatioExact(n, 10);
  }

  /** The same for the percentage, between 0 and 100. */
  lemma PercentageBounds(correct: nat, other: nat, n: nat)
    requires 0 < n && correct <= other <= n
    ensures 0 <= Percentage(correct, n).value <= Percentage(other, n).value <= 100
    ensures Percentage(n, n) == Some(100) && Percentage(0, n) == Some(0)
  {
    RoundRatioMonotone(0, correct, n, 100);
    RoundRatioMonotone(correct, other, n, 100);
    RoundRatioMonotone(other, n, n, 100);
    RoundRatioExact(n, 100);
  }

  lemma RoundRatioMonotone(a: nat, b: nat, n: nat, scale: nat)
    requires 0 < n && a <= b
    ensures RoundRatio(a, n, scale) <= RoundRatio(b, n, scale)
  {
    var ra, rb := RoundRatio(a, n, scale), RoundRatio(b, n, scale);
    assert 2 * scale * a <= 2 * scale * b by {
      MulMonotone(2 * scale, a, b);
    }
    assert n * (2 * ra) <= 2 * scale * a + n <= 2 * scale * b + n < n * (2 * rb + 2);
    MulCancel(n, 2 * ra, 2 * rb + 2);
  }

  lemma MulMonotone(k: nat, a: int, b: int)
    requires a <= b
    ensures k * a <= k * b
  {
  }

  /** Cancelling a positive factor from a strict inequality. */
  lemma MulCancel(n: nat, a: int, b: int)
    requires 0 < n && n * a < n * b
    ensures a < b
  {
    MulMonotoneIf(n, b, a);
  }

  lemma MulMonotoneIf(k: nat, a: int, b: int)
    ensures a <= b ==> k * a <= k * b
  {
  }

  /** n of n and 0 of n round to the whole scale and to 0. */
  lemma RoundRatioExact(n: nat, scale: nat)
    requires 0 < n
    ensures RoundRatio(n, n, scale) == scale && RoundRatio(0, n, scale) == 0
  {
    var x := 2 * scale * n + n;
    assert 2 * n * scale == 2 * scale * n;
    RoundUnique(n, x, RoundRatio(n, n, scale), scale);
    RoundUnique(n, n, RoundRatio(0, n, scale), 0);
  }

  /** At most one whole number r has 2nr <= x < 2nr + 2n. */
  lemma RoundUnique(n: nat, x: int, r: int, t: int)
    requires 0 < n
    requires 2 * n * r <= x < 2 * n * r + 2 * n
    requires 2 * n * t <= x < 2 * n * t + 2 * n
    ensures r == t
  {
    assert (2 * n) * (t + 1) == 2 * n * t + 2 * n;
    assert (2 * n) * (r + 1) == 2 * n * r + 2 * n;
    MulCancel(2 * n, r, t + 1);
    MulCancel(2 * n, t, r + 1);
  }

  /** The three grades of `getStatusColor` and the verdict line. */
  datatype Grade = Excellent | Pass | NeedsEffort

  /** The grade of a percentage; NaN compares false, so it grades as NeedsEffort. */
  function GradeOf(p: Option<int>): (g: Grade)
    ensures g == Excellent <==> p.Some? && p.value >= 80
    ensures g == Pass <==> p.Some? && 50 <= p.value < 80
    ensures g == NeedsEffort <==> p.None? || p.value < 50
  {
    if p.Some? && p.value >= 80 then Excellent
    else if p.Some? && p.value >= 50 then Pass
    else NeedsEffort
  }

  function GradeText(g: Grade): (t: string)
    ensures g == Excellent ==> "Xuất sắc!" <= t
    ensures g == Pass ==> "Đạt yêu cầu" <= t
    ensures g == NeedsEffort ==> "Cần cố gắng" <= t
  {
    match g
    case Excellent => "Xuất sắc! \U{1F389}"
    case Pass => "Đạt yêu cầu \U{1F44D}"
    case NeedsEffort => "Cần cố gắng \U{1F4AA}"
  }

  /** A better percentage never gets a worse grade. */
  lemma GradeMonotone(p: int, q: int)
    requires p <= q
    ensures GradeOf(Some(q)) == Excellent || GradeOf(Some(p)) != Excellent
    ensures GradeOf(Some(p)) == Pass ==> GradeOf(Some(q)) in {Pass, Excellent}
  {
  }

  // ------------------------------------------------------------ the detail list

  /** `isCorrect` of one question of the detail list: for multiple choice the raw
      answer must equal the correct answer exactly; other questions always show
      as correct. */
  predicate ShownCorrect(q: Question, userAns: Option<string>): (ok: bool)
    ensures !IsMCQ(q) ==> ok
    ensures IsMCQ(q) ==> (ok <==> userAns == q.correctAnswer)
  {
    if IsMCQ(q) then userAns == q.correctAnswer else true
  }

  /** `isSkipped`: no answer, or an empty one. */
  predicate IsSkipped(userAns: Option<string>): (skipped: bool)
    ensures !skipped <==> userAns.Some? && |userAns.value| > 0
  {
    userAns.None? || userAns.value == ""
  }

  /** The icon in front of each question of the list. */
  datatype Mark = SkippedMark | RightMark | WrongMark

  /** Skipped wins over right and wrong. */
  function MarkOf(q: Question, userAns: Option<string>): (m: Mark)
    ensures m == SkippedMark <==> IsSkipped(userAns)
    ensures m == WrongMark ==> IsMCQ(q) && userAns != q.correctAnswer
    ensures !IsMCQ(q) ==> m != WrongMark
  {
    if IsSkipped(userAns) then SkippedMark
    else if ShownCorrect(q, userAns) then RightMark
    else WrongMark
  }

  /** A multiple-choice question whose answer equals the correct one is marked
      right; an exact match is the only way to that mark. */
  lemma RightMarkIffExact(q: Question, userAns: Option<string>)
    requires IsMCQ(q) && !IsSkipped(userAns)
    ensures MarkOf(q, userAns) == RightMark <==> userAns == q.correctAnswer
  {
  }

  /** A multiple-choice answer shown as correct also counts in the score. */
  lemma ShownCorrectIsCounted(answers: map<string, string>, q: Question)
    requires IsMCQ(q) && q.correctAnswer.Some? && q.correctAnswer.value != ""
    requires ShownCorrect(q, AnswerOf(answers, q.id))
    ensures Counted(answers, q)
  {
  }

  /** The converse fails: an answer written "A." counts for the correct answer "A"
      but the list shows it as wrong. */
  lemma CountedButShownWrong()
    ensures var answers := map["q1" := "A."];
      var q := Question("q1", JStr(""), Listed(MCQ), NB, Some([]), Some("A"), Some(JStr("")));
      Counted(answers, q) && !ShownCorrect(q, AnswerOf(answers, q.id))
  {
    ScoringExamples();
  }

  /** One option in the opened detail of a multiple-choice question: its label,
      whether it is the one the student chose, and whether it is the correct one. */
  datatype OptionMark = OptionMark(letter: string, selected: bool, correct: bool)

  function MarkOption(q: Question, userAns: Option<string>, opt: string, idx: nat): (m: OptionMark)
    ensures m.letter == OptionLabel(opt, idx)
    ensures m.selected <==> userAns == Some(OptionLabel(opt, idx))
    ensures m.correct <==> q.correctAnswer == Some(OptionLabel(opt, idx))
  {
    var letter := OptionLabel(opt, idx);
    OptionMark(letter, userAns == Some(letter), q.correctAnswer == Some(letter))
  }

  /** How an option is drawn: the correct one green whatever was chosen, a wrong
      choice red, the rest plain. */
  datatype Look = Plain | CorrectLook | WrongChoiceLook

  function LookOf(m: OptionMark): (l: Look)
    ensures l == CorrectLook <==> m.correct
    ensures l == WrongChoiceLook <==> m.selected && !m.correct
  {
    if m.correct then CorrectLook else if m.selected then WrongChoiceLook else Plain
  }

  /** When the options carry the distinct letters of their positions, at most one
      of them is marked correct. */
  lemma AtMostOneCorrectOption(q: Question, userAns: Option<string>, opts: seq<string>, i: nat, j: nat)
    requires i < j < |opts| <= 4
    requires forall k :: 0 <= k < |opts| ==> HasLetterPrefix(opts[k]) && opts[k][0] as int == 65 + k
    ensures !(MarkOption(q, userAns, opts[i], i).correct && MarkOption(q, userAns, opts[j], j).correct)
  {
    assert OptionLabel(opts[i], i)[0] != OptionLabel(opts[j], j)[0];
  }

  // ------------------------------------------------------------ the screen

  /** The detail list remembers one opened question at most. */
  function Toggle(expanded: Option<string>, id: string): (r: Option<string>)
    ensures r == None <==> expanded == Some(id)
    ensures r != None ==> r == Some(id)
  {
    if expanded == Some(id) then None else Some(id)
  }

  /** Opening a question and clicking it again closes it. */
  lemma ToggleTwice(id: string)
    ensures Toggle(Toggle(None, id), id) == None
  {
  }

  class ResultPanel {
    var expandedId: Option<string>

    constructor()
      ensures expandedId == None
    {
      expandedId := None;
    }

    /** `toggleExpand`. */
    method ToggleExpand(id: string)
      modifies this
      ensures expandedId == Toggle(old(expandedId), id)
    {
      expandedId := if expandedId == Some(id) then None else Some(id);
    }
  }
}
