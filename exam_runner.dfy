/** ExamRunner.tsx: the screen on which an exam is taken. It keeps the answers,
    the flagged questions, the current question, the font size and the clock, and
    reads option texts of the form "A. content". */
module ExamRunner {
  import opened Wrappers
  import opened JsStrings
  import opened Json
  import opened Types

  // ------------------------------------------------------------ answers and options

  /** `String(val || '').trim().replace('.', '').toUpperCase()`, for a possibly
      missing answer. */
  function NormalizeAnswer(val: Option<string>): (r: string)
    ensures forall k :: 0 <= k < |r| ==> !('a' <= r[k] <= 'z')
    ensures |r| <= |Trim(if val.Some? then val.value else "")|
  {
    var text := if val.Some? then val.value else "";
    ToUpper(RemoveFirst(Trim(text), '.'))
  }

  /** A missing answer and an empty one read alike, and the usual ways of writing
      one letter all read as that letter. */
  lemma NormalizeAnswerExamples()
    ensures NormalizeAnswer(None) == NormalizeAnswer(Some("")) == ""
    ensures NormalizeAnswer(Some("a.")) == "A"
    ensures NormalizeAnswer(Some(" A ")) == "A"
    ensures NormalizeAnswer(Some("A")) == "A"
  {
    assert Trim("") == "" && RemoveFirst("", '.') == "" && ToUpper("") == "";
    DotAfterLetter('a');
    PaddedLetter('A');
    LoneLetter('A');
  }

  /** A letter with a space on each side normalizes to the letter in upper case. */
  lemma PaddedLetter(c: char)
    requires 'A' <= c <= 'Z' || 'a' <= c <= 'z'
    ensures NormalizeAnswer(Some([' ', c, ' '])) == [UpperChar(c)]
  {
    var s := [' ', c, ' '];
    assert IsJsSpace(' ') && !IsJsSpace(c);
    assert s[1..] == [c, ' '];
    assert TrimStart(s) == [c, ' '];
    assert [c, ' '][..1] == [c];
    assert TrimEnd([c, ' ']) == TrimEnd([c]);
    LoneLetter(c);
  }

  /** A letter that is not white space, standing alone. */
  lemma LoneLetter(c: char)
    requires 'A' <= c <= 'Z' || 'a' <= c <= 'z'
    ensures Trim([c]) == [c] && RemoveFirst([c], '.') == [c]
    ensures ToUpper([c]) == [UpperChar(c)]
  {
    assert !IsJsSpace(c);
    assert TrimStart([c]) == [c];
    assert TrimEnd([c]) == [c];
    assert c != '.' && [c][0] == c;
    assert '.' !in [c];
    var u := ToUpper([c]);
    assert |u| == 1 && u[0] == UpperChar(c);
  }

  /** A letter and one dot normalize to the letter in upper case. */
  lemma DotAfterLetter(c: char)
    requires 'A' <= c <= 'Z' || 'a' <= c <= 'z'
    ensures NormalizeAnswer(Some([c, '.'])) == [UpperChar(c)]
  {
    var s := [c, '.'];
    assert !IsJsSpace(c) && !IsJsSpace('.');
    assert TrimStart(s) == s;
    assert TrimEnd(s) == s;
    assert IndexOf(s, '.') == 1;
    assert RemoveFirst(s, '.') == [c];
    LoneLetter(c);
  }

  /** Only the first dot goes: normalizing again can change a normalized answer. */
  lemma NormalizeAnswerNotIdempotent()
    ensures NormalizeAnswer(Some("A..")) == "A."
    ensures NormalizeAnswer(Some(NormalizeAnswer(Some("A..")))) == "A"
  {
    LetterDots('A');
    DotAfterLetter('A');
  }

  /** An upper-case letter and two dots lose the first dot only. */
  lemma LetterDots(c: char)
    requires 'A' <= c <= 'Z'
    ensures NormalizeAnswer(Some([c, '.', '.'])) == [c, '.']
  {
    var s := [c, '.', '.'];
    assert !IsJsSpace(c) && !IsJsSpace('.');
    assert TrimStart(s) == s;
    assert TrimEnd(s) == s;
    assert IndexOf(s, '.') == 1;
    var r := RemoveFirst(s, '.');
    assert r == s[..1] + s[2..] == [c, '.'];
    assert ToUpper(r)[0] == c && ToUpper(r)[1] == '.';
  }

  /** Whether `opt` starts with one of the letters A to D and a dot. */
  predicate HasLetterPrefix(opt: string) {
    |opt| >= 2 && 'A' <= opt[0] <= 'D' && opt[1] == '.'
  }

  /** `getOptionLabel`: the letter of a leading "[A-D].", otherwise the letter for
      the option's position. */
  function OptionLabel(opt: string, idx: nat): (letter: string)
    ensures |letter| == 1
    ensures HasLetterPrefix(opt) ==> letter == opt[..1]
    ensures !HasLetterPrefix(opt) ==> letter == [FromCharCode(65 + idx)]
  {
    if HasLetterPrefix(opt) then opt[..1] else [FromCharCode(65 + idx)]
  }

  /** `getOptionContent`: a leading "[A-D]." and the white space after it removed;
      any other text unchanged. */
  function OptionContent(opt: string): (content: string)
    ensures !HasLetterPrefix(opt) ==> content == opt
    ensures HasLetterPrefix(opt) ==> (|content| <= |opt| - 2 && content == opt[|opt| - |content|..]
      && (forall k :: 2 <= k < |opt| - |content| ==> IsJsSpace(opt[k]))
      && (content == [] || !IsJsSpace(content[0])))
  {
    if HasLetterPrefix(opt) then TrimStart(opt[2..]) else opt
  }

  /** An option with a letter prefix is its label, a dot, some white space and its
      content. */
  lemma OptionSplits(opt: string, idx: nat)
    requires HasLetterPrefix(opt)
    ensures var c := OptionContent(opt);
      && opt == OptionLabel(opt, idx) + "." + opt[2..|opt| - |c|] + c
      && forall k :: 2 <= k < |opt| - |c| ==> IsJsSpace(opt[k])
  {
    var c := OptionContent(opt);
    var n := |opt| - |c|;
    assert c == opt[n..];
    SplitAfterDot(opt, n);
  }

  /** Cutting after the first two characters and again at n puts the text back. */
  lemma SplitAfterDot(opt: string, n: nat)
    requires 2 <= n <= |opt| && opt[1] == '.'
    ensures opt == opt[..1] + "." + opt[2..n] + opt[n..]
  {
    assert opt[..1] + "." == opt[..2];
    assert opt[..2] + opt[2..n] == opt[..n];
    assert opt[..n] + opt[n..] == opt;
  }

  /** The option texts the upload screen builds from `{id, content}` objects,
      "L. content", read back: the label is L and the content is what was given,
      whenever L is one of A to D and the content does not start with white space. */
  lemma OptionReadsBack(letter: char, content: string, idx: nat)
    requires 'A' <= letter <= 'D'
    requires content == [] || !IsJsSpace(content[0])
    ensures OptionLabel([letter] + ". " + content, idx) == [letter]
    ensures OptionContent([letter] + ". " + content) == content
  {
    var opt := [letter] + ". " + content;
    assert HasLetterPrefix(opt);
    assert opt[2..] == " " + content;
    SpaceThenContent(content);
  }

  lemma SpaceThenContent(content: string)
    requires content == [] || !IsJsSpace(content[0])
    ensures TrimStart(" " + content) == content
  {
    var p := " " + content;
    assert p[0] == ' ' && IsJsSpace(' ');
    assert p[1..] == content;
    assert TrimStart(content) == content;
  }

  // ------------------------------------------------------------ the clock

  /** What `onComplete` receives: the answers and the seconds spent. */
  datatype Submission = Submission(answers: map<string, string>, timeSpent: int)

  /** `handleSubmit` at a given moment: the answers and the seconds used so far. */
  function ManualSubmission(answers: map<string, string>, durationMinutes: int, timeLeft: int): (s: Submission)
    ensures s.answers == answers
    ensures s.timeSpent + timeLeft == durationMinutes * 60
  {
    Submission(answers, durationMinutes * 60 - timeLeft)
  }

  /** The submission the running-out clock makes as the screen is written: the
      interval was set up once, on the first render, and calls the `handleSubmit`
      of that render, which still sees the empty answers and the full time. */
  function TimeoutSubmissionAsWritten(durationMinutes: int): (s: Submission)
    ensures s.answers == map[] && s.timeSpent == 0
  {
    ManualSubmission(map[], durationMinutes, durationMinutes * 60)
  }

  /** Whatever the student answered, a timeout as written hands in nothing and
      reports no time spent. */
  lemma TimeoutDropsAnswers(answers: map<string, string>, durationMinutes: int)
    requires answers != map[] && durationMinutes > 0
    ensures TimeoutSubmissionAsWritten(durationMinutes) == Submission(map[], 0)
    ensures TimeoutSubmissionAsWritten(durationMinutes) != TimeoutSubmission(answers, durationMinutes)
  {
  }

  /** The submission a timeout evidently means: the answers given so far, with the
      whole duration spent, which is what submitting by hand at 0 seconds left
      reports. */
  function TimeoutSubmission(answers: map<string, string>, durationMinutes: int): (s: Submission)
    ensures s == ManualSubmission(answers, durationMinutes, 0)
    ensures s.answers == answers && s.timeSpent == durationMinutes * 60
  {
    Submission(answers, durationMinutes * 60)
  }

  /** One second of the clock: at 1 second or fewer it stops at 0 and submits,
      otherwise it counts down. */
  function TickValue(prev: int): (next: int)
    ensures next >= 0
    ensures prev <= 1 ==> next == 0
    ensures prev > 1 ==> next == prev - 1
  {
    if prev <= 1 then 0 else prev - 1
  }

  // ------------------------------------------------------------ flags

  /** The flag set with `id` toggled. */
  function Toggled(flagged: set<string>, id: string): (r: set<string>)
    ensures id in r <==> id !in flagged
    ensures forall other :: other != id ==> (other in r <==> other in flagged)
  {
    if id in flagged then flagged - {id} else flagged + {id}
  }

  /** Toggling the same id twice restores the set. */
  lemma ToggledTwice(flagged: set<string>, id: string)
    ensures Toggled(Toggled(flagged, id), id) == flagged
  {
    var once := Toggled(flagged, id);
    assert forall x :: x in Toggled(once, id) <==> x in flagged;
  }

  // ------------------------------------------------------------ the sidebar

  /** How the sidebar draws one question's button. */
  datatype Cell = Current | Unanswered | Answered | RightAnswer | WrongAnswer

  /** An answer as JavaScript reads `answers[id]`: missing when there is none. */
  function AnswerOf(answers: map<string, string>, id: string): Option<string> {
    if id in answers then Some(answers[id]) else None
  }

  /** `!!answers[id]`. */
  predicate IsAnswered(answers: map<string, string>, id: string) {
    id in answers && answers[id] != ""
  }

  /** The sidebar button of question `q` at position `idx`: the current question is
      highlighted; in practice mode an answered question shows whether its
      normalized answer equals the normalized correct answer. */
  function SidebarCell(q: Question, idx: nat, currentIdx: int, answers: map<string, string>, mode: Option<Mode>): (c: Cell)
    ensures c == Current <==> idx == currentIdx
    ensures c == Unanswered <==> idx != currentIdx && !IsAnswered(answers, q.id)
    ensures (c == RightAnswer || c == WrongAnswer) <==> (idx != currentIdx && IsAnswered(answers, q.id) && mode == Some(Custom))
    ensures c == RightAnswer ==> NormalizeAnswer(AnswerOf(answers, q.id)) == NormalizeAnswer(q.correctAnswer)
    ensures c == WrongAnswer ==> NormalizeAnswer(AnswerOf(answers, q.id)) != NormalizeAnswer(q.correctAnswer)
  {
    if idx == currentIdx then Current
    else if !IsAnswered(answers, q.id) then Unanswered
    else if mode != Some(Custom) then Answered
    else if NormalizeAnswer(AnswerOf(answers, q.id)) == NormalizeAnswer(q.correctAnswer) then RightAnswer
    else WrongAnswer
  }

  // ------------------------------------------------------------ the screen

  /** The screen's state over a fixed list of questions. `mode` is None when the
      caller passes no mode, which is how the application mounts this screen. */
  class Runner {
    const questions: seq<Question>
    const durationMinutes: int
    const mode: Option<Mode>
    var currentIdx: int
    var timeLeft: int
    var answers: map<string, string>
    var flagged: set<string>
    var fontSize: int
    /** Whether the interval is still installed: `clearInterval` stops it once
        the time has run out. */
    var ticking: bool

    /** The current position names a question, the font size is in range, and a
        stopped clock shows no time left. */
    predicate Valid()
      reads this
    {
      0 <= currentIdx < |questions| && 14 <= fontSize <= 32 && (!ticking ==> timeLeft == 0)
    }

    /** The screen as first shown. The render reads the current question, so the
        list must not be empty. */
    constructor(questions: seq<Question>, durationMinutes: int, mode: Option<Mode>)
      requires |questions| > 0
      ensures this.questions == questions && this.durationMinutes == durationMinutes && this.mode == mode
      ensures currentIdx == 0 && timeLeft == durationMinutes * 60
      ensures answers == map[] && flagged == {} && fontSize == 18 && ticking
      ensures Valid()
    {
      this.questions := questions;
      this.durationMinutes := durationMinutes;
      this.mode := mode;
      currentIdx := 0;
      timeLeft := durationMinutes * 60;
      answers := map[];
      flagged := {};
      fontSize := 18;
      ticking := true;
    }

    /** Whether the current answer may no longer change: practice mode and an
        answer already given. */
    predicate Locked()
      reads this
      requires Valid()
    {
      mode == Some(Custom) && IsAnswered(answers, questions[currentIdx].id)
    }

    /** `handleSelectAnswer`: records the chosen option for the current question,
        unless the answer is locked. */
    method HandleSelectAnswer(optionKey: string)
      requires Valid()
      modifies this
      ensures Valid()
      ensures old(Locked()) ==> answers == old(answers)
      ensures !old(Locked()) ==> answers == old(answers)[questions[currentIdx].id := optionKey]
      ensures currentIdx == old(currentIdx) && timeLeft == old(timeLeft)
      ensures flagged == old(flagged) && fontSize == old(fontSize) && ticking == old(ticking)
    {
      var id := questions[currentIdx].id;
      if mode == Some(Custom) && id in answers && answers[id] != "" {
        return;
      }
      answers := answers[id := optionKey];
    }

    /** The text box of a question that is not multiple choice: it is never locked. */
    method HandleTypeAnswer(text: string)
      requires Valid()
      modifies this
      ensures Valid()
      ensures answers == old(answers)[questions[currentIdx].id := text]
      ensures currentIdx == old(currentIdx) && timeLeft == old(timeLeft)
      ensures flagged == old(flagged) && fontSize == old(fontSize) && ticking == old(ticking)
    {
      answers := answers[questions[currentIdx].id := text];
    }

    /** `toggleFlag`. */
    method ToggleFlag(id: string)
      modifies this
      ensures flagged == Toggled(old(flagged), id)
      ensures currentIdx == old(currentIdx) && timeLeft == old(timeLeft)
      ensures answers == old(answers) && fontSize == old(fontSize) && ticking == old(ticking)
    {
      if id in flagged {
        flagged := flagged - {id};
      } else {
        flagged := flagged + {id};
      }
    }

    /** `changeFontSize`: the new size, kept between 14 and 32. */
    method ChangeFontSize(delta: int)
      requires Valid()
      modifies this
      ensures Valid()
      ensures fontSize == Max(14, Min(32, old(fontSize) + delta))
      ensures 14 <= old(fontSize) + delta <= 32 ==> fontSize == old(fontSize) + delta
      ensures currentIdx == old(currentIdx) && timeLeft == old(timeLeft)
      ensures answers == old(answers) && flagged == old(flagged) && ticking == old(ticking)
    {
      fontSize := Max(14, Min(32, fontSize + delta));
    }

    /** The previous-question button. */
    method Prev()
      requires Valid()
      modifies this
      ensures Valid()
      ensures currentIdx == Max(0, old(currentIdx) - 1)
      ensures timeLeft == old(timeLeft) && answers == old(answers)
      ensures flagged == old(flagged) && fontSize == old(fontSize) && ticking == old(ticking)
    {
      currentIdx := Max(0, currentIdx - 1);
    }

    /** The next-question button. */
    method Next()
      requires Valid()
      modifies this
      ensures Valid()
      ensures currentIdx == Min(|questions| - 1, old(currentIdx) + 1)
      ensures timeLeft == old(timeLeft) && answers == old(answers)
      ensures flagged == old(flagged) && fontSize == old(fontSize) && ticking == old(ticking)
    {
      currentIdx := Min(|questions| - 1, currentIdx + 1);
    }

    /** A sidebar button: jump to that question. */
    method JumpTo(idx: nat)
      requires Valid() && idx < |questions|
      modifies this
      ensures Valid()
      ensures currentIdx == idx
      ensures timeLeft == old(timeLeft) && answers == old(answers)
      ensures flagged == old(flagged) && fontSize == old(fontSize) && ticking == old(ticking)
    {
      currentIdx := idx;
    }

    /** `handleSubmit`: the current answers and the seconds used. */
    method HandleSubmit() returns (s: Submission)
      ensures s == ManualSubmission(answers, durationMinutes, timeLeft)
    {
      s := Submission(answers, durationMinutes * 60 - timeLeft);
    }

    /** One clock tick. When time runs out the clock is stopped at 0 and the exam
        is handed in with the answers given so far; otherwise it counts down. A
        stopped clock does nothing, so the exam is handed in once. */
    method Tick() returns (submitted: Option<Submission>)
      requires Valid()
      modifies this
      ensures Valid()
      ensures !old(ticking) ==> submitted.None? && timeLeft == old(timeLeft) && !ticking
      ensures old(ticking) ==> timeLeft == TickValue(old(timeLeft)) && timeLeft >= 0
      ensures submitted.Some? <==> old(ticking) && old(timeLeft) <= 1
      ensures submitted.Some? ==> submitted.value == TimeoutSubmission(answers, durationMinutes)
      ensures ticking <==> old(ticking) && old(timeLeft) > 1
      ensures currentIdx == old(currentIdx) && answers == old(answers)
      ensures flagged == old(flagged) && fontSize == old(fontSize)
    {
      if !ticking {
        submitted := None;
      } else if timeLeft <= 1 {
        ticking := false;
        timeLeft := 0;
        submitted := Some(TimeoutSubmission(answers, durationMinutes));
      } else {
        timeLeft := timeLeft - 1;
        submitted := None;
      }
    }
  }
}
