/** AdminDashboard.tsx: the teacher's screen. It counts the bank per tier, keeps a
    four-tier matrix of how many questions to draw, checks the matrix against the
    bank, and exports the drawn exam as a JSON file that the upload screen can
    read back. */
module AdminDashboard {
  import opened Wrappers
  import opened Seqs
  import opened JsStrings
  import opened JsMath
  import opened Json
  import opened Types
  import opened Pool
  import opened Utils

  /** `MatrixConfig`: how many questions of each tier to draw. */
  datatype Matrix = Matrix(nb: int, th: int, vd: int, vdc: int)

  datatype Tier = KeyNB | KeyTH | KeyVD | KeyVDC

  function Total(m: Matrix): int {
    m.nb + m.th + m.vd + m.vdc
  }

  function Entry(m: Matrix, k: Tier): int {
    match k
    case KeyNB => m.nb
    case KeyTH => m.th
    case KeyVD => m.vd
    case KeyVDC => m.vdc
  }

  /** `{ ...matrix, [key]: v }`. */
  function SetEntry(m: Matrix, k: Tier, v: int): (r: Matrix)
    ensures Entry(r, k) == v
    ensures forall other :: other != k ==> Entry(r, other) == Entry(m, other)
  {
    match k
    case KeyNB => m.(nb := v)
    case KeyTH => m.(th := v)
    case KeyVD => m.(vd := v)
    case KeyVDC => m.(vdc := v)
  }

  /** The bank counts the screen shows. */
  datatype BankStats = BankStats(nb: int, th: int, vd: int, vdc: int, total: int)

  function Stats(bank: seq<Question>): (s: BankStats)
    ensures s.nb + s.th + s.vd + s.vdc == s.total == |bank|
  {
    TierCountsSum(bank);
    BankStats(|OfTier(bank, NB)|, |OfTier(bank, TH)|, |OfTier(bank, VD)|, |OfTier(bank, VDC)|, |bank|)
  }

  /** The automatic split of a total: 40%, 30% and 20% rounded, the rest to VDC. */
  function Distribute(t: int): (m: Matrix)
    ensures Total(m) == t
    ensures 10 * m.nb <= 4 * t + 5 < 10 * m.nb + 10
    ensures 10 * m.th <= 3 * t + 5 < 10 * m.th + 10
    ensures 10 * m.vd <= 2 * t + 5 < 10 * m.vd + 10
    ensures t >= 0 ==> m.nb >= 0 && m.th >= 0 && m.vd >= 0 && m.vdc >= 0
  {
    var nb := RoundTenths(t, 4);
    var th := RoundTenths(t, 3);
    var vd := RoundTenths(t, 2);
    Matrix(nb, th, vd, t - nb - th - vd)
  }

  /** The starting matrix is the automatic split of the starting total of 20. */
  lemma InitialMatrixIsDistributed()
    ensures Distribute(20) == Matrix(8, 6, 4, 2)
  {
    assert RoundTenths(20, 4) == 8 && RoundTenths(20, 3) == 6 && RoundTenths(20, 2) == 4;
  }

  // ------------------------------------------------------------ a matrix edit

  /** A matrix edit as the screen behaves: the handler stores the entry (never
      below 0) and the new total, and then, because the total changed, the
      auto-distribute effect replaces the whole matrix with the split of the new
      total. */
  function MatrixAfterEditAsWritten(m: Matrix, total: int, k: Tier, v: int): (r: Matrix)
    ensures Total(r) == Total(SetEntry(m, k, Max(0, v)))
  {
    var edited := SetEntry(m, k, Max(0, v));
    if Total(edited) != total then Distribute(Total(edited)) else edited
  }

  /** Raising the recall count of the starting matrix from 8 to 10 shows 9: the
      edit is overwritten, and comprehension moves from 6 to 7 unasked. */
  lemma MatrixEditOverwritten()
    ensures MatrixAfterEditAsWritten(Matrix(8, 6, 4, 2), 20, KeyNB, 10) == Matrix(9, 7, 4, 2)
  {
    assert SetEntry(Matrix(8, 6, 4, 2), KeyNB, Max(0, 10)) == Matrix(10, 6, 4, 2);
    assert RoundTenths(22, 4) == 9 && RoundTenths(22, 3) == 7 && RoundTenths(22, 2) == 4;
  }

  /** A matrix edit as the handler evidently means it: the edited entry takes the
      value (never below 0), the other entries stay, and the total follows. */
  function MatrixAfterEdit(m: Matrix, k: Tier, v: int): (r: Matrix)
    ensures Entry(r, k) == Max(0, v) && Entry(r, k) >= 0
    ensures forall other :: other != k ==> Entry(r, other) == Entry(m, other)
    ensures Total(r) == Total(m) - Entry(m, k) + Max(0, v)
  {
    SetEntry(m, k, Max(0, v))
  }

  // ------------------------------------------------------------ the export check

  /** The text of a shortage: "Không đủ câu <tier> (Cần <need>, Có <have>)". */
  function ShortageMessage(tier: string, need: int, have: int): string {
    "Không đủ câu " + tier + " (Cần " + IntToString(need) + ", Có " + IntToString(have) + ")"
  }

  /** The checks of `handleExport`, in order: the first tier that asks for more
      questions than the bank has stops the export with its message. */
  function ExportCheck(m: Matrix, s: BankStats): (e: Option<string>)
    ensures e.None? <==> m.nb <= s.nb && m.th <= s.th && m.vd <= s.vd && m.vdc <= s.vdc
    ensures m.nb > s.nb ==> e == Some(ShortageMessage("Nhận biết", m.nb, s.nb))
    ensures m.nb <= s.nb && m.th > s.th ==> e == Some(ShortageMessage("Thông hiểu", m.th, s.th))
    ensures m.nb <= s.nb && m.th <= s.th && m.vd > s.vd ==> e == Some(ShortageMessage("Vận dụng", m.vd, s.vd))
    ensures m.nb <= s.nb && m.th <= s.th && m.vd <= s.vd && m.vdc > s.vdc
      ==> e == Some(ShortageMessage("VD Cao", m.vdc, s.vdc))
  {
    if m.nb > s.nb then Some(ShortageMessage("Nhận biết", m.nb, s.nb))
    else if m.th > s.th then Some(ShortageMessage("Thông hiểu", m.th, s.th))
    else if m.vd > s.vd then Some(ShortageMessage("Vận dụng", m.vd, s.vd))
    else if m.vdc > s.vdc then Some(ShortageMessage("VD Cao", m.vdc, s.vdc))
    else None
  }

  // ------------------------------------------------------------ the drawn exam

  /** The draws an export needs: one shuffle per tier bucket. */
  predicate ExportDrawsFit(bank: seq<Question>, rng: seq<seq<int>>) {
    |rng| == 4
    && SwapsFor(rng[0], |OfTier(bank, NB)|) && SwapsFor(rng[1], |OfTier(bank, TH)|)
    && SwapsFor(rng[2], |OfTier(bank, VD)|) && SwapsFor(rng[3], |OfTier(bank, VDC)|)
  }

  /** `shuffleArray(bucket).slice(0, k)` for one tier. */
  function TierPick(bank: seq<Question>, d: Difficulty, js: seq<int>, k: int): (r: seq<Question>)
    requires SwapsFor(js, |OfTier(bank, d)|)
    ensures |r| == SliceEnd(|OfTier(bank, d)|, k)
    ensures multiset(r) <= multiset(OfTier(bank, d))
    ensures forall x :: x in r ==> x.difficulty == d && x in bank
  {
    var r := Slice0(Shuffle(OfTier(bank, d), js), k);
    assert forall x :: x in r ==> x in multiset(OfTier(bank, d));
    r
  }

  /** The exported questions: the NB pick, then TH, then VD, then VDC. */
  function ExportQuestions(bank: seq<Question>, m: Matrix, rng: seq<seq<int>>): (e: seq<Question>)
    requires ExportDrawsFit(bank, rng)
    ensures |e| == SliceEnd(|OfTier(bank, NB)|, m.nb) + SliceEnd(|OfTier(bank, TH)|, m.th)
                   + SliceEnd(|OfTier(bank, VD)|, m.vd) + SliceEnd(|OfTier(bank, VDC)|, m.vdc)
    ensures forall x :: x in e ==> x in bank
  {
    var a, b := TierPick(bank, NB, rng[0], m.nb), TierPick(bank, TH, rng[1], m.th);
    var c, d := TierPick(bank, VD, rng[2], m.vd), TierPick(bank, VDC, rng[3], m.vdc);
    assert forall x :: x in a + b + c + d ==> x in a || x in b || x in c || x in d;
    a + b + c + d
  }

  function Rank(d: Difficulty): nat {
    match d
    case NB => 0
    case TH => 1
    case VD => 2
    case VDC => 3
  }

  /** A matrix that passes the check yields an exam of exactly the matrix: as many
      questions of each tier as asked, `Total(m)` in all, grouped from easiest to
      hardest, all from the bank and none of the bank's questions twice. */
  lemma ExportMatchesMatrix(bank: seq<Question>, m: Matrix, rng: seq<seq<int>>)
    requires ExportDrawsFit(bank, rng)
    requires ExportCheck(m, Stats(bank)).None?
    requires m.nb >= 0 && m.th >= 0 && m.vd >= 0 && m.vdc >= 0
    ensures var e := ExportQuestions(bank, m, rng);
      && |e| == Total(m)
      && |OfTier(e, NB)| == m.nb && |OfTier(e, TH)| == m.th
      && |OfTier(e, VD)| == m.vd && |OfTier(e, VDC)| == m.vdc
      && (forall i, j :: 0 <= i < j < |e| ==> Rank(e[i].difficulty) <= Rank(e[j].difficulty))
      && multiset(e) <= multiset(bank)
      && (Distinct(bank) ==> Distinct(e))
  {
    var st := Stats(bank);
    assert m.nb <= st.nb && m.th <= st.th && m.vd <= st.vd && m.vdc <= st.vdc;
    ExportCounts(bank, m, rng);
    ExportOrdered(bank, m, rng);
    ExportFromBank(bank, m, rng);
  }

  lemma ExportCounts(bank: seq<Question>, m: Matrix, rng: seq<seq<int>>)
    requires ExportDrawsFit(bank, rng)
    requires 0 <= m.nb <= |OfTier(bank, NB)| && 0 <= m.th <= |OfTier(bank, TH)|
    requires 0 <= m.vd <= |OfTier(bank, VD)| && 0 <= m.vdc <= |OfTier(bank, VDC)|
    ensures var e := ExportQuestions(bank, m, rng);
      && |e| == Total(m)
      && |OfTier(e, NB)| == m.nb && |OfTier(e, TH)| == m.th
      && |OfTier(e, VD)| == m.vd && |OfTier(e, VDC)| == m.vdc
  {
    var a := TierPick(bank, NB, rng[0], m.nb);
    var b := TierPick(bank, TH, rng[1], m.th);
    var c := TierPick(bank, VD, rng[2], m.vd);
    var d := TierPick(bank, VDC, rng[3], m.vdc);
    assert |a| == m.nb && |b| == m.th && |c| == m.vd && |d| == m.vdc;
    JoinedCounts(a, b, c, d, m);
  }

  lemma JoinedCounts(a: seq<Question>, b: seq<Question>, c: seq<Question>, d: seq<Question>, m: Matrix)
    requires |a| == m.nb && |b| == m.th && |c| == m.vd && |d| == m.vdc
    requires forall x :: x in a ==> x.difficulty == NB
    requires forall x :: x in b ==> x.difficulty == TH
    requires forall x :: x in c ==> x.difficulty == VD
    requires forall x :: x in d ==> x.difficulty == VDC
    ensures var e := a + b + c + d;
      && |e| == Total(m)
      && |OfTier(e, NB)| == m.nb && |OfTier(e, TH)| == m.th
      && |OfTier(e, VD)| == m.vd && |OfTier(e, VDC)| == m.vdc
  {
    PickCounts(a, b, c, d);
  }

  lemma ExportOrdered(bank: seq<Question>, m: Matrix, rng: seq<seq<int>>)
    requires ExportDrawsFit(bank, rng)
    ensures var e := ExportQuestions(bank, m, rng);
      forall i, j :: 0 <= i < j < |e| ==> Rank(e[i].difficulty) <= Rank(e[j].difficulty)
  {
    var a := TierPick(bank, NB, rng[0], m.nb);
    var b := TierPick(bank, TH, rng[1], m.th);
    var c := TierPick(bank, VD, rng[2], m.vd);
    var d := TierPick(bank, VDC, rng[3], m.vdc);
    RankOrdered(a, b, c, d);
  }

  lemma ExportFromBank(bank: seq<Question>, m: Matrix, rng: seq<seq<int>>)
    requires ExportDrawsFit(bank, rng)
    ensures var e := ExportQuestions(bank, m, rng);
      multiset(e) <= multiset(bank) && (Distinct(bank) ==> Distinct(e))
  {
    var a := TierPick(bank, NB, rng[0], m.nb);
    var b := TierPick(bank, TH, rng[1], m.th);
    var c := TierPick(bank, VD, rng[2], m.vd);
    var d := TierPick(bank, VDC, rng[3], m.vdc);
    FromBank(bank, a, b, c, d);
  }

  /** The four picks' multisets add up inside the bank's. */
  lemma FromBank(bank: seq<Question>, a: seq<Question>, b: seq<Question>, c: seq<Question>, d: seq<Question>)
    requires multiset(a) <= multiset(OfTier(bank, NB)) && multiset(b) <= multiset(OfTier(bank, TH))
    requires multiset(c) <= multiset(OfTier(bank, VD)) && multiset(d) <= multiset(OfTier(bank, VDC))
    ensures multiset(a + b + c + d) <= multiset(bank)
    ensures Distinct(bank) ==> Distinct(a + b + c + d)
  {
    FourTiersPartition(bank);
    assert multiset(a + b + c + d) == multiset(a) + multiset(b) + multiset(c) + multiset(d);
    if Distinct(bank) { DistinctSub(a + b + c + d, bank); }
  }

  /** Tier counts of the joined picks. */
  lemma PickCounts(a: seq<Question>, b: seq<Question>, c: seq<Question>, d: seq<Question>)
    requires forall x :: x in a ==> x.difficulty == NB
    requires forall x :: x in b ==> x.difficulty == TH
    requires forall x :: x in c ==> x.difficulty == VD
    requires forall x :: x in d ==> x.difficulty == VDC
    ensures var e := a + b + c + d;
      |OfTier(e, NB)| == |a| && |OfTier(e, TH)| == |b| && |OfTier(e, VD)| == |c| && |OfTier(e, VDC)| == |d|
  {
    PickCount(a, b, c, d, NB);
    PickCount(a, b, c, d, TH);
    PickCount(a, b, c, d, VD);
    PickCount(a, b, c, d, VDC);
  }

  /** One tier's count in the joined picks: the size of that tier's own pick. */
  lemma PickCount(a: seq<Question>, b: seq<Question>, c: seq<Question>, d: seq<Question>, t: Difficulty)
    requires forall x :: x in a ==> x.difficulty == NB
    requires forall x :: x in b ==> x.difficulty == TH
    requires forall x :: x in c ==> x.difficulty == VD
    requires forall x :: x in d ==> x.difficulty == VDC
    ensures |OfTier(a + b + c + d, t)| == match t case NB => |a| case TH => |b| case VD => |c| case VDC => |d|
  {
    TierCountConcat(a + b + c, d, t);
    TierCountConcat(a + b, c, t);
    TierCountConcat(a, b, t);
    TierCountUniform(a, NB, t);
    TierCountUniform(b, TH, t);
    TierCountUniform(c, VD, t);
    TierCountUniform(d, VDC, t);
  }

  lemma TierCountConcat(a: seq<Question>, b: seq<Question>, t: Difficulty)
    ensures |OfTier(a + b, t)| == |OfTier(a, t)| + |OfTier(b, t)|
  {
    FilterConcat(a, b, TierTest(t));
  }

  /** In a list of one tier, counting a tier gives all or nothing. */
  lemma TierCountUniform(s: seq<Question>, d: Difficulty, t: Difficulty)
    requires forall x :: x in s ==> x.difficulty == d
    ensures |OfTier(s, t)| == if t == d then |s| else 0
  {
    var p := TierTest(t);
    if t == d {
      assert forall x :: x in s ==> p(x);
    } else {
      assert forall x :: x in s ==> !p(x);
    }
    FilterAllOrNone(s, p);
  }

  lemma RankOrdered(a: seq<Question>, b: seq<Question>, c: seq<Question>, d: seq<Question>)
    requires forall x :: x in a ==> x.difficulty == NB
    requires forall x :: x in b ==> x.difficulty == TH
    requires forall x :: x in c ==> x.difficulty == VD
    requires forall x :: x in d ==> x.difficulty == VDC
    ensures var e := a + b + c + d;
      forall i, j :: 0 <= i < j < |e| ==> Rank(e[i].difficulty) <= Rank(e[j].difficulty)
  {
    var e := a + b + c + d;
    forall k | 0 <= k < |e|
      ensures Rank(e[k].difficulty) == if k < |a| then 0 else if k < |a| + |b| then 1
        else if k < |a| + |b| + |c| then 2 else 3
    {
      if k < |a| { assert e[k] == a[k]; }
      else if k < |a| + |b| { assert e[k] == b[k - |a|]; }
      else if k < |a| + |b| + |c| { assert e[k] == c[k - |a| - |b|]; }
      else { assert e[k] == d[k - |a| - |b| - |c|]; }
    }
  }

  // ------------------------------------------------------------ the exported file

  /** `JSON.stringify` of one question: the optional fields that are absent are
      left out, and a type that is none of the four codes is written as it was
      read. */
  function QuestionJson(q: Question): (j: Json)
    ensures j.JObj? && j.fields.Keys >= {"id", "content", "type", "difficulty"}
    ensures j.fields["id"] == JStr(q.id) && j.fields["content"] == q.content
    ensures ("options" in j.fields <==> q.options.Some?) && ("explanation" in j.fields <==> q.explanation.Some?)
  {
    var base := map[
      "id" := JStr(q.id),
      "content" := q.content,
      "type" := TypeJson(q.qtype),
      "difficulty" := JStr(DifficultyCode(q.difficulty))];
    var withOptions := if q.options.Some? then base["options" := JArr(q.options.value)] else base;
    var withAnswer := if q.correctAnswer.Some? then withOptions["correctAnswer" := JStr(q.correctAnswer.value)]
      else withOptions;
    var withExplanation := if q.explanation.Some? then withAnswer["explanation" := q.explanation.value]
      else withAnswer;
    JObj(withExplanation)
  }

  /** The `type` field: the type code, or the value that was read. */
  function TypeJson(t: TypeTag): Json {
    match t
    case Listed(k) => JStr(TypeCode(k))
    case Unlisted(raw) => raw
  }

  function QuestionsJson(qs: seq<Question>): (r: seq<Json>)
    ensures |r| == |qs| && forall k :: 0 <= k < |qs| ==> r[k] == QuestionJson(qs[k])
  {
    seq(|qs|, k requires 0 <= k < |qs| => QuestionJson(qs[k]))
  }

  /** The exported object: title, duration, creation stamp, count and questions. */
  function ExamJson(title: string, duration: int, createdAt: string, qs: seq<Question>): (j: Json)
    ensures j.JObj? && j.fields.Keys == {"title", "duration", "createdAt", "questionCount", "questions"}
    ensures j.fields["questionCount"] == JNum(|qs|)
  {
    JObj(map[
      "title" := JStr(title),
      "duration" := JNum(duration),
      "createdAt" := JStr(createdAt),
      "questionCount" := JNum(|qs|),
      "questions" := JArr(QuestionsJson(qs))])
  }

  /** A field value that `x || ''` reads back as itself: a truthy value, or the
      empty string (any other falsy value would come back as the empty string). */
  predicate KeptByChain(v: Json) {
    Truthy(Some(v)) || v == JStr("")
  }

  /** A question that the upload screen reads back unchanged from its exported
      form: it has a non-empty id (an empty one would be replaced by "q-<index>"),
      its optional fields are present (absent ones would come back as empty), its
      content and explanation survive `|| ''`, its options do not start with an
      object (they would be rewritten as "ID. Content" texts), and a type outside
      the four codes is a truthy value (a falsy one would come back as MCQ). */
  predicate Canonical(q: Question) {
    && q.id != ""
    && q.options.Some? && q.correctAnswer.Some? && q.explanation.Some?
    && KeptByChain(q.content) && KeptByChain(q.explanation.value)
    && (|q.options.value| > 0 ==> !IsObjectTyped(q.options.value[0]))
    && (q.qtype.Unlisted? ==> Truthy(Some(q.qtype.raw)) && TypeTagOf(q.qtype.raw) == q.qtype)
  }

  /** Every question the upload screen produces is canonical once its id is not
      empty: the exported file of such a bank is read back as it was. */
  lemma NormalizedIsCanonical(q: Json, index: nat)
    requires NormalizeQuestion(q, index).Some?
    requires NormalizeQuestion(q, index).value.id != ""
    ensures Canonical(NormalizeQuestion(q, index).value)
  {
  }

  /** The fields of an exported question whose optional fields are present. */
  lemma QuestionJsonFields(q: Question)
    requires q.options.Some? && q.correctAnswer.Some? && q.explanation.Some?
    ensures var f := QuestionJson(q).fields;
      && f.Keys == {"id", "content", "type", "difficulty", "options", "correctAnswer", "explanation"}
      && f["id"] == JStr(q.id) && f["content"] == q.content && f["type"] == TypeJson(q.qtype)
      && f["difficulty"] == JStr(DifficultyCode(q.difficulty)) && f["options"] == JArr(q.options.value)
      && f["correctAnswer"] == JStr(q.correctAnswer.value) && f["explanation"] == q.explanation.value
  {
  }

  /** `q.content || q.text || ''` on a record with no `text` gives back a content
      that survives the chain. */
  lemma ContentReadsBack(j: Json, v: Json)
    requires j.JObj? && "content" in j.fields && j.fields["content"] == v && "text" !in j.fields
    requires KeptByChain(v)
    ensures FieldChain(j, ["content", "text"]) == v
  {
    if !Truthy(Some(v)) {
      assert !Truthy(Prop(j, ["content", "text"][1]));
    }
  }

  /** The explanation chain on a record with none of the other field names gives
      back an explanation that survives the chain. */
  lemma ExplanationReadsBack(j: Json, v: Json)
    requires j.JObj? && "explanation" in j.fields && j.fields["explanation"] == v
    requires forall k :: 1 <= k < |EXPLANATION_FIELDS| ==> EXPLANATION_FIELDS[k] !in j.fields
    requires KeptByChain(v)
    ensures FieldChain(j, EXPLANATION_FIELDS) == v
  {
    if !Truthy(Some(v)) {
      assert forall k :: 0 <= k < |EXPLANATION_FIELDS| ==> !Truthy(Prop(j, EXPLANATION_FIELDS[k]));
    }
  }

  /** A record that holds exactly the exported fields of a canonical q reads back as q. */
  lemma RecordReadsBack(j: Json, index: nat, q: Question)
    requires Canonical(q)
    requires j.JObj? && Prop(j, "options") == Some(JArr(q.options.value))
    requires Prop(j, "id") == Some(JStr(q.id)) && Prop(j, "type") == Some(TypeJson(q.qtype))
    requires Prop(j, "content") == Some(q.content) && Prop(j, "text") == None
    requires Prop(j, "difficulty") == Some(JStr(DifficultyCode(q.difficulty)))
    requires Prop(j, "correctOptionId") == None && Prop(j, "correctAnswer") == Some(JStr(q.correctAnswer.value))
    requires Prop(j, "explanation") == Some(q.explanation.value)
    requires forall k :: 1 <= k < |EXPLANATION_FIELDS| ==> EXPLANATION_FIELDS[k] !in j.fields
    ensures NormalizeQuestion(j, index) == Some(q)
  {
    assert NormalizeOptions(Prop(j, "options")) == Some(q.options.value);
    DifficultyReadsBack(q.difficulty);
    assert NormalizeDifficulty(Prop(j, "difficulty")) == q.difficulty;
    ContentReadsBack(j, q.content);
    ExplanationReadsBack(j, q.explanation.value);
    assert Truthy(Some(TypeJson(q.qtype))) && TypeTagOf(TypeJson(q.qtype)) == q.qtype;
    assert Truthy(Prop(j, "id")) && ToJsString(Prop(j, "id").value) == q.id;
    assert NormalizeCorrectAnswer(j) == q.correctAnswer.value;
  }

  /** Reading one exported question back gives the question. */
  lemma QuestionReadsBack(q: Question, index: nat)
    requires Canonical(q)
    ensures NormalizeQuestion(QuestionJson(q), index) == Some(q)
  {
    QuestionJsonFields(q);
    RecordReadsBack(QuestionJson(q), index, q);
  }

  /** Round trip: uploading an exported exam gives back its questions, in order,
      whenever they are canonical. */
  lemma ExportReadsBack(title: string, duration: int, createdAt: string, qs: seq<Question>)
    requires forall k :: 0 <= k < |qs| ==> Canonical(qs[k])
    ensures NormalizeQuestions(ExamJson(title, duration, createdAt, qs)) == Some(qs)
  {
    var input := ExamJson(title, duration, createdAt, qs);
    var data := QuestionsJson(qs);
    assert SelectRecords(input) == data;
    forall k | 0 <= k < |qs| ensures NormalizeQuestion(data[k], k) == Some(qs[k]) {
      QuestionReadsBack(qs[k], k);
    }
    var r := NormalizeQuestions(input);
    assert r.Some?;
    assert |r.value| == |qs|;
    assert forall k :: 0 <= k < |qs| ==> r.value[k] == qs[k];
    assert r.value == qs;
  }

  /** `title.replace(/\s+/g, '_')`: every run of white space becomes one underscore. */
  function UnderscoreSpaces(s: string): (r: string)
    ensures |r| <= |s|
    ensures forall k :: 0 <= k < |r| ==> !IsJsSpace(r[k])
    ensures (forall k :: 0 <= k < |s| ==> !IsJsSpace(s[k])) ==> r == s
    decreases |s|
  {
    if s == [] then []
    else if IsJsSpace(s[0]) then
      var rest := TrimStart(s);
      assert rest != s;
      "_" + UnderscoreSpaces(rest)
    else
      assert forall k :: 1 <= k < |s| ==> s[1..][k - 1] == s[k];
      [s[0]] + UnderscoreSpaces(s[1..])
  }

  /** A run of white space at the front is what TrimStart drops. */
  lemma {:induction false} TrimStartRun(sp: string, rest: string)
    requires forall k :: 0 <= k < |sp| ==> IsJsSpace(sp[k])
    requires rest == [] || !IsJsSpace(rest[0])
    ensures TrimStart(sp + rest) == rest
    decreases |sp|
  {
    if sp == [] {
      assert sp + rest == rest;
    } else {
      assert (sp + rest)[1..] == sp[1..] + rest;
      TrimStartRun(sp[1..], rest);
    }
  }

  /** The defining step of the replacement: a word, then a whole run of white space,
      then the rest of the title becomes the word kept as it is, one "_", and the rest
      replaced in turn. */
  lemma {:induction false} UnderscoreRun(w: string, sp: string, rest: string)
    requires forall k :: 0 <= k < |w| ==> !IsJsSpace(w[k])
    requires |sp| > 0 && forall k :: 0 <= k < |sp| ==> IsJsSpace(sp[k])
    requires rest == [] || !IsJsSpace(rest[0])
    ensures UnderscoreSpaces(w + sp + rest) == w + "_" + UnderscoreSpaces(rest)
    decreases |w|
  {
    if w == [] {
      assert w + sp + rest == sp + rest;
      TrimStartRun(sp, rest);
    } else {
      assert (w + sp + rest)[1..] == w[1..] + sp + rest;
      UnderscoreRun(w[1..], sp, rest);
    }
  }

  /** The characters of a title that are neither white space nor "_", in order. */
  function Visible(s: string): (r: string)
    ensures |r| <= |s|
    ensures forall k :: 0 <= k < |r| ==> !IsJsSpace(r[k]) && r[k] != '_'
  {
    if s == [] then []
    else if IsJsSpace(s[0]) || s[0] == '_' then Visible(s[1..])
    else [s[0]] + Visible(s[1..])
  }

  lemma {:induction false} VisibleConcat(a: string, b: string)
    ensures Visible(a + b) == Visible(a) + Visible(b)
    decreases |a|
  {
    if a == [] {
      assert a + b == b;
    } else {
      assert (a + b)[0] == a[0] && (a + b)[1..] == a[1..] + b;
      VisibleConcat(a[1..], b);
    }
  }

  lemma {:induction false} VisibleOfSpaces(sp: string)
    requires forall k :: 0 <= k < |sp| ==> IsJsSpace(sp[k])
    ensures Visible(sp) == []
    decreases |sp|
  {
    if sp != [] {
      VisibleOfSpaces(sp[1..]);
    }
  }

  /** Replacing the white-space runs keeps every other character of the title,
      in order: only white space is removed and only underscores are added. */
  lemma {:induction false} UnderscoreKeepsVisible(s: string)
    ensures Visible(UnderscoreSpaces(s)) == Visible(s)
    decreases |s|
  {
    if s == [] {
    } else if IsJsSpace(s[0]) {
      var rest := TrimStart(s);
      var sp := s[..|s| - |rest|];
      assert s == sp + rest;
      VisibleConcat(sp, rest);
      VisibleOfSpaces(sp);
      VisibleConcat("_", UnderscoreSpaces(rest));
      UnderscoreKeepsVisible(rest);
    } else {
      assert s == [s[0]] + s[1..];
      VisibleConcat([s[0]], s[1..]);
      VisibleConcat([s[0]], UnderscoreSpaces(s[1..]));
      UnderscoreKeepsVisible(s[1..]);
    }
  }

  /** The download name: the title with its white-space runs made underscores,
      and ".json". */
  function FileName(title: string): (name: string)
    ensures |name| >= 5
    ensures name[..|name| - 5] == UnderscoreSpaces(title)
    ensures name[|name| - 5..] == ".json"
    ensures forall k :: 0 <= k < |name| ==> !IsJsSpace(name[k])
  {
    var u := UnderscoreSpaces(title);
    assert (u + ".json")[..|u|] == u && (u + ".json")[|u|..] == ".json";
    u + ".json"
  }

  // ------------------------------------------------------------ the screen

  /** What the export hands to the browser: the file name and its JSON content. */
  datatype ExportFile = ExportFile(name: string, data: Json)

  /** The teacher's screen over a fixed bank. */
  class Dashboard {
    const bank: seq<Question>
    var examTitle: string
    var duration: int
    var totalQuestions: int
    var matrix: Matrix
    var error: Option<string>

    /** The total shown is the sum of the matrix, and no entry is negative. */
    predicate Valid()
      reads this
    {
      && totalQuestions == Total(matrix)
      && matrix.nb >= 0 && matrix.th >= 0 && matrix.vd >= 0 && matrix.vdc >= 0
    }

    /** The starting state, after the auto-distribute effect of the first render
        (which leaves the starting matrix as it is). */
    constructor(bank: seq<Question>)
      ensures this.bank == bank
      ensures examTitle == "Đề kiểm tra Toán 12" && duration == 45 && totalQuestions == 20
      ensures matrix == Matrix(8, 6, 4, 2) == Distribute(20) && error == None
      ensures Valid()
    {
      this.bank := bank;
      examTitle := "Đề kiểm tra Toán 12";
      duration := 45;
      totalQuestions := 20;
      matrix := Matrix(8, 6, 4, 2);
      error := None;
      InitialMatrixIsDistributed();
    }

    /** The title field. */
    method SetTitle(title: string)
      modifies this
      ensures examTitle == title
      ensures duration == old(duration) && totalQuestions == old(totalQuestions)
      ensures matrix == old(matrix) && error == old(error)
    {
      examTitle := title;
    }

    /** The duration field: `parseInt(text) || 0`, where None is a text that is
        no number (NaN). */
    method SetDuration(parsed: Option<int>)
      modifies this
      ensures duration == (if parsed.Some? then parsed.value else 0)
      ensures examTitle == old(examTitle) && totalQuestions == old(totalQuestions)
      ensures matrix == old(matrix) && error == old(error)
    {
      duration := if parsed.Some? then parsed.value else 0;
    }

    /** One matrix entry edited: the entry takes the value (never below 0), the
        others keep theirs, and the total follows the matrix. */
    method HandleMatrixChange(k: Tier, v: int)
      requires Valid()
      modifies this
      ensures Valid()
      ensures matrix == MatrixAfterEdit(old(matrix), k, v)
      ensures totalQuestions == old(totalQuestions) - Entry(old(matrix), k) + Max(0, v)
      ensures examTitle == old(examTitle) && duration == old(duration) && error == old(error)
    {
      matrix := MatrixAfterEdit(matrix, k, v);
      totalQuestions := Total(matrix);
    }

    /** `handleExport`: the message of the first shortage, or the file of the
        drawn exam with no message. */
    method HandleExport(rng: seq<seq<int>>, createdAt: string) returns (file: Option<ExportFile>)
      requires ExportDrawsFit(bank, rng)
      modifies this
      ensures error == ExportCheck(matrix, Stats(bank))
      ensures file.Some? <==> error.None?
      ensures file.Some? ==> file.value == ExportFile(FileName(examTitle),
        ExamJson(examTitle, duration, createdAt, ExportQuestions(bank, matrix, rng)))
      ensures examTitle == old(examTitle) && duration == old(duration)
      ensures totalQuestions == old(totalQuestions) && matrix == old(matrix)
    {
      error := None;
      var shortage := ExportCheck(matrix, Stats(bank));
      if shortage.Some? {
        error := shortage;
        return None;
      }
      var qs := ExportQuestions(bank, matrix, rng);
      file := Some(ExportFile(FileName(examTitle), ExamJson(examTitle, duration, createdAt, qs)));
    }
  }

  /** On a valid screen whose export passes, the file holds `totalQuestions`
      questions, exactly the matrix of each tier, all from the bank. */
  lemma ExportedFileMatchesScreen(bank: seq<Question>, m: Matrix, title: string, duration: int,
                                  createdAt: string, rng: seq<seq<int>>)
    requires ExportDrawsFit(bank, rng)
    requires ExportCheck(m, Stats(bank)).None?
    requires m.nb >= 0 && m.th >= 0 && m.vd >= 0 && m.vdc >= 0
    ensures var j := ExamJson(title, duration, createdAt, ExportQuestions(bank, m, rng));
      j.fields["questionCount"] == JNum(Total(m))
  {
    ExportMatchesMatrix(bank, m, rng);
  }
}
