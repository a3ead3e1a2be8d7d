/** App.tsx: the screen state of the application and how an exam is drawn from the
    loaded question bank when the user starts (or retries) it. */
module App {
  import opened Wrappers
  import opened Seqs
  import opened JsMath
  import opened Types
  import opened Pool
  import opened Utils

  // ------------------------------------------------------------ exam composition

  /** The per-tier question counts of a standard exam. */
  datatype Quotas = Quotas(nb: int, th: int, vd: int)

  /** `Math.round(limit * 0.5)` recall questions, `Math.round(limit * 0.3)`
      comprehension questions, and the rest application questions. */
  function StandardQuotas(limit: int): (q: Quotas)
    ensures q.nb + q.th + q.vd == limit
    ensures 10 * q.nb <= 5 * limit + 5 < 10 * q.nb + 10
    ensures 10 * q.th <= 3 * limit + 5 < 10 * q.th + 10
    ensures limit >= 0 ==> 0 <= q.nb && 0 <= q.th && 0 <= q.vd
  {
    var nb := RoundTenths(limit, 5);
    var th := RoundTenths(limit, 3);
    Quotas(nb, th, limit - nb - th)
  }

  /** `shuffleArray(bucket).slice(0, k)`. */
  function TakeShuffled(bucket: seq<Question>, js: seq<int>, k: int): (r: seq<Question>)
    requires SwapsFor(js, |bucket|)
    ensures |r| == SliceEnd(|bucket|, k)
    ensures multiset(r) <= multiset(bucket)
  {
    Slice0(Shuffle(bucket, js), k)
  }

  /** The draws a standard start needs: one shuffle per bucket and one for the
      combined list. */
  predicate PicksDrawsFit(pool: seq<Question>, rng: seq<seq<int>>) {
    |rng| >= 3
    && SwapsFor(rng[0], |OfTier(pool, NB)|)
    && SwapsFor(rng[1], |OfTier(pool, TH)|)
    && SwapsFor(rng[2], |OfVdTiers(pool)|)
  }

  /** The three bucket picks of a standard exam, before the final shuffle. */
  datatype Picks = Picks(nb: seq<Question>, th: seq<Question>, vd: seq<Question>)

  function StandardPicks(pool: seq<Question>, limit: int, rng: seq<seq<int>>): Picks
    requires PicksDrawsFit(pool, rng)
  {
    var q := StandardQuotas(limit);
    Picks(TakeShuffled(OfTier(pool, NB), rng[0], q.nb),
          TakeShuffled(OfTier(pool, TH), rng[1], q.th),
          TakeShuffled(OfVdTiers(pool), rng[2], q.vd))
  }

  function Joined(p: Picks): seq<Question> {
    p.nb + p.th + p.vd
  }

  predicate StandardDrawsFit(pool: seq<Question>, limit: int, rng: seq<seq<int>>) {
    |rng| == 4 && PicksDrawsFit(pool, rng)
    && SwapsFor(rng[3], |Joined(StandardPicks(pool, limit, rng))|)
  }

  /** The standard (50-30-20) exam: each bucket shuffled and cut to its quota, then
      the three picks shuffled together. */
  function StandardExam(pool: seq<Question>, limit: int, rng: seq<seq<int>>): (e: seq<Question>)
    requires StandardDrawsFit(pool, limit, rng)
    ensures |e| == |Joined(StandardPicks(pool, limit, rng))|
    ensures multiset(e) == multiset(Joined(StandardPicks(pool, limit, rng)))
  {
    Shuffle(Joined(StandardPicks(pool, limit, rng)), rng[3])
  }

  predicate CustomDrawsFit(pool: seq<Question>, cfg: ExamConfig, rng: seq<seq<int>>) {
    |rng| == 1 && SwapsFor(rng[0], |Matching(pool, cfg.difficulty, cfg.questionType)|)
  }

  /** The custom exam: the matching questions shuffled and cut to the limit. */
  function CustomExam(pool: seq<Question>, cfg: ExamConfig, rng: seq<seq<int>>): (e: seq<Question>)
    requires CustomDrawsFit(pool, cfg, rng)
    ensures |e| == SliceEnd(|Matching(pool, cfg.difficulty, cfg.questionType)|, cfg.limit)
    ensures multiset(e) <= multiset(Matching(pool, cfg.difficulty, cfg.questionType))
  {
    TakeShuffled(Matching(pool, cfg.difficulty, cfg.questionType), rng[0], cfg.limit)
  }

  predicate DrawsFit(pool: seq<Question>, cfg: ExamConfig, rng: seq<seq<int>>) {
    if cfg.mode == Standard then StandardDrawsFit(pool, cfg.limit, rng) else CustomDrawsFit(pool, cfg, rng)
  }

  /** The questions `handleStartExam(cfg)` puts in front of the user. */
  function ComposeExam(pool: seq<Question>, cfg: ExamConfig, rng: seq<seq<int>>): (e: seq<Question>)
    requires DrawsFit(pool, cfg, rng)
    ensures multiset(e) <= multiset(pool)
    ensures Distinct(pool) ==> Distinct(e)
    ensures cfg.mode == Custom ==> forall x :: x in e ==> Matches(x, cfg.difficulty, cfg.questionType)
  {
    if cfg.mode == Standard then
      StandardExamComposition(pool, cfg.limit, rng);
      StandardExam(pool, cfg.limit, rng)
    else
      CustomExamComposition(pool, cfg, rng);
      CustomExam(pool, cfg, rng)
  }

  // ------------------------------------------------------------ what is promised

  /** The tier picks hold only questions of their tier, each taken from the pool,
      as many as the quota asks or as the bucket has. */
  lemma StandardPicksShape(pool: seq<Question>, limit: int, rng: seq<seq<int>>)
    requires PicksDrawsFit(pool, rng)
    ensures var p, q := StandardPicks(pool, limit, rng), StandardQuotas(limit);
      && |p.nb| == SliceEnd(|OfTier(pool, NB)|, q.nb)
      && |p.th| == SliceEnd(|OfTier(pool, TH)|, q.th)
      && |p.vd| == SliceEnd(|OfVdTiers(pool)|, q.vd)
      && (forall x :: x in p.nb ==> x.difficulty == NB)
      && (forall x :: x in p.th ==> x.difficulty == TH)
      && (forall x :: x in p.vd ==> x.difficulty in {VD, VDC})
      && multiset(Joined(p)) <= multiset(pool)
  {
    var p := StandardPicks(pool, limit, rng);
    var nbB, thB, vdB := OfTier(pool, NB), OfTier(pool, TH), OfVdTiers(pool);
    assert multiset(p.nb) <= multiset(nbB) && multiset(p.th) <= multiset(thB) && multiset(p.vd) <= multiset(vdB);
    forall x | x in p.nb ensures x.difficulty == NB { assert x in multiset(p.nb); }
    forall x | x in p.th ensures x.difficulty == TH { assert x in multiset(p.th); }
    forall x | x in p.vd ensures x.difficulty in {VD, VDC} { assert x in multiset(p.vd); }
    ThreeBucketsPartition(pool);
    assert multiset(Joined(p)) == multiset(p.nb) + multiset(p.th) + multiset(p.vd);
  }

  /** A standard exam draws from the pool without repeating a question of the pool,
      holds exactly the picked number of questions of each tier, and has `limit`
      questions whenever every bucket can fill its quota. */
  lemma StandardExamComposition(pool: seq<Question>, limit: int, rng: seq<seq<int>>)
    requires StandardDrawsFit(pool, limit, rng)
    ensures var exam, p := StandardExam(pool, limit, rng), StandardPicks(pool, limit, rng);
      && multiset(exam) == multiset(p.nb) + multiset(p.th) + multiset(p.vd)
      && multiset(exam) <= multiset(pool)
      && |OfTier(exam, NB)| == |p.nb| && |OfTier(exam, TH)| == |p.th| && |OfVdTiers(exam)| == |p.vd|
    ensures var q := StandardQuotas(limit);
      (0 <= limit && q.nb <= |OfTier(pool, NB)| && q.th <= |OfTier(pool, TH)| && q.vd <= |OfVdTiers(pool)|)
      ==> |StandardExam(pool, limit, rng)| == limit
    ensures Distinct(pool) ==> Distinct(StandardExam(pool, limit, rng))
  {
    StandardExamTiers(pool, limit, rng);
    StandardExamLength(pool, limit, rng);
    if Distinct(pool) {
      DistinctSub(StandardExam(pool, limit, rng), pool);
    }
  }

  lemma StandardExamTiers(pool: seq<Question>, limit: int, rng: seq<seq<int>>)
    requires StandardDrawsFit(pool, limit, rng)
    ensures var exam, p := StandardExam(pool, limit, rng), StandardPicks(pool, limit, rng);
      && multiset(exam) == multiset(p.nb) + multiset(p.th) + multiset(p.vd)
      && multiset(exam) <= multiset(pool)
      && |OfTier(exam, NB)| == |p.nb| && |OfTier(exam, TH)| == |p.th| && |OfVdTiers(exam)| == |p.vd|
  {
    var exam, p := StandardExam(pool, limit, rng), StandardPicks(pool, limit, rng);
    StandardPicksShape(pool, limit, rng);
    assert multiset(exam) == multiset(Joined(p));
    assert multiset(Joined(p)) == multiset(p.nb) + multiset(p.th) + multiset(p.vd);
    TierCountsIn(exam, p);
  }

  lemma StandardExamLength(pool: seq<Question>, limit: int, rng: seq<seq<int>>)
    requires StandardDrawsFit(pool, limit, rng)
    ensures var q := StandardQuotas(limit);
      (0 <= limit && q.nb <= |OfTier(pool, NB)| && q.th <= |OfTier(pool, TH)| && q.vd <= |OfVdTiers(pool)|)
      ==> |StandardExam(pool, limit, rng)| == limit
  {
    var p, q := StandardPicks(pool, limit, rng), StandardQuotas(limit);
    assert |p.nb| == SliceEnd(|OfTier(pool, NB)|, q.nb);
    assert |p.th| == SliceEnd(|OfTier(pool, TH)|, q.th);
    assert |p.vd| == SliceEnd(|OfVdTiers(pool)|, q.vd);
    assert |StandardExam(pool, limit, rng)| == |p.nb| + |p.th| + |p.vd|;
  }

  /** Counting the tiers in a list that is a rearrangement of the three picks. */
  lemma TierCountsIn(exam: seq<Question>, p: Picks)
    requires multiset(exam) == multiset(p.nb) + multiset(p.th) + multiset(p.vd)
    requires forall x :: x in p.nb ==> x.difficulty == NB
    requires forall x :: x in p.th ==> x.difficulty == TH
    requires forall x :: x in p.vd ==> x.difficulty in {VD, VDC}
    ensures |OfTier(exam, NB)| == |p.nb| && |OfTier(exam, TH)| == |p.th| && |OfVdTiers(exam)| == |p.vd|
  {
    CountOneBucket(exam, TierTest(NB), p.nb, p.th, p.vd);
    CountOneBucket(exam, TierTest(TH), p.th, p.nb, p.vd);
    CountOneBucket(exam, VdTest(), p.vd, p.nb, p.th);
  }

  lemma CountOneBucket(exam: seq<Question>, t: Question -> bool, own: seq<Question>, a: seq<Question>, b: seq<Question>)
    requires multiset(exam) == multiset(own) + multiset(a) + multiset(b)
      || multiset(exam) == multiset(a) + multiset(own) + multiset(b)
      || multiset(exam) == multiset(a) + multiset(b) + multiset(own)
    requires forall x :: x in own ==> t(x)
    requires forall x :: x in a ==> !t(x)
    requires forall x :: x in b ==> !t(x)
    ensures |Filter(exam, t)| == |own|
  {
    assert multiset(a + b) == multiset(a) + multiset(b);
    assert multiset(exam) == multiset(own) + multiset(a + b);
    FilterSplit(exam, t, own, a + b);
  }

  /** A custom exam holds only matching questions of the pool, never one of the
      pool twice, and `limit` of them (or all that match, if fewer). */
  lemma CustomExamComposition(pool: seq<Question>, cfg: ExamConfig, rng: seq<seq<int>>)
    requires CustomDrawsFit(pool, cfg, rng)
    ensures var exam := CustomExam(pool, cfg, rng);
      && (forall x :: x in exam ==> x in pool && Matches(x, cfg.difficulty, cfg.questionType))
      && multiset(exam) <= multiset(pool)
      && |exam| == SliceEnd(|Matching(pool, cfg.difficulty, cfg.questionType)|, cfg.limit)
      && (Distinct(pool) ==> Distinct(exam))
  {
    var m := Matching(pool, cfg.difficulty, cfg.questionType);
    var exam := CustomExam(pool, cfg, rng);
    assert multiset(exam) <= multiset(m);
    forall x | x in exam ensures x in m { assert x in multiset(exam); }
    if Distinct(pool) { DistinctSub(exam, pool); }
  }

  /** With both filters on 'ALL' and a limit no smaller than the bank, a custom
      exam is the whole bank in a new order. */
  lemma CustomAllIsPermutation(pool: seq<Question>, cfg: ExamConfig, rng: seq<seq<int>>)
    requires CustomDrawsFit(pool, cfg, rng)
    requires cfg.difficulty == All && cfg.questionType == All && cfg.limit >= |pool|
    ensures multiset(CustomExam(pool, cfg, rng)) == multiset(pool)
  {
    MatchingAll(pool);
    var s := Shuffle(pool, rng[0]);
    assert Slice0(s, cfg.limit) == s;
  }

  // ------------------------------------------------------------ time spent

  /** `startTime && endTime ? Math.floor((endTime - startTime) / 1000) : 0`: a time
      stamp of 0 counts as missing, as JavaScript's `&&` treats it. */
  function TimeSpentSeconds(start: Option<int>, end: Option<int>): (r: int)
    ensures (start.Some? && start.value != 0 && end.Some? && end.value != 0)
      ==> r * 1000 <= end.value - start.value < r * 1000 + 1000
    ensures !(start.Some? && start.value != 0 && end.Some? && end.value != 0) ==> r == 0
  {
    if start.Some? && start.value != 0 && end.Some? && end.value != 0
    then (end.value - start.value) / 1000 else 0
  }

  /** A clock that does not run backward gives a time spent that is not negative
      and not more than the elapsed milliseconds allow. */
  lemma TimeSpentNonNegative(start: int, end: int)
    requires 0 < start <= end
    ensures 0 <= TimeSpentSeconds(Some(start), Some(end)) <= (end - start) / 1000
  {
  }

  // ------------------------------------------------------------ the screen state

  /** `ExamState` together with the handlers that replace it. */
  class AppState {
    var status: Status
    var originalQuestions: seq<Question>
    var activeQuestions: seq<Question>
    var userAnswers: map<string, string>
    var startTime: Option<int>
    var endTime: Option<int>
    var config: ExamConfig

    /** The upload screen, no data, and a custom 20-question, 30-minute configuration. */
    constructor ()
      ensures status == Upload && originalQuestions == [] && activeQuestions == []
      ensures userAnswers == map[] && startTime == None && endTime == None
      ensures config == ExamConfig(Custom, All, All, 20, 30)
    {
      status := Upload;
      originalQuestions := [];
      activeQuestions := [];
      userAnswers := map[];
      startTime := None;
      endTime := None;
      config := ExamConfig(Custom, All, All, 20, 30);
    }

    /** A file was ingested: keep its questions and go to the configuration screen. */
    method HandleDataLoaded(questions: seq<Question>)
      modifies this
      ensures status == Config && originalQuestions == questions && activeQuestions == []
      ensures userAnswers == map[] && startTime == None && endTime == None
      ensures config == old(config)
    {
      status := Config;
      originalQuestions := questions;
      activeQuestions := [];
      userAnswers := map[];
      startTime := None;
      endTime := None;
    }

    /** Draw the exam for `cfg` (the shuffles use the draws `rng`) and start it at
        time `now`. */
    method HandleStartExam(cfg: ExamConfig, now: int, rng: seq<seq<int>>)
      requires DrawsFit(originalQuestions, cfg, rng)
      modifies this
      ensures status == Running && activeQuestions == ComposeExam(old(originalQuestions), cfg, rng)
      ensures config == cfg && startTime == Some(now) && userAnswers == map[]
      ensures originalQuestions == old(originalQuestions) && endTime == old(endTime)
    {
      var finalQuestions: seq<Question>;
      if cfg.mode == Standard {
        var q := StandardQuotas(cfg.limit);
        var nbAll := ShuffleArray(OfTier(originalQuestions, NB), rng[0]);
        var thAll := ShuffleArray(OfTier(originalQuestions, TH), rng[1]);
        var vdAll := ShuffleArray(OfVdTiers(originalQuestions), rng[2]);
        var picks := Picks(Slice0(nbAll, q.nb), Slice0(thAll, q.th), Slice0(vdAll, q.vd));
        assert picks == StandardPicks(originalQuestions, cfg.limit, rng);
        finalQuestions := ShuffleArray(Joined(picks), rng[3]);
        assert finalQuestions == StandardExam(originalQuestions, cfg.limit, rng);
      } else {
        var all := ShuffleArray(Matching(originalQuestions, cfg.difficulty, cfg.questionType), rng[0]);
        finalQuestions := Slice0(all, cfg.limit);
        assert finalQuestions == CustomExam(originalQuestions, cfg, rng);
      }
      assert finalQuestions == ComposeExam(originalQuestions, cfg, rng);
      status := Running;
      activeQuestions := finalQuestions;
      config := cfg;
      startTime := Some(now);
      userAnswers := map[];
    }

    /** The exam was handed in with `answers` at time `now`. */
    method HandleCompleteExam(answers: map<string, string>, now: int)
      modifies this
      ensures status == Result && userAnswers == answers && endTime == Some(now)
      ensures originalQuestions == old(originalQuestions) && activeQuestions == old(activeQuestions)
      ensures startTime == old(startTime) && config == old(config)
    {
      status := Result;
      userAnswers := answers;
      endTime := Some(now);
    }

    /** Start again with the same configuration and fresh draws. */
    method HandleRetry(now: int, rng: seq<seq<int>>)
      requires DrawsFit(originalQuestions, config, rng)
      modifies this
      ensures status == Running && activeQuestions == ComposeExam(old(originalQuestions), old(config), rng)
      ensures config == old(config) && startTime == Some(now) && userAnswers == map[]
      ensures originalQuestions == old(originalQuestions) && endTime == old(endTime)
    {
      HandleStartExam(config, now, rng);
    }

    /** Back to the upload screen with the bank cleared; the time stamps and the
        configuration are kept. */
    method HandleHome()
      modifies this
      ensures status == Upload && originalQuestions == [] && activeQuestions == [] && userAnswers == map[]
      ensures startTime == old(startTime) && endTime == old(endTime) && config == old(config)
    {
      status := Upload;
      originalQuestions := [];
      activeQuestions := [];
      userAnswers := map[];
    }

    /** Back to the configuration screen; everything else is kept. This is what the
        result screen's home button does. */
    method HandleConfigReset()
      modifies this
      ensures status == Config
      ensures originalQuestions == old(originalQuestions) && activeQuestions == old(activeQuestions)
      ensures userAnswers == old(userAnswers) && startTime == old(startTime)
      ensures endTime == old(endTime) && config == old(config)
    {
      status := Config;
    }

    /** The time spent that the result screen is given. */
    function TimeSpent(): (t: int)
      reads this
      ensures startTime.Some? && endTime.Some? && 0 < startTime.value <= endTime.value
        ==> 0 <= t && t * 1000 <= endTime.value - startTime.value
      ensures startTime.None? || endTime.None? ==> t == 0
    {
      TimeSpentSeconds(startTime, endTime)
    }
  }
}
