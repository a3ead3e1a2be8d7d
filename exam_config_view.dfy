/** ExamConfigView.tsx: the configuration screen. It counts the bank per tier,
    works out how many questions the chosen mode can deliver, shows the planned
    tier split, and hands the configuration to App.tsx on submit. */
module ExamConfigView {
  import opened Wrappers
  import opened Seqs
  import opened JsStrings
  import opened JsMath
  import opened Types
  import opened Pool
  import opened App

  /** One button of the timing presets: minutes, questions, caption. */
  datatype Preset = Preset(time: int, questions: int, caption: string)

  const EXAM_PRESETS: seq<Preset> := [
    Preset(15, 10, "15 Phút"),
    Preset(30, 20, "30 Phút"),
    Preset(45, 30, "45 Phút"),
    Preset(60, 40, "60 Phút"),
    Preset(90, 50, "90 Phút")]

  /** Every preset's caption is its minute count followed by " Phút". */
  lemma PresetsWellFormed()
    ensures |EXAM_PRESETS| == 5
    ensures forall k :: 0 <= k < |EXAM_PRESETS| ==>
      EXAM_PRESETS[k].caption == NatToString(EXAM_PRESETS[k].time) + " Phút"
  {
    forall k | 0 <= k < |EXAM_PRESETS|
      ensures EXAM_PRESETS[k].caption == NatToString(EXAM_PRESETS[k].time) + " Phút"
    {
      PresetCaption(k);
    }
  }

  lemma PresetCaption(k: nat)
    requires k < |EXAM_PRESETS|
    ensures EXAM_PRESETS[k].caption == NatToString(EXAM_PRESETS[k].time) + " Phút"
  {
    var p := EXAM_PRESETS[k];
    TwoDigits(p.time);
  }

  lemma TwoDigits(n: nat)
    requires 10 <= n < 100
    ensures NatToString(n) == [DigitChar(n / 10), DigitChar(n % 10)]
  {
    assert NatToString(n / 10) == [DigitChar(n / 10)];
  }

  /** The bucket sizes the screen shows for standard mode. */
  datatype Stats = Stats(nb: int, th: int, vd: int)

  function StandardStats(pool: seq<Question>): Stats {
    Stats(|OfTier(pool, NB)|, |OfTier(pool, TH)|, |OfVdTiers(pool)|)
  }

  /** The three counts cover the bank: each question is counted once. */
  lemma StatsCoverBank(pool: seq<Question>)
    ensures var s := StandardStats(pool); s.nb + s.th + s.vd == |pool|
  {
    ThreeBucketsPartition(pool);
    assert |multiset(OfTier(pool, NB)) + multiset(OfTier(pool, TH)) + multiset(OfVdTiers(pool))| == |multiset(pool)|;
  }

  /** The largest standard exam the bank supports:
      `Math.min(Math.floor(nb / 0.5), Math.floor(th / 0.3), Math.floor(vd / 0.2))`,
      the largest L whose half, 30% and 20% fit the three buckets. */
  function StandardMax(s: Stats): (m: int)
    ensures 5 * m <= 10 * s.nb && 3 * m <= 10 * s.th && 2 * m <= 10 * s.vd
    ensures !(5 * (m + 1) <= 10 * s.nb && 3 * (m + 1) <= 10 * s.th && 2 * (m + 1) <= 10 * s.vd)
  {
    Min(FloorOverTenths(s.nb, 5), Min(FloorOverTenths(s.th, 3), FloorOverTenths(s.vd, 2)))
  }

  /** A bank with an empty bucket supports no standard exam at all. */
  lemma StandardMaxEmptyBucket(s: Stats)
    requires s.nb >= 0 && s.th >= 0 && s.vd >= 0
    requires s.nb == 0 || s.th == 0 || s.vd == 0
    ensures StandardMax(s) == 0
  {
  }

  /** A limit up to the bank's standard maximum never asks a bucket for more than
      it holds, despite App.tsx's rounding of the quotas. */
  lemma QuotasFitBelowMax(pool: seq<Question>, limit: int)
    requires 0 <= limit <= StandardMax(StandardStats(pool))
    ensures var q, s := StandardQuotas(limit), StandardStats(pool);
      q.nb <= s.nb && q.th <= s.th && q.vd <= s.vd
  {
  }

  /** How many questions the current mode can deliver (`maxPossible`). */
  function MaxPossible(pool: seq<Question>, mode: Mode, cfg: ExamConfig): (m: int)
    ensures 0 <= m <= |pool|
    ensures mode == Custom ==> m == |Matching(pool, cfg.difficulty, cfg.questionType)|
  {
    StatsCoverBank(pool);
    assert |multiset(Matching(pool, cfg.difficulty, cfg.questionType))| <= |multiset(pool)|;
    if mode == Custom then |Matching(pool, cfg.difficulty, cfg.questionType)|
    else StandardMax(StandardStats(pool))
  }

  /** The custom-mode clamp of the limit after the match count changes: down to
      the count when it is exceeded, up to `Math.min(20, count)` from 0, and
      untouched when nothing matches. */
  function ClampCustomLimit(limit: int, count: int): (r: int)
    ensures count > 0 && limit > count ==> r == count
    ensures count > 0 && limit == 0 ==> r == Min(20, count)
    ensures (count <= 0 || (0 < limit <= count) || limit < 0) ==> r == limit
    ensures count > 0 && limit >= 0 ==> 0 < r <= count
  {
    if limit > count && count > 0 then count
    else if count > 0 && limit == 0 then Min(20, count)
    else limit
  }

  /** The planned split the screen shows: the App.tsx quotas for
      `Math.min(limit, maxPossible)`. */
  function MatrixCounts(limit: int, maxPossible: int): (q: Quotas)
    ensures q == StandardQuotas(Min(limit, maxPossible))
  {
    var actual := Min(limit, maxPossible);
    var nb := RoundTenths(actual, 5);
    var th := RoundTenths(actual, 3);
    Quotas(nb, th, actual - nb - th)
  }

  /** `isValidToStart`. */
  predicate ValidToStart(maxPossible: int, mode: Mode, limit: int): (ok: bool)
    ensures ok ==> maxPossible > 0
    ensures ok && mode == Standard ==> Min(limit, maxPossible) == limit
  {
    maxPossible > 0 && (mode == Custom || (mode == Standard && limit <= maxPossible))
  }

  /** The configuration `handleSubmit` hands over: the limit clamped to `maxPossible`. */
  function Submitted(cfg: ExamConfig, maxPossible: int): (c: ExamConfig)
    ensures c.limit <= maxPossible && c.limit <= cfg.limit
    ensures c.limit == cfg.limit || c.limit == maxPossible
    ensures c.(limit := cfg.limit) == cfg
  {
    cfg.(limit := Min(cfg.limit, maxPossible))
  }

  /** What the screen promises is what App.tsx draws. When the button is enabled
      and the shown maximum is current, the exam App.tsx composes from the
      submitted configuration has exactly the submitted number of questions; in
      standard mode its tiers are exactly the split the screen showed. */
  lemma SubmittedExamHasLimit(pool: seq<Question>, cfg: ExamConfig, rng: seq<seq<int>>)
    requires cfg.limit >= 0
    requires ValidToStart(MaxPossible(pool, cfg.mode, cfg), cfg.mode, cfg.limit)
    requires DrawsFit(pool, Submitted(cfg, MaxPossible(pool, cfg.mode, cfg)), rng)
    ensures var sub := Submitted(cfg, MaxPossible(pool, cfg.mode, cfg));
      |ComposeExam(pool, sub, rng)| == sub.limit
    ensures var maxP := MaxPossible(pool, cfg.mode, cfg);
      var exam, shown := ComposeExam(pool, Submitted(cfg, maxP), rng), MatrixCounts(cfg.limit, maxP);
      cfg.mode == Standard ==>
        |OfTier(exam, NB)| == shown.nb && |OfTier(exam, TH)| == shown.th && |OfVdTiers(exam)| == shown.vd
  {
    var maxP := MaxPossible(pool, cfg.mode, cfg);
    var sub := Submitted(cfg, maxP);
    if cfg.mode == Standard {
      StandardSubmission(pool, sub.limit, rng);
    } else {
      CustomExamComposition(pool, sub, rng);
    }
  }

  lemma StandardSubmission(pool: seq<Question>, limit: int, rng: seq<seq<int>>)
    requires 0 <= limit <= StandardMax(StandardStats(pool))
    requires StandardDrawsFit(pool, limit, rng)
    ensures var exam, q := StandardExam(pool, limit, rng), StandardQuotas(limit);
      && |exam| == limit
      && |OfTier(exam, NB)| == q.nb && |OfTier(exam, TH)| == q.th && |OfVdTiers(exam)| == q.vd
  {
    QuotasFitBelowMax(pool, limit);
    StandardExamComposition(pool, limit, rng);
    StandardPicksShape(pool, limit, rng);
  }

  /** The configuration screen's state. `pool` is the bank App.tsx passes in. */
  class ConfigView {
    const pool: seq<Question>
    var mode: Mode
    var config: ExamConfig
    var maxPossible: int
    var matrixCounts: Quotas

    /** Standard mode, all tiers and types, 30 questions in 45 minutes. */
    constructor (bank: seq<Question>)
      ensures pool == bank && mode == Standard
      ensures config == ExamConfig(Standard, All, All, 30, 45)
      ensures maxPossible == 0 && matrixCounts == Quotas(0, 0, 0)
    {
      pool := bank;
      mode := Standard;
      config := ExamConfig(Standard, All, All, 30, 45);
      maxPossible := 0;
      matrixCounts := Quotas(0, 0, 0);
    }

    /** The mode tabs. */
    method SelectMode(m: Mode)
      modifies this
      ensures mode == m && config == old(config)
      ensures maxPossible == old(maxPossible) && matrixCounts == old(matrixCounts)
    {
      mode := m;
    }

    /** The effect that copies the mode into the configuration. */
    method SyncConfigMode()
      modifies this
      ensures config == old(config).(mode := mode) && mode == old(mode)
      ensures maxPossible == old(maxPossible) && matrixCounts == old(matrixCounts)
    {
      config := config.(mode := mode);
    }

    /** The difficulty buttons, one per key of the label table. */
    method SelectDifficulty(d: Choice<Difficulty>)
      modifies this
      ensures config == old(config).(difficulty := d) && mode == old(mode)
      ensures maxPossible == old(maxPossible) && matrixCounts == old(matrixCounts)
    {
      config := config.(difficulty := d);
    }

    /** The question-type buttons. */
    method SelectType(t: Choice<QuestionType>)
      modifies this
      ensures config == old(config).(questionType := t) && mode == old(mode)
      ensures maxPossible == old(maxPossible) && matrixCounts == old(matrixCounts)
    {
      config := config.(questionType := t);
    }

    /** The question-count slider, which offers 5 up to `Math.max(5, maxPossible)`. */
    method SetLimit(v: int)
      requires 5 <= v <= Max(5, maxPossible)
      modifies this
      ensures config == old(config).(limit := v) && mode == old(mode)
      ensures maxPossible == old(maxPossible) && matrixCounts == old(matrixCounts)
    {
      config := config.(limit := v);
    }

    /** The duration slider: 5 to 180 minutes in steps of 5. */
    method SetDuration(v: int)
      requires 5 <= v <= 180 && v % 5 == 0
      modifies this
      ensures config == old(config).(durationMinutes := v) && mode == old(mode)
      ensures maxPossible == old(maxPossible) && matrixCounts == old(matrixCounts)
    {
      config := config.(durationMinutes := v);
    }

    /** One of the timing presets: its minutes and its question count. */
    method HandlePresetSelect(k: nat)
      requires k < |EXAM_PRESETS|
      modifies this
      ensures config == old(config).(durationMinutes := EXAM_PRESETS[k].time, limit := EXAM_PRESETS[k].questions)
      ensures mode == old(mode) && maxPossible == old(maxPossible) && matrixCounts == old(matrixCounts)
    {
      config := config.(durationMinutes := EXAM_PRESETS[k].time, limit := EXAM_PRESETS[k].questions);
    }

    /** The effect that recomputes `maxPossible`; in custom mode it also clamps the
        limit to the number of matching questions. */
    method RecomputeMaxPossible()
      modifies this
      ensures maxPossible == MaxPossible(pool, mode, old(config))
      ensures mode == Custom ==> config == old(config).(limit := ClampCustomLimit(old(config).limit, maxPossible))
      ensures mode == Standard ==> config == old(config)
      ensures mode == old(mode) && matrixCounts == old(matrixCounts)
    {
      if mode == Custom {
        var filtered := Matching(pool, config.difficulty, config.questionType);
        maxPossible := |filtered|;
        if config.limit > |filtered| && |filtered| > 0 {
          config := config.(limit := |filtered|);
        } else if |filtered| > 0 && config.limit == 0 {
          config := config.(limit := Min(20, |filtered|));
        }
      } else {
        var s := StandardStats(pool);
        maxPossible := StandardMax(s);
      }
    }

    /** The effect that recomputes the split shown in standard mode. */
    method RecomputeMatrix()
      modifies this
      ensures mode == Standard ==> matrixCounts == MatrixCounts(config.limit, maxPossible)
      ensures mode == Custom ==> matrixCounts == old(matrixCounts)
      ensures mode == old(mode) && config == old(config) && maxPossible == old(maxPossible)
    {
      if mode == Standard {
        var actual := Min(config.limit, maxPossible);
        matrixCounts := Quotas(RoundTenths(actual, 5), RoundTenths(actual, 3),
          actual - RoundTenths(actual, 5) - RoundTenths(actual, 3));
      }
    }

    /** `isValidToStart`, which enables the start button. */
    predicate IsValidToStart(): (ok: bool)
      reads this
      ensures ok ==> maxPossible > 0
      ensures ok && mode == Standard ==> config.limit <= maxPossible
    {
      ValidToStart(maxPossible, mode, config.limit)
    }

    /** The start button: the configuration with its limit clamped to `maxPossible`. */
    method HandleSubmit() returns (started: ExamConfig)
      ensures started == Submitted(config, maxPossible)
      ensures started.limit <= maxPossible
    {
      started := config.(limit := Min(config.limit, maxPossible));
    }
  }
}
