/** The difficulty buckets and the custom filter that App.tsx, ExamConfigView.tsx and
    AdminDashboard.tsx each compute over a question pool with `filter`. */
module Pool {
  import opened Types
  import opened Seqs

  /** The test `q => q.difficulty === d`. */
  function TierTest(d: Difficulty): Question -> bool {
    (q: Question) => q.difficulty == d
  }

  /** The test `q => ['VD', 'VDC'].includes(q.difficulty)`. */
  function VdTest(): Question -> bool {
    (q: Question) => q.difficulty == VD || q.difficulty == VDC
  }

  /** `pool.filter(q => q.difficulty === d)`. */
  function OfTier(pool: seq<Question>, d: Difficulty): (r: seq<Question>)
    ensures forall q :: q in r <==> q in pool && q.difficulty == d
    ensures multiset(r) <= multiset(pool)
  {
    Filter(pool, TierTest(d))
  }

  /** `pool.filter(q => ['VD', 'VDC'].includes(q.difficulty))`. */
  function OfVdTiers(pool: seq<Question>): (r: seq<Question>)
    ensures forall q :: q in r <==> q in pool && q.difficulty in {VD, VDC}
    ensures multiset(r) <= multiset(pool)
  {
    Filter(pool, VdTest())
  }

  /** The custom-mode test: `'ALL'` matches every question. */
  predicate Matches(q: Question, dc: Choice<Difficulty>, tc: Choice<QuestionType>) {
    (dc.All? || q.difficulty == dc.value) && (tc.All? || q.qtype == Listed(tc.value))
  }

  /** The custom-mode filter of App.tsx (and the count ExamConfigView.tsx shows). */
  function Matching(pool: seq<Question>, dc: Choice<Difficulty>, tc: Choice<QuestionType>): (r: seq<Question>)
    ensures forall q :: q in r <==> q in pool && Matches(q, dc, tc)
    ensures multiset(r) <= multiset(pool)
  {
    Filter(pool, (q: Question) => Matches(q, dc, tc))
  }

  /** With both filters on 'ALL' the custom filter keeps the whole pool. */
  lemma {:induction false} MatchingAll(pool: seq<Question>)
    ensures Matching(pool, All, All) == pool
  {
    if pool != [] {
      MatchingAll(pool[1..]);
      assert pool == [pool[0]] + pool[1..];
    }
  }

  /** One step of the tier filter, counted as a multiset. */
  lemma TierStep(pool: seq<Question>, d: Difficulty)
    requires pool != []
    ensures multiset(OfTier(pool, d))
      == (if pool[0].difficulty == d then multiset{pool[0]} else multiset{}) + multiset(OfTier(pool[1..], d))
  {
    assert OfTier(pool, d) == (if pool[0].difficulty == d then [pool[0]] else []) + OfTier(pool[1..], d);
  }

  /** One step of the VD-or-VDC filter, counted as a multiset. */
  lemma VdStep(pool: seq<Question>)
    requires pool != []
    ensures multiset(OfVdTiers(pool))
      == (if pool[0].difficulty in {VD, VDC} then multiset{pool[0]} else multiset{}) + multiset(OfVdTiers(pool[1..]))
  {
    assert OfVdTiers(pool) == (if pool[0].difficulty in {VD, VDC} then [pool[0]] else []) + OfVdTiers(pool[1..]);
  }

  lemma HeadTail(pool: seq<Question>)
    requires pool != []
    ensures multiset(pool) == multiset{pool[0]} + multiset(pool[1..])
  {
    assert pool == [pool[0]] + pool[1..];
  }

  /** The bookkeeping of one partition step with three buckets. */
  lemma ThreeStep(nb: multiset<Question>, th: multiset<Question>, vd: multiset<Question>,
                  nb': multiset<Question>, th': multiset<Question>, vd': multiset<Question>,
                  x: Question, all: multiset<Question>, rest: multiset<Question>)
    requires nb' + th' + vd' == rest
    requires all == multiset{x} + rest
    requires nb == (if x.difficulty == NB then multiset{x} else multiset{}) + nb'
    requires th == (if x.difficulty == TH then multiset{x} else multiset{}) + th'
    requires vd == (if x.difficulty in {VD, VDC} then multiset{x} else multiset{}) + vd'
    ensures nb + th + vd == all
  {
  }

  /** The bookkeeping of one partition step with four buckets. */
  lemma FourStep(nb: multiset<Question>, th: multiset<Question>, vd: multiset<Question>, vdc: multiset<Question>,
                 nb': multiset<Question>, th': multiset<Question>, vd': multiset<Question>, vdc': multiset<Question>,
                 x: Question, all: multiset<Question>, rest: multiset<Question>)
    requires nb' + th' + vd' + vdc' == rest
    requires all == multiset{x} + rest
    requires nb == (if x.difficulty == NB then multiset{x} else multiset{}) + nb'
    requires th == (if x.difficulty == TH then multiset{x} else multiset{}) + th'
    requires vd == (if x.difficulty == VD then multiset{x} else multiset{}) + vd'
    requires vdc == (if x.difficulty == VDC then multiset{x} else multiset{}) + vdc'
    ensures nb + th + vd + vdc == all
  {
  }

  /** The NB, TH and VD-or-VDC buckets split the pool: every question lands in
      exactly one of them, as often as it occurs in the pool. */
  lemma {:induction false} ThreeBucketsPartition(pool: seq<Question>)
    ensures multiset(OfTier(pool, NB)) + multiset(OfTier(pool, TH)) + multiset(OfVdTiers(pool)) == multiset(pool)
  {
    if pool != [] {
      var rest := pool[1..];
      ThreeBucketsPartition(rest);
      TierStep(pool, NB);
      TierStep(pool, TH);
      VdStep(pool);
      HeadTail(pool);
      ThreeStep(multiset(OfTier(pool, NB)), multiset(OfTier(pool, TH)), multiset(OfVdTiers(pool)),
        multiset(OfTier(rest, NB)), multiset(OfTier(rest, TH)), multiset(OfVdTiers(rest)),
        pool[0], multiset(pool), multiset(rest));
    }
  }

  /** The four tier buckets split the pool. */
  lemma {:induction false} FourTiersPartition(pool: seq<Question>)
    ensures multiset(OfTier(pool, NB)) + multiset(OfTier(pool, TH))
      + multiset(OfTier(pool, VD)) + multiset(OfTier(pool, VDC)) == multiset(pool)
  {
    if pool != [] {
      var rest := pool[1..];
      FourTiersPartition(rest);
      TierStep(pool, NB);
      TierStep(pool, TH);
      TierStep(pool, VD);
      TierStep(pool, VDC);
      HeadTail(pool);
      FourStep(multiset(OfTier(pool, NB)), multiset(OfTier(pool, TH)),
        multiset(OfTier(pool, VD)), multiset(OfTier(pool, VDC)),
        multiset(OfTier(rest, NB)), multiset(OfTier(rest, TH)),
        multiset(OfTier(rest, VD)), multiset(OfTier(rest, VDC)),
        pool[0], multiset(pool), multiset(rest));
    }
  }

  /** Counting: the bucket sizes add up to the pool size. */
  lemma TierCountsSum(pool: seq<Question>)
    ensures |OfTier(pool, NB)| + |OfTier(pool, TH)| + |OfTier(pool, VD)| + |OfTier(pool, VDC)| == |pool|
  {
    FourTiersPartition(pool);
    assert |multiset(OfTier(pool, NB)) + multiset(OfTier(pool, TH))
      + multiset(OfTier(pool, VD)) + multiset(OfTier(pool, VDC))| == |multiset(pool)|;
  }
}
