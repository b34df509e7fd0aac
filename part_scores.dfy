/**
 * Per-part scoring of one question version: getQuestionPartScores
 * (assess2/AssessRecord.php:645-736) picks, for each part, the best
 * post-penalty score among the tries it considers, and the part-status
 * classification of getQuestionObject (lines 548-597) summarises the parts
 * as unattempted, attempted, correct, incorrect or partial.
 */
module PartScoring {
  import opened AssessTypes
  import opened Penalties
  import opened Resolution

  /** Whether only the last try of each part counts ('last') or every try ('all'). */
  datatype TryMode = LastTry | AllTries

  /**
   * What the scoring loop reads besides the question version: the penalty
   * configuration, the question's points possible, the regeneration number,
   * the due date, the record's start time and the container's submission
   * offsets.
   */
  datatype ScoreEnv = ScoreEnv(
    pen: PenaltySettings,
    points: real,
    regen: nat,
    dueDate: int,
    starttime: int,
    submissions: seq<int>)

  /** One entry of the parts list the loop returns. */
  datatype PartDetail =
    | Untried(pointsPossible: real)
    | Tried(try: nat, score: real, rawscore: real, penalties: seq<Penalty>, pointsPossible: real)

  /** The running best of one part: its score, the raw score of the try that gave it, and the last penalty list. */
  datatype PartBest = PartBest(score: real, raw: real, penalties: seq<Penalty>)

  /** The answer weights, `array(1)` when the version has none. */
  function AnsWeights(q: QuestionVersion): seq<real> {
    q.answeights.GetOr([1.0])
  }

  /**
   * The points part pn is worth: its share of the question's points by
   * answer weight. A part without a weight reads a null weight, which
   * makes it worth 0. A zero weight total is also taken as worth 0: PHP 7
   * gives INF or NAN there with a warning, PHP 8 throws.
   */
  function PartPoints(env: ScoreEnv, aw: seq<real>, pn: nat): real {
    if pn < |aw| && Sum(aw) != 0.0 then env.points * aw[pn] / Sum(aw) else 0.0
  }

  /**
   * When a try was submitted: the record's start time plus the offset of
   * the submission it belongs to (0 for an unknown submission). Line 716
   * reads the offsets from the undefined `$data`; this is the intended
   * container's `submissions`.
   */
  function SubmitTime(env: ScoreEnv, t: Try): int {
    env.starttime + (if t.sub < |env.submissions| then env.submissions[t.sub] else 0)
  }

  /** The post-penalty score of try number pa of a part worth pts. */
  function TryScore(env: ScoreEnv, pts: real, t: Try, pa: nat): Scored {
    ScoreAfterPenalty(env.pen, t.raw, pts, pa, env.regen, env.dueDate, SubmitTime(env, t))
  }

  /** The post-penalty result of every try of a part worth pts, by try number. */
  function TryScores(env: ScoreEnv, pts: real, ts: seq<Try>): (ss: seq<Scored>)
    ensures |ss| == |ts|
    ensures forall pa :: 0 <= pa < |ts| ==> ss[pa] == TryScore(env, pts, ts[pa], pa)
  {
    seq(|ts|, pa requires 0 <= pa < |ts| => TryScore(env, pts, ts[pa], pa))
  }

  /**
   * The loop over tries lo..hi-1 of one part (lines 706-724), given each
   * try's post-penalty result ss: a try with a positive raw score is scored;
   * its penalty list becomes the reported one, and its score replaces the
   * best only when strictly greater.
   */
  function BestFold(ts: seq<Try>, ss: seq<Scored>, lo: nat, hi: nat): PartBest
    requires lo <= hi <= |ts| == |ss|
    decreases hi
  {
    if hi == lo then PartBest(0.0, 0.0, [])
    else
      var b := BestFold(ts, ss, lo, hi - 1);
      if ts[hi - 1].raw > 0.0 then
        var s := ss[hi - 1];
        if s.score > b.score then PartBest(s.score, ts[hi - 1].raw, s.penalties) else b.(penalties := s.penalties)
      else b
  }

  /** The first try the mode considers in a part with n tries. */
  function FirstConsidered(mode: TryMode, n: nat): nat {
    if mode == LastTry && n > 0 then n - 1 else 0
  }

  /** The outcome for part pn of q. */
  function PartOutcome(env: ScoreEnv, q: QuestionVersion, mode: TryMode, pn: nat): PartBest {
    var ts := PartTries(q.tries, pn);
    BestFold(ts, TryScores(env, PartPoints(env, AnsWeights(q), pn), ts), FirstConsidered(mode, |ts|), |ts|)
  }

  /** The entry of the parts list for part pn. */
  function Detail(env: ScoreEnv, q: QuestionVersion, mode: TryMode, pn: nat): PartDetail {
    var ts := PartTries(q.tries, pn);
    var pts := PartPoints(env, AnsWeights(q), pn);
    if |ts| == 0 then Untried(pts)
    else
      var b := PartOutcome(env, q, mode, pn);
      Tried(|ts|, b.score, b.raw, b.penalties, pts)
  }

  /**
   * `$partscores` (or `$partrawscores`) after parts 0..k-1: one entry per
   * answer weight, 0 for a part not yet reached or without tries.
   */
  function PartScoreList(env: ScoreEnv, q: QuestionVersion, mode: TryMode, k: nat, raw: bool): (r: seq<real>)
    ensures |r| == |AnsWeights(q)|
  {
    seq(|AnsWeights(q)|, i requires 0 <= i < |AnsWeights(q)| =>
      if i < k then (if raw then PartOutcome(env, q, mode, i).raw else PartOutcome(env, q, mode, i).score) else 0.0)
  }

  /**
   * The inner loop of getQuestionPartScores over tries lo.. of one part
   * worth pts (lines 706-724): the best score, its raw score and the last
   * penalty list.
   */
  method BestTry(env: ScoreEnv, pts: real, ts: seq<Try>, lo: nat)
    returns (best: real, raw: real, penalties: seq<Penalty>)
    requires lo <= |ts|
    ensures PartBest(best, raw, penalties) == BestFold(ts, TryScores(env, pts, ts), lo, |ts|)
  {
    ghost var ss := TryScores(env, pts, ts);
    best, raw, penalties := 0.0, 0.0, [];
    var pa := lo;
    while pa < |ts|
      invariant lo <= pa <= |ts|
      invariant PartBest(best, raw, penalties) == BestFold(ts, ss, lo, pa)
    {
      BestFoldStep(ts, ss, lo, pa);
      var t := ts[pa];
      if t.raw > 0.0 {
        var s := TryScore(env, pts, t, pa);
        assert s == ss[pa];
        penalties := s.penalties;
        if s.score > best {
          best, raw := s.score, t.raw;
        }
      }
      pa := pa + 1;
    }
  }

  /** One step of the loop over tries, for any post-penalty results ss. */
  lemma BestFoldStep(ts: seq<Try>, ss: seq<Scored>, lo: nat, pa: nat)
    requires lo <= pa < |ts| == |ss|
    ensures var b := BestFold(ts, ss, lo, pa);
      BestFold(ts, ss, lo, pa + 1)
      == if ts[pa].raw <= 0.0 then b
         else if ss[pa].score > b.score then PartBest(ss[pa].score, ts[pa].raw, ss[pa].penalties)
         else b.(penalties := ss[pa].penalties)
  {
  }

  /** The parts list for every key of the tries array. */
  function Details(env: ScoreEnv, q: QuestionVersion, mode: TryMode): (ds: seq<PartDetail>)
    ensures |ds| == |q.tries|
    ensures forall pn :: 0 <= pn < |ds| ==> ds[pn] == Detail(env, q, mode, pn)
  {
    seq(|q.tries|, pn requires 0 <= pn < |q.tries| => Detail(env, q, mode, pn))
  }

  /**
   * The body of the loop over parts (lines 690-732) for part pn: its best
   * score and raw score (0 without tries) and its entry of the parts list.
   */
  method ScorePart(env: ScoreEnv, q: QuestionVersion, mode: TryMode, pn: nat)
    returns (best: real, raw: real, detail: PartDetail)
    ensures best == PartOutcome(env, q, mode, pn).score && raw == PartOutcome(env, q, mode, pn).raw
    ensures detail == Detail(env, q, mode, pn)
  {
    var ts := PartTries(q.tries, pn);
    var pts := PartPoints(env, AnsWeights(q), pn);
    if |ts| == 0 {
      return 0.0, 0.0, Untried(pts);
    }
    var penalties;
    best, raw, penalties := BestTry(env, pts, ts, FirstConsidered(mode, |ts|));
    detail := Tried(|ts|, best, raw, penalties, pts);
  }

  /**
   * `getQuestionPartScores` on a resolved question version: one part entry
   * per key of the tries array, the question score the sum of the part
   * scores kept per answer weight, and the raw score likewise.
   */
  method QuestionPartScores(env: ScoreEnv, q: QuestionVersion, mode: TryMode)
    returns (qScore: real, qRaw: real, parts: seq<PartDetail>)
    ensures parts == Details(env, q, mode)
    ensures qScore == Sum(PartScoreList(env, q, mode, |q.tries|, false))
    ensures qRaw == Sum(PartScoreList(env, q, mode, |q.tries|, true))
  {
    var aw := AnsWeights(q);
    ghost var spec := Details(env, q, mode);
    var scores: seq<real> := seq(|aw|, i => 0.0);
    var raws: seq<real> := seq(|aw|, i => 0.0);
    parts := [];
    var pn := 0;
    while pn < |q.tries|
      invariant 0 <= pn <= |q.tries| == |spec|
      invariant parts == spec[..pn]
      invariant scores == PartScoreList(env, q, mode, pn, false)
      invariant raws == PartScoreList(env, q, mode, pn, true)
    {
      var best, raw, detail := ScorePart(env, q, mode, pn);
      PartScoreListStep(env, q, mode, pn);
      TakeStep(spec, pn);
      parts := parts + [detail];
      if pn < |aw| {
        scores := scores[pn := best];
        raws := raws[pn := raw];
      }
      pn := pn + 1;
    }
    TakeAll(spec);
    qScore := Sum(scores);
    qRaw := Sum(raws);
  }

  /** Reaching part pn sets entry pn of the score lists, if it has one, and nothing else. */
  lemma PartScoreListStep(env: ScoreEnv, q: QuestionVersion, mode: TryMode, pn: nat)
    ensures pn < |AnsWeights(q)| ==>
      && PartScoreList(env, q, mode, pn + 1, false) == PartScoreList(env, q, mode, pn, false)[pn := PartOutcome(env, q, mode, pn).score]
      && PartScoreList(env, q, mode, pn + 1, true) == PartScoreList(env, q, mode, pn, true)[pn := PartOutcome(env, q, mode, pn).raw]
    ensures pn >= |AnsWeights(q)| ==>
      && PartScoreList(env, q, mode, pn + 1, false) == PartScoreList(env, q, mode, pn, false)
      && PartScoreList(env, q, mode, pn + 1, true) == PartScoreList(env, q, mode, pn, true)
  {
  }

  /**
   * What getQuestionPartScores reads from the record and its settings:
   * the submit mode, which container, the due date, the exception penalty,
   * the record's start time and the question-settings provider.
   */
  datatype ScoreCtx = ScoreCtx(
    submitby: SubmitBy,
    practice: bool,
    dueDate: int,
    exceptionPenalty: real,
    starttime: int,
    questionSettings: int -> QuestionSettings)

  /** The penalty configuration of lines 677-683 for a question's settings. */
  function PenaltiesFor(ctx: ScoreCtx, qs: QuestionSettings): PenaltySettings {
    PenaltySettings(qs.retryPenalty, qs.retryPenaltyAfter, qs.regenPenalty, qs.regenPenaltyAfter, ctx.exceptionPenalty)
  }

  /** The scoring environment for question qn of container d read with selector sel, whose version is q. */
  function EnvFor(ctx: ScoreCtx, d: AssessData, qn: nat, sel: Selector, q: QuestionVersion): ScoreEnv {
    var qs := ctx.questionSettings(q.qid);
    ScoreEnv(PenaltiesFor(ctx, qs), qs.pointsPossible, RegenNumber(d, ctx.practice, ctx.submitby, sel, qn),
             ctx.dueDate, ctx.starttime, d.submissions)
  }

  /**
   * The question score and raw score getQuestionPartScores returns for
   * question qn of d read with selector sel. A version that does not exist
   * reads as null, which yields no tries and the default weight: (0, 0).
   */
  function QuestionScores(ctx: ScoreCtx, d: AssessData, qn: nat, sel: Selector, mode: TryMode): (real, real) {
    match QuestionVer(d, ctx.practice, ctx.submitby, sel, qn)
    case None => (0.0, 0.0)
    case Some(q) =>
      var env := EnvFor(ctx, d, qn, sel, q);
      (Sum(PartScoreList(env, q, mode, |q.tries|, false)), Sum(PartScoreList(env, q, mode, |q.tries|, true)))
  }

  /** `getQuestionPartScores($qn, $is_practice, $ver, $try)` on container d. */
  method GetQuestionPartScores(ctx: ScoreCtx, d: AssessData, qn: nat, sel: Selector, mode: TryMode)
    returns (qScore: real, qRaw: real, parts: seq<PartDetail>)
    ensures (qScore, qRaw) == QuestionScores(ctx, d, qn, sel, mode)
    ensures QuestionVer(d, ctx.practice, ctx.submitby, sel, qn).None? ==> parts == []
    ensures QuestionVer(d, ctx.practice, ctx.submitby, sel, qn).Some? ==>
      var q := QuestionVer(d, ctx.practice, ctx.submitby, sel, qn).value;
      parts == Details(EnvFor(ctx, d, qn, sel, q), q, mode)
  {
    var found := QuestionVer(d, ctx.practice, ctx.submitby, sel, qn);
    if found.None? {
      return 0.0, 0.0, [];
    }
    var q := found.value;
    qScore, qRaw, parts := QuestionPartScores(EnvFor(ctx, d, qn, sel, q), q, mode);
  }

  /** A question score is never negative: every part score starts at 0 and only grows. */
  lemma QuestionScoreNonNegative(ctx: ScoreCtx, d: AssessData, qn: nat, sel: Selector, mode: TryMode)
    ensures QuestionScores(ctx, d, qn, sel, mode).0 >= 0.0
  {
    match QuestionVer(d, ctx.practice, ctx.submitby, sel, qn)
    case None =>
    case Some(q) =>
      var env := EnvFor(ctx, d, qn, sel, q);
      var l := PartScoreList(env, q, mode, |q.tries|, false);
      forall i | 0 <= i < |l| ensures l[i] >= 0.0 {
        if i < |q.tries| {
          var ts := PartTries(q.tries, i);
          BestFoldIsEarliestBest(ts, TryScores(env, PartPoints(env, AnsWeights(q), i), ts), FirstConsidered(mode, |ts|), |ts|);
        }
      }
      SumNonNegative(l);
  }

  /** A part without an answer weight is worth 0, so it never scores or records a raw score. */
  lemma UnweightedPartScoresZero(env: ScoreEnv, q: QuestionVersion, mode: TryMode, pn: nat)
    requires pn >= |AnsWeights(q)|
    ensures PartOutcome(env, q, mode, pn).score == 0.0 && PartOutcome(env, q, mode, pn).raw == 0.0
  {
    var ts := PartTries(q.tries, pn);
    var ss := TryScores(env, 0.0, ts);
    forall pa | 0 <= pa < |ts| ensures ss[pa].score == 0.0 {
      ZeroPointsScoreZero(env, ts[pa], pa);
    }
    var lo := FirstConsidered(mode, |ts|);
    BestFoldIsEarliestBest(ts, ss, lo, |ts|);
  }

  lemma ZeroPointsScoreZero(env: ScoreEnv, t: Try, pa: nat)
    ensures TryScore(env, 0.0, t, pa).score == 0.0
  {
    var p := env.pen;
    PenalisedOfZero(RetryFactor(p, pa), RegenFactor(p, env.regen), LateFactor(p, env.dueDate, SubmitTime(env, t)));
  }

  lemma PenalisedOfZero(t: real, g: real, l: real)
    ensures Penalised(0.0, t, g, l) == 0.0
  {
  }

  /**
   * The 'last' regeneration count in practice: by assessment, on a
   * container with one version, a 10% regen penalty after the default one
   * free regeneration already applies when the question is read as 'last'
   * (regeneration number 1), but not when the same version is read by its
   * index 0, as reTotalAssess reads it. Raw 1 on 10 points scores 9 against
   * 10.
   */
  lemma FirstVersionPenalisedAsLast(d: AssessData, p: PenaltySettings, qn: nat)
    requires |d.versions| == 1
    requires p == PenaltySettings(0.0, None, 10.0, None, 0.0)
    ensures ScoreAfterPenalty(p, 1.0, 10.0, 0, RegenNumber(d, false, ByAssessment, Last, qn), 1000, 900)
            == Scored(9.0, [Penalty(Regen, 10.0)])
    ensures ScoreAfterPenalty(p, 1.0, 10.0, 0, RegenNumber(d, false, ByAssessment, Index(0), qn), 1000, 900)
            == Scored(10.0, [])
  {
  }

  /** A try the fold considers: in range and with a positive raw score. */
  predicate Considered(ts: seq<Try>, lo: int, hi: int, pa: int) {
    0 <= lo <= pa < hi <= |ts| && ts[pa].raw > 0.0
  }

  /**
   * What the best-try loop computes: the part score is never negative and
   * at least the score of every considered try. A positive part score is
   * the score of a considered try with no earlier considered try scoring as
   * much (the earliest best try wins a tie), and the raw score is that
   * try's; a part score of 0 comes with a raw score of 0.
   */
  lemma {:induction false} BestFoldIsEarliestBest(ts: seq<Try>, ss: seq<Scored>, lo: nat, hi: nat)
    requires lo <= hi <= |ts| == |ss|
    ensures var b := BestFold(ts, ss, lo, hi);
      && b.score >= 0.0
      && (forall pa :: Considered(ts, lo, hi, pa) ==> ss[pa].score <= b.score)
      && (b.score > 0.0 ==>
            exists w :: Considered(ts, lo, hi, w) && ss[w].score == b.score && b.raw == ts[w].raw
                        && forall pa :: Considered(ts, lo, w, pa) ==> ss[pa].score < b.score)
      && (b.score == 0.0 ==> b.raw == 0.0)
    decreases hi
  {
    if hi > lo {
      BestFoldIsEarliestBest(ts, ss, lo, hi - 1);
      var prev := BestFold(ts, ss, lo, hi - 1);
      var b := BestFold(ts, ss, lo, hi);
      if ts[hi - 1].raw > 0.0 && ss[hi - 1].score > prev.score {
        assert Considered(ts, lo, hi, hi - 1);
        assert forall pa :: Considered(ts, lo, hi - 1, pa) ==> ss[pa].score < b.score;
      } else {
        assert b.score == prev.score && b.raw == prev.raw;
        if b.score > 0.0 {
          var w :| Considered(ts, lo, hi - 1, w) && ss[w].score == b.score && b.raw == ts[w].raw
                   && forall pa :: Considered(ts, lo, w, pa) ==> ss[pa].score < b.score;
          assert Considered(ts, lo, hi, w);
        }
      }
    }
  }

  /** The last try among lo..hi-1 that the fold considers, if any. */
  function LastConsidered(ts: seq<Try>, lo: nat, hi: nat): (r: Option<nat>)
    requires lo <= hi <= |ts|
    ensures r.None? ==> forall pa :: lo <= pa < hi ==> ts[pa].raw <= 0.0
    ensures r.Some? ==> Considered(ts, lo, hi, r.value)
                        && forall pa :: r.value < pa < hi ==> ts[pa].raw <= 0.0
    decreases hi
  {
    if hi == lo then None
    else if ts[hi - 1].raw > 0.0 then Some(hi - 1)
    else LastConsidered(ts, lo, hi - 1)
  }

  /** The penalty list reported is that of the last considered try, not of the best one; none if no try counts. */
  lemma {:induction false} BestFoldReportsLastPenalties(ts: seq<Try>, ss: seq<Scored>, lo: nat, hi: nat)
    requires lo <= hi <= |ts| == |ss|
    ensures BestFold(ts, ss, lo, hi).penalties
            == match LastConsidered(ts, lo, hi) case None => [] case Some(w) => ss[w].penalties
    decreases hi
  {
    if hi > lo {
      BestFoldReportsLastPenalties(ts, ss, lo, hi - 1);
    }
  }

  /** The status a question shows (getQuestionObject, lines 548-597). */
  datatype QStatus = Unattempted | Attempted | Correct | Incorrect | Partial

  /** One classification step on a part's raw score (lines 575-583). */
  function Classify(prev: QStatus, raw: real): QStatus {
    if raw > 0.99 then (if prev == Incorrect || prev == Partial then Partial else Correct)
    else if raw < 0.01 then (if prev == Correct || prev == Partial then Partial else Incorrect)
    else Partial
  }

  /** The raw score the parts list shows for part pn; 0 where it shows none. */
  function ShownRaw(parts: seq<PartDetail>, pn: nat): real {
    if pn < |parts| && parts[pn].Tried? then parts[pn].rawscore else 0.0
  }

  /** The status after the loop has seen parts 0..k-1, starting from 'attempted'. */
  function StatusFold(q: QuestionVersion, parts: seq<PartDetail>, includeScores: bool, k: nat): QStatus {
    if k == 0 then Attempted
    else
      var prev := StatusFold(q, parts, includeScores, k - 1);
      var s := if |PartTries(q.tries, k - 1)| == 0 then Unattempted else prev;
      if includeScores && s != Unattempted then Classify(s, ShownRaw(parts, k - 1)) else s
  }

  /** The smallest try count among parts 0..k-1. */
  function MinTries(q: QuestionVersion, k: nat): nat
    requires k > 0
  {
    if k == 1 then |PartTries(q.tries, 0)|
    else
      var m := MinTries(q, k - 1);
      var c := |PartTries(q.tries, k - 1)|;
      if c < m then c else m
  }

  /**
   * The status and try count of getQuestionObject. `parts` is the parts
   * list of getQuestionPartScores for the last try, read when scores are
   * included. A question with no tries at all is unattempted with try 0.
   */
  method QuestionStatus(q: QuestionVersion, parts: seq<PartDetail>, includeScores: bool)
    returns (status: QStatus, try: nat)
    ensures |q.tries| == 0 ==> status == Unattempted && try == 0
    ensures |q.tries| > 0 ==> status == StatusFold(q, parts, includeScores, |q.tries|)
                               && try == MinTries(q, |q.tries|)
  {
    if |q.tries| == 0 {
      return Unattempted, 0;
    }
    status := Attempted;
    try := |PartTries(q.tries, 0)|;
    var pn := 0;
    while pn < |q.tries|
      invariant 0 <= pn <= |q.tries|
      invariant status == StatusFold(q, parts, includeScores, pn)
      invariant pn > 0 ==> try == MinTries(q, pn)
      invariant pn == 0 ==> try == |PartTries(q.tries, 0)|
    {
      var parttry := |PartTries(q.tries, pn)|;
      if parttry < try {
        try := parttry;
      }
      if parttry == 0 {
        status := Unattempted;
      }
      if includeScores && status != Unattempted {
        status := Classify(status, ShownRaw(parts, pn));
      }
      pn := pn + 1;
    }
  }

  /** Some part among 0..k-1 has no tries. */
  predicate SomePartUntried(q: QuestionVersion, k: nat) {
    exists pn :: 0 <= pn < k && |PartTries(q.tries, pn)| == 0
  }

  /**
   * The status classification: unattempted exactly when some part has no
   * tries; otherwise, without scores, attempted; with scores, correct when
   * every part's raw score is above .99, incorrect when every one is below
   * .01, and partial otherwise.
   */
  lemma {:induction false} StatusFoldMeaning(q: QuestionVersion, parts: seq<PartDetail>, includeScores: bool, k: nat)
    requires k > 0
    ensures var s := StatusFold(q, parts, includeScores, k);
      && (s == Unattempted <==> SomePartUntried(q, k))
      && (!SomePartUntried(q, k) && !includeScores ==> s == Attempted)
      && (!SomePartUntried(q, k) && includeScores ==>
            (s == Correct <==> forall pn :: 0 <= pn < k ==> ShownRaw(parts, pn) > 0.99)
            && (s == Incorrect <==> forall pn :: 0 <= pn < k ==> ShownRaw(parts, pn) < 0.01)
            && (s == Partial <==> !(forall pn :: 0 <= pn < k ==> ShownRaw(parts, pn) > 0.99)
                                  && !(forall pn :: 0 <= pn < k ==> ShownRaw(parts, pn) < 0.01)))
  {
    if k > 1 {
      StatusFoldMeaning(q, parts, includeScores, k - 1);
      if SomePartUntried(q, k - 1) {
        var pn :| 0 <= pn < k - 1 && |PartTries(q.tries, pn)| == 0;
        assert 0 <= pn < k && |PartTries(q.tries, pn)| == 0;
      }
      if |PartTries(q.tries, k - 1)| == 0 {
        assert 0 <= k - 1 < k && |PartTries(q.tries, k - 1)| == 0;
      }
      if !SomePartUntried(q, k) {
        assert !SomePartUntried(q, k - 1) by {
          forall pn | 0 <= pn < k - 1 ensures |PartTries(q.tries, pn)| != 0 {
            assert !(0 <= pn < k && |PartTries(q.tries, pn)| == 0);
          }
        }
        assert |PartTries(q.tries, k - 1)| != 0 by {
          assert !(0 <= k - 1 < k && |PartTries(q.tries, k - 1)| == 0);
        }
      }
    } else {
      if |PartTries(q.tries, 0)| == 0 {
        assert 0 <= 0 < k && |PartTries(q.tries, 0)| == 0;
      }
    }
  }

  /** The try count shown is at most every part's count and equals one of them. */
  lemma {:induction false} MinTriesIsMinimum(q: QuestionVersion, k: nat)
    requires k > 0
    ensures forall pn :: 0 <= pn < k ==> MinTries(q, k) <= |PartTries(q.tries, pn)|
    ensures exists pn :: 0 <= pn < k && MinTries(q, k) == |PartTries(q.tries, pn)|
  {
    if k == 1 {
      assert MinTries(q, k) == |PartTries(q.tries, 0)|;
    } else {
      MinTriesIsMinimum(q, k - 1);
      var w :| 0 <= w < k - 1 && MinTries(q, k - 1) == |PartTries(q.tries, w)|;
      if |PartTries(q.tries, k - 1)| < MinTries(q, k - 1) {
        assert MinTries(q, k) == |PartTries(q.tries, k - 1)|;
      } else {
        assert MinTries(q, k) == |PartTries(q.tries, w)|;
      }
    }
  }
}
