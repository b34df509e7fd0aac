/**
 * Re-totalling a container (reTotalAssess, assess2/AssessRecord.php:963-1027):
 * every question slot takes the best score over its question versions, each
 * assessment version the sum of its slot scores, and the container the
 * best version score. Ties go to the later version (`>=` at lines 999 and
 * 1014).
 */
module Retotal {
  import opened AssessTypes
  import opened Resolution
  import opened PartScoring

  /** The `$rescoreQs` argument: 'all', or a list of question numbers. */
  datatype Rescore = RescoreAll | RescoreOnly(qns: seq<nat>)

  predicate Rescored(r: Rescore, qn: nat) {
    r.RescoreAll? || qn in r.qns
  }

  /** A running maximum: the best value so far, the value carried with it, and its index. */
  datatype Pick = Pick(best: real, carried: real, idx: nat)

  /**
   * The `>=` maximum loop over vals[0..k-1] starting from best 0 at index 0
   * (lines 999-1003 and 1013-1017); aux holds a value carried along with
   * the maximum (a raw score).
   */
  function PickFold(vals: seq<real>, aux: seq<real>, k: nat): Pick
    requires k <= |vals| == |aux|
  {
    if k == 0 then Pick(0.0, 0.0, 0)
    else
      var p := PickFold(vals, aux, k - 1);
      if vals[k - 1] >= p.best then Pick(vals[k - 1], aux[k - 1], k - 1) else p
  }

  /**
   * The `>=` maximum: the best value is at least 0 and at least every value.
   * When some value is not negative it is the value at the picked index and
   * no later value reaches it (the later of tied values wins), and the
   * carried value is the one at that index; otherwise nothing is picked.
   */
  lemma {:induction false} PickFoldIsLastMax(vals: seq<real>, aux: seq<real>, k: nat)
    requires k <= |vals| == |aux|
    ensures var p := PickFold(vals, aux, k);
      && p.best >= 0.0
      && (forall i :: 0 <= i < k ==> vals[i] <= p.best)
      && ((exists i :: 0 <= i < k && vals[i] >= 0.0) ==>
            p.idx < k && vals[p.idx] == p.best && aux[p.idx] == p.carried
            && forall j :: p.idx < j < k ==> vals[j] < p.best)
      && ((forall i :: 0 <= i < k ==> vals[i] < 0.0) ==> p == Pick(0.0, 0.0, 0))
  {
    if k > 0 {
      PickFoldIsLastMax(vals, aux, k - 1);
    }
  }

  /**
   * The score of question version qv of slot qn in assessment version av:
   * its override when it has one, otherwise the all-tries question score
   * read with `ver = max(av, qv)` (line 997). The raw score is always the
   * computed one; line 1001 as written leaves the previous version's raw
   * score in place when an override applies.
   */
  function VersionScore(ctx: ScoreCtx, d: AssessData, av: nat, qn: nat, qv: nat): (real, real)
    requires av < |d.versions| && qn < |d.versions[av].questions|
    requires qv < |d.versions[av].questions[qn].versions|
  {
    var q := d.versions[av].questions[qn].versions[qv];
    var computed := QuestionScores(ctx, d, qn, Index(if av >= qv then av else qv), AllTries);
    (if q.scoreoverride.Some? then q.scoreoverride.value else computed.0, computed.1)
  }

  /** The scores of all question versions of slot qn in version av, and their raw scores. */
  function VersionScores(ctx: ScoreCtx, d: AssessData, av: nat, qn: nat, raw: bool): (r: seq<real>)
    requires av < |d.versions| && qn < |d.versions[av].questions|
    ensures |r| == |d.versions[av].questions[qn].versions|
    ensures forall qv :: 0 <= qv < |r| ==>
              r[qv] == if raw then VersionScore(ctx, d, av, qn, qv).1 else VersionScore(ctx, d, av, qn, qv).0
  {
    seq(|d.versions[av].questions[qn].versions|,
        qv requires 0 <= qv < |d.versions[av].questions[qn].versions| =>
          if raw then VersionScore(ctx, d, av, qn, qv).1 else VersionScore(ctx, d, av, qn, qv).0)
  }

  /** The best question version of slot qn in version av. */
  function SlotPick(ctx: ScoreCtx, d: AssessData, av: nat, qn: nat): Pick
    requires av < |d.versions| && qn < |d.versions[av].questions|
  {
    PickFold(VersionScores(ctx, d, av, qn, false), VersionScores(ctx, d, av, qn, true),
             |d.versions[av].questions[qn].versions|)
  }

  /**
   * Slot qn of version av after re-totalling: a slot outside the rescore
   * list is unchanged; otherwise it takes the best score, that version's
   * raw score and, in by-question mode, that version's index as its scored
   * version. Line 1007 writes the index under the key `scoredversion`; this
   * is the intended `scored_version`.
   */
  function NewSlot(ctx: ScoreCtx, d: AssessData, r: Rescore, av: nat, qn: nat): QuestionSlot
    requires av < |d.versions| && qn < |d.versions[av].questions|
  {
    var slot := d.versions[av].questions[qn];
    if !Rescored(r, qn) then slot
    else
      var p := SlotPick(ctx, d, av, qn);
      slot.(score := p.best, rawscore := p.carried,
            scoredVersion := if ctx.submitby == ByQuestion then p.idx else slot.scoredVersion)
  }

  /** The slot scores of version av after re-totalling. */
  function NewSlotScores(ctx: ScoreCtx, d: AssessData, r: Rescore, av: nat): (s: seq<real>)
    requires av < |d.versions|
    ensures |s| == |d.versions[av].questions|
    ensures forall qn :: 0 <= qn < |s| ==> s[qn] == NewSlot(ctx, d, r, av, qn).score
  {
    seq(|d.versions[av].questions|, qn requires 0 <= qn < |d.versions[av].questions| => NewSlot(ctx, d, r, av, qn).score)
  }

  /** Version av after re-totalling: its new slots, and as its score the sum of their scores. */
  function NewVersion(ctx: ScoreCtx, d: AssessData, r: Rescore, av: nat): AssessVersion
    requires av < |d.versions|
  {
    var v := d.versions[av];
    v.(questions := seq(|v.questions|, qn requires 0 <= qn < |v.questions| => NewSlot(ctx, d, r, av, qn)),
       score := Sum(NewSlotScores(ctx, d, r, av)))
  }

  /** The versions after re-totalling. */
  function NewVersions(ctx: ScoreCtx, d: AssessData, r: Rescore): (vs: seq<AssessVersion>)
    ensures |vs| == |d.versions|
    ensures forall av :: 0 <= av < |vs| ==> vs[av] == NewVersion(ctx, d, r, av)
  {
    seq(|d.versions|, av requires 0 <= av < |d.versions| => NewVersion(ctx, d, r, av))
  }

  /** The scores of a sequence of assessment versions. */
  function VersionTotals(vs: seq<AssessVersion>): (s: seq<real>)
    ensures |s| == |vs|
    ensures forall i :: 0 <= i < |s| ==> s[i] == vs[i].score
  {
    seq(|vs|, i requires 0 <= i < |vs| => vs[i].score)
  }

  /** The best version after re-totalling; its value is the total reTotalAssess returns. */
  function TotalPick(ctx: ScoreCtx, d: AssessData, r: Rescore): Pick {
    var s := VersionTotals(NewVersions(ctx, d, r));
    PickFold(s, s, |s|)
  }

  /**
   * The container after re-totalling: every version re-totalled and, unless
   * in by-question mode, the best version recorded as the scored version.
   */
  function Retotalled(ctx: ScoreCtx, d: AssessData, r: Rescore): AssessData {
    d.(versions := NewVersions(ctx, d, r),
       scoredVersion := if ctx.submitby != ByQuestion then Some(TotalPick(ctx, d, r).idx) else d.scoredVersion)
  }

  /** One question version's score and raw score (lines 992-997). */
  method VersionScoreOf(ctx: ScoreCtx, d: AssessData, av: nat, qn: nat, qv: nat) returns (qScore: real, qRawscore: real)
    requires av < |d.versions| && qn < |d.versions[av].questions|
    requires qv < |d.versions[av].questions[qn].versions|
    ensures (qScore, qRawscore) == VersionScore(ctx, d, av, qn, qv)
  {
    var q := d.versions[av].questions[qn].versions[qv];
    var parts;
    qScore, qRawscore, parts := GetQuestionPartScores(ctx, d, qn, Index(if av >= qv then av else qv), AllTries);
    if q.scoreoverride.Some? {
      qScore := q.scoreoverride.value;
    }
  }

  /** One step of the `>=` maximum loop. */
  lemma PickFoldStep(vals: seq<real>, aux: seq<real>, k: nat)
    requires k < |vals| == |aux|
    ensures PickFold(vals, aux, k + 1)
            == if vals[k] >= PickFold(vals, aux, k).best then Pick(vals[k], aux[k], k) else PickFold(vals, aux, k)
  {
  }

  /** The innermost loop (lines 990-1005) for slot qn of version av. */
  method RetotalSlot(ctx: ScoreCtx, d: AssessData, r: Rescore, av: nat, qn: nat) returns (slot: QuestionSlot)
    requires av < |d.versions| && qn < |d.versions[av].questions|
    ensures slot == NewSlot(ctx, d, r, av, qn)
  {
    slot := d.versions[av].questions[qn];
    if !Rescored(r, qn) {
      return;
    }
    ghost var vals, raws := VersionScores(ctx, d, av, qn, false), VersionScores(ctx, d, av, qn, true);
    var maxQscore, maxQrawscore, qScoredVer := 0.0, 0.0, 0;
    var qv := 0;
    while qv < |slot.versions|
      invariant 0 <= qv <= |slot.versions| == |vals| == |raws|
      invariant Pick(maxQscore, maxQrawscore, qScoredVer) == PickFold(vals, raws, qv)
    {
      var qScore, qRawscore := VersionScoreOf(ctx, d, av, qn, qv);
      assert qScore == vals[qv] && qRawscore == raws[qv];
      PickFoldStep(vals, raws, qv);
      if qScore >= maxQscore {
        maxQscore, maxQrawscore, qScoredVer := qScore, qRawscore, qv;
      }
      qv := qv + 1;
    }
    assert SlotPick(ctx, d, av, qn) == PickFold(vals, raws, qv);
    slot := slot.(score := maxQscore, rawscore := maxQrawscore,
                  scoredVersion := if ctx.submitby == ByQuestion then qScoredVer else slot.scoredVersion);
  }

  /** A prefix sum grows by the next element. */
  lemma SumPrefixStep(s: seq<real>, k: nat)
    requires k < |s|
    ensures Sum(s[..k + 1]) == Sum(s[..k]) + s[k]
  {
    assert s[..k + 1][..k] == s[..k];
  }

  /** The loop over the slots of version av (lines 982-1012): the new slots and their score total. */
  method RetotalSlots(ctx: ScoreCtx, d: AssessData, r: Rescore, av: nat) returns (slots: seq<QuestionSlot>, aVerScore: real)
    requires av < |d.versions|
    ensures slots == NewVersion(ctx, d, r, av).questions
    ensures aVerScore == NewVersion(ctx, d, r, av).score
  {
    var n := |d.versions[av].questions|;
    ghost var scores := NewSlotScores(ctx, d, r, av);
    ghost var spec := NewVersion(ctx, d, r, av).questions;
    slots := [];
    aVerScore := 0.0;
    var qn := 0;
    while qn < n
      invariant 0 <= qn <= n == |scores| == |spec|
      invariant slots == spec[..qn]
      invariant aVerScore == Sum(scores[..qn])
    {
      var slot := RetotalSlot(ctx, d, r, av, qn);
      assert slot == spec[qn];
      assert slot.score == scores[qn];
      SumPrefixStep(scores, qn);
      TakeStep(spec, qn);
      aVerScore := aVerScore + slot.score;
      slots := slots + [slot];
      qn := qn + 1;
    }
    TakeAll(scores);
    TakeAll(spec);
  }

  /** Version av with its slots and score re-totalled. */
  method RetotalVersion(ctx: ScoreCtx, d: AssessData, r: Rescore, av: nat) returns (v: AssessVersion)
    requires av < |d.versions|
    ensures v == NewVersion(ctx, d, r, av)
  {
    var slots, aVerScore := RetotalSlots(ctx, d, r, av);
    v := d.versions[av].(questions := slots, score := aVerScore);
  }

  /** The loop over the assessment versions (lines 978-1013): every version re-totalled. */
  method RetotalVersions(ctx: ScoreCtx, d: AssessData, r: Rescore) returns (versions: seq<AssessVersion>)
    ensures versions == NewVersions(ctx, d, r)
  {
    ghost var spec := NewVersions(ctx, d, r);
    versions := [];
    var av := 0;
    while av < |d.versions|
      invariant 0 <= av <= |d.versions| == |spec|
      invariant versions == spec[..av]
    {
      var v := RetotalVersion(ctx, d, r, av);
      assert v == spec[av];
      TakeStep(spec, av);
      versions := versions + [v];
      av := av + 1;
    }
    TakeAll(spec);
  }

  /**
   * The `>=` maximum over the version scores (lines 1014-1017): the best
   * score, the later of tied versions, and 0 at index 0 when no score
   * reaches 0.
   */
  method BestVersion(scores: seq<real>) returns (maxAscore: real, aScoredVer: nat)
    ensures Pick(maxAscore, maxAscore, aScoredVer) == PickFold(scores, scores, |scores|)
  {
    maxAscore, aScoredVer := 0.0, 0;
    var av := 0;
    while av < |scores|
      invariant 0 <= av <= |scores|
      invariant Pick(maxAscore, maxAscore, aScoredVer) == PickFold(scores, scores, av)
    {
      if scores[av] >= maxAscore {
        maxAscore, aScoredVer := scores[av], av;
      }
      av := av + 1;
    }
  }

  /**
   * `reTotalAssess` on container d: the container after re-totalling and
   * the total, the best version score. The source picks the best version
   * inside the version loop; it reads only the score just written, so
   * picking it after the loop gives the same result.
   */
  method RetotalData(ctx: ScoreCtx, d: AssessData, r: Rescore) returns (nd: AssessData, total: real)
    ensures nd == Retotalled(ctx, d, r)
    ensures total == TotalPick(ctx, d, r).best
  {
    var versions := RetotalVersions(ctx, d, r);
    var aScoredVer;
    total, aScoredVer := BestVersion(VersionTotals(versions));
    nd := d.(versions := versions,
             scoredVersion := if ctx.submitby != ByQuestion then Some(aScoredVer) else d.scoredVersion);
  }

  /**
   * The total is the best version score: at least 0 and every version's
   * score; outside by-question mode the scored version is the last version
   * reaching it, when some version score is not negative.
   */
  lemma TotalIsLastBestVersion(ctx: ScoreCtx, d: AssessData, r: Rescore)
    ensures var nd := Retotalled(ctx, d, r);
      var t := TotalPick(ctx, d, r).best;
      && t >= 0.0
      && (forall av :: 0 <= av < |nd.versions| ==> nd.versions[av].score <= t)
    ensures var nd := Retotalled(ctx, d, r);
      ctx.submitby != ByQuestion && (exists av :: 0 <= av < |nd.versions| && nd.versions[av].score >= 0.0) ==>
      var sv := nd.scoredVersion.value;
      && sv < |nd.versions|
      && nd.versions[sv].score == TotalPick(ctx, d, r).best
      && forall av :: sv < av < |nd.versions| ==> nd.versions[av].score < TotalPick(ctx, d, r).best
  {
    BestOfVersions(NewVersions(ctx, d, r));
  }

  /** The `>=` maximum over the scores of a sequence of versions. */
  lemma BestOfVersions(vs: seq<AssessVersion>)
    ensures var s := VersionTotals(vs);
      var p := PickFold(s, s, |s|);
      && p.best >= 0.0
      && (forall av :: 0 <= av < |vs| ==> vs[av].score <= p.best)
      && ((exists av :: 0 <= av < |vs| && vs[av].score >= 0.0) ==>
            p.idx < |vs| && vs[p.idx].score == p.best && forall av :: p.idx < av < |vs| ==> vs[av].score < p.best)
  {
    var s := VersionTotals(vs);
    PickFoldIsLastMax(s, s, |s|);
  }

  /**
   * A rescored slot's score is the best over its question versions: at
   * least 0 and every version's score; in by-question mode its scored
   * version is the last version reaching it, when some version score is
   * not negative.
   */
  lemma SlotIsLastBestVersion(ctx: ScoreCtx, d: AssessData, r: Rescore, av: nat, qn: nat)
    requires av < |d.versions| && qn < |d.versions[av].questions| && Rescored(r, qn)
    ensures var slot := NewSlot(ctx, d, r, av, qn);
      var vals := VersionScores(ctx, d, av, qn, false);
      && slot.score >= 0.0
      && forall qv :: 0 <= qv < |vals| ==> vals[qv] <= slot.score
    ensures var slot := NewSlot(ctx, d, r, av, qn);
      var vals := VersionScores(ctx, d, av, qn, false);
      ctx.submitby == ByQuestion && (exists qv :: 0 <= qv < |vals| && vals[qv] >= 0.0) ==>
      && slot.scoredVersion < |vals|
      && vals[slot.scoredVersion] == slot.score
      && VersionScores(ctx, d, av, qn, true)[slot.scoredVersion] == slot.rawscore
      && forall qv :: slot.scoredVersion < qv < |vals| ==> vals[qv] < slot.score
  {
    var vals, raws := VersionScores(ctx, d, av, qn, false), VersionScores(ctx, d, av, qn, true);
    PickFoldIsLastMax(vals, raws, |vals|);
  }

  /** A slot outside the rescore list keeps its stored score, and that score still counts towards its version. */
  lemma UnrescoredSlotKept(ctx: ScoreCtx, d: AssessData, r: Rescore, av: nat, qn: nat)
    requires av < |d.versions| && qn < |d.versions[av].questions| && !Rescored(r, qn)
    ensures NewVersion(ctx, d, r, av).questions[qn] == d.versions[av].questions[qn]
    ensures NewSlotScores(ctx, d, r, av)[qn] == d.versions[av].questions[qn].score
  {
  }

  /**
   * Two containers with the same submissions and the same question
   * versions in the same places: everything scoring reads is the same.
   */
  predicate SameQuestionVersions(d1: AssessData, d2: AssessData) {
    && d1.submissions == d2.submissions
    && |d1.versions| == |d2.versions|
    && (forall av :: 0 <= av < |d1.versions| ==> |d1.versions[av].questions| == |d2.versions[av].questions|)
    && (forall av, qn :: 0 <= av < |d1.versions| && 0 <= qn < |d1.versions[av].questions| ==>
          d1.versions[av].questions[qn].versions == d2.versions[av].questions[qn].versions)
  }

  /** Question scores read only the question versions and the submissions. */
  lemma QuestionScoresFrame(ctx: ScoreCtx, d1: AssessData, d2: AssessData, qn: nat, sel: Selector, mode: TryMode)
    requires SameQuestionVersions(d1, d2)
    ensures QuestionScores(ctx, d1, qn, sel, mode) == QuestionScores(ctx, d2, qn, sel, mode)
  {
    var av1 := AssessVerIndex(d1, ctx.practice, ctx.submitby, sel);
    assert av1 == AssessVerIndex(d2, ctx.practice, ctx.submitby, sel);
    assert QuestionPath(d1, ctx.practice, ctx.submitby, sel, qn) == QuestionPath(d2, ctx.practice, ctx.submitby, sel, qn);
    assert RegenNumber(d1, ctx.practice, ctx.submitby, sel, qn) == RegenNumber(d2, ctx.practice, ctx.submitby, sel, qn);
  }

  /** Re-totalling changes scores and scored versions only. */
  lemma RetotalKeepsQuestionVersions(ctx: ScoreCtx, d: AssessData, r: Rescore)
    ensures SameQuestionVersions(d, Retotalled(ctx, d, r))
  {
  }

  /**
   * Re-totalling is idempotent: a second run over the re-totalled
   * container computes the same scores, the same scored versions and the
   * same total, since it reads only tries, overrides and stored scores of
   * slots it does not rescore.
   */
  lemma RetotalIdempotent(ctx: ScoreCtx, d: AssessData, r: Rescore)
    ensures Retotalled(ctx, Retotalled(ctx, d, r), r) == Retotalled(ctx, d, r)
    ensures TotalPick(ctx, Retotalled(ctx, d, r), r) == TotalPick(ctx, d, r)
  {
    var d2 := Retotalled(ctx, d, r);
    forall av | 0 <= av < |d.versions|
      ensures NewVersion(ctx, d2, r, av) == NewVersion(ctx, d, r, av)
    {
      VersionStable(ctx, d, r, av);
    }
    assert NewVersions(ctx, d2, r) == NewVersions(ctx, d, r);
  }

  /** A version re-totals the same in the re-totalled container as in the original one. */
  lemma VersionStable(ctx: ScoreCtx, d: AssessData, r: Rescore, av: nat)
    requires av < |d.versions|
    ensures NewVersion(ctx, Retotalled(ctx, d, r), r, av) == NewVersion(ctx, d, r, av)
  {
    var d2 := Retotalled(ctx, d, r);
    forall qn | 0 <= qn < |d.versions[av].questions|
      ensures NewSlot(ctx, d2, r, av, qn) == NewSlot(ctx, d, r, av, qn)
    {
      SlotStable(ctx, d, r, av, qn);
    }
    assert NewSlotScores(ctx, d2, r, av) == NewSlotScores(ctx, d, r, av);
  }

  /** A slot re-totals the same in the re-totalled container as in the original one. */
  lemma SlotStable(ctx: ScoreCtx, d: AssessData, r: Rescore, av: nat, qn: nat)
    requires av < |d.versions| && qn < |d.versions[av].questions|
    ensures NewSlot(ctx, Retotalled(ctx, d, r), r, av, qn) == NewSlot(ctx, d, r, av, qn)
  {
    var d2 := Retotalled(ctx, d, r);
    RetotalKeepsQuestionVersions(ctx, d, r);
    assert d2.versions[av].questions[qn] == NewSlot(ctx, d, r, av, qn);
    if Rescored(r, qn) {
      SlotPickStable(ctx, d, d2, av, qn);
    }
  }

  /** A slot's best version is the same in two containers whose question versions agree. */
  lemma SlotPickStable(ctx: ScoreCtx, d: AssessData, d2: AssessData, av: nat, qn: nat)
    requires SameQuestionVersions(d, d2) && av < |d.versions| && qn < |d.versions[av].questions|
    ensures SlotPick(ctx, d2, av, qn) == SlotPick(ctx, d, av, qn)
  {
    forall qv | 0 <= qv < |d.versions[av].questions[qn].versions|
      ensures VersionScore(ctx, d2, av, qn, qv) == VersionScore(ctx, d, av, qn, qv)
    {
      QuestionScoresFrame(ctx, d, d2, qn, Index(if av >= qv then av else qv), AllTries);
    }
    assert VersionScores(ctx, d2, av, qn, false) == VersionScores(ctx, d, av, qn, false);
    assert VersionScores(ctx, d2, av, qn, true) == VersionScores(ctx, d, av, qn, true);
  }
}
