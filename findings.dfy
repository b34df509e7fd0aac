/**
 * Three lines of assess2/AssessRecord.php that do not do what the code
 * around them evidently means, each modelled as written next to the
 * corrected member the rest of the model uses, with an input on which the
 * two differ. PHP 7 semantics: an undefined variable or a missing array
 * key reads as null, null in arithmetic is 0, `count(null)` is 0, and
 * `foreach` over null runs no iteration.
 */
module Findings {
  import opened AssessTypes
  import opened Penalties
  import opened Logs

  // ---------------------------------------------------------------------
  // scoreAfterPenalty, lines 1089-1090: `$regenOver` for `$regensOver`
  // ---------------------------------------------------------------------

  /**
   * scoreAfterPenalty as written: when the regen rule applies, the factor
   * is `1 - null * regen_penalty / 100`, which is 1, and the entry listed is
   * `('regen', 0)`.
   */
  function ScoreAfterPenaltyAsWritten(p: PenaltySettings, score: real, points: real, try: int, regen: int,
                                      duedate: int, subtime: int): Scored {
    var afterRetry := Push([], RetryApplies(p, try), Penalty(Retry, AmountOf(p, Retry, try, regen)));
    var afterRegen := Push(afterRetry, RegenApplies(p, regen), Penalty(Regen, 0.0));
    var listed := Push(afterRegen, LateApplies(p, duedate, subtime), Penalty(Late, AmountOf(p, Late, try, regen)));
    Scored(Penalised(score * points, RetryFactor(p, try), 1.0, LateFactor(p, duedate, subtime)), listed)
  }

  /** As written, the score never depends on the regeneration number. */
  lemma RegenIgnoredAsWritten(p: PenaltySettings, score: real, points: real, try: int, g1: int, g2: int,
                              duedate: int, subtime: int)
    ensures ScoreAfterPenaltyAsWritten(p, score, points, try, g1, duedate, subtime).score
         == ScoreAfterPenaltyAsWritten(p, score, points, try, g2, duedate, subtime).score
  {
  }

  /**
   * A 10% regen penalty on the second version (regen 1), raw 1 on 10
   * points: as written the score stays 10 with a 0% regen entry; the
   * intended score is 9 with a 10% entry.
   */
  lemma RegenPenaltyLostExample(p: PenaltySettings)
    requires p == PenaltySettings(0.0, None, 10.0, None, 0.0)
    ensures ScoreAfterPenaltyAsWritten(p, 1.0, 10.0, 0, 1, 1000, 900) == Scored(10.0, [Penalty(Regen, 0.0)])
    ensures ScoreAfterPenalty(p, 1.0, 10.0, 0, 1, 1000, 900) == Scored(9.0, [Penalty(Regen, 10.0)])
  {
  }

  // ---------------------------------------------------------------------
  // isSubmissionAllowed, lines 1046 and 1050: the question-version level
  // ---------------------------------------------------------------------

  /**
   * The tries isSubmissionAllowed reads as written. By question, `$qvers`
   * is the slot itself, whose keys are the four strings 'score',
   * 'rawscore', 'scored_version' and 'question_versions'; `$qvers[3]` is
   * missing. Otherwise `$aver['questions'][$qn][0]` asks the slot for key
   * 0, also missing. Either way `['tries']` of null is null, and
   * `count(null) === 0` holds.
   */
  function AllowanceTriesAsWritten(d: AssessData, sb: SubmitBy, qn: nat): map<nat, seq<Try>> {
    map[]
  }

  /**
   * As written, isSubmissionAllowed always answers `true`: the per-part
   * `tries_max` check is never reached. Take a by-assessment container
   * whose only question has one try on part 0 and `tries_max` 1: the
   * intended lookup sees that try (so part 0 is refused); the lookup as
   * written sees none.
   */
  lemma SubmissionLimitIgnoredExample(t: Try)
    ensures var q := QuestionVersion(1, 7, None, None, map[0 := [t]]);
      var d := AssessData([0], map[], Some(0), None,
                          [AssessVersion(0, 0, 0, 0.0, None, [QuestionSlot(0.0, 0.0, 0, [q])])]);
      && AllowanceTriesAsWritten(d, ByAssessment, 0) == map[]
      && AllowanceTries(d, ByAssessment, 0) == map[0 := [t]]
      && |AllowanceTries(d, ByAssessment, 0)[0]| >= 1
  {
  }

  // ---------------------------------------------------------------------
  // getOldQuestions, line 281: the missing ['questions'] level
  // ---------------------------------------------------------------------

  /**
   * getOldQuestions as written: `$ver['question_versions']` is a key no
   * assessment version has, so the inner `foreach` runs over null and the
   * result is always empty.
   */
  function OldQuestionsAsWritten(d: AssessData): seq<Assigned> {
    []
  }

  /**
   * A container with one version whose one question has been given
   * question 5 with seed 42: the intended result lists that pair, the
   * result as written lists nothing.
   */
  lemma OldQuestionsLostExample()
    ensures var q := QuestionVersion(5, 42, None, None, map[]);
      var d := AssessData([], map[], Some(0), None,
                          [AssessVersion(0, 0, 0, 0.0, None, [QuestionSlot(0.0, 0.0, 0, [q])])]);
      && OldQuestionsAsWritten(d) == []
      && OldPairs(d.versions) == [Assigned(5, 42)]
  {
    var q := QuestionVersion(5, 42, None, None, map[]);
    var v := AssessVersion(0, 0, 0, 0.0, None, [QuestionSlot(0.0, 0.0, 0, [q])]);
    assert [v][..0] == [];
    assert v.questions[..0] == [];
  }
}
