/**
 * Version resolution: which assessment version and which question version a
 * `ver` argument designates (getAssessVer and getQuestionVer,
 * assess2/AssessRecord.php:1111-1154), and the regeneration number the
 * scoring code derives from it (lines 651-675).
 *
 * In by-question mode a student regenerates single questions inside one
 * assessment version, so `ver` picks a question version; in by-assessment
 * mode a student retakes the whole assessment, so `ver` picks an assessment
 * version. Practice data always has a single assessment version, index 0.
 *
 * An index PHP would read past the end of an array (a null read) resolves
 * to `None` here.
 */
module Resolution {
  import opened AssessTypes

  /** The index of the assessment version `ver` designates (getAssessVer). */
  function AssessVerIndex(d: AssessData, practice: bool, sb: SubmitBy, sel: Selector): (r: Option<nat>)
    ensures r.Some? ==> r.value < |d.versions|
  {
    if practice then
      (if |d.versions| > 0 then Some(0) else None)
    else if sb == ByQuestion || sel == Last then
      LastIndex(|d.versions|)
    else if sel.n < |d.versions| then
      Some(sel.n)
    else
      None
  }

  /** The index of the question version `ver` designates among `count` versions of a slot. */
  function QuestionVerIndex(count: nat, sb: SubmitBy, sel: Selector): (r: Option<nat>)
    ensures r.Some? ==> r.value < count
  {
    if sb != ByQuestion || sel == Last then
      LastIndex(count)
    else if sel.n < count then
      Some(sel.n)
    else
      None
  }

  /** `getAssessVer($is_practice, $ver)` */
  function AssessVer(d: AssessData, practice: bool, sb: SubmitBy, sel: Selector): (r: Option<AssessVersion>)
    ensures r.Some? <==> AssessVerIndex(d, practice, sb, sel).Some?
    ensures r.Some? ==> r.value == d.versions[AssessVerIndex(d, practice, sb, sel).value]
  {
    match AssessVerIndex(d, practice, sb, sel)
    case None => None
    case Some(i) => Some(d.versions[i])
  }

  /**
   * The indices (assessment version, question version) that
   * `getQuestionVer($qn, $is_practice, $ver)` reads, when all of them exist.
   */
  function QuestionPath(d: AssessData, practice: bool, sb: SubmitBy, sel: Selector, qn: nat): (r: Option<(nat, nat)>)
    ensures r.Some? ==> r.value.0 < |d.versions| && qn < |d.versions[r.value.0].questions|
                        && r.value.1 < |d.versions[r.value.0].questions[qn].versions|
  {
    match AssessVerIndex(d, practice, sb, sel)
    case None => None
    case Some(av) =>
      if qn < |d.versions[av].questions| then
        match QuestionVerIndex(|d.versions[av].questions[qn].versions|, sb, sel)
        case None => None
        case Some(qv) => Some((av, qv))
      else None
  }

  /** `getQuestionVer($qn, $is_practice, $ver)` */
  function QuestionVer(d: AssessData, practice: bool, sb: SubmitBy, sel: Selector, qn: nat): (r: Option<QuestionVersion>)
    ensures r.Some? <==> QuestionPath(d, practice, sb, sel, qn).Some?
  {
    match QuestionPath(d, practice, sb, sel, qn)
    case None => None
    case Some((av, qv)) => Some(d.versions[av].questions[qn].versions[qv])
  }

  /**
   * The regeneration number `getQuestionPartScores` passes to the penalty
   * calculator (lines 651-675): in by-question mode the number of question
   * versions for 'last' and the index itself otherwise; in by-assessment
   * mode the number of assessment versions for 'last' and the index itself
   * otherwise. In practice by-assessment mode `$regen` is never assigned and
   * reads as 0.
   */
  function RegenNumber(d: AssessData, practice: bool, sb: SubmitBy, sel: Selector, qn: nat): (r: nat)
    ensures sb == ByQuestion && sel.Index? ==> r == sel.n
    ensures sb != ByQuestion && !practice && sel.Index? ==> r == sel.n
    ensures sb != ByQuestion && practice ==> r == 0
    ensures sb == ByQuestion && sel == Last && QuestionPath(d, practice, sb, sel, qn).Some? ==>
              r == QuestionPath(d, practice, sb, sel, qn).value.1 + 1
    ensures sb == ByQuestion && sel == Last && QuestionPath(d, practice, sb, sel, qn).None? ==> r == 0
    ensures sb != ByQuestion && !practice && sel == Last ==> r == |d.versions|
    ensures sb != ByQuestion && !practice && sel == Last && QuestionPath(d, practice, sb, sel, qn).Some? ==>
              r == QuestionPath(d, practice, sb, sel, qn).value.0 + 1
  {
    if sb == ByQuestion then
      match sel
      case Index(n) => n
      case Last =>
        match AssessVerIndex(d, practice, sb, sel)
        case None => 0
        case Some(av) => if qn < |d.versions[av].questions| then |d.versions[av].questions[qn].versions| else 0
    else if practice then 0
    else
      match sel
      case Index(n) => n
      case Last => |d.versions|
  }

  /**
   * Reading a question version of scored data as 'last' counts one
   * regeneration more than reading the same version by its explicit index
   * (lines 656 and 669 take a count, lines 660 and 673 an index): the
   * explicit index that designates the same version gives a regeneration
   * number one lower.
   */
  lemma LastCountsOneMoreRegen(d: AssessData, sb: SubmitBy, qn: nat)
    requires QuestionPath(d, false, sb, Last, qn).Some?
    ensures var (av, qv) := QuestionPath(d, false, sb, Last, qn).value;
      var n := if sb == ByQuestion then qv else av;
      && QuestionPath(d, false, sb, Index(n), qn) == QuestionPath(d, false, sb, Last, qn)
      && RegenNumber(d, false, sb, Last, qn) == RegenNumber(d, false, sb, Index(n), qn) + 1
  {
  }

  /** In by-question mode scored data always uses the last assessment version, whatever `ver` is. */
  lemma ByQuestionUsesLastAssessVersion(d: AssessData, sel: Selector)
    ensures AssessVerIndex(d, false, ByQuestion, sel) == LastIndex(|d.versions|)
  {
  }

  /**
   * In by-question mode an explicit `ver` selects that question version of
   * the slot in the last assessment version.
   */
  lemma ByQuestionSelectsQuestionVersion(d: AssessData, n: nat, qn: nat)
    requires |d.versions| > 0
    requires qn < |d.versions[|d.versions| - 1].questions|
    requires n < |d.versions[|d.versions| - 1].questions[qn].versions|
    ensures QuestionPath(d, false, ByQuestion, Index(n), qn) == Some((|d.versions| - 1, n))
  {
  }

  /**
   * In any other mode an explicit `ver` selects that assessment version and
   * the last question version of the slot.
   */
  lemma ByAssessmentSelectsAssessVersion(d: AssessData, sb: SubmitBy, n: nat, qn: nat)
    requires sb != ByQuestion
    requires n < |d.versions| && qn < |d.versions[n].questions|
    requires |d.versions[n].questions[qn].versions| > 0
    ensures QuestionPath(d, false, sb, Index(n), qn) == Some((n, |d.versions[n].questions[qn].versions| - 1))
  {
  }

  /** 'last' resolves to the last assessment version and its slot's last question version, in every mode. */
  lemma LastIsLastEverywhere(d: AssessData, sb: SubmitBy, qn: nat)
    requires |d.versions| > 0
    requires qn < |d.versions[|d.versions| - 1].questions|
    requires |d.versions[|d.versions| - 1].questions[qn].versions| > 0
    ensures QuestionPath(d, false, sb, Last, qn)
            == Some((|d.versions| - 1, |d.versions[|d.versions| - 1].questions[qn].versions| - 1))
  {
  }

  /** Practice data reads assessment version 0, whatever `ver` and the mode are. */
  lemma PracticeUsesFirstVersion(d: AssessData, sb: SubmitBy, sel: Selector)
    requires |d.versions| > 0
    ensures AssessVer(d, true, sb, sel) == Some(d.versions[0])
  {
  }
}
