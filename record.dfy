/**
 * The assessment record object (class AssessRecord,
 * assess2/AssessRecord.php): one student's stored row, its two lazily
 * decoded containers, and the operations that build, extend, score and
 * query them.
 *
 * The database row is `assessRecord`: absent until a row is loaded or
 * created. The stored blobs are held already decoded, `None` standing for a
 * blob that does not decode. A container field is `None` until it is built
 * or decoded (parseScored / parsePractice, lines 1212-1232); `Container`
 * is what a parse would produce, so reading it never changes the model.
 */
module Record {
  import opened AssessTypes
  import opened Status
  import opened Resolution
  import opened PartScoring
  import opened Retotal
  import opened Logs

  /** The columns of the stored row the record reads and writes. */
  datatype RecordRow = RecordRow(
    starttime: int,
    score: real,
    status: bv64,
    scoreddata: Option<AssessData>,
    practicedata: Option<AssessData>)

  /** The 'kept' entry of getScoredAttempt: 'override', a version number, or not set. */
  datatype Kept = KeptOverride | KeptVersion(n: nat) | NotKept

  /** getScoredAttempt's answer for a record that exists. */
  datatype ScoredAttempt = ScoredAttempt(score: real, kept: Kept)

  /** getTimeLimitExpires: `false` (no record or no attempt), null (no limit recorded), or a time. */
  datatype Expiry = NoExpiry | Unset | EndsAt(t: int)

  /** A slot of a freshly built version: nothing scored, one question version without tries. */
  function FreshSlot(a: Assigned): QuestionSlot {
    QuestionSlot(0.0, 0.0, 0, [QuestionVersion(a.qid, a.seed, None, None, map[])])
  }

  /** The version buildNewAssessVersion appends as attempt number `attempt` (lines 225-256). */
  function NewAssessVersion(s: AssessSettings, now: int, recordStart: bool, practice: bool, attempt: nat): AssessVersion {
    var handed := s.assign(practice, attempt);
    AssessVersion(
      if recordStart then now else 0, 0, 0, 0.0,
      if recordStart && s.timelimit > 0 then Some(now + s.adjustedTimelimit) else None,
      seq(|handed|, k requires 0 <= k < |handed| => FreshSlot(handed[k])))
  }

  /**
   * The question loop of buildNewAssessVersion (lines 242-254): one slot
   * per handed question, each unscored and holding exactly one question
   * version with the handed question and seed and no tries.
   */
  method BuildSlots(handed: seq<Assigned>) returns (slots: seq<QuestionSlot>)
    ensures |slots| == |handed|
    ensures forall k :: 0 <= k < |slots| ==>
      && slots[k].score == 0.0 && slots[k].rawscore == 0.0 && slots[k].scoredVersion == 0
      && |slots[k].versions| == 1
      && slots[k].versions[0].qid == handed[k].qid && slots[k].versions[0].seed == handed[k].seed
      && slots[k].versions[0].tries == map[]
      && slots[k].versions[0].answeights.None? && slots[k].versions[0].scoreoverride.None?
    ensures slots == seq(|handed|, k requires 0 <= k < |handed| => FreshSlot(handed[k]))
  {
    slots := [];
    var k := 0;
    while k < |handed|
      invariant 0 <= k <= |handed|
      invariant slots == seq(k, j requires 0 <= j < k => FreshSlot(handed[j]))
    {
      slots := slots + [FreshSlot(handed[k])];
      k := k + 1;
    }
  }

  class AssessRecord {
    /** The assessment settings and providers (`$this->assess_info`). */
    const settings: AssessSettings
    /** `time()` when the object was made. */
    const now: int
    /** The stored row; `None` when no record is loaded (`empty($this->assessRecord)`). */
    var assessRecord: Option<RecordRow>
    var scoredData: Option<AssessData>
    var practiceData: Option<AssessData>
    var inPractice: bool

    /** `__construct`: no record and no containers yet. */
    constructor (settings: AssessSettings, now: int)
      ensures this.settings == settings && this.now == now
      ensures assessRecord.None? && scoredData.None? && practiceData.None? && !inPractice
    {
      this.settings := settings;
      this.now := now;
      assessRecord := None;
      scoredData := None;
      practiceData := None;
      inPractice := false;
    }

    /** The in-memory container, if built or decoded. */
    function Memory(practice: bool): Option<AssessData>
      reads this
    {
      if practice then practiceData else scoredData
    }

    /** The stored blob of a container; with no record the blob reads as null and does not decode. */
    function Stored(practice: bool): Option<AssessData>
      reads this
    {
      match assessRecord
      case None => None
      case Some(row) => if practice then row.practicedata else row.scoreddata
    }

    /** The container as parseScored / parsePractice leave it. */
    function Container(practice: bool): AssessData
      reads this
    {
      match Memory(practice)
      case Some(d) => d
      case None => Decode(Stored(practice))
    }

    /** The record's start time; a missing record reads as 0. */
    function StartTime(): int
      reads this
    {
      if assessRecord.Some? then assessRecord.value.starttime else 0
    }

    /** What the scoring code reads from the record and the settings. */
    function Ctx(practice: bool): ScoreCtx
      reads this
    {
      ScoreCtx(settings.submitby, practice, settings.dueDate, settings.exceptionPenalty, StartTime(),
               settings.questionSettings)
    }

    /** `loadRecord`: the row the query returns, or none. */
    method LoadRecord(row: Option<RecordRow>)
      modifies this
      ensures assessRecord == row
      ensures scoredData == old(scoredData) && practiceData == old(practiceData) && inPractice == old(inPractice)
    {
      assessRecord := row;
    }

    /** `setInPractice` */
    method SetInPractice(b: bool)
      modifies this
      ensures inPractice == b
      ensures assessRecord == old(assessRecord) && scoredData == old(scoredData) && practiceData == old(practiceData)
    {
      inPractice := b;
    }

    /** Replaces one in-memory container and nothing else. */
    method SetMemory(practice: bool, d: AssessData)
      modifies this
      ensures Memory(practice) == Some(d) && Memory(!practice) == old(Memory(!practice))
      ensures assessRecord == old(assessRecord) && inPractice == old(inPractice)
    {
      if practice {
        practiceData := Some(d);
      } else {
        scoredData := Some(d);
      }
    }

    /** parseScored / parsePractice: decode the stored blob into memory unless already there. */
    method Parse(practice: bool)
      modifies this
      ensures Memory(practice) == Some(old(Container(practice)))
      ensures Memory(!practice) == old(Memory(!practice))
      ensures assessRecord == old(assessRecord) && inPractice == old(inPractice)
    {
      if Memory(practice).None? {
        SetMemory(practice, Decode(Stored(practice)));
      }
    }

    /** `hasActiveAttempt` */
    predicate HasActiveAttempt(practice: bool)
      reads this
    {
      assessRecord.Some? && ActiveIn(assessRecord.value.status, practice)
    }

    /**
     * `setStatus($active, $ispractice)`: with a record, the status becomes
     * StatusAfter of the old one; without one nothing changes. Afterwards
     * the kind of attempt set is active exactly when activated (scored: and
     * the submit mode is known), and the other kind keeps its activity.
     */
    method SetStatus(active: bool, practice: bool)
      modifies this
      ensures old(assessRecord).None? ==> assessRecord == old(assessRecord)
      ensures old(assessRecord).Some? ==>
        assessRecord == Some(old(assessRecord).value.(
          status := StatusAfter(old(assessRecord).value.status, active, practice, settings.submitby)))
      ensures scoredData == old(scoredData) && practiceData == old(practiceData) && inPractice == old(inPractice)
      ensures old(assessRecord).Some? ==>
        && (HasActiveAttempt(practice) <==> active && (practice || settings.submitby != OtherSubmitBy))
        && (HasActiveAttempt(!practice) <==> old(HasActiveAttempt(!practice)))
    {
      if assessRecord.None? {
        return;
      }
      var row := assessRecord.value;
      SetStatusThenActive(row.status, active, practice, settings.submitby);
      assessRecord := Some(row.(status := StatusAfter(row.status, active, practice, settings.submitby)));
    }

    /**
     * `hasUnsubmittedAttempt`: the last version of the container exists and
     * has status 0. Line 362 calls `parsePratice`; the practice container
     * it evidently means is used.
     */
    predicate HasUnsubmittedAttempt(practice: bool)
      reads this
    {
      var vs := Container(practice).versions;
      assessRecord.Some? && |vs| > 0 && vs[|vs| - 1].status == 0
    }

    /**
     * `canMakeNewAttempt`: practice only while there is no practice
     * container; scored while there is no scored container, by question
     * while it has no versions, by assessment while it has fewer versions
     * than allowed. Line 400 calls `getSettings`; the `getSetting` it
     * evidently means is used.
     */
    predicate CanMakeNewAttempt(practice: bool)
      reads this
    {
      if practice then practiceData.None?
      else
        match scoredData
        case None => true
        case Some(d) =>
          (settings.submitby == ByQuestion && |d.versions| == 0)
          || (settings.submitby == ByAssessment && |d.versions| < settings.allowedAttempts)
    }

    /** `getScoredAttempt`: the record score, kept 'override', else the scored version when set. */
    function GetScoredAttempt(): Option<ScoredAttempt>
      reads this
    {
      match assessRecord
      case None => None
      case Some(row) =>
        var d := Container(false);
        Some(ScoredAttempt(row.score,
          if d.scoreoverride.Some? then KeptOverride
          else if d.scoredVersion.Some? then KeptVersion(d.scoredVersion.value)
          else NotKept))
    }

    /** `getTimeLimitExpires`: the recorded end of the last scored version's time limit. */
    function GetTimeLimitExpires(): Expiry
      reads this
    {
      var vs := Container(false).versions;
      if assessRecord.None? || |vs| == 0 then NoExpiry
      else
        match vs[|vs| - 1].timelimitEnd
        case None => Unset
        case Some(t) => EndsAt(t)
    }

    /**
     * `buildNewAssessVersion($ispractice, $recordStart)`: appends one new
     * version, numbered by the previous count, leaving the earlier ones as
     * they were, then activates the status. Afterwards the container has an
     * unsubmitted attempt, and a further attempt can be made by assessment
     * only while the count stays below the allowed attempts, never by
     * question, never in practice.
     *
     * The source also calls getOldQuestions here and discards the result.
     */
    method BuildNewAssessVersion(practice: bool, recordStart: bool)
      modifies this
      ensures var d := old(Container(practice));
        Memory(practice) == Some(d.(versions := d.versions +
          [NewAssessVersion(settings, now, recordStart, practice, |d.versions|)]))
      ensures Memory(!practice) == old(Memory(!practice)) && inPractice == old(inPractice)
      ensures old(assessRecord).None? ==> assessRecord == old(assessRecord)
      ensures old(assessRecord).Some? ==>
        assessRecord == Some(old(assessRecord).value.(
          status := StatusAfter(old(assessRecord).value.status, true, practice, settings.submitby)))
      ensures old(assessRecord).Some? ==> HasUnsubmittedAttempt(practice)
      ensures practice ==> !CanMakeNewAttempt(true)
      ensures !practice && settings.submitby != ByAssessment ==> !CanMakeNewAttempt(false)
      ensures !practice && settings.submitby == ByAssessment ==>
        (CanMakeNewAttempt(false) <==> |old(Container(false)).versions| + 1 < settings.allowedAttempts)
      ensures !practice && old(assessRecord).Some? ==>
        GetTimeLimitExpires() == (if recordStart && settings.timelimit > 0 then EndsAt(now + settings.adjustedTimelimit) else Unset)
    {
      Parse(practice);
      var d := Memory(practice).value;
      var attempt := |d.versions|;
      var slots := BuildSlots(settings.assign(practice, attempt));
      var v := AssessVersion(
        if recordStart then now else 0, 0, 0, 0.0,
        if recordStart && settings.timelimit > 0 then Some(now + settings.adjustedTimelimit) else None,
        slots);
      SetMemory(practice, d.(versions := d.versions + [v]));
      SetStatus(true, practice);
    }

    /**
     * `buildAssessData($ispractice, $recordStart)`: nothing when the
     * container is already in memory; otherwise a fresh container with its
     * first version. Line 207 passes the undefined `$inpractice`; the
     * `$ispractice` it evidently means is passed.
     */
    method BuildAssessData(practice: bool, recordStart: bool)
      modifies this
      ensures old(Memory(practice)).Some? ==>
        Memory(practice) == old(Memory(practice)) && assessRecord == old(assessRecord)
      ensures old(Memory(practice)).None? ==>
        Memory(practice) == Some(FreshData.(versions := [NewAssessVersion(settings, now, recordStart, practice, 0)]))
      ensures old(Memory(practice)).None? && old(assessRecord).Some? ==>
        assessRecord == Some(old(assessRecord).value.(
          status := StatusAfter(old(assessRecord).value.status, true, practice, settings.submitby)))
      ensures old(assessRecord).None? ==> assessRecord.None?
      ensures Memory(!practice) == old(Memory(!practice)) && inPractice == old(inPractice)
    {
      if Memory(practice).Some? {
        return;
      }
      SetMemory(practice, FreshData);
      BuildNewAssessVersion(practice, recordStart);
      assert FreshData.versions + [NewAssessVersion(settings, now, recordStart, practice, 0)]
             == [NewAssessVersion(settings, now, recordStart, practice, 0)];
    }

    /**
     * The in-memory part of `createRecord($users, $stugroupid, $recordStart)`
     * (lines 134-154): a blank row, started now or at 0, then the scored
     * container and, in practice mode, the practice container, each with a
     * first version. A container already in memory is kept as it is.
     */
    method CreateRecord(recordStart: bool)
      modifies this
      ensures assessRecord.Some?
      ensures assessRecord.value.starttime == (if recordStart then now else 0) && assessRecord.value.score == 0.0
      ensures assessRecord.value.scoreddata.None? && assessRecord.value.practicedata.None?
      ensures old(scoredData).None? ==>
        scoredData == Some(FreshData.(versions := [NewAssessVersion(settings, now, recordStart, false, 0)]))
      ensures old(scoredData).Some? ==> scoredData == old(scoredData)
      ensures inPractice && old(practiceData).None? ==>
        practiceData == Some(FreshData.(versions := [NewAssessVersion(settings, now, recordStart, true, 0)]))
      ensures !(inPractice && old(practiceData).None?) ==> practiceData == old(practiceData)
      ensures HasActiveAttempt(false) <==> old(scoredData).None? && settings.submitby != OtherSubmitBy
      ensures HasActiveAttempt(true) <==> inPractice && old(practiceData).None?
      ensures inPractice == old(inPractice)
    {
      assessRecord := Some(RecordRow(if recordStart then now else 0, 0.0, 0, None, None));
      BitsApart(0, 0);
      BuildAssessData(false, recordStart);
      ghost var afterScored := assessRecord.value.status;
      if inPractice {
        BuildAssessData(true, recordStart);
        SetStatusThenActive(afterScored, true, true, settings.submitby);
      }
    }

    /**
     * `addSubmission($time, $is_practice)`: appends the seconds since the
     * record started to the container's submissions and returns the new
     * submission's index. The container is not parsed first: a container
     * not yet in memory starts from an empty one.
     */
    method AddSubmission(time: int, practice: bool) returns (subn: nat)
      modifies this
      ensures var d := old(Memory(practice)).GetOr(EmptyData);
        Memory(practice) == Some(d.(submissions := d.submissions + [time - StartTime()]))
      ensures subn + 1 == |Memory(practice).value.submissions|
      ensures Memory(practice).value.submissions[subn] == time - StartTime()
      ensures Memory(!practice) == old(Memory(!practice))
      ensures assessRecord == old(assessRecord) && inPractice == old(inPractice)
    {
      var seconds := time - StartTime();
      var d := Memory(practice).GetOr(EmptyData);
      SetMemory(practice, d.(submissions := d.submissions + [seconds]));
      subn := |d.submissions|;
    }

    /**
     * `recordTry($qn, $data, $ver)`: appends each part's try to the end of
     * that part's tries on the question version `sel` designates, see
     * Logs.Recorded. Line 1186 tests the undefined `$is_practice`; the
     * practice flag it evidently means is a parameter here.
     */
    method RecordTry(qn: nat, data: map<nat, Try>, sel: Selector, practice: bool)
      modifies this
      ensures Memory(practice) == Some(Recorded(old(Container(practice)), practice, settings.submitby, sel, qn, data))
      ensures Memory(!practice) == old(Memory(!practice))
      ensures assessRecord == old(assessRecord) && inPractice == old(inPractice)
    {
      Parse(practice);
      var d := Memory(practice).value;
      var path := QuestionPath(d, practice, settings.submitby, sel, qn);
      if path.Some? {
        var (av, qv) := path.value;
        var q := d.versions[av].questions[qn].versions[qv];
        var tries := AppendTries(q.tries, data);
        SetMemory(practice, WithQuestionVersion(d, av, qn, qv, q.(tries := tries)));
      }
    }

    /**
     * `scoreQuestion($qn, $submission, $parts_to_score, $is_practice)` with
     * the question scorer `scoreq` given as a function of the question
     * number, the seed and the attempt number, and the posted answer as
     * `stuans`. The chosen parts' raw scores are recorded as tries on the
     * last version of the question. A question version that does not exist
     * records nothing.
     */
    method ScoreQuestion(qn: nat, submission: nat, parts: PartsToScore, practice: bool,
                         scoreq: (nat, int, nat) -> seq<real>, stuans: string)
      modifies this
      ensures var d := old(Container(practice));
        match QuestionVer(d, practice, settings.submitby, Last, qn)
        case None => Memory(practice) == Some(d)
        case Some(q) =>
          var raws := scoreq(qn, q.seed, AttemptCount(q));
          Memory(practice) == Some(Recorded(d, practice, settings.submitby, Last, qn,
                                            ChosenTries(raws, parts, submission, stuans)))
      ensures Memory(!practice) == old(Memory(!practice))
      ensures assessRecord == old(assessRecord) && inPractice == old(inPractice)
    {
      Parse(practice);
      var found := QuestionVer(Memory(practice).value, practice, settings.submitby, Last, qn);
      if found.None? {
        return;
      }
      var q := found.value;
      var attemptn := AttemptNumber(q);
      var raws := scoreq(qn, q.seed, attemptn);
      var data := PartData(raws, parts, submission, stuans);
      RecordTry(qn, data, Last, practice);
    }

    /**
     * `isSubmissionAllowed($qn, $qid, $is_practice)`: `true` while the
     * question has no tries, otherwise per part whether its try count is
     * below the question's `tries_max`.
     */
    method IsSubmissionAllowed(qn: nat, qid: int, practice: bool) returns (r: Allowance)
      modifies this
      ensures var tries := AllowanceTries(old(Container(practice)), settings.submitby, qn);
        && (r.AllowAll? <==> |tries| == 0)
        && (r.PerPart? ==>
              r.allowed.Keys == tries.Keys
              && forall pn :: pn in tries ==> (r.allowed[pn] <==> |tries[pn]| < settings.questionSettings(qid).triesMax))
      ensures Memory(practice) == Some(old(Container(practice))) && Memory(!practice) == old(Memory(!practice))
      ensures assessRecord == old(assessRecord) && inPractice == old(inPractice)
    {
      Parse(practice);
      r := SubmissionAllowed(AllowanceTries(Memory(practice).value, settings.submitby, qn),
                             settings.questionSettings(qid).triesMax);
    }

    /** `getOldQuestions($ispractice)`: every (qid, seed) pair the container has used. */
    method GetOldQuestions(practice: bool) returns (used: seq<Assigned>)
      modifies this
      ensures used == OldPairs(old(Container(practice)).versions)
      ensures Memory(practice) == Some(old(Container(practice))) && Memory(!practice) == old(Memory(!practice))
      ensures assessRecord == old(assessRecord) && inPractice == old(inPractice)
    {
      Parse(practice);
      used := OldQuestions(Memory(practice).value);
    }

    /**
     * `getSubmittedAttempts($includeScores)`: nothing without a record;
     * otherwise the submitted scored versions, by index, with their dates
     * and, when asked, their scores.
     */
    method GetSubmittedAttempts(includeScores: bool) returns (out: map<nat, AttemptInfo>)
      modifies this
      ensures old(assessRecord).None? ==> out == map[] && Memory(false) == old(Memory(false))
      ensures old(assessRecord).Some? ==>
        var vs := old(Container(false)).versions;
        && Memory(false) == Some(old(Container(false)))
        && (forall k: nat :: k in out <==> k < |vs| && vs[k].status == 1)
        && (forall k :: k in out ==> out[k] == AttemptInfo(vs[k].lastchange, if includeScores then Some(vs[k].score) else None))
      ensures Memory(true) == old(Memory(true))
      ensures assessRecord == old(assessRecord) && inPractice == old(inPractice)
    {
      if assessRecord.None? {
        return map[];
      }
      Parse(false);
      out := SubmittedAttempts(Memory(false).value.versions, includeScores);
    }

    /**
     * `getQuestionPartScores($qn, $is_practice, $ver, $try)`. It reads the
     * in-memory container without parsing; one not in memory reads as null,
     * which scores 0 with no parts.
     */
    method GetQuestionPartScores(qn: nat, practice: bool, sel: Selector, mode: TryMode)
      returns (qScore: real, qRaw: real, parts: seq<PartDetail>)
      ensures var d := Memory(practice).GetOr(EmptyData);
        && (qScore, qRaw) == QuestionScores(Ctx(practice), d, qn, sel, mode)
        && (QuestionVer(d, practice, settings.submitby, sel, qn).None? ==> parts == [])
        && (QuestionVer(d, practice, settings.submitby, sel, qn).Some? ==>
              var q := QuestionVer(d, practice, settings.submitby, sel, qn).value;
              parts == Details(EnvFor(Ctx(practice), d, qn, sel, q), q, mode))
    {
      qScore, qRaw, parts := PartScoring.GetQuestionPartScores(Ctx(practice), Memory(practice).GetOr(EmptyData), qn, sel, mode);
    }

    /**
     * The status and try count of `getQuestionObject($qn, $is_practice,
     * $include_scores, ..., $ver)` (lines 513-597). A question version that
     * does not exist has no tries: unattempted, try 0. With scores, the
     * parts are those of getQuestionPartScores for the last try.
     */
    method QuestionObjectStatus(qn: nat, practice: bool, includeScores: bool, sel: Selector)
      returns (status: QStatus, try: nat)
      modifies this
      ensures var d := old(Container(practice));
        match QuestionVer(d, practice, settings.submitby, sel, qn)
        case None => status == Unattempted && try == 0
        case Some(q) =>
          && (|q.tries| == 0 ==> status == Unattempted && try == 0)
          && (|q.tries| > 0 ==>
                var parts := if includeScores then Details(EnvFor(Ctx(practice), d, qn, sel, q), q, LastTry) else [];
                status == StatusFold(q, parts, includeScores, |q.tries|) && try == MinTries(q, |q.tries|))
      ensures Memory(practice) == Some(old(Container(practice))) && Memory(!practice) == old(Memory(!practice))
      ensures assessRecord == old(assessRecord) && inPractice == old(inPractice)
    {
      Parse(practice);
      var found := QuestionVer(Memory(practice).value, practice, settings.submitby, sel, qn);
      if found.None? {
        return Unattempted, 0;
      }
      var q := found.value;
      var parts := [];
      if includeScores && |q.tries| > 0 {
        var qScore, qRaw;
        qScore, qRaw, parts := GetQuestionPartScores(qn, practice, sel, LastTry);
      }
      status, try := QuestionStatus(q, parts, includeScores);
    }

    /**
     * `reTotalAssess($in_practice, $rescoreQs)`: re-totals the container
     * (Retotal.RetotalData) and returns the best version score, which also
     * becomes the record score for scored data. Line 967 tests the
     * undefined `$is_practice`; the `$in_practice` it evidently means is
     * used. Afterwards getScoredAttempt reports that score and, by
     * assessment without an instructor override, the version kept.
     */
    method ReTotalAssess(practice: bool, r: Rescore) returns (total: real)
      modifies this
      ensures Memory(practice) == Some(Retotalled(old(Ctx(practice)), old(Container(practice)), r))
      ensures total == TotalPick(old(Ctx(practice)), old(Container(practice)), r).best
      ensures Memory(!practice) == old(Memory(!practice)) && inPractice == old(inPractice)
      ensures old(assessRecord).None? ==> assessRecord.None?
      ensures old(assessRecord).Some? ==>
        assessRecord == Some(old(assessRecord).value.(score := if practice then old(assessRecord).value.score else total))
      ensures !practice && old(assessRecord).Some? ==> GetScoredAttempt().value.score == total
      ensures !practice && old(assessRecord).Some? && old(Container(false)).scoreoverride.None?
              && settings.submitby != ByQuestion ==>
        GetScoredAttempt().value.kept == KeptVersion(TotalPick(old(Ctx(false)), old(Container(false)), r).idx)
    {
      ghost var ctx := Ctx(practice);
      Parse(practice);
      assert Ctx(practice) == ctx;
      var nd;
      nd, total := RetotalData(Ctx(practice), Memory(practice).value, r);
      SetMemory(practice, nd);
      if !practice && assessRecord.Some? {
        assessRecord := Some(assessRecord.value.(score := total));
      }
    }
  }
}
