/**
 * The assessment record's data model: one student's (or group's) attempt
 * history, as held in the decoded `scoreddata` / `practicedata` containers
 * of assess2/AssessRecord.php, plus the settings the record consults.
 */
module AssessTypes {

  datatype Option<T> = None | Some(value: T) {
    function GetOr(default: T): T {
      if Some? then value else default
    }
  }

  /** The assessment's `submitby` setting; any other stored value is `OtherSubmitBy`. */
  datatype SubmitBy = ByAssessment | ByQuestion | OtherSubmitBy

  /** A version argument: the string 'last' or an explicit 0-based index. */
  datatype Selector = Last | Index(n: nat)

  /** One try on one part: the submission it belongs to, its raw score, a time and the answer. */
  datatype Try = Try(sub: nat, raw: real, time: int, stuans: string)

  /**
   * One regeneration of a question slot. `tries` is keyed by part number,
   * like the PHP array it models; a part without a key has no tries.
   */
  datatype QuestionVersion = QuestionVersion(
    qid: int,
    seed: int,
    answeights: Option<seq<real>>,
    scoreoverride: Option<real>,
    tries: map<nat, seq<Try>>)

  /** One question position of an assessment version, with its regenerations. */
  datatype QuestionSlot = QuestionSlot(
    score: real,
    rawscore: real,
    scoredVersion: nat,
    versions: seq<QuestionVersion>)

  /** One take of the assessment (`assess_versions[i]`); status 0 in progress, 1 submitted. */
  datatype AssessVersion = AssessVersion(
    starttime: int,
    lastchange: int,
    status: int,
    score: real,
    timelimitEnd: Option<int>,
    questions: seq<QuestionSlot>)

  /** A scored or practice container. `scoredVersion` is absent in a container decoded from nothing. */
  datatype AssessData = AssessData(
    submissions: seq<int>,
    autosaves: map<nat, seq<string>>,
    scoredVersion: Option<nat>,
    scoreoverride: Option<real>,
    versions: seq<AssessVersion>)

  /** Per-question settings from the settings provider (`getQuestionSettings`). */
  datatype QuestionSettings = QuestionSettings(
    pointsPossible: real,
    triesMax: int,
    retryPenalty: real,
    retryPenaltyAfter: Option<int>,
    regenPenalty: real,
    regenPenaltyAfter: Option<int>)

  /** A question identity and seed handed out by the assignment provider. */
  datatype Assigned = Assigned(qid: int, seed: int)

  /**
   * The assessment settings and providers the record consults. The two
   * providers are total functions: `questionSettings` answers
   * `getQuestionSettings(qid)`, `assign` answers
   * `assignQuestionsAndSeeds(ispractice, attempt)`.
   */
  datatype AssessSettings = AssessSettings(
    submitby: SubmitBy,
    allowedAttempts: int,
    timelimit: int,
    adjustedTimelimit: int,
    dueDate: int,
    exceptionPenalty: real,
    questionSettings: int -> QuestionSettings,
    assign: (bool, nat) -> seq<Assigned>)

  /** The container a failed or empty decode yields (`array()`). */
  const EmptyData: AssessData := AssessData([], map[], None, None, [])

  /** The container `buildAssessData` starts from (line 196-201). */
  const FreshData: AssessData := AssessData([], map[], Some(0), None, [])

  /** Decoding a stored blob: a failed decode (None) yields the empty container. */
  function Decode(blob: Option<AssessData>): (d: AssessData)
    ensures blob.None? ==> d.versions == [] && d.submissions == []
    ensures blob.Some? ==> d == blob.value
  {
    blob.GetOr(EmptyData)
  }

  /** The index of the last element of a list of length n, if any. */
  function LastIndex(n: nat): (r: Option<nat>)
    ensures r.Some? <==> n > 0
    ensures r.Some? ==> r.value + 1 == n
  {
    if n == 0 then None else Some(n - 1)
  }

  /** The tries of part pn; a part the array has no key for reads as no tries. */
  function PartTries(tries: map<nat, seq<Try>>, pn: nat): seq<Try> {
    if pn in tries then tries[pn] else []
  }

  /** `array_sum` of a list of reals. */
  function Sum(s: seq<real>): real {
    if s == [] then 0.0 else Sum(s[..|s| - 1]) + s[|s| - 1]
  }

  /** A prefix grows by the next element. */
  lemma TakeStep<T>(s: seq<T>, k: nat)
    requires k < |s|
    ensures s[..k + 1] == s[..k] + [s[k]]
  {
  }

  /** The whole sequence is its longest prefix. */
  lemma TakeAll<T>(s: seq<T>)
    ensures s[..|s|] == s
  {
  }

  lemma {:induction false} SumNonNegative(s: seq<real>)
    requires forall i :: 0 <= i < |s| ==> s[i] >= 0.0
    ensures Sum(s) >= 0.0
  {
    if s != [] {
      SumNonNegative(s[..|s| - 1]);
    }
  }

  /** Replaces the question version at (av, qn, qv) and nothing else. */
  function WithQuestionVersion(d: AssessData, av: nat, qn: nat, qv: nat, q: QuestionVersion): (r: AssessData)
    requires av < |d.versions| && qn < |d.versions[av].questions|
    requires qv < |d.versions[av].questions[qn].versions|
    ensures |r.versions| == |d.versions|
    ensures r.submissions == d.submissions && r.scoredVersion == d.scoredVersion
  {
    var v := d.versions[av];
    var slot := v.questions[qn];
    d.(versions := d.versions[av := v.(questions := v.questions[qn := slot.(versions := slot.versions[qv := q])])])
  }
}
