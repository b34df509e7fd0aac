/**
 * The append-only parts of a container and the checks made before
 * appending: recording tries (recordTry, assess2/AssessRecord.php:1184-1206),
 * choosing the parts a scoring records (scoreQuestion, lines 838-883), the
 * per-part submission check (isSubmissionAllowed, lines 1036-1062), the
 * questions a container has used (getOldQuestions, lines 269-288) and the
 * submitted-attempt summary (getSubmittedAttempts, lines 418-438).
 *
 * Everything here works on container values; the class in module Record
 * reads and writes its containers through these.
 */
module Logs {
  import opened AssessTypes
  import opened Resolution
  import opened PartScoring

  // ---------------------------------------------------------------------
  // recordTry: appending one try per given part
  // ---------------------------------------------------------------------

  /**
   * The tries after `$curq['tries'][$pn][] = $partdata` for every part of
   * `data`: each given part gains its try at the end, every other part
   * keeps its list.
   */
  function Appended(tries: map<nat, seq<Try>>, data: map<nat, Try>): (r: map<nat, seq<Try>>)
    ensures r.Keys == tries.Keys + data.Keys
    ensures forall pn :: pn in data ==> r[pn] == PartTries(tries, pn) + [data[pn]]
    ensures forall pn :: pn !in data ==> PartTries(r, pn) == PartTries(tries, pn)
  {
    map pn | pn in tries.Keys + data.Keys :: if pn in data then PartTries(tries, pn) + [data[pn]] else tries[pn]
  }

  /**
   * The `foreach ($data as $pn => $partdata)` loop of recordTry. The parts
   * are visited in any order: each part is written once, so the order does
   * not change the result.
   */
  method AppendTries(tries: map<nat, seq<Try>>, data: map<nat, Try>) returns (r: map<nat, seq<Try>>)
    ensures r == Appended(tries, data)
  {
    r := tries;
    var todo := data.Keys;
    while todo != {}
      invariant todo <= data.Keys
      invariant r == Appended(tries, data - todo)
      decreases todo
    {
      var pn :| pn in todo;
      AppendedStep(tries, data - todo, pn, data[pn]);
      r := r[pn := PartTries(r, pn) + [data[pn]]];
      assert data - (todo - {pn}) == (data - todo)[pn := data[pn]];
      todo := todo - {pn};
    }
    assert data - todo == data;
  }

  /** Appending one more part to the tries appended so far. */
  lemma AppendedStep(tries: map<nat, seq<Try>>, done: map<nat, Try>, pn: nat, t: Try)
    requires pn !in done
    ensures var a := Appended(tries, done);
      Appended(tries, done[pn := t]) == a[pn := PartTries(a, pn) + [t]]
  {
    var a := Appended(tries, done);
    assert PartTries(a, pn) == PartTries(tries, pn);
  }

  /** Appending to one part never shortens or rewrites another part's history. */
  lemma AppendedKeepsHistory(tries: map<nat, seq<Try>>, data: map<nat, Try>, pn: nat)
    ensures PartTries(tries, pn) <= PartTries(Appended(tries, data), pn)
    ensures |PartTries(Appended(tries, data), pn)| == |PartTries(tries, pn)| + (if pn in data then 1 else 0)
  {
  }

  // ---------------------------------------------------------------------
  // scoreQuestion: the parts a scoring records
  // ---------------------------------------------------------------------

  /** The `$parts_to_score` argument: `true`, or an array of flags by part. */
  datatype PartsToScore = AllParts | Chosen(flags: map<nat, bool>)

  /** `$parts_to_score === true || $parts_to_score[$k] === true`; a missing flag reads as null. */
  predicate Selected(p: PartsToScore, k: nat) {
    p.AllParts? || (k in p.flags && p.flags[k])
  }

  /**
   * The `foreach ($rawparts as $k => $v)` loop of scoreQuestion: one try,
   * stamped with the submission number, for each part the caller chose.
   * The try time is always 0 and the answer is the question's posted answer.
   */
  method PartData(raws: seq<real>, p: PartsToScore, sub: nat, stuans: string) returns (data: map<nat, Try>)
    ensures forall k: nat :: k in data <==> k < |raws| && Selected(p, k)
    ensures forall k :: k in data ==> data[k] == Try(sub, raws[k], 0, stuans)
    ensures data == ChosenTries(raws, p, sub, stuans)
  {
    data := map[];
    var k := 0;
    while k < |raws|
      invariant 0 <= k <= |raws|
      invariant forall j: nat :: j in data <==> j < k && Selected(p, j)
      invariant forall j :: j in data ==> j < |raws| && data[j] == Try(sub, raws[j], 0, stuans)
    {
      if Selected(p, k) {
        data := data[k := Try(sub, raws[k], 0, stuans)];
      }
      k := k + 1;
    }
  }

  /** The tries PartData builds, as one map. */
  function ChosenTries(raws: seq<real>, p: PartsToScore, sub: nat, stuans: string): map<nat, Try> {
    map k: nat | k < |raws| && Selected(p, k) :: Try(sub, raws[k], 0, stuans)
  }

  /** The attempt number AttemptNumber computes. */
  function AttemptCount(q: QuestionVersion): nat {
    if |q.tries| == 0 then 0 else MinTries(q, |q.tries|)
  }

  /**
   * The attempt number scoreQuestion hands to the question scorer: the
   * smallest try count over parts 0..count-1, or 0 for a question without
   * tries (lines 846-851).
   */
  method AttemptNumber(q: QuestionVersion) returns (n: nat)
    ensures |q.tries| == 0 ==> n == 0
    ensures |q.tries| > 0 ==> n == MinTries(q, |q.tries|)
  {
    if |q.tries| == 0 {
      return 0;
    }
    n := |PartTries(q.tries, 0)|;
    var pn := 1;
    while pn < |q.tries|
      invariant 1 <= pn <= |q.tries|
      invariant n == MinTries(q, pn)
    {
      var c := |PartTries(q.tries, pn)|;
      if c < n {
        n := c;
      }
      pn := pn + 1;
    }
  }

  /**
   * A scoring that records parts `p` of `raws` appends exactly one try to
   * each chosen part, stamped with the submission, and leaves the other
   * parts as they were.
   */
  lemma ScoringRecordsChosenParts(tries: map<nat, seq<Try>>, raws: seq<real>, p: PartsToScore, sub: nat,
                                  stuans: string, pn: nat)
    ensures var after := Appended(tries, ChosenTries(raws, p, sub, stuans));
      pn < |raws| && Selected(p, pn) ==>
        PartTries(after, pn) == PartTries(tries, pn) + [Try(sub, raws[pn], 0, stuans)]
    ensures var after := Appended(tries, ChosenTries(raws, p, sub, stuans));
      !(pn < |raws| && Selected(p, pn)) ==> PartTries(after, pn) == PartTries(tries, pn)
  {
    var data := ChosenTries(raws, p, sub, stuans);
    if pn < |raws| && Selected(p, pn) {
      assert pn in data;
    } else {
      assert pn !in data;
    }
  }

  /**
   * The container after recordTry records `data` on question qn of the
   * version `sel` designates (lines 1186-1205). The question version is
   * resolved as getQuestionVer resolves it; when it does not exist the
   * container is unchanged.
   */
  function Recorded(d: AssessData, practice: bool, sb: SubmitBy, sel: Selector, qn: nat, data: map<nat, Try>): AssessData {
    match QuestionPath(d, practice, sb, sel, qn)
    case None => d
    case Some((av, qv)) =>
      var q := d.versions[av].questions[qn].versions[qv];
      WithQuestionVersion(d, av, qn, qv, q.(tries := Appended(q.tries, data)))
  }

  /**
   * recordTry only appends: the container keeps its shape, submissions,
   * autosaves, override, every version's and slot's own fields (dates,
   * status, scores) and every question version except the resolved one;
   * the resolved one keeps its question, seed, weights and override and
   * gains `data` at the end of its parts' tries.
   */
  lemma RecordedOnlyAppends(d: AssessData, practice: bool, sb: SubmitBy, sel: Selector, qn: nat, data: map<nat, Try>)
    ensures var r := Recorded(d, practice, sb, sel, qn, data);
      && r.submissions == d.submissions && r.scoredVersion == d.scoredVersion
      && r.autosaves == d.autosaves && r.scoreoverride == d.scoreoverride
      && |r.versions| == |d.versions|
      && (forall av :: 0 <= av < |d.versions| ==> |r.versions[av].questions| == |d.versions[av].questions|)
      && (forall av, k :: 0 <= av < |d.versions| && 0 <= k < |d.versions[av].questions| ==>
            |r.versions[av].questions[k].versions| == |d.versions[av].questions[k].versions|)
    ensures var r := Recorded(d, practice, sb, sel, qn, data);
      && (forall av :: 0 <= av < |d.versions| ==>
            r.versions[av].(questions := d.versions[av].questions) == d.versions[av])
      && (forall av, k :: 0 <= av < |d.versions| && 0 <= k < |d.versions[av].questions| ==>
            r.versions[av].questions[k].(versions := d.versions[av].questions[k].versions)
            == d.versions[av].questions[k])
    ensures var r := Recorded(d, practice, sb, sel, qn, data);
      forall av, k, qv :: 0 <= av < |d.versions| && 0 <= k < |d.versions[av].questions|
                          && 0 <= qv < |d.versions[av].questions[k].versions|
                          && (k != qn || QuestionPath(d, practice, sb, sel, qn) != Some((av, qv))) ==>
        r.versions[av].questions[k].versions[qv] == d.versions[av].questions[k].versions[qv]
    ensures var r := Recorded(d, practice, sb, sel, qn, data);
      QuestionPath(d, practice, sb, sel, qn).Some? ==>
        var (av, qv) := QuestionPath(d, practice, sb, sel, qn).value;
        var q := d.versions[av].questions[qn].versions[qv];
        r.versions[av].questions[qn].versions[qv] == q.(tries := Appended(q.tries, data))
  {
  }

  // ---------------------------------------------------------------------
  // isSubmissionAllowed
  // ---------------------------------------------------------------------

  /** The answer of isSubmissionAllowed: `true` for every part, or a flag per part. */
  datatype Allowance = AllowAll | PerPart(allowed: map<nat, bool>)

  /**
   * The tries isSubmissionAllowed looks at for question qn. By question it
   * reads the last question version of the slot in assessment version 0;
   * otherwise the first question version of the slot in the last assessment
   * version. A path that does not exist reads as null, which counts as no
   * tries.
   *
   * Lines 1046 and 1050 leave out the `['question_versions']` key (and
   * 1050 the slot's version index becomes `[0]` on the slot itself); this
   * is the lookup the code evidently means. What the lines as written read
   * is in module Findings.
   */
  function AllowanceTries(d: AssessData, sb: SubmitBy, qn: nat): map<nat, seq<Try>> {
    if |d.versions| == 0 then map[]
    else if sb == ByQuestion then
      if qn < |d.versions[0].questions| && |d.versions[0].questions[qn].versions| > 0 then
        var qvs := d.versions[0].questions[qn].versions;
        qvs[|qvs| - 1].tries
      else map[]
    else
      var last := d.versions[|d.versions| - 1];
      if qn < |last.questions| && |last.questions[qn].versions| > 0 then
        last.questions[qn].versions[0].tries
      else map[]
  }

  /**
   * The decision of isSubmissionAllowed on a tries array: everything is
   * allowed while no part has a try; otherwise a part may be submitted
   * exactly when its try count is below `tries_max`.
   */
  method SubmissionAllowed(tries: map<nat, seq<Try>>, triesMax: int) returns (r: Allowance)
    ensures r.AllowAll? <==> |tries| == 0
    ensures r.PerPart? ==> r.allowed.Keys == tries.Keys
    ensures r.PerPart? ==> forall pn :: pn in tries ==> (r.allowed[pn] <==> |tries[pn]| < triesMax)
  {
    if |tries| == 0 {
      return AllowAll;
    }
    var out: map<nat, bool> := map[];
    var todo := tries.Keys;
    while todo != {}
      invariant todo <= tries.Keys
      invariant out.Keys == tries.Keys - todo
      invariant forall pn :: pn in out ==> (out[pn] <==> |tries[pn]| < triesMax)
      decreases todo
    {
      var pn :| pn in todo;
      out := out[pn := |tries[pn]| < triesMax];
      todo := todo - {pn};
    }
    r := PerPart(out);
  }

  /**
   * When the container has the shape the record builds (one assessment
   * version by question; one question version per slot otherwise, and one
   * version in practice), the tries isSubmissionAllowed reads are those of
   * the question version 'last' resolves to.
   */
  lemma AllowanceReadsCurrentVersion(d: AssessData, practice: bool, sb: SubmitBy, qn: nat)
    requires sb == ByQuestion || practice ==> |d.versions| <= 1
    requires forall av, k :: 0 <= av < |d.versions| && 0 <= k < |d.versions[av].questions| && sb != ByQuestion ==>
               |d.versions[av].questions[k].versions| <= 1
    ensures AllowanceTries(d, sb, qn)
            == (match QuestionVer(d, practice, sb, Last, qn) case Some(q) => q.tries case None => map[])
  {
  }

  // ---------------------------------------------------------------------
  // getOldQuestions
  // ---------------------------------------------------------------------

  /** The (qid, seed) pairs of a slot's question versions, in order. */
  function VersionPairs(qvs: seq<QuestionVersion>): (r: seq<Assigned>)
    ensures |r| == |qvs|
    ensures forall i :: 0 <= i < |qvs| ==> r[i] == Assigned(qvs[i].qid, qvs[i].seed)
  {
    seq(|qvs|, i requires 0 <= i < |qvs| => Assigned(qvs[i].qid, qvs[i].seed))
  }

  /** The pairs of every question version of a list of slots, slot by slot. */
  function SlotPairs(slots: seq<QuestionSlot>): seq<Assigned> {
    if slots == [] then [] else SlotPairs(slots[..|slots| - 1]) + VersionPairs(slots[|slots| - 1].versions)
  }

  /** The pairs of every question version of a list of assessment versions, version by version. */
  function OldPairs(vs: seq<AssessVersion>): seq<Assigned> {
    if vs == [] then [] else OldPairs(vs[..|vs| - 1]) + SlotPairs(vs[|vs| - 1].questions)
  }

  /**
   * getOldQuestions on a container: the qid and seed of every question
   * version of every slot of every assessment version, in that order,
   * given as one list of pairs.
   *
   * Line 281 iterates `$ver['question_versions']`, a key assessment
   * versions do not have; the loop evidently means the question versions
   * of each of the version's questions, one level further down.
   */
  method OldQuestions(d: AssessData) returns (used: seq<Assigned>)
    ensures used == OldPairs(d.versions)
  {
    used := [];
    var av := 0;
    while av < |d.versions|
      invariant 0 <= av <= |d.versions|
      invariant used == OldPairs(d.versions[..av])
    {
      var slots := d.versions[av].questions;
      ghost var before := used;
      var qn := 0;
      while qn < |slots|
        invariant 0 <= qn <= |slots|
        invariant used == before + SlotPairs(slots[..qn])
      {
        used := CollectVersions(used, slots[qn].versions);
        assert slots[..qn + 1][..qn] == slots[..qn];
        qn := qn + 1;
      }
      assert slots[..qn] == slots;
      assert d.versions[..av + 1][..av] == d.versions[..av];
      av := av + 1;
    }
    assert d.versions[..av] == d.versions;
  }

  /** The innermost loop of getOldQuestions: one pair per question version of a slot. */
  method CollectVersions(acc: seq<Assigned>, qvs: seq<QuestionVersion>) returns (used: seq<Assigned>)
    ensures used == acc + VersionPairs(qvs)
  {
    used := acc;
    var qv := 0;
    while qv < |qvs|
      invariant 0 <= qv <= |qvs|
      invariant used == acc + VersionPairs(qvs[..qv])
    {
      used := used + [Assigned(qvs[qv].qid, qvs[qv].seed)];
      qv := qv + 1;
    }
    assert qvs[..qv] == qvs;
  }

  /** A pair is listed for a list of slots exactly when one of their question versions has it. */
  lemma {:induction false} SlotPairsMembers(slots: seq<QuestionSlot>, x: Assigned)
    ensures x in SlotPairs(slots) <==>
            exists qn, qv :: 0 <= qn < |slots| && 0 <= qv < |slots[qn].versions|
                             && x == Assigned(slots[qn].versions[qv].qid, slots[qn].versions[qv].seed)
  {
    if slots != [] {
      var init := slots[..|slots| - 1];
      var last := slots[|slots| - 1];
      SlotPairsMembers(init, x);
      if x in VersionPairs(last.versions) {
        var i :| 0 <= i < |VersionPairs(last.versions)| && VersionPairs(last.versions)[i] == x;
        assert slots[|slots| - 1].versions[i] == last.versions[i];
      }
      if exists qn, qv :: 0 <= qn < |slots| && 0 <= qv < |slots[qn].versions|
                          && x == Assigned(slots[qn].versions[qv].qid, slots[qn].versions[qv].seed) {
        var qn, qv :| 0 <= qn < |slots| && 0 <= qv < |slots[qn].versions|
                      && x == Assigned(slots[qn].versions[qv].qid, slots[qn].versions[qv].seed);
        if qn < |slots| - 1 {
          assert init[qn] == slots[qn];
        } else {
          assert VersionPairs(last.versions)[qv] == x;
        }
      }
    }
  }

  /**
   * getOldQuestions lists a pair exactly when one of the assessment
   * versions lists it among its slots (and, by SlotPairsMembers, exactly
   * when some question version of that version's slots has it).
   */
  lemma {:induction false} OldPairsMembers(vs: seq<AssessVersion>, x: Assigned)
    ensures x in OldPairs(vs) <==> exists av :: 0 <= av < |vs| && x in SlotPairs(vs[av].questions)
  {
    if vs != [] {
      var init := vs[..|vs| - 1];
      var lastPairs := SlotPairs(vs[|vs| - 1].questions);
      assert OldPairs(vs) == OldPairs(init) + lastPairs;
      assert x in OldPairs(vs) <==> x in OldPairs(init) || x in lastPairs;
      OldPairsMembers(init, x);
      if x in OldPairs(init) {
        var av :| 0 <= av < |init| && x in SlotPairs(init[av].questions);
        assert vs[av] == init[av];
      } else if x in lastPairs {
        assert 0 <= |vs| - 1 < |vs|;
      } else {
        forall av | 0 <= av < |vs| ensures x !in SlotPairs(vs[av].questions) {
          if av < |vs| - 1 {
            assert init[av] == vs[av];
          }
        }
      }
    }
  }

  // ---------------------------------------------------------------------
  // getSubmittedAttempts
  // ---------------------------------------------------------------------

  /** One entry of getSubmittedAttempts: the version's last change, and its score when asked for. */
  datatype AttemptInfo = AttemptInfo(date: int, score: Option<real>)

  /**
   * The submitted assessment versions (status 1), keyed by version index,
   * each with its last-change date and, when `includeScores`, its score.
   */
  method SubmittedAttempts(vs: seq<AssessVersion>, includeScores: bool) returns (out: map<nat, AttemptInfo>)
    ensures forall k: nat :: k in out <==> k < |vs| && vs[k].status == 1
    ensures forall k :: k in out ==>
              out[k] == AttemptInfo(vs[k].lastchange, if includeScores then Some(vs[k].score) else None)
  {
    out := map[];
    var k := 0;
    while k < |vs|
      invariant 0 <= k <= |vs|
      invariant forall j: nat :: j in out <==> j < k && vs[j].status == 1
      invariant forall j :: j in out ==>
                  j < |vs| && out[j] == AttemptInfo(vs[j].lastchange, if includeScores then Some(vs[j].score) else None)
    {
      if vs[k].status == 1 {
        out := out[k := AttemptInfo(vs[k].lastchange, if includeScores then Some(vs[k].score) else None)];
      }
      k := k + 1;
    }
  }
}
