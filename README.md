# AssessRecord: a verified model of the IMathAS assessment record

This project models the assessment-record engine of IMathAS
(`assess2/AssessRecord.php`, class `AssessRecord`) in Dafny and proves
properties of the model.

An assessment record holds one student's (or one group's) work on one
assessment. It has four parts:

- a stored row with a start time, a record `score` and a `status` bit field;
- two containers, `scoreddata` and `practicedata`, decoded lazily into memory;
- in each container, the `submissions` (seconds since the record started) and
  `assess_versions`: one entry per take of the assessment;
- in each take, its question slots. A slot holds its question versions (the
  regenerations of that question). Each question version holds its tries,
  keyed by part.

The engine builds new takes, appends submissions and tries, applies the
retry, regeneration and late penalties, picks the best try of each part,
re-totals scores up the hierarchy, and answers status queries.

Modules, one per concern of the class:

- `AssessTypes` (`types.dfy`): the data model: tries, question versions, slots,
  assessment versions, containers and settings. It also holds the decode of a
  stored blob.
- `Status` (`status.dfy`): the `status` bit field as a `bv64`. Bit 1 marks an
  active by-assessment attempt, bit 2 an active by-question attempt, and bit 16
  an active practice attempt.
- `Penalties` (`penalties.dfy`): `scoreAfterPenalty`, with the penalty list it
  reports.
- `Resolution` (`resolution.dfy`): `getAssessVer` and `getQuestionVer`. These
  decide which assessment version and which question version a `ver` argument
  designates. The module also computes the regeneration number the scoring
  code derives from `ver`.
- `PartScoring` (`part_scores.dfy`): the best-try-per-part loop of
  `getQuestionPartScores`, and the part-status classification of
  `getQuestionObject`.
- `Retotal` (`retotal.dfy`): `reTotalAssess`. Slots take the best version
  score, versions the sum of their slots, and the container its best version.
- `Logs` (`logs.dfy`): the append-only parts. These are `recordTry` and the
  part filter of `scoreQuestion`. The module also covers:
  - the per-part check of `isSubmissionAllowed`;
  - the (question, seed) pairs `getOldQuestions` collects;
  - the submitted-attempt summary.
- `Record` (`record.dfy`): the class `AssessRecord` itself.
  - Its row and its two in-memory containers are mutable fields.
  - The methods change them as the PHP methods do.
  - Each method's `ensures` states the new state in terms of the functions of
    the modules above.
- `Findings` (`findings.dfy`): three source lines modelled as written, with
  an input on which each differs from the intended behaviour. See "## Findings".

Conventions:

- PHP 7 null semantics are modelled where the code relies on them. A missing
  key or variable reads as null, `count(null)` is 0, null in arithmetic is 0,
  and `foreach` over null does nothing.
- An index that would read past the end of an array resolves to `None`, and
  the code reading it then behaves as PHP does on null.
- Several lines use an undefined variable, a misspelt method or a wrong array
  key. The model follows the evident intent at each, and a comment at each
  place names the line: 207, 281, 362, 400, 716, 967, 1001, 1007, 1046-1050,
  1089-1090 and 1186. Three of them are also modelled as written under
  "## Findings". The others change results too, but are modelled only as
  intended; "## Left out" says how.
- Four literal behaviours are kept as written:
  - `>=` at lines 999 and 1014, so the later version wins a tie;
  - strict `>` at line 719, so the earliest try wins a tie;
  - the penalty list a part reports, which is that of the last try considered
    (line 729) rather than the winning try's;
  - the regeneration number getQuestionPartScores passes to the penalty
    calculator. For 'last' it is a count of versions (lines 656 and 669). For
    an explicit `ver` it is the index (lines 660 and 673).
    - Reading a version as 'last' therefore counts one regeneration more than
      reading the same version by its index (Resolution.LastCountsOneMoreRegen).
    - With a regeneration penalty, the first version read as 'last' is already
      penalised, while reTotalAssess, which passes explicit indices, does not
      penalise it (PartScoring.FirstVersionPenalisedAsLast: 9 against 10).

## Model

| member | source | states |
|---|---|---|
| AssessTypes.Decode | assess2/AssessRecord.php:1212-1232 | a blob that does not decode yields the empty container (no versions, no submissions); one that decodes yields its contents |
| Status.SetPractice | assess2/AssessRecord.php:330 | bit 16 becomes set and every other bit is unchanged |
| Status.ClearPractice | assess2/AssessRecord.php:332 | bit 16 becomes clear and every other bit is unchanged |
| Status.ClearScored | assess2/AssessRecord.php:336 | bits 1 and 2 become clear and every other bit is unchanged |
| Status.SetScored | assess2/AssessRecord.php:339-345 | on a status with both scored bits clear, exactly the given scored bit becomes set and nothing else changes |
| Status.ModeBit | assess2/AssessRecord.php:340-345 | activating sets a bit exactly when the mode is by_assessment or by_question |
| Status.StatusAfter | assess2/AssessRecord.php:323-348 | practice touches only bit 16 (set iff activating); scored clears bits 1 and 2 and, when activating, sets exactly the mode's bit; all other bits are unchanged |
| Status.SetStatusThenActive | assess2/AssessRecord.php:303-348 | after setStatus the kind of attempt set is active (hasActiveAttempt) iff it was activated and, for scored, the mode is known; the other kind keeps its activity |
| Status.ScoredBitsExclusive | assess2/AssessRecord.php:335-346 | a scored setStatus never leaves both scored bits set |
| Penalties.ScoreAfterPenalty | assess2/AssessRecord.php:1076-1102 | the definition of the penalised score and its penalty list (intended `$regensOver` at lines 1089-1090); its meaning is the contract of Penalties.ScoreAfterPenaltyReports |
| Penalties.ScoreAfterPenaltyReports | assess2/AssessRecord.php:1076-1102 | the score is `score*points` times (1 - size/100) of exactly the penalties reported; each penalty is reported iff its rule applies, with its size; the order is retry, regen, late, at most three entries |
| Penalties.ReportedKind | assess2/AssessRecord.php:1078-1096 | the list names a penalty kind, with its size, iff that kind's rule applies |
| Penalties.ReportedOrder | assess2/AssessRecord.php:1078-1096 | the list is in the order retry, regen, late, each at most once, each with the size its rule gives |
| Penalties.RetryFactorNonIncreasing | assess2/AssessRecord.php:1079-1085 | a later try never has a larger retry factor |
| Penalties.RegenFactorNonIncreasing | assess2/AssessRecord.php:1086-1092 | a later regeneration never has a larger regen factor |
| Penalties.NonIncreasingInTry | assess2/AssessRecord.php:1076-1102 | for a non-negative base, a later try never scores more |
| Penalties.NonIncreasingInRegen | assess2/AssessRecord.php:1076-1102 | for a non-negative base, a later regeneration never scores more |
| Penalties.LateNeverScoresMore | assess2/AssessRecord.php:1093-1096 | a submission after the due date never scores more than one on or before it |
| Penalties.LatePenaltyExample | assess2/AssessRecord.php:1093-1096 | raw 1 on 10 points, late with a 20% exception penalty, scores 8 and reports one late entry of 20 |
| Penalties.RetryPenaltyExample | assess2/AssessRecord.php:1079-1085 | with a 10% retry penalty after one free try, the first try keeps 10 points and the second scores 9 with one retry entry of 10 |
| Resolution.AssessVerIndex | assess2/AssessRecord.php:1111-1125 | the assessment version `ver` designates is always an existing index, or none |
| Resolution.QuestionVerIndex | assess2/AssessRecord.php:1147-1152 | the question version `ver` designates among a slot's versions is an existing index, or none |
| Resolution.AssessVer | assess2/AssessRecord.php:1111-1125 | the definition of getAssessVer's result: the version at AssessVerIndex, or null. Which version that is in each mode is the contract of Resolution.ByQuestionUsesLastAssessVersion and Resolution.PracticeUsesFirstVersion |
| Resolution.QuestionPath | assess2/AssessRecord.php:1134-1153 | the (assessment version, question version) getQuestionVer reads exists in the container whenever it is given |
| Resolution.QuestionVer | assess2/AssessRecord.php:1134-1153 | the definition of getQuestionVer's result: the question version at QuestionPath, or null. Which version that is in each mode is the contract of Resolution.ByQuestionSelectsQuestionVersion, Resolution.ByAssessmentSelectsAssessVersion and Resolution.LastIsLastEverywhere |
| Resolution.RegenNumber | assess2/AssessRecord.php:650-674 | for an explicit `ver` the regeneration number is that index; for 'last' it is one more than the index of the version read (by question the slot's version count, by assessment the assessment-version count); in practice by assessment it is 0 |
| Resolution.LastCountsOneMoreRegen | assess2/AssessRecord.php:650-674 | the explicit index that designates the same question version as 'last' gives a regeneration number one lower |
| Resolution.ByQuestionUsesLastAssessVersion | assess2/AssessRecord.php:1141-1142 | by question, scored data always uses the last assessment version, whatever `ver` is |
| Resolution.ByQuestionSelectsQuestionVersion | assess2/AssessRecord.php:1141-1151 | by question, an explicit `ver` selects that question version of the slot in the last assessment version |
| Resolution.ByAssessmentSelectsAssessVersion | assess2/AssessRecord.php:1141-1149 | in any other mode, an explicit `ver` selects that assessment version and the slot's last question version |
| Resolution.LastIsLastEverywhere | assess2/AssessRecord.php:1141-1149 | 'last' selects the last assessment version and its slot's last question version in every mode |
| Resolution.PracticeUsesFirstVersion | assess2/AssessRecord.php:1111-1115 | practice data always reads assessment version 0 |
| PartScoring.TryScores | assess2/AssessRecord.php:706-718 | the definition of each try's post-penalty result. What a try scores is the contract of Penalties.ScoreAfterPenaltyReports; which result the part keeps is the contract of PartScoring.BestFoldIsEarliestBest |
| PartScoring.BestTry | assess2/AssessRecord.php:700-724 | the loop over one part's considered tries computes the fold whose meaning BestFoldIsEarliestBest and BestFoldReportsLastPenalties state |
| PartScoring.PartScoreList | assess2/AssessRecord.php:686-687 | the definition of `$partscores` / `$partrawscores`, one entry per answer weight. That their sum is never negative is PartScoring.QuestionScoreNonNegative; that a part without a weight adds nothing is PartScoring.UnweightedPartScoresZero |
| PartScoring.Details | assess2/AssessRecord.php:690-732 | the definition of the parts list. The meaning of each entry's score and raw score is PartScoring.BestFoldIsEarliestBest; the meaning of its penalties is PartScoring.BestFoldReportsLastPenalties |
| PartScoring.ScorePart | assess2/AssessRecord.php:690-731 | one pass of the loop over parts yields that part's best score, its raw score and its parts-list entry |
| PartScoring.QuestionPartScores | assess2/AssessRecord.php:684-735 | the parts list has one entry per part; the question score is the sum of the part scores kept per answer weight, and the raw score likewise |
| PartScoring.GetQuestionPartScores | assess2/AssessRecord.php:645-736 | on the resolved question version, the scores and parts above; a version that does not exist scores (0, 0) with no parts |
| PartScoring.QuestionScoreNonNegative | assess2/AssessRecord.php:686-733 | a question score is never negative |
| PartScoring.UnweightedPartScoresZero | assess2/AssessRecord.php:711 | a part without an answer weight is worth 0, so it scores 0 with raw score 0 |
| PartScoring.FirstVersionPenalisedAsLast | assess2/AssessRecord.php:653-661 | by assessment on one version with a 10% regen penalty, raw 1 on 10 points scores 9 when read as 'last' and 10 when read by index 0 |
| PartScoring.ZeroPointsScoreZero | assess2/AssessRecord.php:709-718 | a try on a part worth 0 points scores 0 whatever its penalties |
| PartScoring.BestFoldIsEarliestBest | assess2/AssessRecord.php:705-724 | a part's score is at least 0 and at least every considered try's score (raw > 0); a positive score is that of a considered try with no earlier considered try as good, and the raw score is that try's; a score of 0 has raw 0 |
| PartScoring.LastConsidered | assess2/AssessRecord.php:705-708 | the last try the loop scores, if any: its raw score is positive and no later try's is |
| PartScoring.BestFoldReportsLastPenalties | assess2/AssessRecord.php:705-729 | the penalty list reported is the last considered try's, not the winning try's; none when no try counts |
| PartScoring.QuestionStatus | assess2/AssessRecord.php:548-597 | no tries: unattempted with try 0; otherwise the status fold over the parts and the smallest try count |
| PartScoring.StatusFoldMeaning | assess2/AssessRecord.php:572-589 | unattempted iff some part has no tries; otherwise without scores attempted; with scores correct iff every raw score is above .99, incorrect iff every one is below .01, partial iff neither |
| PartScoring.MinTriesIsMinimum | assess2/AssessRecord.php:572-575 | the try count shown is at most every part's try count and equals one of them |
| Retotal.PickFoldIsLastMax | assess2/AssessRecord.php:999-1003 | the `>=` maximum from 0: at least 0 and every value; when some value is not negative, the picked index holds the best, no later value reaches it, and the carried value is that index's; otherwise (0, 0, index 0) |
| Retotal.VersionScores | assess2/AssessRecord.php:992-998 | the definition of the scores the slot loop compares. That the slot keeps the best of them, with the later version winning a tie, is Retotal.SlotIsLastBestVersion |
| Retotal.NewSlotScores | assess2/AssessRecord.php:983-1011 | the definition of the slot scores summed into a version. A rescored slot's score is the contract of Retotal.SlotIsLastBestVersion; an unrescored one's is Retotal.UnrescoredSlotKept |
| Retotal.NewVersions | assess2/AssessRecord.php:978-1018 | the definition of the re-totalled versions. What re-totalling promises about them is Retotal.TotalIsLastBestVersion, Retotal.RetotalKeepsQuestionVersions and Retotal.RetotalIdempotent |
| Retotal.VersionTotals | assess2/AssessRecord.php:1013-1014 | the definition of the scores the best-version loop compares. That the total is the best of them, with the later version winning a tie, is Retotal.BestOfVersions |
| Retotal.VersionScoreOf | assess2/AssessRecord.php:994-998 | one question version's score and raw score |
| Retotal.RetotalSlot | assess2/AssessRecord.php:988-1010 | the loop over question versions yields the re-totalled slot (see SlotIsLastBestVersion) |
| Retotal.RetotalSlots | assess2/AssessRecord.php:982-1012 | the loop over slots yields the re-totalled slots and the sum of their scores |
| Retotal.RetotalVersion | assess2/AssessRecord.php:979-1013 | one assessment version with its slots and score re-totalled |
| Retotal.RetotalVersions | assess2/AssessRecord.php:978-1018 | the loop over versions re-totals every version |
| Retotal.BestVersion | assess2/AssessRecord.php:1014-1017 | the `>=` maximum over the version scores, so the later of tied versions wins |
| Retotal.Retotalled | assess2/AssessRecord.php:963-1027 | the definition of the container after re-totalling; its meaning is the contract of Retotal.TotalIsLastBestVersion, Retotal.RetotalKeepsQuestionVersions and Retotal.RetotalIdempotent |
| Retotal.RetotalData | assess2/AssessRecord.php:963-1027 | the container after re-totalling and the best version score as the total |
| Retotal.TotalIsLastBestVersion | assess2/AssessRecord.php:1014-1021 | the total is at least 0 and every version's score; outside by-question mode the scored version is the last one reaching it, when some score is not negative |
| Retotal.BestOfVersions | assess2/AssessRecord.php:1014-1017 | the best version score is at least every version's, at the picked index, and no later version reaches it |
| Retotal.SlotIsLastBestVersion | assess2/AssessRecord.php:989-1010 | a rescored slot's score is at least 0 and every version's score; by question its scored version is the last one reaching it, and its raw score is that version's |
| Retotal.UnrescoredSlotKept | assess2/AssessRecord.php:984-987 | a slot outside the rescore list is unchanged, and its stored score still counts towards its version |
| Retotal.QuestionScoresFrame | assess2/AssessRecord.php:645-736 | question scores depend only on the question versions and the submissions |
| Retotal.RetotalKeepsQuestionVersions | assess2/AssessRecord.php:978-1021 | re-totalling changes scores and scored versions only: submissions and question versions are unchanged |
| Retotal.RetotalIdempotent | assess2/AssessRecord.php:963-1027 | re-totalling the re-totalled container changes nothing and gives the same total |
| Logs.Appended | assess2/AssessRecord.php:1203-1205 | the definition of a question version's tries after recordTry's loop. What appending promises (earlier tries kept as a prefix, one try more exactly for the given parts) is Logs.AppendedKeepsHistory and Logs.ScoringRecordsChosenParts |
| Logs.AppendTries | assess2/AssessRecord.php:1203-1205 | the loop over the given parts, in any order, yields the appended tries |
| Logs.AppendedKeepsHistory | assess2/AssessRecord.php:1203-1205 | a part's earlier tries stay a prefix of its new list, which grows by one iff the part was given |
| Logs.PartData | assess2/AssessRecord.php:873-882 | a part is recorded iff the scorer returned it and it was chosen; each recorded try carries the submission number and raw score |
| Logs.AttemptNumber | assess2/AssessRecord.php:846-851 | the attempt number is 0 without tries, else the smallest try count over the parts |
| Logs.ScoringRecordsChosenParts | assess2/AssessRecord.php:871-883 | scoring appends exactly one try to each chosen part and leaves every other part as it was |
| Logs.Recorded | assess2/AssessRecord.php:1184-1206 | the definition of the container after recordTry on the version getQuestionVer resolves; its meaning is the contract of Logs.RecordedOnlyAppends |
| Logs.RecordedOnlyAppends | assess2/AssessRecord.php:1184-1206 | recordTry keeps the container's shape, submissions, autosaves and override, every version's and slot's own fields, and every other question version; the resolved version gains the tries at the end of its parts' lists |
| Logs.SubmissionAllowed | assess2/AssessRecord.php:1053-1061 | `true` iff the tries array is empty; otherwise one flag per part, true iff its try count is below `tries_max` |
| Logs.AllowanceReadsCurrentVersion | assess2/AssessRecord.php:1044-1051 | in a container shaped as the record builds it, the tries read are those of the question version 'last' designates |
| Logs.VersionPairs | assess2/AssessRecord.php:281-284 | the definition of the pairs of one slot's question versions. Which pairs getOldQuestions lists is Logs.SlotPairsMembers and Logs.OldPairsMembers |
| Logs.OldQuestions | assess2/AssessRecord.php:269-288 | the loops list the pairs of every question version of every slot of every version, in that order |
| Logs.CollectVersions | assess2/AssessRecord.php:281-284 | the innermost loop appends one pair per question version |
| Logs.SlotPairsMembers | assess2/AssessRecord.php:280-285 | a pair is listed for a version's slots iff one of their question versions has it |
| Logs.OldPairsMembers | assess2/AssessRecord.php:279-286 | a pair is listed iff some assessment version lists it among its slots |
| Logs.SubmittedAttempts | assess2/AssessRecord.php:425-436 | a version is listed iff its status is 1, with its last change and, when asked, its score |
| Record.BuildSlots | assess2/AssessRecord.php:242-255 | one unscored slot per handed question, each with exactly one question version holding the handed qid and seed and no tries |
| Record.AssessRecord.constructor | assess2/AssessRecord.php:34-39 | a new object has its settings and `now`, no record and no containers |
| Record.AssessRecord.LoadRecord | assess2/AssessRecord.php:46-57 | the record becomes the row the query returned, or none |
| Record.AssessRecord.SetInPractice | assess2/AssessRecord.php:63-65 | sets the practice flag and nothing else |
| Record.AssessRecord.HasActiveAttempt | assess2/AssessRecord.php:303-315 | no record: false; otherwise, in practice the practice bit, else either scored bit. Its answer after each change is the `ensures` of Record.AssessRecord.SetStatus and Record.AssessRecord.CreateRecord, and of Status.SetStatusThenActive |
| Record.AssessRecord.HasUnsubmittedAttempt | assess2/AssessRecord.php:356-376 | a record exists and the container's last version has status 0 (intended parsePractice at line 362). That it holds after a new version is the `ensures` of Record.AssessRecord.BuildNewAssessVersion |
| Record.AssessRecord.CanMakeNewAttempt | assess2/AssessRecord.php:383-407 | practice while no practice container is in memory; scored while none is, by question while it has no versions, by assessment while it has fewer than allowed (intended getSetting at line 400). Its answer after a new version is the `ensures` of Record.AssessRecord.BuildNewAssessVersion |
| Record.AssessRecord.GetScoredAttempt | assess2/AssessRecord.php:446-460 | the record score, kept 'override' or else the scored version. Its answer after re-totalling is the `ensures` of Record.AssessRecord.ReTotalAssess |
| Record.AssessRecord.GetTimeLimitExpires | assess2/AssessRecord.php:483-495 | false without a record or a version, else the last version's recorded end. Its answer after a new version is the `ensures` of Record.AssessRecord.BuildNewAssessVersion |
| Record.AssessRecord.Parse | assess2/AssessRecord.php:1212-1232 | a container not in memory is decoded into memory; one in memory is kept; nothing else changes |
| Record.AssessRecord.SetStatus | assess2/AssessRecord.php:303-348 | with a record, the status becomes StatusAfter of the old one, and without one nothing changes; the containers are untouched; afterwards hasActiveAttempt for the kind set holds iff it was activated (scored: and the mode is known), and the other kind keeps its answer |
| Record.AssessRecord.BuildNewAssessVersion | assess2/AssessRecord.php:216-262 | appends exactly one version at index = previous count, keeps the earlier ones, and activates the status; the new version is unsubmitted, unscored, started now or at 0, with one fresh slot per handed question; afterwards hasUnsubmittedAttempt (lines 356-376) holds, canMakeNewAttempt (lines 383-407) is false in practice and by question and by assessment holds iff the new count is below the allowed attempts, and getTimeLimitExpires (lines 483-495) gives `now + adjusted time limit` iff the start was recorded and there is a time limit, else no limit |
| Record.AssessRecord.BuildAssessData | assess2/AssessRecord.php:190-208 | nothing when the container is already in memory; otherwise a fresh container with one first version, and the status activated |
| Record.AssessRecord.CreateRecord | assess2/AssessRecord.php:134-154 | a blank row started now or at 0 with score 0; the scored container built, and the practice one in practice mode; the scored attempt is active iff its container was built here and the mode is known, the practice attempt iff its container was built here |
| Record.AssessRecord.AddSubmission | assess2/AssessRecord.php:822-831 | appends `time - starttime` to the container's submissions and returns the index of that new last entry |
| Record.AssessRecord.RecordTry | assess2/AssessRecord.php:1184-1206 | the container becomes Logs.Recorded of the old one (see RecordedOnlyAppends); nothing else changes |
| Record.AssessRecord.ScoreQuestion | assess2/AssessRecord.php:841-883 | the scorer's raw scores for the chosen parts are recorded as tries on the last version of the question, stamped with the submission; a missing question version records nothing |
| Record.AssessRecord.IsSubmissionAllowed | assess2/AssessRecord.php:1036-1062 | `true` iff the question's tries are empty; otherwise one flag per part, true iff its try count is below the question's `tries_max` |
| Record.AssessRecord.GetOldQuestions | assess2/AssessRecord.php:269-288 | every (qid, seed) pair the container has used, in order |
| Record.AssessRecord.GetSubmittedAttempts | assess2/AssessRecord.php:418-438 | nothing without a record; otherwise exactly the submitted versions with their dates and, when asked, their scores |
| Record.AssessRecord.GetQuestionPartScores | assess2/AssessRecord.php:645-736 | the scores and parts of PartScoring.GetQuestionPartScores on the in-memory container |
| Record.AssessRecord.QuestionObjectStatus | assess2/AssessRecord.php:548-597 | a missing or untried question is unattempted with try 0; otherwise the status fold over the parts scored for the last try, and the smallest try count |
| Record.AssessRecord.ReTotalAssess | assess2/AssessRecord.php:963-1027 | the container becomes the re-totalled one and the total is the best version score, written to the record only for scored data; afterwards getScoredAttempt (lines 446-460) reports that total and, by assessment without an override, the version picked |
| Findings.RegenIgnoredAsWritten | assess2/AssessRecord.php:1086-1092 | as written, the score never depends on the regeneration number |
| Findings.RegenPenaltyLostExample | assess2/AssessRecord.php:1089-1090 | a 10% regen penalty on the second version: 10 with a 0% entry as written, 9 with a 10% entry as intended |
| Findings.SubmissionLimitIgnoredExample | assess2/AssessRecord.php:1045-1051 | a question with one try: as written the lookup sees no tries, as intended it sees the try |
| Findings.OldQuestionsLostExample | assess2/AssessRecord.php:279-286 | a container that used question 5 with seed 42: as written nothing is listed, as intended that pair |

## Left out

- The slips at lines 207, 362, 400, 716, 967, 1001, 1007 and 1186 are
  modelled only as intended, although as written they change results:
  - line 207: a practice buildAssessData appends its new version to the
    scored container and sets the scored status bit;
  - line 716: `$data` is undefined in getQuestionPartScores, so the
    submission time is the start time alone, and a late submission after an
    on-time start is never penalised late;
  - line 967: a practice reTotalAssess rewrites the scored container, from
    scores read in the practice container;
  - line 1001: with a score override, the slot's stored raw score is a stale
    `$qRawscore`;
  - line 362: `parsePratice` is not a method of the class, so
    hasUnsubmittedAttempt for practice with a record stops with a fatal
    error;
  - line 400: `getSettings` is called where every other line calls
    `getSetting`; AssessInfo is not part of this model, so the by-assessment
    answer of canMakeNewAttempt as written is unknown (at worst a fatal
    error);
  - line 1007: the key written is `scoredversion`, so reTotalAssess never
    updates a by-question slot's `scored_version` (the key made at lines 199
    and 246), while Retotal.NewSlot does;
  - line 1186: practice tries are recorded in the scored container.
- Database I/O is left out: the queries of `loadRecord`, `saveRecord`
  (lines 73-115) and the INSERT of `createRecord` (lines 156-181).
  `LoadRecord` takes the row the query would return as a parameter.
  `CreateRecord` models the in-memory record only, for the current user.
  Group members, `lti_sourcedid` and the columns the model does not read are
  not kept.
- The blob codec (`gzencode`/`json_encode`/`gzdecode`/`json_decode`) is a
  foreign library. A stored blob is held already decoded, and `None` stands
  for a blob that does not decode (which yields the empty container).
  Encoding on save is left out with `saveRecord`.
- The settings and assignment provider (`AssessInfo`) is given as fields of
  `AssessSettings`, fixed for the life of the object:
  - `submitby`, `allowed_attempts`, `timelimit` and the adjusted time limit;
  - the due date and the exception penalty;
  - `getQuestionSettings` and `assignQuestionsAndSeeds` as total functions.
  `time()` is the constant `now`.
- Question rendering and evaluation are foreign calls:
  - `displayq` and `getQuestionHtml` (lines 748-814), which are not part of
    this model;
  - `scoreq` and the `$GLOBALS` handoff, where `ScoreQuestion` takes the
    scorer as a function of question number, seed and attempt number, and
    the posted answer as a parameter. The scorer's other inputs at lines
    859-866 are fixed for the call: the questionset id of the resolved
    version's question (line 844), the posted answer, and the question's
    points. The posted answer reaches only the recorded try;
  - the `$_POST` reads.
- `getStuanswers` (lines 892-921) is not part of this model. Its loop bound
  and return value do not describe a stable behaviour.
- `calcAssessVersionScores` (lines 1241-1244) is an empty stub.
- `getQuestionId`, `getQuestionIds`, `getAutoSaves`, `getGroupMembers`,
  `getAllQuestionObjects` and the `hasRecord` flag are not part of this model.
- `getQuestionObject` is modelled only for its status and try count.
  - The remaining output fields are not modelled.
  - The branch that lists parts without scores (lines 590-595) builds an
    array that is not read back, and is not modelled.
- `lti/LTI_Grade_Update.php` and `lti/setupcourse.php` are transport and
  request handling and are not part of this model.
- Concurrency is not modelled: races between loading and saving a row are
  outside the class.
- Scores are exact reals, not IEEE doubles. Rounding is not modelled.
- PartScoring.PartPoints gives a part 0 points when the answer weights sum
  to 0. PHP 7 gives INF or NAN there, with a warning, and PHP 8 throws a
  DivisionByZeroError.
  - With all weights 0, PHP 7 still scores the part 0, since NAN never
    beats 0 at line 719.
  - The `points_possible` it reports is then NAN, where the model reports 0.
  - Mixed-sign weights that sum to 0 give INF in PHP 7.
- Record.AssessRecord.HasActiveAttempt, HasUnsubmittedAttempt,
  CanMakeNewAttempt, GetScoredAttempt and GetTimeLimitExpires are predicates
  and functions of the state without contracts of their own. What they
  answer after each operation is stated in the `ensures` of SetStatus,
  BuildNewAssessVersion, CreateRecord and ReTotalAssess.
- Record.AssessRecord.HasUnsubmittedAttempt, GetScoredAttempt and
  GetTimeLimitExpires are functions, so they do not fill the in-memory
  container as the PHP parse calls would. They read the container a parse
  would produce, so their own answers are the same.
  - The state they leave differs from PHP's: the container stays out of
    memory.
  - So a CanMakeNewAttempt(false) that follows them can answer differently.
    In PHP, hasUnsubmittedAttempt leaves `scoredData` set, and
    canMakeNewAttempt then compares the version count. The model still finds
    no scored container in memory and answers true.
- Record.AssessRecord.RecordTry, ScoreQuestion and ReTotalAssess do not model
  PHP's autovivification when the question version, or for ReTotalAssess the
  record, does not exist. The model records nothing or writes no score there,
  where PHP would create a partial entry.
- Record.AssessRecord.GetOldQuestions returns one list of (qid, seed) pairs
  where the source returns a list of questions and a list of seeds. The pairs
  are in the same order.
- Record.AssessRecord.BuildNewAssessVersion does not call GetOldQuestions.
  The source calls it and discards the result; the call only parses the
  container, which the method parses anyway.
- Retotal.RetotalData picks the best version after the loop over versions.
  The source picks it inside the loop, but it reads only the score just
  written, so both give the same result.
- Penalties.NonIncreasingInTry, NonIncreasingInRegen and LateNeverScoresMore
  also require the other penalty factors to be non-negative. A penalty above
  100% gives a negative factor, which reverses the order.

## Findings

| source | as written | input that shows it | evidently intended | confidence | as-written member | corrected member |
|---|---|---|---|---|---|---|
| assess2/AssessRecord.php:1089-1090 | the regen factor and the reported size use the undefined `$regenOver`, so the factor is 1 and the size 0 | regen penalty 10%, regen number 1, raw 1 on 10 points: score 10, entry ('regen', 0) | `$regensOver`: score 9, entry ('regen', 10) | high, not executed | Findings.RegenPenaltyLostExample | Penalties.ScoreAfterPenaltyReports |
| assess2/AssessRecord.php:1046-1050 | both branches index a slot as if it were its list of question versions, so `$tries` is always null and the answer always `true` | by assessment, one try on part 0 and `tries_max` 1: answers `true`, so part 0 is not refused | read the question versions' tries: part 0 refused | high, not executed | Findings.SubmissionLimitIgnoredExample | Record.AssessRecord.IsSubmissionAllowed |
| assess2/AssessRecord.php:281 | iterates `$ver['question_versions']`, a key no assessment version has, so nothing is ever collected | one version whose question was given qid 5, seed 42: returns empty lists | descend through `['questions']`: returns the pair (5, 42) | high, not executed | Findings.OldQuestionsLostExample | Logs.OldQuestions |
