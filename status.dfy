/**
 * The record's `status` bit field (assess2/AssessRecord.php:303-348):
 * bit value 1 marks an active by-assessment attempt, 2 an active
 * by-question attempt and 16 an active practice attempt. PHP integers are
 * 64 bits wide, so the field is a `bv64`.
 */
module Status {
  import opened AssessTypes

  const ByAssessmentBit: bv64 := 1
  const ByQuestionBit: bv64 := 2
  const ScoredBits: bv64 := 3
  const PracticeBit: bv64 := 16

  /** `hasActiveAttempt` on a record that exists: the practice bit, or either scored bit. */
  predicate ActiveIn(status: bv64, practice: bool) {
    if practice then status & PracticeBit != 0 else status & ScoredBits != 0
  }

  /** `status |= 16` */
  function SetPractice(status: bv64): (r: bv64)
    ensures r & PracticeBit == PracticeBit
    ensures r & !PracticeBit == status & !PracticeBit
  {
    status | PracticeBit
  }

  /** `status & ~16` */
  function ClearPractice(status: bv64): (r: bv64)
    ensures r & PracticeBit == 0
    ensures r & !PracticeBit == status & !PracticeBit
  {
    status & !PracticeBit
  }

  /** `status & ~3` */
  function ClearScored(status: bv64): (r: bv64)
    ensures r & ScoredBits == 0
    ensures r & !ScoredBits == status & !ScoredBits
  {
    status & !ScoredBits
  }

  /** `status |= bit` for one of the two scored bits, on a status whose scored bits are clear. */
  function SetScored(status: bv64, bit: bv64): (r: bv64)
    requires status & ScoredBits == 0
    requires bit == ByAssessmentBit || bit == ByQuestionBit
    ensures r & ScoredBits == bit
    ensures r & !ScoredBits == status & !ScoredBits
  {
    status | bit
  }

  /** The bit `setStatus(true, false)` sets for a submit mode; none for an unrecognised mode. */
  function ModeBit(sb: SubmitBy): (b: bv64)
    ensures b != 0 <==> sb != OtherSubmitBy
  {
    match sb
    case ByAssessment => ByAssessmentBit
    case ByQuestion => ByQuestionBit
    case OtherSubmitBy => 0
  }

  /**
   * The new status after `setStatus(active, practice)` on an existing record.
   * Practice touches only bit 16; scored clears bits 1 and 2 and, when
   * activating, sets exactly the bit of the submit mode.
   */
  function StatusAfter(status: bv64, active: bool, practice: bool, sb: SubmitBy): (r: bv64)
    ensures practice ==> r & PracticeBit == (if active then PracticeBit else 0)
    ensures practice ==> r & !PracticeBit == status & !PracticeBit
    ensures !practice ==> r & ScoredBits == (if active then ModeBit(sb) else 0)
    ensures !practice ==> r & !ScoredBits == status & !ScoredBits
  {
    if practice then
      if active then SetPractice(status) else ClearPractice(status)
    else
      var cleared := ClearScored(status);
      if active && sb != OtherSubmitBy then SetScored(cleared, ModeBit(sb)) else cleared
  }

  /** Bit 16 is untouched by a change confined to bits 1 and 2, and the other way round. */
  lemma BitsApart(s: bv64, t: bv64)
    ensures s & !ScoredBits == t & !ScoredBits ==> s & PracticeBit == t & PracticeBit
    ensures s & !PracticeBit == t & !PracticeBit ==> s & ScoredBits == t & ScoredBits
  {
    assert s & PracticeBit == (s & !ScoredBits) & PracticeBit;
    assert t & PracticeBit == (t & !ScoredBits) & PracticeBit;
    assert s & ScoredBits == (s & !PracticeBit) & ScoredBits;
    assert t & ScoredBits == (t & !PracticeBit) & ScoredBits;
  }

  /**
   * After `setStatus(active, practice)` the same kind of attempt is active
   * exactly when it was activated (and, for scored, the mode is known);
   * the other kind keeps its activity.
   */
  lemma SetStatusThenActive(status: bv64, active: bool, practice: bool, sb: SubmitBy)
    ensures ActiveIn(StatusAfter(status, active, practice, sb), practice)
            <==> active && (practice || sb != OtherSubmitBy)
    ensures ActiveIn(StatusAfter(status, active, practice, sb), !practice)
            <==> ActiveIn(status, !practice)
  {
    BitsApart(StatusAfter(status, active, practice, sb), status);
  }

  /** The two scored bits are never both set after a scored `setStatus`. */
  lemma ScoredBitsExclusive(status: bv64, active: bool, sb: SubmitBy)
    ensures StatusAfter(status, active, false, sb) & ScoredBits != ScoredBits
  {
  }
}
