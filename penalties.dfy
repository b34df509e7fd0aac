/**
 * The penalty calculator `scoreAfterPenalty` (assess2/AssessRecord.php:1076-1102):
 * a raw score times the points possible, reduced in turn by a retry penalty,
 * a regeneration penalty and a late penalty, each a percentage.
 */
module Penalties {
  import opened AssessTypes

  datatype PenaltyKind = Retry | Regen | Late

  /** One entry of the penalty list: its kind and its size in percent. */
  datatype Penalty = Penalty(kind: PenaltyKind, amount: real)

  /** The penalty configuration (`$this->penalties`, set at lines 677-683). */
  datatype PenaltySettings = PenaltySettings(
    retryPenalty: real,
    retryPenaltyAfter: Option<int>,
    regenPenalty: real,
    regenPenaltyAfter: Option<int>,
    exceptionPenalty: real)

  /** A penalised score together with the penalties that were applied. */
  datatype Scored = Scored(score: real, penalties: seq<Penalty>)

  /** How far a try or regen number is past its free allowance; the allowance defaults to 1. */
  function Over(n: int, after: Option<int>): int {
    n + 1 - after.GetOr(1)
  }

  /** The size of the entry of kind k in a penalty list, if there is one. */
  function AmountListed(ps: seq<Penalty>, k: PenaltyKind): Option<real> {
    if ps == [] then None
    else if ps[0].kind == k then Some(ps[0].amount)
    else AmountListed(ps[1..], k)
  }

  /** The factor (1 - amount/100) of the entry of kind k, or 1 when none is listed. */
  function FactorOf(ps: seq<Penalty>, k: PenaltyKind): real {
    match AmountListed(ps, k)
    case None => 1.0
    case Some(a) => 1.0 - a / 100.0
  }

  predicate Listed(ps: seq<Penalty>, k: PenaltyKind) {
    exists i :: 0 <= i < |ps| && ps[i].kind == k
  }

  function Rank(k: PenaltyKind): nat {
    match k
    case Retry => 0
    case Regen => 1
    case Late => 2
  }

  /** Entries appear in the order retry, regen, late, each at most once. */
  predicate InOrder(ps: seq<Penalty>) {
    forall i, j :: 0 <= i < j < |ps| ==> Rank(ps[i].kind) < Rank(ps[j].kind)
  }

  predicate RetryApplies(p: PenaltySettings, try: int) {
    p.retryPenalty > 0.0 && Over(try, p.retryPenaltyAfter) > 0
  }

  predicate RegenApplies(p: PenaltySettings, regen: int) {
    p.regenPenalty > 0.0 && Over(regen, p.regenPenaltyAfter) > 0
  }

  predicate LateApplies(p: PenaltySettings, duedate: int, subtime: int) {
    p.exceptionPenalty > 0.0 && subtime > duedate
  }

  /** The size in percent that an entry of kind k must have. */
  function AmountOf(p: PenaltySettings, k: PenaltyKind, try: int, regen: int): real {
    match k
    case Retry => Over(try, p.retryPenaltyAfter) as real * p.retryPenalty
    case Regen => Over(regen, p.regenPenaltyAfter) as real * p.regenPenalty
    case Late => p.exceptionPenalty
  }

  /** `$penalties[] = e` when b holds. */
  function Push(ps: seq<Penalty>, b: bool, e: Penalty): seq<Penalty> {
    if b then ps + [e] else ps
  }

  /**
   * The penalty list of lines 1078-1097: a retry entry, a regen entry and a
   * late entry, each appended only when its rule applies.
   */
  function Reported(p: PenaltySettings, try: int, regen: int, duedate: int, subtime: int): seq<Penalty> {
    var afterRetry := Push([], RetryApplies(p, try), Penalty(Retry, AmountOf(p, Retry, try, regen)));
    var afterRegen := Push(afterRetry, RegenApplies(p, regen), Penalty(Regen, AmountOf(p, Regen, try, regen)));
    Push(afterRegen, LateApplies(p, duedate, subtime), Penalty(Late, AmountOf(p, Late, try, regen)))
  }

  /** A base reduced by a retry, a regen and a late factor, in that order. */
  function Penalised(base: real, retry: real, regen: real, late: real): real {
    ((base * retry) * regen) * late
  }

  /**
   * `scoreAfterPenalty(score, points, try, regen, duedate, subtime, true)`:
   * the base `score * points` reduced by the retry, regen and late factors,
   * with the list of penalties that were applied. (Lines 1089-1090 read the
   * undefined `$regenOver`; this is the intended `$regensOver`.)
   */
  function ScoreAfterPenalty(p: PenaltySettings, score: real, points: real, try: int, regen: int,
                             duedate: int, subtime: int): Scored {
    Scored(Penalised(score * points, RetryFactor(p, try), RegenFactor(p, regen), LateFactor(p, duedate, subtime)),
           Reported(p, try, regen, duedate, subtime))
  }

  /**
   * The penalised score is the base times (1 - size/100) for exactly the
   * penalties reported; each penalty is reported iff its rule applies, with
   * its size, in the order retry, regen, late. A rule that does not apply
   * contributes the factor 1, which leaves `$base` as the source leaves it.
   */
  lemma ScoreAfterPenaltyReports(p: PenaltySettings, score: real, points: real, try: int, regen: int,
                                 duedate: int, subtime: int)
    ensures var r := ScoreAfterPenalty(p, score, points, try, regen, duedate, subtime);
      && r.score == Penalised(score * points, FactorOf(r.penalties, Retry), FactorOf(r.penalties, Regen),
                              FactorOf(r.penalties, Late))
      && InOrder(r.penalties) && |r.penalties| <= 3
      && (Listed(r.penalties, Retry) <==> RetryApplies(p, try))
      && (Listed(r.penalties, Regen) <==> RegenApplies(p, regen))
      && (Listed(r.penalties, Late) <==> LateApplies(p, duedate, subtime))
      && forall i :: 0 <= i < |r.penalties| ==> r.penalties[i].amount == AmountOf(p, r.penalties[i].kind, try, regen)
  {
    ReportedOrder(p, try, regen, duedate, subtime);
    ReportedKind(p, try, regen, duedate, subtime, Retry);
    ReportedKind(p, try, regen, duedate, subtime, Regen);
    ReportedKind(p, try, regen, duedate, subtime, Late);
  }

  /** Every entry of ps has a rank below n. */
  predicate RanksBelow(ps: seq<Penalty>, n: nat) {
    forall i :: 0 <= i < |ps| ==> Rank(ps[i].kind) < n
  }

  /** Every entry of ps has the size its rule gives it. */
  predicate SizesRight(ps: seq<Penalty>, p: PenaltySettings, try: int, regen: int) {
    forall i :: 0 <= i < |ps| ==> ps[i].amount == AmountOf(p, ps[i].kind, try, regen)
  }

  /** What a conditional append adds to the list, to the kinds listed and to their sizes. */
  lemma PushFacts(ps: seq<Penalty>, b: bool, e: Penalty, k: PenaltyKind)
    ensures var r := Push(ps, b, e);
      && |r| == |ps| + (if b then 1 else 0)
      && (forall i :: 0 <= i < |ps| ==> r[i] == ps[i])
      && (b ==> r[|ps|] == e)
      && (Listed(r, k) <==> Listed(ps, k) || (b && e.kind == k))
      && AmountListed(r, k) == if AmountListed(ps, k).Some? then AmountListed(ps, k)
                               else if b && e.kind == k then Some(e.amount) else None
  {
    if b {
      AmountListedAppend(ps, [e], k);
      AmountListedSingle([e], k);
      var r := ps + [e];
      if Listed(ps, k) {
        var i :| 0 <= i < |ps| && ps[i].kind == k;
        assert r[i] == ps[i];
      }
      if e.kind == k {
        assert r[|ps|] == e;
      }
    }
  }

  /** A conditional append keeps the order and the sizes when the new entry ranks above all others and has its size. */
  lemma PushKeeps(ps: seq<Penalty>, b: bool, e: Penalty, p: PenaltySettings, try: int, regen: int)
    requires InOrder(ps) && RanksBelow(ps, Rank(e.kind)) && SizesRight(ps, p, try, regen)
    requires e.amount == AmountOf(p, e.kind, try, regen)
    ensures InOrder(Push(ps, b, e)) && RanksBelow(Push(ps, b, e), Rank(e.kind) + 1)
    ensures SizesRight(Push(ps, b, e), p, try, regen)
  {
    PushFacts(ps, b, e, e.kind);
  }

  /** Whether the rule of kind k applies. */
  predicate Applies(p: PenaltySettings, k: PenaltyKind, try: int, regen: int, duedate: int, subtime: int) {
    match k
    case Retry => RetryApplies(p, try)
    case Regen => RegenApplies(p, regen)
    case Late => LateApplies(p, duedate, subtime)
  }

  /** The reported list names kind k, with its size, iff the rule of kind k applies. */
  lemma ReportedKind(p: PenaltySettings, try: int, regen: int, duedate: int, subtime: int, k: PenaltyKind)
    ensures var ps := Reported(p, try, regen, duedate, subtime);
      && (Listed(ps, k) <==> Applies(p, k, try, regen, duedate, subtime))
      && AmountListed(ps, k) == if Applies(p, k, try, regen, duedate, subtime) then Some(AmountOf(p, k, try, regen)) else None
  {
    var s0: seq<Penalty> := [];
    var s1 := Push(s0, RetryApplies(p, try), Penalty(Retry, AmountOf(p, Retry, try, regen)));
    var s2 := Push(s1, RegenApplies(p, regen), Penalty(Regen, AmountOf(p, Regen, try, regen)));
    PushFacts(s0, RetryApplies(p, try), Penalty(Retry, AmountOf(p, Retry, try, regen)), k);
    PushFacts(s1, RegenApplies(p, regen), Penalty(Regen, AmountOf(p, Regen, try, regen)), k);
    PushFacts(s2, LateApplies(p, duedate, subtime), Penalty(Late, AmountOf(p, Late, try, regen)), k);
  }

  /** The reported list is in the order retry, regen, late, has at most three entries, each with its size. */
  lemma ReportedOrder(p: PenaltySettings, try: int, regen: int, duedate: int, subtime: int)
    ensures var ps := Reported(p, try, regen, duedate, subtime);
      InOrder(ps) && |ps| <= 3 && SizesRight(ps, p, try, regen)
  {
    var s0: seq<Penalty> := [];
    var s1 := Push(s0, RetryApplies(p, try), Penalty(Retry, AmountOf(p, Retry, try, regen)));
    var s2 := Push(s1, RegenApplies(p, regen), Penalty(Regen, AmountOf(p, Regen, try, regen)));
    PushKeeps(s0, RetryApplies(p, try), Penalty(Retry, AmountOf(p, Retry, try, regen)), p, try, regen);
    PushKeeps(s1, RegenApplies(p, regen), Penalty(Regen, AmountOf(p, Regen, try, regen)), p, try, regen);
    PushKeeps(s2, LateApplies(p, duedate, subtime), Penalty(Late, AmountOf(p, Late, try, regen)), p, try, regen);
    PushFacts(s0, RetryApplies(p, try), Penalty(Retry, AmountOf(p, Retry, try, regen)), Retry);
    PushFacts(s1, RegenApplies(p, regen), Penalty(Regen, AmountOf(p, Regen, try, regen)), Retry);
    PushFacts(s2, LateApplies(p, duedate, subtime), Penalty(Late, AmountOf(p, Late, try, regen)), Retry);
  }

  lemma AmountListedSingle(a: seq<Penalty>, k: PenaltyKind)
    requires |a| <= 1
    ensures AmountListed(a, k) == if a != [] && a[0].kind == k then Some(a[0].amount) else None
  {
    if a != [] {
      assert a[1..] == [];
    }
  }

  lemma {:induction false} AmountListedAppend(a: seq<Penalty>, b: seq<Penalty>, k: PenaltyKind)
    ensures AmountListed(a + b, k) == if AmountListed(a, k).Some? then AmountListed(a, k) else AmountListed(b, k)
  {
    if a == [] {
      assert a + b == b;
    } else {
      assert (a + b)[1..] == a[1..] + b;
      AmountListedAppend(a[1..], b, k);
    }
  }

  /** The retry factor, regen factor and late factor of the rules above. */
  function RetryFactor(p: PenaltySettings, try: int): real {
    if RetryApplies(p, try) then 1.0 - Over(try, p.retryPenaltyAfter) as real * p.retryPenalty / 100.0 else 1.0
  }

  function RegenFactor(p: PenaltySettings, regen: int): real {
    if RegenApplies(p, regen) then 1.0 - Over(regen, p.regenPenaltyAfter) as real * p.regenPenalty / 100.0 else 1.0
  }

  function LateFactor(p: PenaltySettings, duedate: int, subtime: int): real {
    if LateApplies(p, duedate, subtime) then 1.0 - p.exceptionPenalty / 100.0 else 1.0
  }

  /** Lowering one factor lowers the result when the base and the other factors are not negative. */
  lemma PenalisedMonotone(b: real, t1: real, t2: real, g1: real, g2: real, l1: real, l2: real)
    requires b >= 0.0
    requires (t1 == t2 && g1 == g2 && l2 <= l1 && t1 >= 0.0 && g1 >= 0.0)
          || (t1 == t2 && g2 <= g1 && l1 == l2 && t1 >= 0.0 && l1 >= 0.0)
          || (t2 <= t1 && g1 == g2 && l1 == l2 && g1 >= 0.0 && l1 >= 0.0)
    ensures Penalised(b, t2, g2, l2) <= Penalised(b, t1, g1, l1)
  {
    if t1 == t2 && g1 == g2 && l2 <= l1 && t1 >= 0.0 && g1 >= 0.0 {
      MulMonotone(b, 0.0, t1);
      MulMonotone(b * t1, 0.0, g1);
      MulMonotone((b * t1) * g1, l2, l1);
    } else if t1 == t2 && g2 <= g1 && l1 == l2 && t1 >= 0.0 {
      MulMonotone(b, 0.0, t1);
      MulMonotone(b * t1, g2, g1);
      MulMonotone(l1, (b * t1) * g2, (b * t1) * g1);
    } else {
      MulMonotone(b, t2, t1);
      MulMonotone(g1, b * t2, b * t1);
      MulMonotone(l1, (b * t2) * g1, (b * t1) * g1);
    }
  }

  lemma MulMonotone(x: real, a: real, b: real)
    requires x >= 0.0 && a <= b
    ensures x * a <= x * b
  {
  }

  lemma RetryFactorNonIncreasing(p: PenaltySettings, t1: int, t2: int)
    requires t1 <= t2
    ensures RetryFactor(p, t2) <= RetryFactor(p, t1)
  {
    if RetryApplies(p, t1) {
      MulMonotone(p.retryPenalty, Over(t1, p.retryPenaltyAfter) as real, Over(t2, p.retryPenaltyAfter) as real);
    }
  }

  lemma RegenFactorNonIncreasing(p: PenaltySettings, g1: int, g2: int)
    requires g1 <= g2
    ensures RegenFactor(p, g2) <= RegenFactor(p, g1)
  {
    if RegenApplies(p, g1) {
      MulMonotone(p.regenPenalty, Over(g1, p.regenPenaltyAfter) as real, Over(g2, p.regenPenaltyAfter) as real);
    }
  }

  /**
   * For a non-negative base, a later try never scores more, provided the
   * regen and late factors are not negative (a penalty above 100% would
   * flip the sign and reverse the order).
   */
  lemma NonIncreasingInTry(p: PenaltySettings, score: real, points: real, t1: int, t2: int, regen: int,
                           duedate: int, subtime: int)
    requires t1 <= t2 && score * points >= 0.0
    requires RegenFactor(p, regen) >= 0.0 && LateFactor(p, duedate, subtime) >= 0.0
    ensures ScoreAfterPenalty(p, score, points, t2, regen, duedate, subtime).score
            <= ScoreAfterPenalty(p, score, points, t1, regen, duedate, subtime).score
  {
    RetryFactorNonIncreasing(p, t1, t2);
    var g, l := RegenFactor(p, regen), LateFactor(p, duedate, subtime);
    PenalisedMonotone(score * points, RetryFactor(p, t1), RetryFactor(p, t2), g, g, l, l);
  }

  /** The same for a later regeneration. */
  lemma NonIncreasingInRegen(p: PenaltySettings, score: real, points: real, try: int, g1: int, g2: int,
                             duedate: int, subtime: int)
    requires g1 <= g2 && score * points >= 0.0
    requires RetryFactor(p, try) >= 0.0 && LateFactor(p, duedate, subtime) >= 0.0
    ensures ScoreAfterPenalty(p, score, points, try, g2, duedate, subtime).score
            <= ScoreAfterPenalty(p, score, points, try, g1, duedate, subtime).score
  {
    RegenFactorNonIncreasing(p, g1, g2);
    var t, l := RetryFactor(p, try), LateFactor(p, duedate, subtime);
    PenalisedMonotone(score * points, t, t, RegenFactor(p, g1), RegenFactor(p, g2), l, l);
  }

  /** The same for a submission after the due date against one on or before it. */
  lemma LateNeverScoresMore(p: PenaltySettings, score: real, points: real, try: int, regen: int,
                            duedate: int, onTime: int, late: int)
    requires onTime <= duedate < late && score * points >= 0.0 && p.exceptionPenalty >= 0.0
    requires RetryFactor(p, try) >= 0.0 && RegenFactor(p, regen) >= 0.0
    ensures ScoreAfterPenalty(p, score, points, try, regen, duedate, late).score
            <= ScoreAfterPenalty(p, score, points, try, regen, duedate, onTime).score
  {
    var t, g := RetryFactor(p, try), RegenFactor(p, regen);
    PenalisedMonotone(score * points, t, t, g, g, LateFactor(p, duedate, onTime), LateFactor(p, duedate, late));
  }

  /** Raw 1 on 10 points submitted after the due date with a 20% late penalty scores 8. */
  lemma LatePenaltyExample(p: PenaltySettings)
    requires p.retryPenalty == 0.0 && p.regenPenalty == 0.0 && p.exceptionPenalty == 20.0
    ensures ScoreAfterPenalty(p, 1.0, 10.0, 0, 0, 1000, 1100) == Scored(8.0, [Penalty(Late, 20.0)])
  {
  }

  /** A 10% retry penalty after one free try: the second try (try index 1) of raw 1 on 10 points scores 9. */
  lemma RetryPenaltyExample(p: PenaltySettings)
    requires p.retryPenalty == 10.0 && p.retryPenaltyAfter == None
    requires p.regenPenalty == 0.0 && p.exceptionPenalty == 0.0
    ensures ScoreAfterPenalty(p, 1.0, 10.0, 0, 0, 1000, 900).score == 10.0
    ensures ScoreAfterPenalty(p, 1.0, 10.0, 1, 0, 1000, 900) == Scored(9.0, [Penalty(Retry, 10.0)])
  {
  }
}
