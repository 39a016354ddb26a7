/**
 * The rule-based risk evaluator. Scores are integer tenths: 7 stands for 0.7.
 * `Assess` is the specification, built from the list of rules that fire;
 * `EvaluateSingle` is the step-by-step evaluator, proved equal to it.
 */
module FraudService {
  import opened Records
  import opened Selection

  const HourMs: int := 60 * 60 * 1000

  /** The reasons the rules report; `Message` gives the text the service returns. */
  datatype Reason =
    | VeryHighAmount | HighAmount | AboveAverageAmount
    | UnusualVelocity | HighVelocity
    | NewMerchant

  function Message(reason: Reason): string {
    match reason
    case VeryHighAmount => "Very high transaction amount"
    case HighAmount => "High transaction amount"
    case AboveAverageAmount => "Above-average transaction amount"
    case UnusualVelocity => "Unusual number of transactions in the last hour"
    case HighVelocity => "High number of transactions in the last hour"
    case NewMerchant => "New merchant for this user"
  }

  datatype RiskLevel = Low | Medium | High

  /** `riskTenths` is the risk score in tenths; the score itself is riskTenths / 10. */
  datatype FraudResult = FraudResult(riskTenths: nat, reasons: seq<Reason>, riskLevel: RiskLevel)

  /** What one rule adds to the score, and the reason it reports. */
  datatype Contribution = Contribution(tenths: nat, reason: Reason)

  // ---- The three rules, each as a function of what it looks at ----

  function AmountRule(amount: real): Option<Contribution> {
    if amount >= 100000.0 then Some(Contribution(7, VeryHighAmount))
    else if amount >= 50000.0 then Some(Contribution(5, HighAmount))
    else if amount >= 10000.0 then Some(Contribution(3, AboveAverageAmount))
    else None
  }

  function VelocityRule(count: nat): Option<Contribution> {
    if count >= 10 then Some(Contribution(5, UnusualVelocity))
    else if count >= 5 then Some(Contribution(3, HighVelocity))
    else None
  }

  function MerchantRule(seenBefore: bool): Option<Contribution> {
    if seenBefore then None else Some(Contribution(2, NewMerchant))
  }

  /** The window entries at most one hour older than `tx` and not newer than it. */
  function LastHour(ts: int, window: seq<Transaction>): (r: seq<Transaction>)
    ensures forall t :: t in r <==> t in window && ts - HourMs <= t.timestamp <= ts
  {
    Select(InRange(ts - HourMs, ts), window)
  }

  /** The velocity count counts each in-hour entry as often as it occurs in the window. */
  lemma LastHourMultiplicity(ts: int, window: seq<Transaction>)
    ensures forall t :: multiset(LastHour(ts, window))[t] ==
                        if ts - HourMs <= t.timestamp <= ts then multiset(window)[t] else 0
  {
    SelectMultiset(InRange(ts - HourMs, ts), window);
  }

  /** Whether some other transaction in the window went to the same merchant. */
  predicate SeenBefore(tx: Transaction, window: seq<Transaction>) {
    exists t :: t in window && t.merchant == tx.merchant && t.id != tx.id
  }

  function Present(o: Option<Contribution>): seq<Contribution> {
    if o.Some? then [o.value] else []
  }

  /** The weight each reason stands for. */
  function ReasonWeight(reason: Reason): nat {
    match reason
    case VeryHighAmount => 7
    case HighAmount => 5
    case AboveAverageAmount => 3
    case UnusualVelocity => 5
    case HighVelocity => 3
    case NewMerchant => 2
  }

  /** The rule a reason belongs to: 0 amount, 1 velocity, 2 merchant. */
  function RuleRank(reason: Reason): nat {
    match reason
    case VeryHighAmount | HighAmount | AboveAverageAmount => 0
    case UnusualVelocity | HighVelocity => 1
    case NewMerchant => 2
  }

  /**
   * The contributions of the rules that fire, in evaluation order, given the
   * three quantities the rules read: the amount, the number of transactions
   * in the trailing hour, and whether the merchant was seen before.
   */
  function Fired(amount: real, recentCount: nat, seenBefore: bool): (cs: seq<Contribution>)
    ensures |cs| <= 3
    ensures forall i :: 0 <= i < |cs| ==> 0 < cs[i].tenths == ReasonWeight(cs[i].reason)
    ensures forall i, j :: 0 <= i < j < |cs| ==> RuleRank(cs[i].reason) < RuleRank(cs[j].reason)
  {
    Present(AmountRule(amount)) + Present(VelocityRule(recentCount)) + Present(MerchantRule(seenBefore))
  }

  /** The rules that fire for `tx` against `window`. */
  function FiredFor(tx: Transaction, window: seq<Transaction>): seq<Contribution> {
    Fired(tx.amount, |LastHour(tx.timestamp, window)|, SeenBefore(tx, window))
  }

  function Total(cs: seq<Contribution>): nat {
    if cs == [] then 0 else cs[0].tenths + Total(cs[1..])
  }

  function ReasonsOf(cs: seq<Contribution>): (rs: seq<Reason>)
    ensures |rs| == |cs|
    ensures forall i :: 0 <= i < |cs| ==> rs[i] == cs[i].reason
  {
    if cs == [] then [] else [cs[0].reason] + ReasonsOf(cs[1..])
  }

  /** The sum of the weights of a list of reasons. */
  function Weight(reasons: seq<Reason>): nat {
    if reasons == [] then 0 else ReasonWeight(reasons[0]) + Weight(reasons[1..])
  }

  function LevelOf(tenths: int): RiskLevel {
    if tenths >= 7 then High else if tenths >= 3 then Medium else Low
  }

  /** The score before clamping: the sum of what the fired rules add. */
  function RawScore(tx: Transaction, window: seq<Transaction>): nat {
    Total(FiredFor(tx, window))
  }

  /** The assessment of `tx` against `window`. */
  function Assess(tx: Transaction, window: seq<Transaction>): (r: FraudResult)
    ensures r.riskTenths <= 10
    ensures RawScore(tx, window) <= 10 ==> r.riskTenths == RawScore(tx, window)
    ensures RawScore(tx, window) > 10 ==> r.riskTenths == 10
    ensures r.riskLevel == High <==> r.riskTenths >= 7
    ensures r.riskLevel == Medium <==> 3 <= r.riskTenths < 7
    ensures r.riskLevel == Low <==> r.riskTenths < 3
    ensures |r.reasons| <= 3
  {
    var raw := RawScore(tx, window);
    var score := if raw > 10 then 10 else raw;
    FraudResult(score, ReasonsOf(FiredFor(tx, window)), LevelOf(score))
  }

  // ---- The evaluator as the service runs it ----

  method EvaluateSingle(transaction: Transaction, recentTransactions: seq<Transaction>)
    returns (result: FraudResult)
    ensures result == Assess(transaction, recentTransactions)
  {
    var score: nat := 0;
    var reasons: seq<Reason> := [];

    // Rule 1: amount tier
    if transaction.amount >= 100000.0 {
      score := score + 7;
      reasons := reasons + [VeryHighAmount];
    } else if transaction.amount >= 50000.0 {
      score := score + 5;
      reasons := reasons + [HighAmount];
    } else if transaction.amount >= 10000.0 {
      score := score + 3;
      reasons := reasons + [AboveAverageAmount];
    }
    ghost var fired := Present(AmountRule(transaction.amount));
    PresentFacts(AmountRule(transaction.amount));
    assert score == Total(fired) && reasons == ReasonsOf(fired);

    // Rule 2: transactions in the trailing hour
    var txLastHour := LastHour(transaction.timestamp, recentTransactions);
    ghost var before, reasonsBefore := score, reasons;
    if |txLastHour| >= 10 {
      score := score + 5;
      reasons := reasons + [UnusualVelocity];
    } else if |txLastHour| >= 5 {
      score := score + 3;
      reasons := reasons + [HighVelocity];
    }
    AppendRule(fired, VelocityRule(|txLastHour|), before, reasonsBefore, score, reasons);
    fired := fired + Present(VelocityRule(|txLastHour|));

    // Rule 3: new merchant, not counting the transaction itself
    var previousTxForMerchant :=
      Select(OtherSameMerchant(transaction.id, transaction.merchant), recentTransactions);
    var hasSeenMerchantBefore := |previousTxForMerchant| > 0;
    before, reasonsBefore := score, reasons;
    if !hasSeenMerchantBefore {
      score := score + 2;
      reasons := reasons + [NewMerchant];
    }
    AppendRule(fired, MerchantRule(hasSeenMerchantBefore), before, reasonsBefore, score, reasons);
    fired := fired + Present(MerchantRule(hasSeenMerchantBefore));

    PreviousForMerchant(transaction, recentTransactions);
    AssessOfFired(transaction, recentTransactions, |txLastHour|, hasSeenMerchantBefore);
    assert fired == Fired(transaction.amount, |txLastHour|, hasSeenMerchantBefore);
    ghost var raw := score;

    // Clamp
    if score > 10 {
      score := 10;
    }

    // Map the score to a level
    var riskLevel := Low;
    if score >= 7 {
      riskLevel := High;
    } else if score >= 3 {
      riskLevel := Medium;
    }

    assert score == (if raw > 10 then 10 else raw) && riskLevel == LevelOf(score);
    result := FraudResult(score, reasons, riskLevel);
  }

  /** One rule step of the evaluator keeps score and reasons in step with the fired list. */
  lemma AppendRule(fired: seq<Contribution>, o: Option<Contribution>,
                   score: nat, reasons: seq<Reason>, score': nat, reasons': seq<Reason>)
    requires score == Total(fired) && reasons == ReasonsOf(fired)
    requires o.Some? ==> score' == score + o.value.tenths && reasons' == reasons + [o.value.reason]
    requires o.None? ==> score' == score && reasons' == reasons
    ensures score' == Total(fired + Present(o)) && reasons' == ReasonsOf(fired + Present(o))
  {
    PresentFacts(o);
    TotalAppend(fired, Present(o));
    ReasonsAppend(fired, Present(o));
  }

  // ---- Helpers ----

  /** The assessment in terms of the velocity count and the merchant check the evaluator computes. */
  lemma AssessOfFired(tx: Transaction, window: seq<Transaction>, recentCount: nat, seenBefore: bool)
    requires recentCount == |LastHour(tx.timestamp, window)|
    requires seenBefore == SeenBefore(tx, window)
    ensures var raw := Total(Fired(tx.amount, recentCount, seenBefore));
      var score := if raw > 10 then 10 else raw;
      Assess(tx, window) == FraudResult(score, ReasonsOf(Fired(tx.amount, recentCount, seenBefore)), LevelOf(score))
  {
  }

  /** The merchant filter of the evaluator is non-empty exactly when the merchant was seen before. */
  lemma PreviousForMerchant(tx: Transaction, window: seq<Transaction>)
    ensures |Select(OtherSameMerchant(tx.id, tx.merchant), window)| > 0 <==> SeenBefore(tx, window)
  {
    var r := Select(OtherSameMerchant(tx.id, tx.merchant), window);
    if |r| > 0 {
      assert r[0] in r;
    }
  }

  lemma PresentFacts(o: Option<Contribution>)
    ensures Total(Present(o)) == if o.Some? then o.value.tenths else 0
    ensures ReasonsOf(Present(o)) == if o.Some? then [o.value.reason] else []
  {
    if o.Some? {
      assert Present(o)[1..] == [];
    }
  }

  lemma {:induction false} TotalAppend(a: seq<Contribution>, b: seq<Contribution>)
    ensures Total(a + b) == Total(a) + Total(b)
    decreases |a|
  {
    if a != [] {
      assert (a + b)[1..] == a[1..] + b;
      TotalAppend(a[1..], b);
    } else {
      assert a + b == b;
    }
  }

  lemma {:induction false} ReasonsAppend(a: seq<Contribution>, b: seq<Contribution>)
    ensures ReasonsOf(a + b) == ReasonsOf(a) + ReasonsOf(b)
  {
  }

  lemma {:induction false} TotalIsWeight(cs: seq<Contribution>)
    requires forall i :: 0 <= i < |cs| ==> cs[i].tenths == ReasonWeight(cs[i].reason)
    ensures Total(cs) == Weight(ReasonsOf(cs))
    decreases |cs|
  {
    if cs != [] {
      TotalIsWeight(cs[1..]);
      assert ReasonsOf(cs)[1..] == ReasonsOf(cs[1..]);
    }
  }

  // ---- Properties of the assessment ----

  /** The unclamped score is exactly the sum of the weights of the reported reasons. */
  lemma ScoreIsWeightOfReasons(tx: Transaction, window: seq<Transaction>)
    ensures RawScore(tx, window) == Weight(Assess(tx, window).reasons)
  {
    TotalIsWeight(FiredFor(tx, window));
  }

  /** Reasons appear in rule order, amount then velocity then merchant, at most one per rule. */
  lemma ReasonsInRuleOrder(tx: Transaction, window: seq<Transaction>)
    ensures var rs := Assess(tx, window).reasons;
      forall i, j :: 0 <= i < j < |rs| ==> RuleRank(rs[i]) < RuleRank(rs[j])
  {
  }

  lemma FiredReasons(amount: real, recentCount: nat, seenBefore: bool, reason: Reason)
    ensures reason in ReasonsOf(Fired(amount, recentCount, seenBefore)) <==>
      (AmountRule(amount).Some? && AmountRule(amount).value.reason == reason) ||
      (VelocityRule(recentCount).Some? && VelocityRule(recentCount).value.reason == reason) ||
      (!seenBefore && reason == NewMerchant)
  {
    var a := Present(AmountRule(amount));
    var v := Present(VelocityRule(recentCount));
    var m := Present(MerchantRule(seenBefore));
    ReasonsAppend(a, v);
    ReasonsAppend(a + v, m);
    PresentFacts(AmountRule(amount));
    PresentFacts(VelocityRule(recentCount));
    PresentFacts(MerchantRule(seenBefore));
  }

  /** Membership of a reason in the reported list, rule by rule. */
  lemma ReasonsByRule(tx: Transaction, window: seq<Transaction>, reason: Reason)
    ensures reason in Assess(tx, window).reasons <==>
      (AmountRule(tx.amount).Some? && AmountRule(tx.amount).value.reason == reason) ||
      (VelocityRule(|LastHour(tx.timestamp, window)|).Some? &&
       VelocityRule(|LastHour(tx.timestamp, window)|).value.reason == reason) ||
      (!SeenBefore(tx, window) && reason == NewMerchant)
  {
    FiredReasons(tx.amount, |LastHour(tx.timestamp, window)|, SeenBefore(tx, window), reason);
  }

  /** The amount tiers are mutually exclusive, and each is reported exactly in its range. */
  lemma AmountTiers(tx: Transaction, window: seq<Transaction>)
    ensures var rs := Assess(tx, window).reasons;
      && (VeryHighAmount in rs <==> tx.amount >= 100000.0)
      && (HighAmount in rs <==> 50000.0 <= tx.amount < 100000.0)
      && (AboveAverageAmount in rs <==> 10000.0 <= tx.amount < 50000.0)
  {
    ReasonsByRule(tx, window, VeryHighAmount);
    ReasonsByRule(tx, window, HighAmount);
    ReasonsByRule(tx, window, AboveAverageAmount);
  }

  /** Changing only the amount moves the unclamped score by exactly the tier's weight. */
  lemma AmountTierContribution(tx: Transaction, window: seq<Transaction>)
    ensures var base := RawScore(tx.(amount := 0.0), window);
      && (tx.amount >= 100000.0 ==> RawScore(tx, window) == base + 7)
      && (50000.0 <= tx.amount < 100000.0 ==> RawScore(tx, window) == base + 5)
      && (10000.0 <= tx.amount < 50000.0 ==> RawScore(tx, window) == base + 3)
      && (tx.amount < 10000.0 ==> RawScore(tx, window) == base)
  {
    var t0 := tx.(amount := 0.0);
    var n, seen := |LastHour(tx.timestamp, window)|, SeenBefore(tx, window);
    assert SeenBefore(t0, window) == seen;
    var rest := Present(VelocityRule(n)) + Present(MerchantRule(seen));
    assert Fired(tx.amount, n, seen) == Present(AmountRule(tx.amount)) + rest;
    assert Fired(0.0, n, seen) == [] + rest;
    TotalAppend(Present(AmountRule(tx.amount)), rest);
    TotalAppend([], rest);
    PresentFacts(AmountRule(tx.amount));
  }

  /** The velocity tiers, with the count taken over [timestamp - 1h, timestamp] inclusive. */
  lemma VelocityTiers(tx: Transaction, window: seq<Transaction>)
    ensures var n := |LastHour(tx.timestamp, window)|; var rs := Assess(tx, window).reasons;
      && (UnusualVelocity in rs <==> n >= 10)
      && (HighVelocity in rs <==> 5 <= n < 10)
  {
    ReasonsByRule(tx, window, UnusualVelocity);
    ReasonsByRule(tx, window, HighVelocity);
  }

  /** The new-merchant rule fires iff no other-id window entry has the same merchant. */
  lemma NewMerchantRule(tx: Transaction, window: seq<Transaction>)
    ensures NewMerchant in Assess(tx, window).reasons <==>
      !exists t :: t in window && t.merchant == tx.merchant && t.id != tx.id
  {
    ReasonsByRule(tx, window, NewMerchant);
  }

  /** An entry carrying the subject's own id never counts as the merchant seen before. */
  lemma OwnIdNeverSeenBefore(tx: Transaction, window: seq<Transaction>, u: Transaction)
    requires u.id == tx.id
    ensures NewMerchant in Assess(tx, window + [u]).reasons <==> NewMerchant in Assess(tx, window).reasons
  {
    NewMerchantRule(tx, window);
    NewMerchantRule(tx, window + [u]);
    assert forall t :: t in window + [u] <==> t in window || t == u;
  }

  /** With no recent entry and an unknown merchant, only the amount rule and the merchant rule can fire. */
  lemma FiredWithoutHistory(amount: real)
    ensures var rs := ReasonsOf(Fired(amount, 0, false));
      && UnusualVelocity !in rs && HighVelocity !in rs
      && |rs| > 0 && rs[|rs| - 1] == NewMerchant
    ensures Total(Fired(0.0, 0, false)) == 2
  {
    var a := Present(AmountRule(amount));
    var m := [Contribution(2, NewMerchant)];
    assert Fired(amount, 0, false) == a + m;
    ReasonsAppend(a, m);
    PresentFacts(AmountRule(amount));
    var rs := ReasonsOf(Fired(amount, 0, false));
    if amount >= 10000.0 {
      assert rs == [AmountRule(amount).value.reason, NewMerchant];
    } else {
      assert rs == [NewMerchant];
    }
    assert Fired(0.0, 0, false) == m;
  }

  /** With an empty window the velocity rule adds nothing and the merchant rule always fires. */
  lemma EmptyWindow(tx: Transaction)
    ensures var rs := Assess(tx, []).reasons;
      && UnusualVelocity !in rs && HighVelocity !in rs
      && |rs| > 0 && rs[|rs| - 1] == NewMerchant
      && RawScore(tx.(amount := 0.0), []) == 2
  {
    assert |LastHour(tx.timestamp, [])| == 0;
    assert !SeenBefore(tx, []) && !SeenBefore(tx.(amount := 0.0), []);
    FiredWithoutHistory(tx.amount);
  }

  /** The assessment sees only which transactions are in the window, not their order. */
  lemma AssessIgnoresOrder(tx: Transaction, w1: seq<Transaction>, w2: seq<Transaction>)
    requires multiset(w1) == multiset(w2)
    ensures Assess(tx, w1) == Assess(tx, w2)
  {
    SelectPermutation(InRange(tx.timestamp - HourMs, tx.timestamp), w1, w2);
    assert |LastHour(tx.timestamp, w1)| == |LastHour(tx.timestamp, w2)|;
    SameElements(w1, w2);
    assert SeenBefore(tx, w1) == SeenBefore(tx, w2);
    assert FiredFor(tx, w1) == FiredFor(tx, w2);
  }

  lemma SameElements(w1: seq<Transaction>, w2: seq<Transaction>)
    requires multiset(w1) == multiset(w2)
    ensures forall t :: t in w1 <==> t in w2
  {
    forall t ensures t in w1 <==> t in w2 {
      assert t in w1 <==> t in multiset(w1);
      assert t in w2 <==> t in multiset(w2);
    }
  }

  /** When every window entry lies in the trailing hour, all of them count toward velocity. */
  lemma WholeWindowInLastHour(tx: Transaction, window: seq<Transaction>)
    requires forall t :: t in window ==> tx.timestamp - HourMs <= t.timestamp <= tx.timestamp
    ensures |LastHour(tx.timestamp, window)| == |window|
  {
    SelectAll(InRange(tx.timestamp - HourMs, tx.timestamp), window);
  }

  /** Nine transactions in the trailing hour give the lower velocity tier, ten or more the upper. */
  lemma VelocityAtTheThresholds(tx: Transaction, window: seq<Transaction>)
    requires forall t :: t in window ==> tx.timestamp - HourMs <= t.timestamp <= tx.timestamp
    ensures var rs := Assess(tx, window).reasons;
      && (|window| == 9 ==> HighVelocity in rs && UnusualVelocity !in rs)
      && (|window| >= 10 ==> UnusualVelocity in rs && HighVelocity !in rs)
  {
    WholeWindowInLastHour(tx, window);
    VelocityTiers(tx, window);
  }

  /** A large amount at a known merchant, with no other transaction in the hour. */
  lemma KnownMerchantScenario(t: int)
    ensures var subject := Transaction(100, Some(1), 75000.0, "Acme", t, None, None, None);
      var window := [Transaction(1, Some(1), 10.0, "Acme", t - 2 * HourMs, None, None, None),
                     Transaction(2, Some(1), 10.0, "Acme", t - 3 * HourMs, None, None, None),
                     Transaction(3, Some(1), 10.0, "Acme", t - 10 * HourMs, None, None, None)];
      Assess(subject, window) == FraudResult(5, [HighAmount], Medium)
  {
    var subject := Transaction(100, Some(1), 75000.0, "Acme", t, None, None, None);
    var window := [Transaction(1, Some(1), 10.0, "Acme", t - 2 * HourMs, None, None, None),
                   Transaction(2, Some(1), 10.0, "Acme", t - 3 * HourMs, None, None, None),
                   Transaction(3, Some(1), 10.0, "Acme", t - 10 * HourMs, None, None, None)];
    SelectNone(InRange(t - HourMs, t), window);
    assert window[0] in window;
    assert SeenBefore(subject, window);
    assert FiredFor(subject, window) == [Contribution(5, HighAmount)];
    PresentFacts(Some(Contribution(5, HighAmount)));
  }

  /** A small amount at a merchant never seen, with an empty window. */
  lemma NewMerchantScenario(t: int)
    ensures Assess(Transaction(7, Some(1), 5000.0, "NewCo", t, None, None, None), [])
         == FraudResult(2, [NewMerchant], Low)
  {
    var subject := Transaction(7, Some(1), 5000.0, "NewCo", t, None, None, None);
    assert LastHour(t, []) == [];
    assert FiredFor(subject, []) == [Contribution(2, NewMerchant)];
    PresentFacts(Some(Contribution(2, NewMerchant)));
  }
}
