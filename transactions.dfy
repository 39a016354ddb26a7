/**
 * The per-user statistics replay and the ingestion path. The store's query
 * results are given as sequences; `stored` is the store's content.
 */
module TransactionsService {
  import opened Records
  import opened Selection
  import opened FraudService

  const DayMs: int := 24 * 60 * 60 * 1000
  const DefaultCurrency := "INR"

  /** Percentages are in tenths of a percent: 333 stands for 33.3. */
  datatype UserStats = UserStats(
    totalTransactions: nat,
    highRiskCount: nat,
    mediumRiskCount: nat,
    lowRiskCount: nat,
    highRiskPercentage: nat,
    mediumRiskPercentage: nat,
    lowRiskPercentage: nat)

  // ---- Statistics ----

  /** The window the statistics replay scores `tx` against. */
  function StatsWindow(userId: int, tx: Transaction, all: seq<Transaction>): (r: seq<Transaction>)
    ensures forall t :: t in r <==>
      t in all && tx.timestamp - DayMs <= t.timestamp <= tx.timestamp && t.owner == Some(userId)
  {
    Select(OwnedInRange(userId, tx.timestamp - DayMs, tx.timestamp), all)
  }

  /** The statistics window keeps each in-range entry of the user as often as it occurs. */
  lemma StatsWindowMultiplicity(userId: int, tx: Transaction, all: seq<Transaction>)
    ensures forall t :: multiset(StatsWindow(userId, tx, all))[t] ==
                        if tx.timestamp - DayMs <= t.timestamp <= tx.timestamp && t.owner == Some(userId)
                        then multiset(all)[t] else 0
  {
    SelectMultiset(OwnedInRange(userId, tx.timestamp - DayMs, tx.timestamp), all);
  }

  /** The level the replay assigns to `tx` within the list `all`. */
  function LevelIn(userId: int, all: seq<Transaction>, tx: Transaction): RiskLevel {
    Assess(tx, StatsWindow(userId, tx, all)).riskLevel
  }

  /** Whether the replay over `all` assigns `level` to a transaction. */
  function HasLevel(userId: int, all: seq<Transaction>, level: RiskLevel): Transaction -> bool {
    tx => LevelIn(userId, all, tx) == level
  }

  /** How many of `txs` the replay over `all` assigns `level`. */
  function CountLevel(userId: int, all: seq<Transaction>, txs: seq<Transaction>, level: RiskLevel): (n: nat)
    ensures n <= |txs|
  {
    Count(HasLevel(userId, all, level), txs)
  }

  /** How many entries of `s` satisfy `f`, counted from the back. */
  function Count<T>(f: T -> bool, s: seq<T>): (n: nat)
    ensures n <= |s|
  {
    if s == [] then 0 else Count(f, s[..|s| - 1]) + (if f(s[|s| - 1]) then 1 else 0)
  }

  /** `count` as a percentage of `total`, in tenths, rounded to the nearest tenth (halves up). */
  function PctTenths(count: nat, total: nat): (p: nat)
    requires total > 0
    ensures count <= total ==> p <= 1000
    ensures -(total as int) <= 2 * (1000 * count - total * p) < total
  {
    RoundHalfUp(2000 * count + total, 2 * total, count, total);
    (2000 * count + total) / (2 * total)
  }

  lemma RoundHalfUp(num: nat, den: nat, count: nat, total: nat)
    requires total > 0 && num == 2000 * count + total && den == 2 * total
    ensures count <= total ==> num / den <= 1000
    ensures -(total as int) <= 2 * (1000 * count - total * (num / den)) < total
  {
    var q, r := num / den, num % den;
    assert num == den * q + r && 0 <= r < den;
    if count <= total && q > 1000 {
      MulMono(den, 1001, q);
    }
  }

  lemma MulMono(a: nat, b: int, c: int)
    requires b <= c
    ensures a * b <= a * c
  {
  }

  method GetUserStats(userId: int, transactions: seq<Transaction>) returns (stats: UserStats)
    ensures stats.totalTransactions == |transactions|
    ensures |transactions| == 0 ==> stats == UserStats(0, 0, 0, 0, 0, 0, 0)
    ensures stats.highRiskCount + stats.mediumRiskCount + stats.lowRiskCount == |transactions|
    ensures stats.highRiskCount == CountLevel(userId, transactions, transactions, High)
    ensures stats.mediumRiskCount == CountLevel(userId, transactions, transactions, Medium)
    ensures stats.lowRiskCount == CountLevel(userId, transactions, transactions, Low)
    ensures |transactions| > 0 ==>
      && stats.highRiskPercentage == PctTenths(stats.highRiskCount, |transactions|)
      && stats.mediumRiskPercentage == PctTenths(stats.mediumRiskCount, |transactions|)
      && stats.lowRiskPercentage == PctTenths(stats.lowRiskCount, |transactions|)
  {
    var total := |transactions|;
    if total == 0 {
      return UserStats(0, 0, 0, 0, 0, 0, 0);
    }

    var high, medium, low := 0, 0, 0;
    for i := 0 to total
      invariant high == CountLevel(userId, transactions, transactions[..i], High)
      invariant medium == CountLevel(userId, transactions, transactions[..i], Medium)
      invariant low == CountLevel(userId, transactions, transactions[..i], Low)
      invariant high + medium + low == i
    {
      var tx := transactions[i];
      var recent := StatsWindow(userId, tx, transactions);
      var result := EvaluateSingle(tx, recent);
      assert result.riskLevel == LevelIn(userId, transactions, tx);
      CountLevelStep(userId, transactions, i, High);
      CountLevelStep(userId, transactions, i, Medium);
      CountLevelStep(userId, transactions, i, Low);
      if result.riskLevel == High {
        high := high + 1;
      } else if result.riskLevel == Medium {
        medium := medium + 1;
      } else {
        low := low + 1;
      }
    }
    assert transactions[..total] == transactions;

    stats := UserStats(total, high, medium, low,
                       PctTenths(high, total), PctTenths(medium, total), PctTenths(low, total));
  }

  /** Extending the replayed prefix by one transaction adds one to that transaction's level only. */
  lemma CountLevelStep(userId: int, all: seq<Transaction>, i: nat, level: RiskLevel)
    requires i < |all|
    ensures CountLevel(userId, all, all[..i + 1], level) ==
            CountLevel(userId, all, all[..i], level) + (if LevelIn(userId, all, all[i]) == level then 1 else 0)
  {
    assert all[..i + 1][..i] == all[..i];
  }

  /** Every replayed transaction lands in exactly one of the three tiers. */
  lemma {:induction false} LevelCountsPartition(userId: int, all: seq<Transaction>, txs: seq<Transaction>)
    ensures CountLevel(userId, all, txs, High) + CountLevel(userId, all, txs, Medium)
          + CountLevel(userId, all, txs, Low) == |txs|
    decreases |txs|
  {
    if txs != [] {
      LevelCountsPartition(userId, all, txs[..|txs| - 1]);
    }
  }

  lemma {:induction false} CountAppend<T>(f: T -> bool, p: seq<T>, q: seq<T>)
    ensures Count(f, p + q) == Count(f, p) + Count(f, q)
    decreases |q|
  {
    if q == [] {
      assert p + q == p;
    } else {
      assert (p + q)[..|p + q| - 1] == p + q[..|q| - 1];
      CountAppend(f, p, q[..|q| - 1]);
    }
  }

  /** A count does not depend on the order of the entries. */
  lemma {:induction false} CountPermutation<T>(f: T -> bool, p: seq<T>, q: seq<T>)
    requires multiset(p) == multiset(q)
    ensures Count(f, p) == Count(f, q)
    decreases |p|
  {
    if p == [] {
      assert |q| == |multiset(q)| == 0;
    } else {
      var j := MatchLast(p, q);
      var x := q[j];
      CountPermutation(f, p[..|p| - 1], q[..j] + q[j + 1..]);
      CountAppend(f, q[..j] + [x], q[j + 1..]);
      CountAppend(f, q[..j], [x]);
      CountAppend(f, q[..j], q[j + 1..]);
      assert [x][..0] == [];
      assert q == q[..j] + [x] + q[j + 1..];
    }
  }

  /** Where the last entry of `p` sits in its permutation `q`, and what remains on both sides. */
  lemma MatchLast<T>(p: seq<T>, q: seq<T>) returns (j: nat)
    requires multiset(p) == multiset(q) && p != []
    ensures j < |q| && q[j] == p[|p| - 1]
    ensures multiset(p[..|p| - 1]) == multiset(q[..j] + q[j + 1..])
  {
    var x := p[|p| - 1];
    var p' := p[..|p| - 1];
    assert p == p' + [x];
    assert multiset(p) == multiset(p') + multiset{x};
    assert x in multiset(q);
    j :| 0 <= j < |q| && q[j] == x;
    var q' := q[..j] + q[j + 1..];
    MultisetRemove(q, j);
    MultisetCancel(multiset(p'), multiset(q'), x);
  }

  lemma MultisetRemove<T>(q: seq<T>, j: nat)
    requires j < |q|
    ensures multiset(q) == multiset(q[..j] + q[j + 1..]) + multiset{q[j]}
  {
    assert q == q[..j] + [q[j]] + q[j + 1..];
  }

  lemma MultisetCancel<T>(a: multiset<T>, b: multiset<T>, x: T)
    requires a + multiset{x} == b + multiset{x}
    ensures a == b
  {
    assert forall y :: a[y] == (a + multiset{x})[y] - multiset{x}[y];
    assert forall y :: b[y] == (b + multiset{x})[y] - multiset{x}[y];
  }

  /** Two lists with the same entries give every transaction the same level. */
  lemma SameLevels(userId: int, a: seq<Transaction>, b: seq<Transaction>, tx: Transaction)
    requires multiset(a) == multiset(b)
    ensures LevelIn(userId, a, tx) == LevelIn(userId, b, tx)
  {
    var c := OwnedInRange(userId, tx.timestamp - DayMs, tx.timestamp);
    SelectPermutation(c, a, b);
    AssessIgnoresOrder(tx, StatsWindow(userId, tx, a), StatsWindow(userId, tx, b));
  }

  lemma {:induction false} CountLevelSameLevels(userId: int, a: seq<Transaction>, b: seq<Transaction>,
                                                txs: seq<Transaction>, level: RiskLevel)
    requires multiset(a) == multiset(b)
    ensures CountLevel(userId, a, txs, level) == CountLevel(userId, b, txs, level)
    decreases |txs|
  {
    if txs != [] {
      SameLevels(userId, a, b, txs[|txs| - 1]);
      CountLevelSameLevels(userId, a, b, txs[..|txs| - 1], level);
    }
  }

  /** The statistics counts do not depend on the order the store returns the list in. */
  lemma StatsIgnoreOrder(userId: int, a: seq<Transaction>, b: seq<Transaction>, level: RiskLevel)
    requires multiset(a) == multiset(b)
    ensures CountLevel(userId, a, a, level) == CountLevel(userId, b, b, level)
  {
    CountLevelSameLevels(userId, a, b, a, level);
    CountPermutation(HasLevel(userId, b, level), a, b);
  }

  /**
   * When no loaded row carries its owner, every statistics window is empty,
   * so each transaction is scored on its amount and the new-merchant rule alone.
   */
  lemma OwnerlessHistory(userId: int, all: seq<Transaction>, tx: Transaction)
    requires forall t :: t in all ==> t.owner.None?
    ensures StatsWindow(userId, tx, all) == []
    ensures LevelIn(userId, all, tx) ==
      if tx.amount >= 50000.0 then High else if tx.amount >= 10000.0 then Medium else Low
  {
    SelectNone(OwnedInRange(userId, tx.timestamp - DayMs, tx.timestamp), all);
    EmptyWindow(tx);
    AmountTierContribution(tx, []);
  }

  // ---- Ingestion ----

  /** The record built from a request, carrying the id the store assigns on save. */
  function NewRecord(userId: int, dto: CreateTransactionDto, timestamp: int, id: int): (t: Transaction)
    ensures t.id == id && t.owner == Some(userId) && t.timestamp == timestamp
    ensures t.amount == dto.amount && t.merchant == dto.merchant
    ensures t.category == dto.category && t.location == dto.location
    ensures t.currency.Some? && t.currency.value != ""
    ensures dto.currency.Some? && dto.currency.value != "" ==> t.currency == dto.currency
    ensures dto.currency.None? || dto.currency == Some("") ==> t.currency == Some(DefaultCurrency)
  {
    var currency := if dto.currency.Some? && dto.currency.value != "" then dto.currency.value else DefaultCurrency;
    Transaction(id, Some(userId), dto.amount, dto.merchant, timestamp, dto.category, dto.location, Some(currency))
  }

  /** What the store returns for "this user's transactions newer than `timestamp` - 24h". */
  function IngestWindow(userId: int, timestamp: int, stored: seq<Transaction>): (r: seq<Transaction>)
    ensures forall t :: t in r <==> t in stored && t.timestamp > timestamp - DayMs && t.owner == Some(userId)
  {
    Select(OwnedAfter(userId, timestamp - DayMs), stored)
  }

  /**
   * Builds and saves the record, fetches the recent window after the save
   * and scores the saved record against it. `stored` is the store's content
   * before the save and `savedId` the id the save assigns.
   */
  method CreateForUser(userId: int, dto: CreateTransactionDto, timestamp: int,
                       savedId: int, stored: seq<Transaction>)
    returns (saved: Transaction, fraud: FraudResult)
    ensures saved == NewRecord(userId, dto, timestamp, savedId)
    ensures saved in IngestWindow(userId, timestamp, stored + [saved])
    ensures fraud == Assess(saved, IngestWindow(userId, timestamp, stored + [saved]))
    ensures |LastHour(saved.timestamp, IngestWindow(userId, timestamp, stored + [saved]))| >= 1
  {
    saved := NewRecord(userId, dto, timestamp, savedId);
    var rows := stored + [saved];
    var recentTransactions := IngestWindow(userId, timestamp, rows);
    assert saved in rows;
    fraud := EvaluateSingle(saved, recentTransactions);
    assert saved in LastHour(saved.timestamp, recentTransactions);
  }

  /**
   * The ingestion window and the statistics window agree except at their
   * edges: the ingestion window drops an entry exactly 24h old and keeps
   * entries newer than the subject; the statistics window does the opposite.
   */
  lemma IngestAndStatsWindows(userId: int, tx: Transaction, rows: seq<Transaction>)
    ensures forall t :: t in StatsWindow(userId, tx, rows) && t.timestamp != tx.timestamp - DayMs ==>
      t in IngestWindow(userId, tx.timestamp, rows)
    ensures forall t :: t in IngestWindow(userId, tx.timestamp, rows) && t.timestamp <= tx.timestamp ==>
      t in StatsWindow(userId, tx, rows)
    ensures forall t :: t in rows && t.owner == Some(userId) && t.timestamp == tx.timestamp - DayMs ==>
      t in StatsWindow(userId, tx, rows) && t !in IngestWindow(userId, tx.timestamp, rows)
    ensures forall t :: t in rows && t.owner == Some(userId) && t.timestamp > tx.timestamp ==>
      t !in StatsWindow(userId, tx, rows) && t in IngestWindow(userId, tx.timestamp, rows)
  {
  }

  /** Entries newer than the subject reach the ingestion window but never its velocity count. */
  lemma LaterEntriesSkipVelocity(userId: int, tx: Transaction, rows: seq<Transaction>, later: seq<Transaction>)
    requires forall t :: t in later ==> t.timestamp > tx.timestamp
    ensures LastHour(tx.timestamp, IngestWindow(userId, tx.timestamp, rows + later))
         == LastHour(tx.timestamp, IngestWindow(userId, tx.timestamp, rows))
  {
    var c := OwnedAfter(userId, tx.timestamp - DayMs);
    var before, late := IngestWindow(userId, tx.timestamp, rows), Select(c, later);
    SelectAppend(c, rows, later);
    assert IngestWindow(userId, tx.timestamp, rows + later) == before + late;
    NewerOutsideLastHour(tx.timestamp, before, late, later);
  }

  lemma NewerOutsideLastHour(ts: int, a: seq<Transaction>, b: seq<Transaction>, later: seq<Transaction>)
    requires forall t :: t in later ==> t.timestamp > ts
    requires forall t :: t in b ==> t in later
    ensures LastHour(ts, a + b) == LastHour(ts, a)
  {
    SelectAppendNone(InRange(ts - HourMs, ts), a, b);
  }
}
