/** The expense breakdown: costs fetched per account are added up by account, or by
    service or region, and by day. Amounts are reals; the displayed ones are rounded
    half-even to cents. */
module ExpenseBreakdown {
  import opened Wrappers
  import opened StableSort

  /** One cost record of a provider; any of the three may be missing. */
  datatype Record = Record(date: Option<string>, cost: Option<real>, group: Option<string>)

  /** An account and what fetching its costs brought, if it did not fail. */
  datatype Account = Account(id: string, fetched: Option<seq<Record>>)

  /** A dictionary with a default of zero, in insertion order. */
  type Tally = seq<(string, real)>

  datatype Item = Item(id: string, total: real, daily: Tally)

  datatype Report = Report(total: real, items: seq<Item>, daily: Tally, failed: seq<string>, hasErrors: bool)

  datatype Error = KeyError

  /** A nearest integer, the even one when there are two. */
  predicate IsNearest(n: int, x: real) {
    -0.5 <= n as real - x <= 0.5 && (n as real - x == 0.5 || n as real - x == -0.5 ==> n % 2 == 0)
  }

  function Nearest(x: real): (n: int)
    ensures IsNearest(n, x)
  {
    var f := x.Floor;
    if x - f as real > 0.5 || (x - f as real == 0.5 && f % 2 == 1) then f + 1 else f
  }

  function Round2(x: real): (r: real)
    ensures -0.005 <= r - x <= 0.005
  {
    Nearest(x * 100.0) as real / 100.0
  }

  /** Rounding gives the one whole number of cents nearest to the amount, ties to even. */
  lemma RoundsToNearestCent(x: real, cents: int)
    ensures Round2(x) == cents as real / 100.0 <==> IsNearest(cents, x * 100.0)
  {
    if IsNearest(cents, x * 100.0) {
      NearestIsUnique(cents, Nearest(x * 100.0), x * 100.0);
    }
  }

  lemma NearestIsUnique(m: int, n: int, x: real)
    requires IsNearest(m, x) && IsNearest(n, x)
    ensures m == n
  {
  }

  function Cost(r: Record): real {
    r.cost.GetOr(0.0)
  }

  function Date(r: Record): string {
    r.date.GetOr("")
  }

  function Key(r: Record): string {
    r.group.GetOr("Unknown")
  }

  function SumCost(rs: seq<Record>): real {
    if rs == [] then 0.0 else SumCost(rs[..|rs| - 1]) + Cost(rs[|rs| - 1])
  }

  predicate AllCosted(rs: seq<Record>) {
    forall i :: 0 <= i < |rs| ==> rs[i].cost.Some?
  }

  predicate AllDated(rs: seq<Record>) {
    forall i :: 0 <= i < |rs| ==> rs[i].date.Some?
  }

  function Find(t: Tally, key: string): (i: nat)
    ensures i <= |t|
    ensures i < |t| ==> t[i].0 == key
    ensures i == |t| ==> forall j :: 0 <= j < |t| ==> t[j].0 != key
  {
    if t == [] then 0
    else if t[0].0 == key then 0
    else 1 + Find(t[1..], key)
  }

  function Add(t: Tally, key: string, x: real): Tally {
    var i := Find(t, key);
    if i < |t| then t[i := (key, t[i].1 + x)] else t + [(key, x)]
  }

  /** Every record's cost added under its date. */
  function AddAll(t: Tally, rs: seq<Record>): Tally {
    if rs == [] then t
    else
      var n := |rs| - 1;
      Add(AddAll(t, rs[..n]), Date(rs[n]), Cost(rs[n]))
  }

  function Rounded(t: Tally): Tally {
    seq(|t|, i requires 0 <= i < |t| => (t[i].0, Round2(t[i].1)))
  }

  function Sorted(t: Tally): Tally {
    Sort(t, (a: (string, real), b: (string, real)) => LexLeq(a.0, b.0))
  }

  function ByTotal(items: seq<Item>): seq<Item> {
    Sort(items, (a: Item, b: Item) => a.total >= b.total)
  }

  /** The accumulators, before anything is rounded or sorted: an amount for each group
      shown and the item that shows it. */
  datatype Sheet = Sheet(grand: real, daily: Tally, amounts: seq<real>, items: seq<Item>, failed: seq<string>)

  const EMPTY: Sheet := Sheet(0.0, [], [], [], [])

  function Shown(s: Sheet): Report {
    Report(Round2(s.grand), ByTotal(s.items), Rounded(Sorted(s.daily)), s.failed, |s.failed| > 0)
  }

  // ---- by account ----

  /** How many records come before the first without a date. */
  function DatedPrefix(rs: seq<Record>): (n: nat)
    ensures n <= |rs|
  {
    if rs == [] || rs[0].date.None? then 0 else 1 + DatedPrefix(rs[1..])
  }

  lemma {:induction false} DatedPrefixIsDated(rs: seq<Record>)
    ensures AllDated(rs[..DatedPrefix(rs)])
    ensures DatedPrefix(rs) < |rs| ==> rs[DatedPrefix(rs)].date.None?
    ensures DatedPrefix(rs) == |rs| <==> AllDated(rs)
  {
    if rs != [] && rs[0].date.Some? {
      DatedPrefixIsDated(rs[1..]);
      var n := DatedPrefix(rs);
      forall i | 0 <= i < n
        ensures rs[..n][i].date.Some?
      {
        assert i > 0 ==> rs[i] == rs[1..][..n - 1][i - 1];
      }
      assert n < |rs| ==> rs[n] == rs[1..][n - 1];
      assert n == |rs| ==> rs[..n] == rs;
    }
  }

  function Dates(rs: seq<Record>): Tally {
    seq(|rs|, i requires 0 <= i < |rs| => (Date(rs[i]), Cost(rs[i])))
  }

  /** One account's turn. A record without a date stops it half way: its total and the
      days before that record stay counted, but it shows as failed. */
  function AccountAdded(s: Sheet, a: Account): Sheet {
    if a.fetched.None? || !AllCosted(a.fetched.value) then s.(failed := s.failed + [a.id])
    else
      var rs := a.fetched.value;
      var n := DatedPrefix(rs);
      var s' := s.(grand := s.grand + SumCost(rs), daily := AddAll(s.daily, rs[..n]));
      if n < |rs| then s'.(failed := s.failed + [a.id])
      else s'.(amounts := s.amounts + [SumCost(rs)], items := s.items + [Item(a.id, Round2(SumCost(rs)), Dates(rs))])
  }

  function ByAccount(accounts: seq<Account>): Sheet {
    if accounts == [] then EMPTY
    else AccountAdded(ByAccount(accounts[..|accounts| - 1]), accounts[|accounts| - 1])
  }

  // ---- by service or region ----

  datatype Bucket = Bucket(key: string, records: seq<Record>)

  function FindBucket(bs: seq<Bucket>, key: string): (i: nat)
    ensures i <= |bs|
    ensures i < |bs| ==> bs[i].key == key
    ensures i == |bs| ==> forall j :: 0 <= j < |bs| ==> bs[j].key != key
  {
    if bs == [] then 0
    else if bs[0].key == key then 0
    else 1 + FindBucket(bs[1..], key)
  }

  function Filed(bs: seq<Bucket>, r: Record): seq<Bucket> {
    var i := FindBucket(bs, Key(r));
    if i < |bs| then bs[i := Bucket(Key(r), bs[i].records + [r])] else bs + [Bucket(Key(r), [r])]
  }

  function Buckets(rs: seq<Record>): seq<Bucket> {
    if rs == [] then [] else Filed(Buckets(rs[..|rs| - 1]), rs[|rs| - 1])
  }

  /** The records of the accounts that could be fetched. */
  function Gathered(accounts: seq<Account>): seq<Record> {
    if accounts == [] then []
    else Gathered(accounts[..|accounts| - 1]) + accounts[|accounts| - 1].fetched.GetOr([])
  }

  function Unfetched(accounts: seq<Account>): seq<string> {
    if accounts == [] then []
    else
      var a := accounts[|accounts| - 1];
      var earlier := Unfetched(accounts[..|accounts| - 1]);
      if a.fetched.None? then earlier + [a.id] else earlier
  }

  function BucketAdded(s: Sheet, b: Bucket): Sheet {
    s.(grand := s.grand + SumCost(b.records),
       daily := AddAll(s.daily, b.records),
       amounts := s.amounts + [SumCost(b.records)],
       items := s.items + [Item(b.key, Round2(SumCost(b.records)), Rounded(Sorted(AddAll([], b.records))))])
  }

  function ByBucket(bs: seq<Bucket>): Sheet {
    if bs == [] then EMPTY else BucketAdded(ByBucket(bs[..|bs| - 1]), bs[|bs| - 1])
  }

  function ByGroup(accounts: seq<Account>): Sheet {
    ByBucket(Buckets(Gathered(accounts))).(failed := Unfetched(accounts))
  }

  // ---- the operation ----

  method SumOf(rs: seq<Record>) returns (total: Option<real>)
    ensures total == if AllCosted(rs) then Some(SumCost(rs)) else None
  {
    var sum := 0.0;
    for i := 0 to |rs|
      invariant AllCosted(rs[..i]) && sum == SumCost(rs[..i])
    {
      if rs[i].cost.None? {
        return None;
      }
      assert rs[..i + 1][..i] == rs[..i];
      sum := sum + rs[i].cost.value;
    }
    assert rs[..|rs|] == rs;
    return Some(sum);
  }

  /** The inner loop over one account's records; a record without a date ends it. */
  method AddAccountDays(costs: seq<Record>, days: Tally) returns (dailyTotals: Tally, daily: Tally, failed: bool)
    requires AllCosted(costs)
    ensures failed <==> !AllDated(costs)
    ensures dailyTotals == AddAll(days, costs[..DatedPrefix(costs)])
    ensures !failed ==> daily == Dates(costs)
  {
    dailyTotals, daily, failed := days, [], false;
    DatedPrefixIsDated(costs);
    for j := 0 to |costs|
      invariant j <= DatedPrefix(costs)
      invariant daily == Dates(costs[..j]) && dailyTotals == AddAll(days, costs[..j])
    {
      if costs[j].date.None? {
        return dailyTotals, daily, true;
      }
      OneMoreDay(days, costs, j);
      daily := daily + [(costs[j].date.value, costs[j].cost.value)];
      dailyTotals := Add(dailyTotals, costs[j].date.value, costs[j].cost.value);
    }
    assert costs[..|costs|] == costs;
  }

  lemma OneMoreDay(days: Tally, costs: seq<Record>, j: nat)
    requires j < |costs|
    ensures Dates(costs[..j + 1]) == Dates(costs[..j]) + [(Date(costs[j]), Cost(costs[j]))]
    ensures AddAll(days, costs[..j + 1]) == Add(AddAll(days, costs[..j]), Date(costs[j]), Cost(costs[j]))
  {
    assert costs[..j + 1][..j] == costs[..j];
  }

  method BreakdownByAccount(accounts: seq<Account>) returns (report: Report)
    ensures report == Shown(ByAccount(accounts))
  {
    var grandTotal, dailyTotals: Tally, items: seq<Item>, failures: seq<string> := 0.0, [], [], [];
    ghost var s := EMPTY;
    for i := 0 to |accounts|
      invariant s == ByAccount(accounts[..i])
      invariant s.grand == grandTotal && s.daily == dailyTotals && s.items == items && s.failed == failures
    {
      assert accounts[..i + 1][..i] == accounts[..i];
      var account := accounts[i];
      var failed := account.fetched.None?;
      if !failed {
        var total := SumOf(account.fetched.value);
        failed := total.None?;
        if !failed {
          grandTotal := grandTotal + total.value;
          var daily;
          dailyTotals, daily, failed := AddAccountDays(account.fetched.value, dailyTotals);
          DatedPrefixIsDated(account.fetched.value);
          if !failed {
            items := items + [Item(account.id, Round2(total.value), daily)];
          }
        }
      }
      if failed {
        failures := failures + [account.id];
      }
      s := AccountAdded(s, account);
    }
    assert accounts[..|accounts|] == accounts;
    report := Report(Round2(grandTotal), ByTotal(items), Rounded(Sorted(dailyTotals)), failures, |failures| > 0);
  }

  /** The loop over one account's records. */
  method FileAll(buckets: seq<Bucket>, ghost before: seq<Record>, costs: seq<Record>) returns (grouped: seq<Bucket>)
    requires buckets == Buckets(before)
    ensures grouped == Buckets(before + costs)
  {
    grouped := buckets;
    assert before + costs[..0] == before;
    for j := 0 to |costs|
      invariant grouped == Buckets(before + costs[..j])
    {
      assert before + costs[..j + 1] == before + costs[..j] + [costs[j]];
      FiledLast(before + costs[..j], costs[j]);
      grouped := Filed(grouped, costs[j]);
    }
    assert costs[..|costs|] == costs;
  }

  lemma FiledLast(rs: seq<Record>, r: Record)
    ensures Buckets(rs + [r]) == Filed(Buckets(rs), r)
  {
    assert (rs + [r])[..|rs|] == rs;
  }

  method GatherByKey(accounts: seq<Account>) returns (grouped: seq<Bucket>, failures: seq<string>)
    ensures grouped == Buckets(Gathered(accounts)) && failures == Unfetched(accounts)
  {
    grouped, failures := [], [];
    for i := 0 to |accounts|
      invariant grouped == Buckets(Gathered(accounts[..i])) && failures == Unfetched(accounts[..i])
    {
      assert accounts[..i + 1][..i] == accounts[..i];
      ghost var before := Gathered(accounts[..i]);
      match accounts[i].fetched {
        case None =>
          failures := failures + [accounts[i].id];
          assert before + [] == before;
        case Some(costs) =>
          grouped := FileAll(grouped, before, costs);
      }
    }
    assert accounts[..|accounts|] == accounts;
  }

  /** The inner loop over one group's records, over all days and over the group's own. */
  method AddDays(costs: seq<Record>, days: Tally) returns (dailyTotals: Tally, dailyByDate: Tally, ok: bool)
    requires AllCosted(costs)
    ensures ok <==> AllDated(costs)
    ensures ok ==> dailyTotals == AddAll(days, costs) && dailyByDate == AddAll([], costs)
  {
    dailyTotals, dailyByDate, ok := days, [], true;
    for j := 0 to |costs|
      invariant AllDated(costs[..j])
      invariant dailyByDate == AddAll([], costs[..j]) && dailyTotals == AddAll(days, costs[..j])
    {
      if costs[j].date.None? {
        return dailyTotals, dailyByDate, false;
      }
      assert costs[..j + 1][..j] == costs[..j];
      dailyByDate := Add(dailyByDate, costs[j].date.value, costs[j].cost.value);
      dailyTotals := Add(dailyTotals, costs[j].date.value, costs[j].cost.value);
    }
    assert costs[..|costs|] == costs;
  }

  /** The local variables hold what the sheet says. */
  ghost predicate Carries(s: Sheet, grand: real, days: Tally, items: seq<Item>) {
    s.grand == grand && s.daily == days && s.items == items
  }

  /** One group's turn: a record without a cost or a date ends the operation. */
  method AddGroup(ghost s: Sheet, b: Bucket, grand: real, days: Tally, shown: seq<Item>)
    returns (grandTotal: real, dailyTotals: Tally, items: seq<Item>, ok: bool)
    requires Carries(s, grand, days, shown)
    ensures ok <==> WellFormed(b.records)
    ensures ok ==> Carries(BucketAdded(s, b), grandTotal, dailyTotals, items)
  {
    grandTotal, dailyTotals, items := grand, days, shown;
    var groupTotal := SumOf(b.records);
    if groupTotal.None? {
      return grandTotal, dailyTotals, items, false;
    }
    grandTotal := grandTotal + groupTotal.value;
    var dailyByDate;
    dailyTotals, dailyByDate, ok := AddDays(b.records, dailyTotals);
    if ok {
      items := items + [Item(b.key, Round2(groupTotal.value), Rounded(Sorted(dailyByDate)))];
    }
  }

  /** The loop over the groups. */
  method AddGroups(grouped: seq<Bucket>, failures: seq<string>) returns (report: Result<Report, Error>)
    ensures report.Success? <==> AllWellFormed(grouped)
    ensures report.Success? ==> report.value == Shown(ByBucket(grouped).(failed := failures))
  {
    var grandTotal, dailyTotals: Tally, items: seq<Item>, ok := 0.0, [], [], true;
    for i := 0 to |grouped|
      invariant Carries(ByBucket(grouped[..i]), grandTotal, dailyTotals, items)
      invariant AllWellFormed(grouped[..i])
    {
      grandTotal, dailyTotals, items, ok :=
        AddGroup(ByBucket(grouped[..i]), grouped[i], grandTotal, dailyTotals, items);
      if !ok {
        return Failure(KeyError);
      }
      OneMoreBucket(grouped, i);
    }
    assert grouped[..|grouped|] == grouped;
    report := Success(Report(Round2(grandTotal), ByTotal(items), Rounded(Sorted(dailyTotals)), failures,
                             |failures| > 0));
  }

  lemma OneMoreBucket(bs: seq<Bucket>, i: nat)
    requires i < |bs| && AllWellFormed(bs[..i]) && WellFormed(bs[i].records)
    ensures AllWellFormed(bs[..i + 1])
    ensures ByBucket(bs[..i + 1]) == BucketAdded(ByBucket(bs[..i]), bs[i])
  {
    assert bs[..i + 1][..i] == bs[..i];
    assert forall k :: 0 <= k < i ==> bs[..i + 1][k] == bs[..i][k];
  }

  method BreakdownByGroup(accounts: seq<Account>) returns (report: Result<Report, Error>)
    ensures report.Success? <==> WellFormed(Gathered(accounts))
    ensures report.Success? ==> report.value == Shown(ByGroup(accounts))
  {
    var grouped, failures := GatherByKey(accounts);
    BucketsHoldAll(Gathered(accounts));
    report := AddGroups(grouped, failures);
  }

  method GetBreakdown(accounts: seq<Account>, groupBy: string) returns (report: Result<Report, Error>)
    ensures groupBy == "cloud" ==> report == Success(Shown(ByAccount(accounts)))
    ensures groupBy != "cloud" ==>
      (report.Success? <==> WellFormed(Gathered(accounts)))
          && (report.Success? ==> report.value == Shown(ByGroup(accounts)))
  {
    if groupBy == "cloud" {
      var r := BreakdownByAccount(accounts);
      report := Success(r);
    } else {
      report := BreakdownByGroup(accounts);
    }
  }

  predicate WellFormed(rs: seq<Record>) {
    AllCosted(rs) && AllDated(rs)
  }

  predicate AllWellFormed(bs: seq<Bucket>) {
    forall i :: 0 <= i < |bs| ==> WellFormed(bs[i].records)
  }

  // ---- the buckets ----

  function WithKey(rs: seq<Record>, key: string): seq<Record> {
    Filter(rs, (r: Record) => Key(r) == key)
  }

  ghost predicate DistinctKeys(bs: seq<Bucket>) {
    forall i, j :: 0 <= i < j < |bs| ==> bs[i].key != bs[j].key
  }

  ghost predicate AreGroups(bs: seq<Bucket>, rs: seq<Record>) {
    && DistinctKeys(bs)
    && (forall i :: 0 <= i < |bs| ==> bs[i].records == WithKey(rs, bs[i].key) && bs[i].records != [])
    && (forall j :: 0 <= j < |rs| ==> FindBucket(bs, Key(rs[j])) < |bs|)
  }

  lemma WithKeySnoc(rs: seq<Record>, key: string)
    requires rs != []
    ensures
      var n := |rs| - 1;
      WithKey(rs, key) == if Key(rs[n]) == key then WithKey(rs[..n], key) + [rs[n]] else WithKey(rs[..n], key)
  {
  }

  /** The buckets are the groups: one for each key that occurs, holding its records in
      the order they came. */
  lemma {:induction false} BucketsAreGroups(rs: seq<Record>)
    ensures AreGroups(Buckets(rs), rs)
  {
    if rs != [] {
      var n := |rs| - 1;
      BucketsAreGroups(rs[..n]);
      FilingKeepsGroups(Buckets(rs[..n]), rs);
    }
  }

  lemma FilingKeepsGroups(bs: seq<Bucket>, rs: seq<Record>)
    requires rs != [] && AreGroups(bs, rs[..|rs| - 1])
    ensures AreGroups(Filed(bs, rs[|rs| - 1]), rs)
  {
    var n := |rs| - 1;
    var i := FindBucket(bs, Key(rs[n]));
    var bs' := Filed(bs, rs[n]);
    if i == |bs| {
      NoneWithKey(bs, rs[..n], Key(rs[n]));
    }
    forall k | 0 <= k < |bs'|
      ensures bs'[k].records == WithKey(rs, bs'[k].key) && bs'[k].records != []
    {
      WithKeySnoc(rs, bs'[k].key);
    }
    assert bs'[i].key == Key(rs[n]);
    forall j | 0 <= j < |rs|
      ensures FindBucket(bs', Key(rs[j])) < |bs'|
    {
      if j < n {
        var k := FindBucket(bs, Key(rs[..n][j]));
        assert bs'[k].key == Key(rs[j]);
      }
    }
  }

  lemma {:induction false} NoneWithKey(bs: seq<Bucket>, rs: seq<Record>, key: string)
    requires forall j :: 0 <= j < |rs| ==> FindBucket(bs, Key(rs[j])) < |bs|
    requires FindBucket(bs, key) == |bs|
    ensures WithKey(rs, key) == []
  {
    if rs != [] {
      var n := |rs| - 1;
      assert FindBucket(bs, Key(rs[n])) < |bs|;
      NoneWithKey(bs, rs[..n], key);
    }
  }

  ghost predicate HoldsAll(bs: seq<Bucket>, rs: seq<Record>) {
    && (forall i, j :: 0 <= i < |bs| && 0 <= j < |bs[i].records| ==> bs[i].records[j] in rs)
    && (forall r :: r in rs ==> exists i :: 0 <= i < |bs| && r in bs[i].records)
  }

  lemma {:induction false} BucketsHoldAll(rs: seq<Record>)
    ensures HoldsAll(Buckets(rs), rs)
    ensures AllWellFormed(Buckets(rs)) <==> WellFormed(rs)
  {
    if rs != [] {
      var n := |rs| - 1;
      BucketsHoldAll(rs[..n]);
      FiledHoldsAll(Buckets(rs[..n]), rs[..n], rs[n]);
      assert rs == rs[..n] + [rs[n]];
    }
    HeldWellFormed(Buckets(rs), rs);
  }

  lemma FiledHoldsAll(bs: seq<Bucket>, rs: seq<Record>, r: Record)
    requires HoldsAll(bs, rs)
    ensures HoldsAll(Filed(bs, r), rs + [r])
  {
    var i := FindBucket(bs, Key(r));
    var bs' := Filed(bs, r);
    assert r in bs'[i].records;
    forall q | q in rs + [r]
      ensures exists k :: 0 <= k < |bs'| && q in bs'[k].records
    {
      if q != r {
        var k :| 0 <= k < |bs| && q in bs[k].records;
        assert q in bs'[k].records;
      }
    }
  }

  lemma HeldWellFormed(bs: seq<Bucket>, rs: seq<Record>)
    requires HoldsAll(bs, rs)
    ensures AllWellFormed(bs) <==> WellFormed(rs)
  {
    if WellFormed(rs) {
      assert forall r :: r in rs ==> r.cost.Some? && r.date.Some?;
    }
    if AllWellFormed(bs) {
      forall j | 0 <= j < |rs|
        ensures rs[j].cost.Some? && rs[j].date.Some?
      {
        assert rs[j] in rs;
        var i :| 0 <= i < |bs| && rs[j] in bs[i].records;
        assert WellFormed(bs[i].records);
      }
    }
  }

  // ---- conservation ----

  function Sum(xs: seq<real>): real {
    if xs == [] then 0.0 else Sum(xs[..|xs| - 1]) + xs[|xs| - 1]
  }

  function SumTally(t: Tally): real {
    if t == [] then 0.0 else SumTally(t[..|t| - 1]) + t[|t| - 1].1
  }

  lemma SumAppend(xs: seq<real>, x: real)
    ensures Sum(xs + [x]) == Sum(xs) + x
  {
    assert (xs + [x])[..|xs|] == xs;
  }

  lemma {:induction false} SumCostConcat(a: seq<Record>, b: seq<Record>)
    ensures SumCost(a + b) == SumCost(a) + SumCost(b)
  {
    if b == [] {
      assert a + b == a;
    } else {
      var n := |b| - 1;
      assert (a + b)[..|a| + n] == a + b[..n];
      SumCostConcat(a, b[..n]);
    }
  }

  lemma {:induction false} SumUpdate(t: Tally, i: nat, key: string, x: real)
    requires i < |t|
    ensures SumTally(t[i := (key, t[i].1 + x)]) == SumTally(t) + x
  {
    var n := |t| - 1;
    var t' := t[i := (key, t[i].1 + x)];
    if i < n {
      assert t'[..n] == t[..n][i := (key, t[..n][i].1 + x)];
      SumUpdate(t[..n], i, key, x);
    } else {
      assert t'[..n] == t[..n];
    }
  }

  lemma {:induction false} AddAllSum(t: Tally, rs: seq<Record>)
    ensures SumTally(AddAll(t, rs)) == SumTally(t) + SumCost(rs)
  {
    if rs != [] {
      var n := |rs| - 1;
      AddAllSum(t, rs[..n]);
      var t1 := AddAll(t, rs[..n]);
      var i := Find(t1, Date(rs[n]));
      if i < |t1| {
        SumUpdate(t1, i, Date(rs[n]), Cost(rs[n]));
      } else {
        assert (t1 + [(Date(rs[n]), Cost(rs[n]))])[..|t1|] == t1;
      }
    }
  }

  /** The total of an account that failed on a record without a date. */
  function HalfCounted(accounts: seq<Account>): real {
    if accounts == [] then 0.0
    else
      var a := accounts[|accounts| - 1];
      HalfCounted(accounts[..|accounts| - 1])
        + if a.fetched.Some? && AllCosted(a.fetched.value) && !AllDated(a.fetched.value)
          then SumCost(a.fetched.value) else 0.0
  }

  /** What such an account had already put on its days. */
  function HalfDated(accounts: seq<Account>): real {
    if accounts == [] then 0.0
    else
      var a := accounts[|accounts| - 1];
      HalfDated(accounts[..|accounts| - 1])
        + if a.fetched.Some? && AllCosted(a.fetched.value) && !AllDated(a.fetched.value)
          then SumCost(a.fetched.value[..DatedPrefix(a.fetched.value)])
          else 0.0
  }

  /** By account, for every input: the grand total and the days hold what is shown plus
      what accounts that failed half way left behind. */
  lemma {:induction false} AccountBalance(accounts: seq<Account>)
    ensures ByAccount(accounts).grand == Sum(ByAccount(accounts).amounts) + HalfCounted(accounts)
    ensures SumTally(ByAccount(accounts).daily) == Sum(ByAccount(accounts).amounts) + HalfDated(accounts)
  {
    if accounts != [] {
      var n := |accounts| - 1;
      AccountBalance(accounts[..n]);
      var s, a := ByAccount(accounts[..n]), accounts[n];
      if a.fetched.Some? && AllCosted(a.fetched.value) {
        var rs := a.fetched.value;
        DatedPrefixIsDated(rs);
        AddAllSum(s.daily, rs[..DatedPrefix(rs)]);
        SumAppend(s.amounts, SumCost(rs));
        if DatedPrefix(rs) == |rs| {
          assert rs[..|rs|] == rs;
        }
      }
    }
  }

  lemma SecondUndated(first: Record, second: Record)
    requires first.date.Some? && second.date.None?
    ensures
      var rs := [first, second];
      && SumCost(rs) == Cost(first) + Cost(second) && !AllDated(rs)
      && DatedPrefix(rs) == 1 && rs[..1] == [first] && SumCost([first]) == Cost(first)
      && AddAll([], [first]) == [(Date(first), Cost(first))]
  {
    var rs := [first, second];
    assert rs[..1] == [first] && rs[1..] == [second] && [first][..0] == [];
    assert SumCost([]) == 0.0 && SumCost([first]) == Cost(first);
    assert AddAll([], []) == [];
    assert rs[1].date.None?;
  }

  lemma ShownDay(date: string, x: real)
    ensures Sorted([(date, x)]) == [(date, x)] && Rounded([(date, x)]) == [(date, Round2(x))]
  {
    SortOne((date, x), (a: (string, real), b: (string, real)) => LexLeq(a.0, b.0));
  }

  lemma SortOne<T>(x: T, leq: (T, T) -> bool)
    ensures Sort([x], leq) == [x]
  {
    assert [x][..0] == [] && Sort([], leq) == [];
  }

  /** One account whose second record has no date: the grand total holds both costs and
      the days the first, but the account is shown as failed, with no item. */
  lemma HalfCountedAccount(id: string, date: string, x: real, y: real)
    ensures
      var accounts := [Account(id, Some([Record(Some(date), Some(x), None), Record(None, Some(y), None)]))];
      && ByAccount(accounts) == Sheet(x + y, [(date, x)], [], [], [id])
      && HalfCounted(accounts) == x + y && HalfDated(accounts) == x
      && Shown(ByAccount(accounts)) == Report(Round2(x + y), [], [(date, Round2(x))], [id], true)
  {
    var first, second := Record(Some(date), Some(x), None), Record(None, Some(y), None);
    var rs := [first, second];
    var account := Account(id, Some(rs));
    assert [account][..0] == [] && ByAccount([]) == EMPTY && HalfCounted([]) == 0.0 && HalfDated([]) == 0.0;
    SecondUndated(first, second);
    assert ByAccount([account]) == AccountAdded(EMPTY, account) == Sheet(x + y, [(date, x)], [], [], [id]);
    ShownDay(date, x);
    assert ByTotal([]) == [];
  }

  /** Whatever was fetched has costs and dates. */
  ghost predicate FetchedWell(accounts: seq<Account>) {
    forall i :: 0 <= i < |accounts| && accounts[i].fetched.Some? ==> WellFormed(accounts[i].fetched.value)
  }

  lemma WellFormedIsShown(s: Sheet, a: Account)
    requires a.fetched.Some? && WellFormed(a.fetched.value)
    ensures Sum(AccountAdded(s, a).amounts) == Sum(s.amounts) + SumCost(a.fetched.value)
  {
    DatedPrefixIsDated(a.fetched.value);
    SumAppend(s.amounts, SumCost(a.fetched.value));
  }

  lemma {:induction false} NothingHalfCounted(accounts: seq<Account>)
    requires FetchedWell(accounts)
    ensures HalfCounted(accounts) == 0.0 && HalfDated(accounts) == 0.0
    ensures Sum(ByAccount(accounts).amounts) == SumCost(Gathered(accounts))
  {
    if accounts != [] {
      var n := |accounts| - 1;
      NothingHalfCounted(accounts[..n]);
      SumCostConcat(Gathered(accounts[..n]), accounts[n].fetched.GetOr([]));
      if accounts[n].fetched.Some? {
        assert WellFormed(accounts[n].fetched.value);
        WellFormedIsShown(ByAccount(accounts[..n]), accounts[n]);
      }
    }
  }

  function BucketSum(bs: seq<Bucket>): real {
    if bs == [] then 0.0 else BucketSum(bs[..|bs| - 1]) + SumCost(bs[|bs| - 1].records)
  }

  lemma {:induction false} BucketUpdate(bs: seq<Bucket>, i: nat, r: Record)
    requires i < |bs|
    ensures BucketSum(bs[i := Bucket(Key(r), bs[i].records + [r])]) == BucketSum(bs) + Cost(r)
  {
    var n := |bs| - 1;
    var b := Bucket(Key(r), bs[i].records + [r]);
    assert (bs[i].records + [r])[..|bs[i].records|] == bs[i].records;
    if i < n {
      assert bs[i := b][..n] == bs[..n][i := b];
      BucketUpdate(bs[..n], i, r);
    } else {
      assert bs[i := b][..n] == bs[..n];
    }
  }

  lemma FiledSum(bs: seq<Bucket>, r: Record)
    ensures BucketSum(Filed(bs, r)) == BucketSum(bs) + Cost(r)
  {
    var i := FindBucket(bs, Key(r));
    if i < |bs| {
      BucketUpdate(bs, i, r);
    } else {
      assert (bs + [Bucket(Key(r), [r])])[..|bs|] == bs;
      assert SumCost([r]) == SumCost([r][..0]) + Cost(r);
    }
  }

  lemma {:induction false} BucketsSum(rs: seq<Record>)
    ensures BucketSum(Buckets(rs)) == SumCost(rs)
  {
    if rs != [] {
      var n := |rs| - 1;
      BucketsSum(rs[..n]);
      FiledSum(Buckets(rs[..n]), rs[n]);
    }
  }

  lemma {:induction false} BucketBalance(bs: seq<Bucket>)
    ensures ByBucket(bs).grand == BucketSum(bs) == Sum(ByBucket(bs).amounts) == SumTally(ByBucket(bs).daily)
  {
    if bs != [] {
      var n := |bs| - 1;
      BucketBalance(bs[..n]);
      SumAppend(ByBucket(bs[..n]).amounts, SumCost(bs[n].records));
      AddAllSum(ByBucket(bs[..n]).daily, bs[n].records);
    }
  }

  /** By service or region: the groups and the days each add up to everything fetched. */
  lemma GroupBalance(accounts: seq<Account>)
    ensures
      var s := ByGroup(accounts);
      s.grand == SumCost(Gathered(accounts)) == Sum(s.amounts) == SumTally(s.daily)
  {
    BucketsSum(Gathered(accounts));
    BucketBalance(Buckets(Gathered(accounts)));
  }

  /** The same costs, split differently: each account's records add up the same. */
  ghost predicate SameCosts(a: seq<Account>, b: seq<Account>) {
    && |a| == |b|
    && forall i :: 0 <= i < |a| ==>
         (a[i].fetched.Some? <==> b[i].fetched.Some?)
             && SumCost(a[i].fetched.GetOr([])) == SumCost(b[i].fetched.GetOr([]))
  }

  lemma {:induction false} SameGathered(a: seq<Account>, b: seq<Account>)
    requires SameCosts(a, b)
    ensures SumCost(Gathered(a)) == SumCost(Gathered(b))
  {
    if a != [] {
      var n := |a| - 1;
      SameGathered(a[..n], b[..n]);
      SumCostConcat(Gathered(a[..n]), a[n].fetched.GetOr([]));
      SumCostConcat(Gathered(b[..n]), b[n].fetched.GetOr([]));
    }
  }

  /** The displayed grand total does not depend on the grouping. */
  lemma GroupingDoesNotMatter(byCloud: seq<Account>, byGroup: seq<Account>)
    requires SameCosts(byCloud, byGroup)
    requires FetchedWell(byCloud)
    ensures Shown(ByAccount(byCloud)).total == Shown(ByGroup(byGroup)).total
  {
    AccountBalance(byCloud);
    NothingHalfCounted(byCloud);
    GroupBalance(byGroup);
    SameGathered(byCloud, byGroup);
  }

  // ---- rounding ----

  function Totals(items: seq<Item>): seq<real> {
    seq(|items|, i requires 0 <= i < |items| => items[i].total)
  }

  /** Items show rounded amounts. */
  ghost predicate Shows(items: seq<Item>, amounts: seq<real>) {
    |items| == |amounts| && forall i :: 0 <= i < |items| ==> items[i].total == Round2(amounts[i])
  }

  lemma {:induction false} RoundedSum(items: seq<Item>, amounts: seq<real>)
    requires Shows(items, amounts)
    ensures -0.005 * |items| as real <= Sum(Totals(items)) - Sum(amounts) <= 0.005 * |items| as real
  {
    if items != [] {
      var n := |items| - 1;
      RoundedSum(items[..n], amounts[..n]);
      assert Totals(items)[..n] == Totals(items[..n]);
    }
  }

  lemma {:induction false} RoundedTally(t: Tally)
    ensures -0.005 * |t| as real <= SumTally(Rounded(t)) - SumTally(t) <= 0.005 * |t| as real
  {
    if t != [] {
      var n := |t| - 1;
      RoundedTally(t[..n]);
      assert Rounded(t)[..n] == Rounded(t[..n]);
    }
  }

  lemma {:induction false} InsertTotal(items: seq<Item>, x: Item, leq: (Item, Item) -> bool)
    ensures Sum(Totals(Insert(items, x, leq))) == Sum(Totals(items)) + x.total
  {
    if items == [] || leq(items[|items| - 1], x) {
      assert Totals(items + [x])[..|items|] == Totals(items);
    } else {
      var n := |items| - 1;
      InsertTotal(items[..n], x, leq);
      var r := Insert(items[..n], x, leq);
      assert Totals(r + [items[n]])[..|r|] == Totals(r);
      assert Totals(items)[..n] == Totals(items[..n]);
    }
  }

  lemma {:induction false} SortKeepsTotal(items: seq<Item>, leq: (Item, Item) -> bool)
    ensures Sum(Totals(Sort(items, leq))) == Sum(Totals(items))
  {
    if items != [] {
      var n := |items| - 1;
      SortKeepsTotal(items[..n], leq);
      InsertTotal(Sort(items[..n], leq), items[n], leq);
      assert Totals(items)[..n] == Totals(items[..n]);
    }
  }

  lemma {:induction false} InsertTallySum(t: Tally, x: (string, real), leq: ((string, real), (string, real)) -> bool)
    ensures SumTally(Insert(t, x, leq)) == SumTally(t) + x.1
  {
    if t == [] || leq(t[|t| - 1], x) {
      assert (t + [x])[..|t|] == t;
    } else {
      var n := |t| - 1;
      InsertTallySum(t[..n], x, leq);
      var r := Insert(t[..n], x, leq);
      assert (r + [t[n]])[..|r|] == r;
    }
  }

  lemma {:induction false} SortKeepsSum(t: Tally, leq: ((string, real), (string, real)) -> bool)
    ensures SumTally(Sort(t, leq)) == SumTally(t)
  {
    if t != [] {
      var n := |t| - 1;
      SortKeepsSum(t[..n], leq);
      InsertTallySum(Sort(t[..n], leq), t[n], leq);
    }
  }

  lemma {:induction false} AccountItemsShow(accounts: seq<Account>)
    ensures Shows(ByAccount(accounts).items, ByAccount(accounts).amounts)
  {
    if accounts != [] {
      AccountItemsShow(accounts[..|accounts| - 1]);
    }
  }

  lemma {:induction false} BucketItemsShow(bs: seq<Bucket>)
    ensures Shows(ByBucket(bs).items, ByBucket(bs).amounts)
  {
    if bs != [] {
      BucketItemsShow(bs[..|bs| - 1]);
    }
  }

  /** Displayed total against displayed parts: half a cent for each, and for itself. */
  ghost predicate WithinHalfCents(total: real, parts: real, n: nat) {
    -0.005 * (n + 1) as real <= total - parts <= 0.005 * (n + 1) as real
  }

  lemma ShownWithinHalfCents(s: Sheet)
    requires Shows(s.items, s.amounts) && s.grand == Sum(s.amounts) == SumTally(s.daily)
    ensures WithinHalfCents(Shown(s).total, Sum(Totals(Shown(s).items)), |Shown(s).items|)
    ensures WithinHalfCents(Shown(s).total, SumTally(Shown(s).daily), |Shown(s).daily|)
  {
    RoundedSum(s.items, s.amounts);
    SortKeepsTotal(s.items, (a: Item, b: Item) => a.total >= b.total);
    SortKeeps(s.items, (a: Item, b: Item) => a.total >= b.total);
    SortKeepsSum(s.daily, (a: (string, real), b: (string, real)) => LexLeq(a.0, b.0));
    SortKeeps(s.daily, (a: (string, real), b: (string, real)) => LexLeq(a.0, b.0));
    RoundedTally(Sorted(s.daily));
  }

  lemma DisplayedTotalsAgree(accounts: seq<Account>)
    ensures
      var r := Shown(ByGroup(accounts));
      WithinHalfCents(r.total, Sum(Totals(r.items)), |r.items|)
          && WithinHalfCents(r.total, SumTally(r.daily), |r.daily|)
    ensures HalfCounted(accounts) == HalfDated(accounts) == 0.0 ==>
      var r := Shown(ByAccount(accounts));
      WithinHalfCents(r.total, Sum(Totals(r.items)), |r.items|)
          && WithinHalfCents(r.total, SumTally(r.daily), |r.daily|)
  {
    GroupBalance(accounts);
    BucketItemsShow(Buckets(Gathered(accounts)));
    ShownWithinHalfCents(ByGroup(accounts));
    AccountBalance(accounts);
    AccountItemsShow(accounts);
    if HalfCounted(accounts) == HalfDated(accounts) == 0.0 {
      ShownWithinHalfCents(ByAccount(accounts));
    }
  }

  // ---- each entry ----

  function SumOn(rs: seq<Record>, date: string): real {
    SumCost(Filter(rs, (r: Record) => Date(r) == date))
  }

  ghost predicate DistinctDates(t: Tally) {
    forall i, j :: 0 <= i < j < |t| ==> t[i].0 != t[j].0
  }

  predicate HasDate(t: Tally, date: string) {
    Find(t, date) < |t|
  }

  function Lookup(t: Tally, date: string): real {
    if HasDate(t, date) then t[Find(t, date)].1 else 0.0
  }

  lemma AddLookup(t: Tally, key: string, x: real, date: string)
    requires DistinctDates(t)
    ensures DistinctDates(Add(t, key, x))
    ensures HasDate(Add(t, key, x), date) <==> HasDate(t, date) || key == date
    ensures Lookup(Add(t, key, x), date) == Lookup(t, date) + if key == date then x else 0.0
  {
    var t' := Add(t, key, x);
    assert t'[Find(t, key)].0 == key;
    if HasDate(t, date) {
      assert t'[Find(t, date)].0 == date;
    }
  }

  lemma OneMore(rs: seq<Record>, date: string)
    requires rs != []
    ensures
      var n := |rs| - 1;
      SumOn(rs, date) == SumOn(rs[..n], date) + if Date(rs[n]) == date then Cost(rs[n]) else 0.0
  {
    var n := |rs| - 1;
    var p := (r: Record) => Date(r) == date;
    assert (Filter(rs[..n], p) + [rs[n]])[..|Filter(rs[..n], p)|] == Filter(rs[..n], p);
  }

  predicate Dated(rs: seq<Record>, date: string) {
    exists i :: 0 <= i < |rs| && Date(rs[i]) == date
  }

  lemma {:induction false} AddAllLookup(t: Tally, rs: seq<Record>, date: string)
    requires DistinctDates(t)
    ensures DistinctDates(AddAll(t, rs))
    ensures HasDate(AddAll(t, rs), date) <==> HasDate(t, date) || Dated(rs, date)
    ensures Lookup(AddAll(t, rs), date) == Lookup(t, date) + SumOn(rs, date)
  {
    if rs == [] {
      assert Filter(rs, (r: Record) => Date(r) == date) == [];
    } else {
      var n := |rs| - 1;
      AddAllLookup(t, rs[..n], date);
      AddLookup(AddAll(t, rs[..n]), Date(rs[n]), Cost(rs[n]), date);
      OneMore(rs, date);
      assert Dated(rs, date) <==> Dated(rs[..n], date) || Date(rs[n]) == date by {
        if Dated(rs[..n], date) {
          var i :| 0 <= i < n && Date(rs[..n][i]) == date;
          assert Date(rs[i]) == date;
        }
        if Dated(rs, date) {
          var i :| 0 <= i <= n && Date(rs[i]) == date;
          assert i < n ==> Date(rs[..n][i]) == date;
        }
      }
    }
  }

  function BucketsOn(bs: seq<Bucket>, date: string): real {
    if bs == [] then 0.0 else BucketsOn(bs[..|bs| - 1], date) + SumOn(bs[|bs| - 1].records, date)
  }

  lemma {:induction false} BucketsOnUpdate(bs: seq<Bucket>, i: nat, b: Bucket, date: string)
    requires i < |bs|
    ensures BucketsOn(bs[i := b], date) == BucketsOn(bs, date) - SumOn(bs[i].records, date) + SumOn(b.records, date)
  {
    var n := |bs| - 1;
    if i < n {
      assert bs[i := b][..n] == bs[..n][i := b];
      BucketsOnUpdate(bs[..n], i, b, date);
    } else {
      assert bs[i := b][..n] == bs[..n];
    }
  }

  lemma FiledOn(bs: seq<Bucket>, r: Record, date: string)
    ensures BucketsOn(Filed(bs, r), date) == BucketsOn(bs, date) + if Date(r) == date then Cost(r) else 0.0
  {
    var i := FindBucket(bs, Key(r));
    if i < |bs| {
      var records := bs[i].records + [r];
      assert records[..|bs[i].records|] == bs[i].records;
      OneMore(records, date);
      BucketsOnUpdate(bs, i, Bucket(Key(r), records), date);
    } else {
      assert (bs + [Bucket(Key(r), [r])])[..|bs|] == bs;
      OneMore([r], date);
      assert [r][..0] == [];
    }
  }

  lemma {:induction false} BucketsOnDay(rs: seq<Record>, date: string)
    ensures BucketsOn(Buckets(rs), date) == SumOn(rs, date)
  {
    if rs == [] {
      assert Filter(rs, (r: Record) => Date(r) == date) == [];
    } else {
      var n := |rs| - 1;
      BucketsOnDay(rs[..n], date);
      FiledOn(Buckets(rs[..n]), rs[n], date);
      OneMore(rs, date);
    }
  }

  lemma {:induction false} ByBucketOnDay(bs: seq<Bucket>, date: string)
    ensures DistinctDates(ByBucket(bs).daily) && Lookup(ByBucket(bs).daily, date) == BucketsOn(bs, date)
  {
    if bs != [] {
      var n := |bs| - 1;
      ByBucketOnDay(bs[..n], date);
      AddAllLookup(ByBucket(bs[..n]).daily, bs[n].records, date);
    }
  }

  lemma {:induction false} ByAccountOnDay(accounts: seq<Account>, date: string)
    requires FetchedWell(accounts)
    ensures DistinctDates(ByAccount(accounts).daily)
    ensures Lookup(ByAccount(accounts).daily, date) == SumOn(Gathered(accounts), date)
  {
    if accounts == [] {
      assert Filter([], (r: Record) => Date(r) == date) == [];
    } else {
      var n := |accounts| - 1;
      ByAccountOnDay(accounts[..n], date);
      var rs := accounts[n].fetched.GetOr([]);
      SumOnConcat(Gathered(accounts[..n]), rs, date);
      if accounts[n].fetched.Some? {
        assert WellFormed(rs) && rs[..|rs|] == rs;
        DatedPrefixIsDated(rs);
        AddAllLookup(ByAccount(accounts[..n]).daily, rs, date);
      } else {
        assert Filter(rs, (r: Record) => Date(r) == date) == [];
      }
    }
  }

  lemma {:induction false} SumOnConcat(a: seq<Record>, b: seq<Record>, date: string)
    ensures SumOn(a + b, date) == SumOn(a, date) + SumOn(b, date)
  {
    if b == [] {
      assert a + b == a && Filter(b, (r: Record) => Date(r) == date) == [];
    } else {
      var n := |b| - 1;
      assert (a + b)[..|a| + n] == a + b[..n];
      SumOnConcat(a, b[..n], date);
      OneMore(a + b, date);
      OneMore(b, date);
    }
  }

  /** Every day's figure is what was fetched for that day, whatever the grouping. */
  lemma DaysAreRight(accounts: seq<Account>, date: string)
    ensures Lookup(ByGroup(accounts).daily, date) == SumOn(Gathered(accounts), date)
    ensures FetchedWell(accounts) ==> Lookup(ByAccount(accounts).daily, date) == SumOn(Gathered(accounts), date)
  {
    ByBucketOnDay(Buckets(Gathered(accounts)), date);
    BucketsOnDay(Gathered(accounts), date);
    if FetchedWell(accounts) {
      ByAccountOnDay(accounts, date);
    }
  }

  lemma {:induction false} ByBucketEntries(bs: seq<Bucket>)
    ensures |ByBucket(bs).items| == |ByBucket(bs).amounts| == |bs|
    ensures forall i :: 0 <= i < |bs| ==>
      ByBucket(bs).items[i].id == bs[i].key && ByBucket(bs).amounts[i] == SumCost(bs[i].records)
  {
    if bs != [] {
      ByBucketEntries(bs[..|bs| - 1]);
    }
  }

  ghost predicate IsShown(items: seq<Item>, key: string) {
    exists i :: 0 <= i < |items| && items[i].id == key
  }

  /** The items are the keys that occur, each once, with the sum of its records' costs. */
  ghost predicate AreTheGroups(items: seq<Item>, amounts: seq<real>, all: seq<Record>) {
    && |items| == |amounts|
    && (forall i :: 0 <= i < |items| ==>
          && WithKey(all, items[i].id) != []
          && amounts[i] == SumCost(WithKey(all, items[i].id)) && items[i].total == Round2(amounts[i]))
    && (forall i, j :: 0 <= i < j < |items| ==> items[i].id != items[j].id)
    && (forall j :: 0 <= j < |all| ==> IsShown(items, Key(all[j])))
  }

  lemma GroupsAreRight(accounts: seq<Account>)
    ensures AreTheGroups(ByGroup(accounts).items, ByGroup(accounts).amounts, Gathered(accounts))
  {
    BucketsAreGroups(Gathered(accounts));
    BucketsAreShown(Buckets(Gathered(accounts)), Gathered(accounts));
  }

  lemma BucketsAreShown(bs: seq<Bucket>, rs: seq<Record>)
    requires AreGroups(bs, rs)
    ensures AreTheGroups(ByBucket(bs).items, ByBucket(bs).amounts, rs)
  {
    ByBucketEntries(bs);
    BucketItemsShow(bs);
    OccurringIsShown(bs, rs, ByBucket(bs).items);
  }

  lemma OccurringIsShown(bs: seq<Bucket>, rs: seq<Record>, items: seq<Item>)
    requires AreGroups(bs, rs) && |items| == |bs| && forall i :: 0 <= i < |bs| ==> items[i].id == bs[i].key
    ensures forall j :: 0 <= j < |rs| ==> IsShown(items, Key(rs[j]))
  {
    forall j | 0 <= j < |rs|
      ensures IsShown(items, Key(rs[j]))
    {
      var i := FindBucket(bs, Key(rs[j]));
      assert items[i].id == Key(rs[j]);
    }
  }

  /** What is displayed is in order: items by falling total, days by rising date. */
  lemma DisplayIsOrdered(s: Sheet)
    ensures multiset(Shown(s).items) == multiset(s.items)
    ensures forall i, j :: 0 <= i < j < |Shown(s).items| ==> Shown(s).items[i].total >= Shown(s).items[j].total
    ensures multiset(Sorted(s.daily)) == multiset(s.daily)
    ensures forall i, j :: 0 <= i < j < |Shown(s).daily| ==> LexLeq(Shown(s).daily[i].0, Shown(s).daily[j].0)
  {
    var byTotal := (a: Item, b: Item) => a.total >= b.total;
    SortOrders(s.items, byTotal);
    assert Ordered(Shown(s).items, byTotal);
    assert forall i, j :: 0 <= i < j < |Shown(s).items| ==> byTotal(Shown(s).items[i], Shown(s).items[j]);
    var byDate := (a: (string, real), b: (string, real)) => LexLeq(a.0, b.0);
    forall a: (string, real), b: (string, real)
      ensures byDate(a, b) || byDate(b, a)
    {
      LexTotal(a.0, b.0);
    }
    forall a: (string, real), b: (string, real), c: (string, real) | byDate(a, b) && byDate(b, c)
      ensures byDate(a, c)
    {
      LexTransitive(a.0, b.0, c.0);
    }
    SortOrders(s.daily, byDate);
    assert forall i, j :: 0 <= i < j < |Sorted(s.daily)| ==> byDate(Sorted(s.daily)[i], Sorted(s.daily)[j]);
  }
}
