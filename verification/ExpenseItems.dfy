/** What each item and each day of the breakdown shows. */
module ExpenseItems {
  import opened Wrappers
  import opened StableSort
  import opened ExpenseBreakdown

  // ---- by account ----

  /** The accounts fetched without a record that lacks a cost or a date, in order. */
  ghost function Complete(accounts: seq<Account>): seq<Account> {
    if accounts == [] then []
    else
      var a := accounts[|accounts| - 1];
      Complete(accounts[..|accounts| - 1]) + (if IsComplete(a) then [a] else [])
  }

  ghost predicate IsComplete(a: Account) {
    && a.fetched.Some?
    && forall j :: 0 <= j < |a.fetched.value| ==> a.fetched.value[j].cost.Some? && a.fetched.value[j].date.Some?
  }

  ghost function Incomplete(accounts: seq<Account>): seq<string> {
    if accounts == [] then []
    else
      var a := accounts[|accounts| - 1];
      Incomplete(accounts[..|accounts| - 1]) + (if IsComplete(a) then [] else [a.id])
  }

  /** The item shows the account's records day by day, and their sum to the cent. */
  ghost predicate ShowsAccount(item: Item, a: Account) {
    && IsComplete(a) && item.id == a.id
    && |item.daily| == |a.fetched.value|
    && (forall j :: 0 <= j < |item.daily| ==>
          item.daily[j] == (a.fetched.value[j].date.value, a.fetched.value[j].cost.value))
    && item.total == Round2(SumTally(item.daily))
  }

  lemma {:induction false} DatesSum(rs: seq<Record>)
    ensures SumTally(Dates(rs)) == SumCost(rs)
  {
    if rs != [] {
      var n := |rs| - 1;
      assert Dates(rs)[..n] == Dates(rs[..n]);
      DatesSum(rs[..n]);
    }
  }

  lemma CompleteIsWellFormed(a: Account)
    requires a.fetched.Some?
    ensures IsComplete(a) <==> WellFormed(a.fetched.value)
  {
  }

  lemma AddedAccount(s: Sheet, a: Account)
    ensures
      var s' := AccountAdded(s, a);
      if IsComplete(a)
      then |s'.items| == |s.items| + 1 && s'.items[..|s.items|] == s.items && ShowsAccount(s'.items[|s.items|], a)
           && s'.failed == s.failed
      else s'.items == s.items && s'.failed == s.failed + [a.id]
  {
    if a.fetched.Some? {
      CompleteIsWellFormed(a);
      DatedPrefixIsDated(a.fetched.value);
      DatesSum(a.fetched.value);
    }
  }

  /** By account, the items are the complete accounts in order, each with its own days and
      their sum; all others are listed as failed. */
  lemma {:induction false} AccountItemsAreRight(accounts: seq<Account>)
    ensures |ByAccount(accounts).items| == |Complete(accounts)|
    ensures forall i :: 0 <= i < |Complete(accounts)| ==>
      ShowsAccount(ByAccount(accounts).items[i], Complete(accounts)[i])
    ensures Shown(ByAccount(accounts)).failed == Incomplete(accounts)
    ensures Shown(ByAccount(accounts)).hasErrors <==> Incomplete(accounts) != []
  {
    if accounts != [] {
      var n := |accounts| - 1;
      AccountItemsAreRight(accounts[..n]);
      AddedAccount(ByAccount(accounts[..n]), accounts[n]);
    }
  }

  // ---- days survive sorting and rounding ----

  ghost predicate SameDays(a: Tally, b: Tally) {
    forall date :: HasDate(a, date) == HasDate(b, date) && Lookup(a, date) == Lookup(b, date)
  }

  lemma AppendDay(t: Tally, x: (string, real))
    requires DistinctDates(t)
    ensures DistinctDates(t + [x]) <==> !HasDate(t, x.0)
    ensures DistinctDates(t + [x]) ==> forall date :: HasDate(t + [x], date) == (HasDate(t, date) || date == x.0)
    ensures DistinctDates(t + [x]) ==>
      forall date :: Lookup(t + [x], date) == if date == x.0 then x.1 else Lookup(t, date)
  {
    var t' := t + [x];
    assert t'[|t|] == x;
    if HasDate(t, x.0) {
      assert t'[Find(t, x.0)].0 == x.0;
    }
    forall date
      ensures HasDate(t', date) == (HasDate(t, date) || date == x.0)
      ensures DistinctDates(t') ==> Lookup(t', date) == if date == x.0 then x.1 else Lookup(t, date)
    {
      if HasDate(t, date) {
        assert t'[Find(t, date)].0 == date;
      }
    }
  }

  lemma {:induction false} InsertDay(t: Tally, x: (string, real), leq: ((string, real), (string, real)) -> bool)
    requires DistinctDates(t + [x])
    ensures DistinctDates(Insert(t, x, leq)) && SameDays(Insert(t, x, leq), t + [x])
  {
    assert forall i :: 0 <= i < |t| ==> (t + [x])[i] == t[i];
    assert DistinctDates(t);
    if !(t == [] || leq(t[|t| - 1], x)) {
      var n := |t| - 1;
      assert t == t[..n] + [t[n]];
      AppendDay(t[..n], t[n]);
      AppendDay(t, x);
      AppendDay(t[..n], x);
      InsertDay(t[..n], x, leq);
      AppendDay(Insert(t[..n], x, leq), t[n]);
    }
  }

  lemma {:induction false} SortDays(t: Tally, leq: ((string, real), (string, real)) -> bool)
    requires DistinctDates(t)
    ensures DistinctDates(Sort(t, leq)) && SameDays(Sort(t, leq), t)
  {
    if t != [] {
      var n := |t| - 1;
      assert t == t[..n] + [t[n]];
      SortDays(t[..n], leq);
      AppendDay(t[..n], t[n]);
      AppendDay(Sort(t[..n], leq), t[n]);
      InsertDay(Sort(t[..n], leq), t[n], leq);
    }
  }

  /** A day is displayed exactly if it is in the tally, with its figure to the cent. */
  lemma DisplayedDay(t: Tally, date: string)
    requires DistinctDates(t)
    ensures
      var shown := Rounded(Sorted(t));
      && DistinctDates(shown) && HasDate(shown, date) == HasDate(t, date)
      && (HasDate(t, date) ==> Lookup(shown, date) == Round2(Lookup(t, date)))
  {
    SortDays(t, (a: (string, real), b: (string, real)) => LexLeq(a.0, b.0));
    var sorted := Sorted(t);
    var shown := Rounded(sorted);
    assert forall i :: 0 <= i < |sorted| ==> shown[i].0 == sorted[i].0;
    if HasDate(sorted, date) {
      assert shown[Find(sorted, date)].0 == date;
    }
    if HasDate(shown, date) {
      assert sorted[Find(shown, date)].0 == date;
    }
  }

  /** The days displayed are those that occur, each once, with the sum fetched for it. */
  lemma DisplayedDaysAreRight(accounts: seq<Account>, date: string)
    ensures ShowsDay(Shown(ByGroup(accounts)).daily, Gathered(accounts), date)
    ensures FetchedWell(accounts) ==> ShowsDay(Shown(ByAccount(accounts)).daily, Gathered(accounts), date)
  {
    DaysAreRight(accounts, date);
    ByBucketOnDay(Buckets(Gathered(accounts)), date);
    DisplayedDay(ByGroup(accounts).daily, date);
    ByBucketDays(Buckets(Gathered(accounts)), date);
    BucketsHoldAll(Gathered(accounts));
    DatedInBuckets(Buckets(Gathered(accounts)), Gathered(accounts), date);
    if FetchedWell(accounts) {
      ByAccountOnDay(accounts, date);
      DisplayedDay(ByAccount(accounts).daily, date);
      ByAccountDays(accounts, date);
    }
  }

  ghost predicate ShowsDay(shown: Tally, rs: seq<Record>, date: string) {
    && DistinctDates(shown)
    && (HasDate(shown, date) <==> exists j :: 0 <= j < |rs| && Date(rs[j]) == date)
    && (HasDate(shown, date) ==> Lookup(shown, date) == Round2(SumOn(rs, date)))
  }

  ghost predicate DatedIn(bs: seq<Bucket>, date: string) {
    exists i :: 0 <= i < |bs| && Dated(bs[i].records, date)
  }

  lemma {:induction false} ByBucketDays(bs: seq<Bucket>, date: string)
    ensures HasDate(ByBucket(bs).daily, date) <==> DatedIn(bs, date)
  {
    if bs != [] {
      var n := |bs| - 1;
      ByBucketDays(bs[..n], date);
      ByBucketOnDay(bs[..n], date);
      AddAllLookup(ByBucket(bs[..n]).daily, bs[n].records, date);
      assert DatedIn(bs, date) <==> DatedIn(bs[..n], date) || Dated(bs[n].records, date) by {
        if DatedIn(bs[..n], date) {
          var i :| 0 <= i < n && Dated(bs[..n][i].records, date);
          assert Dated(bs[i].records, date);
        }
      }
    }
  }

  lemma DatedInBuckets(bs: seq<Bucket>, rs: seq<Record>, date: string)
    requires HoldsAll(bs, rs)
    ensures DatedIn(bs, date) <==> Dated(rs, date)
  {
    if DatedIn(bs, date) {
      var i :| 0 <= i < |bs| && Dated(bs[i].records, date);
      var j :| 0 <= j < |bs[i].records| && Date(bs[i].records[j]) == date;
      assert bs[i].records[j] in rs;
      var k :| 0 <= k < |rs| && rs[k] == bs[i].records[j];
      assert Date(rs[k]) == date;
    }
    if Dated(rs, date) {
      var k :| 0 <= k < |rs| && Date(rs[k]) == date;
      assert rs[k] in rs;
      var i :| 0 <= i < |bs| && rs[k] in bs[i].records;
      var j :| 0 <= j < |bs[i].records| && bs[i].records[j] == rs[k];
      assert Date(bs[i].records[j]) == date;
    }
  }

  lemma DatedConcat(a: seq<Record>, b: seq<Record>, date: string)
    ensures Dated(a + b, date) <==> Dated(a, date) || Dated(b, date)
  {
    if Dated(a, date) {
      var i :| 0 <= i < |a| && Date(a[i]) == date;
      assert Date((a + b)[i]) == date;
    }
    if Dated(b, date) {
      var i :| 0 <= i < |b| && Date(b[i]) == date;
      assert Date((a + b)[|a| + i]) == date;
    }
    if Dated(a + b, date) {
      var i :| 0 <= i < |a + b| && Date((a + b)[i]) == date;
      assert if i < |a| then Date(a[i]) == date else Date(b[i - |a|]) == date;
    }
  }

  lemma {:induction false} ByAccountDays(accounts: seq<Account>, date: string)
    requires FetchedWell(accounts)
    ensures HasDate(ByAccount(accounts).daily, date) <==> Dated(Gathered(accounts), date)
  {
    if accounts != [] {
      var n := |accounts| - 1;
      ByAccountDays(accounts[..n], date);
      ByAccountOnDay(accounts[..n], date);
      var rs := accounts[n].fetched.GetOr([]);
      DatedConcat(Gathered(accounts[..n]), rs, date);
      if accounts[n].fetched.Some? {
        assert WellFormed(rs) && rs[..|rs|] == rs;
        DatedPrefixIsDated(rs);
        AddAllLookup(ByAccount(accounts[..n]).daily, rs, date);
      }
    }
  }

  // ---- by service or region ----

  lemma LastItem(bs: seq<Bucket>)
    requires bs != []
    ensures
      var b := bs[|bs| - 1];
      ByBucket(bs).items == ByBucket(bs[..|bs| - 1]).items
        + [Item(b.key, Round2(SumCost(b.records)), Rounded(Sorted(AddAll([], b.records))))]
  {
  }

  lemma {:induction false} BucketItem(bs: seq<Bucket>, i: nat)
    requires i < |bs| == |ByBucket(bs).items|
    ensures ByBucket(bs).items[i].daily == Rounded(Sorted(AddAll([], bs[i].records)))
  {
    var n := |bs| - 1;
    LastItem(bs);
    if i < n {
      BucketItem(bs[..n], i);
    }
  }

  /** By group, exactly the accounts that could not be fetched are listed as failed, in
      order. */
  lemma {:induction false} UnfetchedFail(accounts: seq<Account>)
    ensures Shown(ByGroup(accounts)).failed == Failures(accounts)
    ensures Shown(ByGroup(accounts)).hasErrors <==> exists i :: 0 <= i < |accounts| && accounts[i].fetched.None?
  {
    if accounts != [] {
      var n := |accounts| - 1;
      UnfetchedFail(accounts[..n]);
      if i :| 0 <= i < n && accounts[..n][i].fetched.None? {
        assert accounts[i].fetched.None?;
      }
      if i :| 0 <= i <= n && accounts[i].fetched.None? {
        assert i < n ==> accounts[..n][i].fetched.None?;
      }
    }
  }

  ghost function Failures(accounts: seq<Account>): seq<string> {
    if accounts == [] then []
    else
      var a := accounts[|accounts| - 1];
      Failures(accounts[..|accounts| - 1]) + (match a.fetched case None => [a.id] case Some(_) => [])
  }

  /** By group, each item shows the days on which its key occurs, each once, with the sum
      of the key's records of that day. */
  lemma GroupItemsAreRight(accounts: seq<Account>, i: nat, date: string)
    requires i < |ByGroup(accounts).items|
    ensures
      var item := ByGroup(accounts).items[i];
      ShowsDay(item.daily, Filter(Gathered(accounts), (r: Record) => Key(r) == item.id), date)
  {
    var bs := Buckets(Gathered(accounts));
    ByBucketEntries(bs);
    BucketItem(bs, i);
    BucketsAreGroups(Gathered(accounts));
    AddAllLookup([], bs[i].records, date);
    DisplayedDay(AddAll([], bs[i].records), date);
    assert bs[i].records == WithKey(Gathered(accounts), bs[i].key);
  }
}
