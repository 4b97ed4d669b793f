/** The monthly roll-up behind the chart (`getMonthlyData` in
    src/app/page.tsx): transactions are grouped by a month-year label
    derived from their date, amounts are summed per label, and one entry per
    label is emitted in the order labels are first met.

    The label (`toLocaleString` month name plus `getFullYear`) depends on the
    locale and time zone, so it is the parameter `monthLabel`; every result
    here holds for any labelling. Amounts are exact integers (for instance
    cents) rather than IEEE doubles. */
module Monthly {

  /** A transaction as the page receives it from the API. */
  datatype Transaction = Transaction(id: string, amount: int, description: string, date: string)

  /** One bar of the chart: `{name, amount}`. */
  datatype Entry = Entry(name: string, amount: int)

  /** The distinct labels of `ts`, in the order they are first met. */
  function Months(ts: seq<Transaction>, monthLabel: string -> string): (ms: seq<string>)
    ensures |ms| <= |ts|
    ensures forall a, b :: 0 <= a < b < |ms| ==> ms[a] != ms[b]
  {
    if ts == [] then []
    else
      var ms := Months(ts[..|ts| - 1], monthLabel);
      var m := monthLabel(ts[|ts| - 1].date);
      if m in ms then ms else ms + [m]
  }

  /** The labels listed are exactly the labels of the transactions. */
  lemma {:induction false} MonthsAreTheLabels(ts: seq<Transaction>, monthLabel: string -> string)
    ensures forall i :: 0 <= i < |ts| ==> monthLabel(ts[i].date) in Months(ts, monthLabel)
    ensures forall m :: m in Months(ts, monthLabel) ==> exists i :: 0 <= i < |ts| && monthLabel(ts[i].date) == m
  {
    if ts != [] {
      var init := ts[..|ts| - 1];
      MonthsAreTheLabels(init, monthLabel);
      assert forall i :: 0 <= i < |init| ==> ts[i] == init[i];
    }
  }

  /** The position of the first transaction of `ts` labelled `m`. */
  function FirstSeen(ts: seq<Transaction>, monthLabel: string -> string, m: string): (i: nat)
    requires m in Months(ts, monthLabel)
    ensures i < |ts| && monthLabel(ts[i].date) == m
    ensures forall j :: 0 <= j < i ==> monthLabel(ts[j].date) != m
    decreases |ts|
  {
    var init := ts[..|ts| - 1];
    assert forall j :: 0 <= j < |init| ==> ts[j] == init[j];
    MonthsAreTheLabels(init, monthLabel);
    if m in Months(init, monthLabel) then FirstSeen(init, monthLabel, m) else |ts| - 1
  }

  /** The sum of the amounts of the transactions of `ts` labelled `m`. */
  function Total(ts: seq<Transaction>, monthLabel: string -> string, m: string): int
  {
    if ts == [] then 0
    else
      var last := ts[|ts| - 1];
      Total(ts[..|ts| - 1], monthLabel, m) + (if monthLabel(last.date) == m then last.amount else 0)
  }

  /** The sum of all amounts of `ts`. */
  function SumAmounts(ts: seq<Transaction>): int
  {
    if ts == [] then 0 else SumAmounts(ts[..|ts| - 1]) + ts[|ts| - 1].amount
  }

  /** The sum of the amounts of `es`. */
  function SumEntries(es: seq<Entry>): int
  {
    if es == [] then 0 else SumEntries(es[..|es| - 1]) + es[|es| - 1].amount
  }

  /** The entries for a list of labels, each carrying its total over `ts`. */
  function Tabulate(ms: seq<string>, ts: seq<Transaction>, monthLabel: string -> string): (es: seq<Entry>)
    ensures |es| == |ms|
    ensures forall i :: 0 <= i < |ms| ==> es[i].name == ms[i] && es[i].amount == Total(ts, monthLabel, ms[i])
  {
    if ms == [] then []
    else
      var m := ms[|ms| - 1];
      Tabulate(ms[..|ms| - 1], ts, monthLabel) + [Entry(m, Total(ts, monthLabel, m))]
  }

  /** What `getMonthlyData` returns: one entry per distinct label, in
      first-met order, carrying that label's total. */
  function Rollup(ts: seq<Transaction>, monthLabel: string -> string): seq<Entry>
  {
    Tabulate(Months(ts, monthLabel), ts, monthLabel)
  }

  /** The final projection of `getMonthlyData`: one entry per accumulated
      key, in key order, named by the key and carrying the key's total. */
  function Project(order: seq<string>, totals: map<string, int>): (es: seq<Entry>)
    requires forall k :: k in order ==> k in totals
    ensures |es| == |order|
    ensures forall i :: 0 <= i < |order| ==> es[i] == Entry(order[i], totals[order[i]])
  {
    if order == [] then []
    else [Entry(order[0], totals[order[0]])] + Project(order[1..], totals)
  }

  /** `getMonthlyData`: the `reduce` into a dictionary keyed by label (keys
      kept in insertion order, as `Object.entries` lists non-index string
      keys), followed by the projection to entries. */
  method MonthlyData(transactions: seq<Transaction>, monthLabel: string -> string) returns (entries: seq<Entry>)
    ensures entries == Rollup(transactions, monthLabel)
  {
    var totals: map<string, int> := map[];
    var order: seq<string> := [];
    var i := 0;
    while i < |transactions|
      invariant 0 <= i <= |transactions|
      invariant Accumulated(transactions[..i], monthLabel, order, totals)
    {
      var t := transactions[i];
      var monthYear := monthLabel(t.date);
      ghost var order0, totals0 := order, totals;
      // add the amount to the label's running total, starting from zero
      var previous := if monthYear in totals then totals[monthYear] else 0;
      if monthYear !in totals {
        order := order + [monthYear];
      }
      totals := totals[monthYear := previous + t.amount];
      AccumulateStep(transactions[..i], t, monthLabel, order0, totals0, order, totals);
      assert transactions[..i + 1] == transactions[..i] + [t];
      i := i + 1;
    }
    assert transactions[..i] == transactions;
    entries := Project(order, totals);
    ProjectTotals(order, totals, transactions, monthLabel);
    assert order == Months(transactions, monthLabel);
  }

  /** The loop's state after reading `ts`: the dictionary's keys, in
      insertion order, are the labels met so far, each mapped to its total. */
  ghost predicate Accumulated(ts: seq<Transaction>, monthLabel: string -> string, order: seq<string>, totals: map<string, int>)
  {
    && order == Months(ts, monthLabel)
    && (forall k :: k in totals <==> k in order)
    && (forall k :: k in totals ==> totals[k] == Total(ts, monthLabel, k))
  }

  /** One step of the `reduce` keeps the loop's state in step with the input read. */
  lemma AccumulateStep(ts: seq<Transaction>, t: Transaction, monthLabel: string -> string,
                       order: seq<string>, totals: map<string, int>, order': seq<string>, totals': map<string, int>)
    requires Accumulated(ts, monthLabel, order, totals)
    requires var m := monthLabel(t.date);
             && order' == (if m in totals then order else order + [m])
             && totals' == totals[m := (if m in totals then totals[m] else 0) + t.amount]
    ensures Accumulated(ts + [t], monthLabel, order', totals')
  {
    var m := monthLabel(t.date);
    MonthsExtend(ts, t, monthLabel);
    forall k | k in totals'
      ensures totals'[k] == Total(ts + [t], monthLabel, k)
    {
      TotalExtend(ts, t, monthLabel, k);
      if k != m {
        assert k in totals && totals'[k] == totals[k];
      } else if k !in totals {
        TotalOfUnseen(ts, monthLabel, k);
      }
    }
  }

  /** Projecting a dictionary that holds each label's total gives the
      tabulated entries. */
  lemma ProjectTotals(order: seq<string>, totals: map<string, int>, ts: seq<Transaction>, monthLabel: string -> string)
    requires forall k :: k in order ==> k in totals && totals[k] == Total(ts, monthLabel, k)
    ensures Project(order, totals) == Tabulate(order, ts, monthLabel)
  {
  }

  /** How the labels change when one more transaction is read. */
  lemma MonthsExtend(ts: seq<Transaction>, t: Transaction, monthLabel: string -> string)
    ensures var ms, m := Months(ts, monthLabel), monthLabel(t.date);
            Months(ts + [t], monthLabel) == if m in ms then ms else ms + [m]
  {
    assert (ts + [t])[..|ts|] == ts;
  }

  /** How a total changes when one more transaction is read. */
  lemma TotalExtend(ts: seq<Transaction>, t: Transaction, monthLabel: string -> string, m: string)
    ensures Total(ts + [t], monthLabel, m) == Total(ts, monthLabel, m) + (if monthLabel(t.date) == m then t.amount else 0)
  {
    assert (ts + [t])[..|ts|] == ts;
  }

  /** A label that no transaction carries has total zero. */
  lemma {:induction false} TotalOfUnseen(ts: seq<Transaction>, monthLabel: string -> string, m: string)
    requires m !in Months(ts, monthLabel)
    ensures Total(ts, monthLabel, m) == 0
  {
    if ts != [] {
      TotalOfUnseen(ts[..|ts| - 1], monthLabel, m);
    }
  }

  /** Totals add up over concatenation. */
  lemma {:induction false} TotalAppend(a: seq<Transaction>, b: seq<Transaction>, monthLabel: string -> string, m: string)
    ensures Total(a + b, monthLabel, m) == Total(a, monthLabel, m) + Total(b, monthLabel, m)
    decreases |b|
  {
    if b == [] {
      assert a + b == a;
    } else {
      assert (a + b)[..|a + b| - 1] == a + b[..|b| - 1];
      TotalAppend(a, b[..|b| - 1], monthLabel, m);
    }
  }

  /** A label's total depends only on which transactions there are, not on
      their order: reordering the input (in particular, reordering the
      transactions that share a label) leaves every total unchanged. */
  lemma {:induction false} TotalUnderPermutation(ts: seq<Transaction>, us: seq<Transaction>, monthLabel: string -> string, m: string)
    requires multiset(ts) == multiset(us)
    ensures Total(ts, monthLabel, m) == Total(us, monthLabel, m)
    decreases |ts|
  {
    if ts == [] {
      assert |us| == |multiset(us)| == 0;
    } else {
      var last := ts[|ts| - 1];
      var init := ts[..|ts| - 1];
      assert ts == init + [last];
      assert last in multiset(us);
      var j :| 0 <= j < |us| && us[j] == last;
      var rest := us[..j] + us[j + 1..];
      MultisetRemove(init, last);
      MultisetRemoveAt(us, j);
      TotalUnderPermutation(init, rest, monthLabel, m);
      TotalExtend(init, last, monthLabel, m);
      TotalRemoveAt(us, j, monthLabel, m);
    }
  }

  lemma MultisetRemove(ts: seq<Transaction>, t: Transaction)
    ensures multiset(ts) == multiset(ts + [t]) - multiset{t}
  {
  }

  lemma MultisetRemoveAt(us: seq<Transaction>, j: nat)
    requires j < |us|
    ensures multiset(us[..j] + us[j + 1..]) == multiset(us) - multiset{us[j]}
  {
    assert us == us[..j] + [us[j]] + us[j + 1..];
  }

  /** Taking out the transaction at `j` lowers its label's total by its amount. */
  lemma TotalRemoveAt(us: seq<Transaction>, j: nat, monthLabel: string -> string, m: string)
    requires j < |us|
    ensures Total(us, monthLabel, m) ==
            Total(us[..j] + us[j + 1..], monthLabel, m) + (if monthLabel(us[j].date) == m then us[j].amount else 0)
  {
    assert us == us[..j] + [us[j]] + us[j + 1..];
    TotalAppend(us[..j] + [us[j]], us[j + 1..], monthLabel, m);
    TotalAppend(us[..j], us[j + 1..], monthLabel, m);
    TotalExtend(us[..j], us[j], monthLabel, m);
  }

  /** Adding one transaction to `ts` raises the summed totals of a list of
      distinct labels by its amount when its label is in the list. */
  lemma {:induction false} SumTotalsStep(ms: seq<string>, ts: seq<Transaction>, t: Transaction, monthLabel: string -> string)
    requires forall a, b :: 0 <= a < b < |ms| ==> ms[a] != ms[b]
    ensures SumEntries(Tabulate(ms, ts + [t], monthLabel)) ==
            SumEntries(Tabulate(ms, ts, monthLabel)) + (if monthLabel(t.date) in ms then t.amount else 0)
    decreases |ms|
  {
    var ts' := ts + [t];
    assert ts'[..|ts'| - 1] == ts;
    if ms != [] {
      var init := ms[..|ms| - 1];
      var m := ms[|ms| - 1];
      SumTotalsStep(init, ts, t, monthLabel);
      TabulateSnoc(init, m, ts, monthLabel);
      TabulateSnoc(init, m, ts', monthLabel);
      assert ms == init + [m];
      assert monthLabel(t.date) == m ==> monthLabel(t.date) !in init;
    }
  }

  lemma TabulateSnoc(ms: seq<string>, m: string, ts: seq<Transaction>, monthLabel: string -> string)
    ensures Tabulate(ms + [m], ts, monthLabel) == Tabulate(ms, ts, monthLabel) + [Entry(m, Total(ts, monthLabel, m))]
  {
  }

  lemma SumEntriesSnoc(es: seq<Entry>, e: Entry)
    ensures SumEntries(es + [e]) == SumEntries(es) + e.amount
  {
    assert (es + [e])[..|es|] == es;
  }

  /** With exact arithmetic nothing is lost or counted twice: the entries'
      amounts add up to the sum of all transaction amounts. */
  lemma {:induction false} RollupConservesTotal(ts: seq<Transaction>, monthLabel: string -> string)
    ensures SumEntries(Rollup(ts, monthLabel)) == SumAmounts(ts)
  {
    if ts != [] {
      var init := ts[..|ts| - 1];
      var t := ts[|ts| - 1];
      assert ts == init + [t];
      RollupConservesTotal(init, monthLabel);
      RollupStep(init, t, monthLabel);
    }
  }

  lemma RollupStep(ts: seq<Transaction>, t: Transaction, monthLabel: string -> string)
    ensures SumEntries(Rollup(ts + [t], monthLabel)) == SumEntries(Rollup(ts, monthLabel)) + t.amount
  {
    var ms := Months(ts, monthLabel);
    var m := monthLabel(t.date);
    MonthsExtend(ts, t, monthLabel);
    SumTotalsStep(ms, ts, t, monthLabel);
    if m !in ms {
      TabulateSnoc(ms, m, ts + [t], monthLabel);
      SumEntriesSnoc(Tabulate(ms, ts + [t], monthLabel), Entry(m, Total(ts + [t], monthLabel, m)));
      TotalOfUnseen(ts, monthLabel, m);
      TotalExtend(ts, t, monthLabel, m);
    }
  }

  /** The transactions of `ts` labelled `m`, in order. */
  function Only(ts: seq<Transaction>, monthLabel: string -> string, m: string): (sel: seq<Transaction>)
    ensures forall t :: t in sel <==> t in ts && monthLabel(t.date) == m
  {
    if ts == [] then []
    else
      var last := ts[|ts| - 1];
      Only(ts[..|ts| - 1], monthLabel, m) + (if monthLabel(last.date) == m then [last] else [])
  }

  lemma SumAmountsSnoc(ts: seq<Transaction>, t: Transaction)
    ensures SumAmounts(ts + [t]) == SumAmounts(ts) + t.amount
  {
    assert (ts + [t])[..|ts|] == ts;
  }

  /** A label's total is the plain sum of the amounts of the transactions
      carrying that label; the other transactions play no part. */
  lemma {:induction false} TotalIsSumOfItsMonth(ts: seq<Transaction>, monthLabel: string -> string, m: string)
    ensures Total(ts, monthLabel, m) == SumAmounts(Only(ts, monthLabel, m))
  {
    if ts != [] {
      var init := ts[..|ts| - 1];
      var last := ts[|ts| - 1];
      TotalIsSumOfItsMonth(init, monthLabel, m);
      var sel := Only(init, monthLabel, m);
      if monthLabel(last.date) == m {
        assert Only(ts, monthLabel, m) == sel + [last];
        SumAmountsSnoc(sel, last);
      } else {
        assert Only(ts, monthLabel, m) == sel + [];
        assert sel + [] == sel;
      }
    }
  }

  /** Each entry carries the sum of the amounts of exactly the transactions
      whose label is its name. */
  lemma RollupAmounts(ts: seq<Transaction>, monthLabel: string -> string, i: nat)
    requires i < |Rollup(ts, monthLabel)|
    ensures Rollup(ts, monthLabel)[i].amount == SumAmounts(Only(ts, monthLabel, Rollup(ts, monthLabel)[i].name))
  {
    TotalIsSumOfItsMonth(ts, monthLabel, Rollup(ts, monthLabel)[i].name);
  }

  /** The entry names are pairwise distinct and are exactly the labels of
      the input transactions; there are at most as many entries as
      transactions. */
  lemma RollupNames(ts: seq<Transaction>, monthLabel: string -> string)
    ensures |Rollup(ts, monthLabel)| <= |ts|
    ensures forall a, b :: 0 <= a < b < |Rollup(ts, monthLabel)| ==> Rollup(ts, monthLabel)[a].name != Rollup(ts, monthLabel)[b].name
    ensures forall i :: 0 <= i < |ts| ==> exists e :: e in Rollup(ts, monthLabel) && e.name == monthLabel(ts[i].date)
    ensures forall e :: e in Rollup(ts, monthLabel) ==> exists i :: 0 <= i < |ts| && monthLabel(ts[i].date) == e.name
  {
    var es := Rollup(ts, monthLabel);
    var ms := Months(ts, monthLabel);
    MonthsAreTheLabels(ts, monthLabel);
    forall i | 0 <= i < |ts|
      ensures exists e :: e in es && e.name == monthLabel(ts[i].date)
    {
      var a :| 0 <= a < |ms| && ms[a] == monthLabel(ts[i].date);
      assert es[a] in es;
    }
    forall e | e in es
      ensures exists i :: 0 <= i < |ts| && monthLabel(ts[i].date) == e.name
    {
      var a :| 0 <= a < |es| && es[a] == e;
      assert ms[a] in ms;
    }
  }

  /** Entries come in the order their label is first met in the input. */
  lemma {:induction false} RollupInFirstSeenOrder(ts: seq<Transaction>, monthLabel: string -> string, a: nat, b: nat)
    requires a < b < |Rollup(ts, monthLabel)|
    ensures Rollup(ts, monthLabel)[a].name in Months(ts, monthLabel)
    ensures Rollup(ts, monthLabel)[b].name in Months(ts, monthLabel)
    ensures FirstSeen(ts, monthLabel, Rollup(ts, monthLabel)[a].name) < FirstSeen(ts, monthLabel, Rollup(ts, monthLabel)[b].name)
  {
    var ms := Months(ts, monthLabel);
    assert ms[a] in ms && ms[b] in ms;
    MonthsInFirstSeenOrder(ts, monthLabel, a, b);
  }

  lemma {:induction false} MonthsInFirstSeenOrder(ts: seq<Transaction>, monthLabel: string -> string, a: nat, b: nat)
    requires a < b < |Months(ts, monthLabel)|
    ensures FirstSeen(ts, monthLabel, Months(ts, monthLabel)[a]) < FirstSeen(ts, monthLabel, Months(ts, monthLabel)[b])
    decreases |ts|
  {
    var init := ts[..|ts| - 1];
    var ms0 := Months(init, monthLabel);
    var ms := Months(ts, monthLabel);
    assert ms[a] in ms0;
    if b < |ms0| {
      assert ms[b] in ms0;
      MonthsInFirstSeenOrder(init, monthLabel, a, b);
    }
  }

  /** No transactions, no entries. */
  lemma RollupOfNone(monthLabel: string -> string)
    ensures Rollup([], monthLabel) == []
  {
  }

  /** A single transaction yields a single entry carrying its amount. */
  lemma RollupOfOne(t: Transaction, monthLabel: string -> string)
    ensures Rollup([t], monthLabel) == [Entry(monthLabel(t.date), t.amount)]
  {
    assert [t][..0] == [];
    assert Months([t], monthLabel) == [monthLabel(t.date)];
    assert Total([t], monthLabel, monthLabel(t.date)) == t.amount;
  }

  /** Two transactions of one month followed by one of another, as in
      January 5th (+10), January 20th (-3), February 1st (+5): the first
      month's entry comes first and carries the net of its two amounts. */
  lemma RollupTwoMonths(t0: Transaction, t1: Transaction, t2: Transaction, monthLabel: string -> string)
    requires monthLabel(t0.date) == monthLabel(t1.date) != monthLabel(t2.date)
    ensures Rollup([t0, t1, t2], monthLabel) ==
            [Entry(monthLabel(t0.date), t0.amount + t1.amount), Entry(monthLabel(t2.date), t2.amount)]
  {
    var first, second := monthLabel(t0.date), monthLabel(t2.date);
    var ts1, ts2, ts3 := [t0], [t0, t1], [t0, t1, t2];
    assert ts1 == [] + [t0] && ts2 == ts1 + [t1] && ts3 == ts2 + [t2];
    MonthsExtend([], t0, monthLabel);
    MonthsExtend(ts1, t1, monthLabel);
    MonthsExtend(ts2, t2, monthLabel);
    assert Months(ts3, monthLabel) == [first, second];
    TotalExtend([], t0, monthLabel, first);
    TotalExtend(ts1, t1, monthLabel, first);
    TotalExtend(ts2, t2, monthLabel, first);
    TotalExtend([], t0, monthLabel, second);
    TotalExtend(ts1, t1, monthLabel, second);
    TotalExtend(ts2, t2, monthLabel, second);
  }
}
