/** The totals of a month: three groupings of the same rows that must agree. Amounts
    are whole cents, so rounding to cents changes nothing. */
module Dashboard {
  import opened Calendar
  import opened Options
  import opened Records
  import opened Repository

  // ----- the month -----

  datatype Month = Month(start: Day, end: Day)

  function MonthBounds(reference: Day): Month
    requires 1 <= reference
  {
    var d := FromOrdinal(reference);
    Month(ToOrdinal(Date(d.year, d.month, 1)), ToOrdinal(Date(d.year, d.month, MonthLength(d.year, d.month))))
  }

  /** The bounds hold exactly the days of the reference's year and month. */
  lemma MonthBoundsAreTheMonth(reference: Day, d: Day)
    requires 1 <= reference && 1 <= d
    ensures var m := MonthBounds(reference);
            m.start <= d <= m.end <==>
            FromOrdinal(d).year == FromOrdinal(reference).year && FromOrdinal(d).month == FromOrdinal(reference).month
  {
    var r, x := FromOrdinal(reference), FromOrdinal(d);
    var first, last := Date(r.year, r.month, 1), Date(r.year, r.month, MonthLength(r.year, r.month));
    OrderIsChronological(x, first);
    OrderIsChronological(last, x);
  }

  // ----- the rows of a month -----

  /** Rows of an account dated in a month, of commitments that are not in the trash. */
  function InMonth(db: Db, user: UserId, m: Month): set<Key> {
    set k | k in db.rows && k.commitment in db.commitments
            && db.rows[k].user == user && db.commitments[k.commitment].Live() && m.start <= k.due <= m.end
  }

  function Due(db: Db, user: UserId, m: Month): set<Key> {
    set k | k in InMonth(db, user, m) && !db.rows[k].status.Skipped?
  }

  function OfType(db: Db, keys: set<Key>, t: CommitmentType): set<Key> {
    set k | k in keys && k.commitment in db.commitments && db.commitments[k.commitment].commitmentType == t
  }

  function OfCategory(db: Db, keys: set<Key>, category: Category): set<Key> {
    set k | k in keys && k.commitment in db.commitments && db.commitments[k.commitment].category == category
  }

  function OfStatus(db: Db, keys: set<Key>, status: OccurrenceStatus): set<Key> {
    set k | k in keys && k in db.rows && db.rows[k].status == status
  }

  function Categories(db: Db, keys: set<Key>): set<Category> {
    set k | k in keys && k.commitment in db.commitments :: db.commitments[k.commitment].category
  }

  predicate SameMonth(a: Day, b: Day) {
    1 <= a && 1 <= b && FromOrdinal(a).year == FromOrdinal(b).year && FromOrdinal(a).month == FromOrdinal(b).month
  }

  /** A row of the account's month, of a commitment that is not in the trash. */
  ghost predicate RowOfMonth(db: Db, user: UserId, today: Day, k: Key) {
    && k in db.rows && k.commitment in db.commitments && db.rows[k].user == user
    && db.commitments[k.commitment].deletedAt == None && SameMonth(today, k.due)
  }

  /** What enters each total: the rows of the calendar month that are not skipped, by the
      type and the category of their commitment; and the paid and the pending ones. */
  lemma EntersTotals(db: Db, user: UserId, today: Day, k: Key)
    requires 1 <= today
    ensures var m := MonthBounds(today);
            var due, all := Due(db, user, m), InMonth(db, user, m);
            && (k in due <==> RowOfMonth(db, user, today, k) && db.rows[k].status != Skipped)
            && (forall t :: k in OfType(db, due, t) <==> k in due && db.commitments[k.commitment].commitmentType == t)
            && (forall c :: k in OfCategory(db, due, c) <==> k in due && db.commitments[k.commitment].category == c)
            && (forall s :: k in OfStatus(db, all, s) <==> RowOfMonth(db, user, today, k) && db.rows[k].status == s)
  {
    if 1 <= k.due {
      MonthBoundsAreTheMonth(today, k.due);
    }
    hide FromOrdinal, ToOrdinal;
  }

  // ----- sums over sets of rows -----

  ghost function Total(rows: map<Key, Row>, keys: set<Key>): Cents
    requires keys <= rows.Keys
  {
    if keys == {} then 0
    else
      var k :| k in keys;
      rows[k].amount + Total(rows, keys - {k})
  }

  /** A total does not depend on the order the rows come in. */
  lemma {:induction false} TotalTakes(rows: map<Key, Row>, keys: set<Key>, k: Key)
    requires keys <= rows.Keys && k in keys
    ensures Total(rows, keys) == rows[k].amount + Total(rows, keys - {k})
  {
    var j :| j in keys && Total(rows, keys) == rows[j].amount + Total(rows, keys - {j});
    if j != k {
      TotalTakes(rows, keys - {j}, k);
      TotalTakes(rows, keys - {k}, j);
      assert keys - {j} - {k} == keys - {k} - {j};
    }
  }

  lemma {:induction false} TotalSplits(rows: map<Key, Row>, a: set<Key>, b: set<Key>)
    requires a <= rows.Keys && b <= rows.Keys && a !! b
    ensures Total(rows, a + b) == Total(rows, a) + Total(rows, b)
  {
    if k :| k in a {
      TotalTakes(rows, a + b, k);
      TotalTakes(rows, a, k);
      assert a + b - {k} == (a - {k}) + b;
      TotalSplits(rows, a - {k}, b);
    } else {
      assert a + b == b;
    }
  }

  // ----- conservation -----

  datatype CategoryTotal = CategoryTotal(category: Category, total: Cents, count: nat)

  function SumOfTotals(totals: seq<CategoryTotal>): Cents {
    if totals == [] then 0 else SumOfTotals(totals[..|totals| - 1]) + totals[|totals| - 1].total
  }

  ghost predicate HasGroup(totals: seq<CategoryTotal>, c: Category) {
    exists i :: 0 <= i < |totals| && totals[i].category == c
  }

  lemma OneMoreGroup(totals: seq<CategoryTotal>, last: CategoryTotal, c: Category)
    ensures HasGroup(totals + [last], c) <==> HasGroup(totals, c) || c == last.category
  {
    var all := totals + [last];
    if HasGroup(totals, c) {
      var i :| 0 <= i < |totals| && totals[i].category == c;
      assert all[i].category == c;
    }
    assert all[|totals|].category == last.category;
  }

  ghost predicate OwnTotal(db: Db, keys: set<Key>, g: CategoryTotal)
    requires keys <= db.rows.Keys
  {
    g.total == Total(db.rows, OfCategory(db, keys, g.category)) && g.count == |OfCategory(db, keys, g.category)|
  }

  /** One line for each category of the rows, with its total and its count. */
  ghost predicate GroupsByCategory(db: Db, keys: set<Key>, totals: seq<CategoryTotal>) {
    && keys <= db.rows.Keys
    && (forall i, j :: 0 <= i < j < |totals| ==> totals[i].category != totals[j].category)
    && (forall i :: 0 <= i < |totals| ==> OwnTotal(db, keys, totals[i]))
    && (forall c :: c in Categories(db, keys) <==> HasGroup(totals, c))
  }

  /** The lines by category: each category of the rows once, with the sum and the number
      of its rows. */
  lemma GroupsAre(db: Db, keys: set<Key>, totals: seq<CategoryTotal>)
    requires GroupsByCategory(db, keys, totals)
    ensures forall i :: 0 <= i < |totals| ==>
              var rows := OfCategory(db, keys, totals[i].category);
              rows != {} && totals[i].total == Total(db.rows, rows) && totals[i].count == |rows|
    ensures forall i, j :: 0 <= i < j < |totals| ==> totals[i].category != totals[j].category
    ensures forall k :: k in keys && k.commitment in db.commitments ==>
              exists i :: 0 <= i < |totals| && totals[i].category == db.commitments[k.commitment].category
  {
    forall i | 0 <= i < |totals|
      ensures OfCategory(db, keys, totals[i].category) != {}
    {
      assert HasGroup(totals, totals[i].category);
      var k :| k in keys && k.commitment in db.commitments && db.commitments[k.commitment].category == totals[i].category;
      assert k in OfCategory(db, keys, totals[i].category);
    }
    assert forall i :: 0 <= i < |totals| ==> OwnTotal(db, keys, totals[i]);
    forall k | k in keys && k.commitment in db.commitments
      ensures HasGroup(totals, db.commitments[k.commitment].category)
    {
      assert db.commitments[k.commitment].category in Categories(db, keys);
    }
  }

  ghost function FirstGroups(db: Db, keys: set<Key>, totals: seq<CategoryTotal>): set<Key> {
    set k | k in keys && k.commitment in db.commitments && HasGroup(totals, db.commitments[k.commitment].category)
  }

  lemma {:induction false} GroupsAddUp(db: Db, keys: set<Key>, totals: seq<CategoryTotal>)
    requires keys <= db.rows.Keys
    requires forall i, j :: 0 <= i < j < |totals| ==> totals[i].category != totals[j].category
    requires forall i :: 0 <= i < |totals| ==> OwnTotal(db, keys, totals[i])
    ensures SumOfTotals(totals) == Total(db.rows, FirstGroups(db, keys, totals))
  {
    if totals == [] {
      assert FirstGroups(db, keys, totals) == {};
    } else {
      var front, last := totals[..|totals| - 1], totals[|totals| - 1];
      GroupsAddUp(db, keys, front);
      LastGroup(db, keys, front, last);
      assert totals == front + [last];
      TotalSplits(db.rows, FirstGroups(db, keys, front), OfCategory(db, keys, last.category));
      assert OwnTotal(db, keys, last);
    }
  }

  lemma LastGroup(db: Db, keys: set<Key>, front: seq<CategoryTotal>, last: CategoryTotal)
    requires !HasGroup(front, last.category)
    ensures FirstGroups(db, keys, front + [last]) == FirstGroups(db, keys, front) + OfCategory(db, keys, last.category)
    ensures FirstGroups(db, keys, front) !! OfCategory(db, keys, last.category)
  {
    forall k: Key | k in keys && k.commitment in db.commitments
      ensures k in FirstGroups(db, keys, front + [last]) <==>
              k in FirstGroups(db, keys, front) || k in OfCategory(db, keys, last.category)
    {
      OneMoreGroup(front, last, db.commitments[k.commitment].category);
    }
    hide HasGroup;
  }

  /** For any tables, the month's total over types is the sum of its categories and the
      sum of what is paid and what is pending: trashed commitments and skipped rows
      enter none of them. */
  lemma TotalsAgree(db: Db, user: UserId, m: Month, totals: seq<CategoryTotal>)
    requires GroupsByCategory(db, Due(db, user, m), totals)
    ensures var due, all := Due(db, user, m), InMonth(db, user, m);
            var monthTotal := Total(db.rows, OfType(db, due, Subscription)) + Total(db.rows, OfType(db, due, Invoice));
            && monthTotal == SumOfTotals(totals)
            && monthTotal == Total(db.rows, OfStatus(db, all, Paid)) + Total(db.rows, OfStatus(db, all, Pending))
  {
    var due, all := Due(db, user, m), InMonth(db, user, m);
    TotalSplits(db.rows, OfType(db, due, Subscription), OfType(db, due, Invoice));
    assert due == OfType(db, due, Subscription) + OfType(db, due, Invoice);
    TotalSplits(db.rows, OfStatus(db, all, Paid), OfStatus(db, all, Pending));
    assert due == OfStatus(db, all, Paid) + OfStatus(db, all, Pending);
    GroupsAddUp(db, due, totals);
    forall k | k in due
      ensures k in FirstGroups(db, due, totals)
    {
      assert db.commitments[k.commitment].category in Categories(db, due);
    }
    assert FirstGroups(db, due, totals) == due;
  }

  // ----- the summary, as the program builds it -----

  datatype Summary = Summary(
    monthTotal: Cents,
    subscriptionsTotal: Cents,
    invoicesTotal: Cents,
    paidTotal: Cents,
    pendingTotal: Cents,
    byCategory: seq<CategoryTotal>)

  method SumRows(rows: map<Key, Row>, keys: set<Key>) returns (total: Cents)
    requires keys <= rows.Keys
    ensures total == Total(rows, keys)
  {
    total := 0;
    var rest := keys;
    while rest != {}
      invariant rest <= keys && total + Total(rows, rest) == Total(rows, keys)
      decreases rest
    {
      var k :| k in rest;
      TotalTakes(rows, rest, k);
      total := total + rows[k].amount;
      rest := rest - {k};
    }
  }

  method TotalsByCategory(db: Db, keys: set<Key>) returns (totals: seq<CategoryTotal>)
    requires keys <= db.rows.Keys
    ensures GroupsByCategory(db, keys, totals)
  {
    totals := [];
    var categories := Categories(db, keys);
    var rest := categories;
    while rest != {}
      invariant rest <= categories
      invariant forall i, j :: 0 <= i < j < |totals| ==> totals[i].category != totals[j].category
      invariant forall i :: 0 <= i < |totals| ==> OwnTotal(db, keys, totals[i])
      invariant forall c :: c in categories - rest <==> HasGroup(totals, c)
      decreases rest
    {
      var c :| c in rest;
      assert !HasGroup(totals, c) by { assert c !in categories - rest; }
      var total := SumRows(db.rows, OfCategory(db, keys, c));
      var group := CategoryTotal(c, total, |OfCategory(db, keys, c)|);
      forall x
        ensures HasGroup(totals + [group], x) <==> x in categories - (rest - {c})
      {
        OneMoreGroup(totals, group, x);
        assert x in categories - rest <==> HasGroup(totals, x);
      }
      totals := totals + [group];
      rest := rest - {c};
    }
  }

  /** The dashboard's figures agree with one another on any tables. */
  method Summarize(repo: CommitmentRepository, user: UserId, today: Day) returns (s: Summary)
    requires 1 <= today
    ensures s.monthTotal == SumOfTotals(s.byCategory) == s.paidTotal + s.pendingTotal
    ensures s.monthTotal == s.subscriptionsTotal + s.invoicesTotal
    ensures var due := Due(repo.View(), user, MonthBounds(today));
            && s.subscriptionsTotal == Total(repo.rows, OfType(repo.View(), due, Subscription))
            && s.invoicesTotal == Total(repo.rows, OfType(repo.View(), due, Invoice))
            && GroupsByCategory(repo.View(), due, s.byCategory)
            && (forall i :: 0 <= i < |s.byCategory| ==>
                  var rows := OfCategory(repo.View(), due, s.byCategory[i].category);
                  rows != {} && s.byCategory[i].total == Total(repo.rows, rows) && s.byCategory[i].count == |rows|)
            && (forall i, j :: 0 <= i < j < |s.byCategory| ==> s.byCategory[i].category != s.byCategory[j].category)
            && (forall k :: k in due && k.commitment in repo.commitments ==>
                  exists i :: 0 <= i < |s.byCategory| && s.byCategory[i].category == repo.commitments[k.commitment].category)
    ensures s.paidTotal == Total(repo.rows, OfStatus(repo.View(), InMonth(repo.View(), user, MonthBounds(today)), Paid))
    ensures s.pendingTotal == Total(repo.rows, OfStatus(repo.View(), InMonth(repo.View(), user, MonthBounds(today)), Pending))
  {
    var db, m := repo.View(), MonthBounds(today);
    var due, all := Due(db, user, m), InMonth(db, user, m);
    var subscriptions := SumRows(db.rows, OfType(db, due, Subscription));
    var invoices := SumRows(db.rows, OfType(db, due, Invoice));
    var paid := SumRows(db.rows, OfStatus(db, all, Paid));
    var pending := SumRows(db.rows, OfStatus(db, all, Pending));
    var byCategory := TotalsByCategory(db, due);
    TotalsAgree(db, user, m, byCategory);
    GroupsAre(db, due, byCategory);
    s := Summary(subscriptions + invoices, subscriptions, invoices, paid, pending, byCategory);
  }
}
