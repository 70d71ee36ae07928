/**
 * The report engine of server/index.js: the yearly and monthly summaries
 * grouped by (expense type, category, payment method), the monthly "Others"
 * reconciliation of credit-card payments against itemised card expenses, the
 * Excel exports built on the same rows, the credit-card name union, the
 * sheet-name sanitiser and the month names.
 */
module Reports {
  import opened Wrappers
  import opened Text
  import opened Sorting
  import opened Grouping
  import opened JsObjects
  import opened Schema
  import opened Ledger

  /** One line of a report: expense_type, category, payment_method, payment_method_type, total, transaction_count. */
  datatype ReportRow = ReportRow(expenseType: string, category: string, paymentMethod: string, methodKind: PaymentKind, total: int, count: nat)

  function RowTotal(r: ReportRow): int { r.total }
  function RowCount(r: ReportRow): int { r.count }
  function RowType(r: ReportRow): string { r.expenseType }

  // ---------------------------------------------------------------------------
  // The grouped rows

  /** `GROUP BY et.id, et.name, c.id, c.name, pm.id, pm.name, pm.type`. */
  datatype GroupKey = GroupKey(typeId: nat, typeName: string, categoryId: nat, categoryName: string,
                               methodId: nat, methodName: string, kind: PaymentKind)

  function KeyOf(v: ExpenseView): GroupKey {
    GroupKey(v.expense.typeId, v.typeName, v.expense.categoryId, v.categoryName, v.expense.methodId, v.methodName, v.methodKind)
  }

  function ViewAmount(v: ExpenseView): int { v.expense.amount }

  /** The report line of one group: its names, SUM(e.amount) and COUNT(e.id). */
  function RowOf(g: Group<GroupKey, ExpenseView>): ReportRow {
    ReportRow(g.key.typeName, g.key.categoryName, g.key.methodName, g.key.kind, SumBy(g.items, ViewAmount), |g.items|)
  }

  /** The reference line for key `k` over the expenses `vs`: the line of the group of every expense with that key. */
  function GroupRow(vs: seq<ExpenseView>, k: GroupKey): ReportRow {
    RowOf(Group(k, Members(vs, KeyOf, k)))
  }

  function RowsOf(gs: seq<Group<GroupKey, ExpenseView>>): (r: seq<ReportRow>)
    ensures |r| == |gs|
    ensures forall i :: 0 <= i < |gs| ==> r[i] == RowOf(gs[i])
  {
    if gs == [] then [] else [RowOf(gs[0])] + RowsOf(gs[1..])
  }

  /** `ORDER BY et.name, c.name, total DESC`. */
  predicate ReportOrder(a: ReportRow, b: ReportRow) {
    if a.expenseType != b.expenseType then LexLe(a.expenseType, b.expenseType)
    else if a.category != b.category then LexLe(a.category, b.category)
    else a.total >= b.total
  }

  /** The expenses a report covers: `strftime('%Y', e.date) = ?`, and `strftime('%m', e.date) = ?` when a month is given. */
  predicate ExpenseInPeriod(e: Expense, year: string, month: Option<string>) {
    DateYear(e.date) == Some(year) && (month.Some? ==> DateMonth(e.date) == month)
  }

  function InPeriod(year: string, month: Option<string>): Expense -> bool {
    (e: Expense) => ExpenseInPeriod(e, year, month)
  }

  /** The period's expenses joined with the three catalogs. */
  function PeriodViews(d: Db, year: string, month: Option<string>): seq<ExpenseView> {
    JoinRows(d, Filter(d.expenses, InPeriod(year, month)))
  }

  /** The grouped query: one line per group, in report order. */
  function GroupedRows(vs: seq<ExpenseView>): seq<ReportRow> {
    Sort(RowsOf(GroupBy(vs, KeyOf)), ReportOrder)
  }

  lemma ReportOrderTotal()
    ensures TotalPreorder(ReportOrder)
  {
    forall a: ReportRow, b: ReportRow
      ensures ReportOrder(a, b) || ReportOrder(b, a)
    {
      LexLeTotal(a.expenseType, b.expenseType);
      LexLeTotal(a.category, b.category);
    }
    forall a: ReportRow, b: ReportRow, c: ReportRow | ReportOrder(a, b) && ReportOrder(b, c)
      ensures ReportOrder(a, c)
    {
      ReportOrderTransitive(a, b, c);
    }
  }

  lemma ReportOrderTransitive(a: ReportRow, b: ReportRow, c: ReportRow)
    requires ReportOrder(a, b) && ReportOrder(b, c)
    ensures ReportOrder(a, c)
  {
    if a.expenseType != b.expenseType || b.expenseType != c.expenseType {
      if a.expenseType == c.expenseType {
        LexLeAntisymmetric(a.expenseType, b.expenseType);
      } else if a.expenseType != b.expenseType && b.expenseType != c.expenseType {
        LexLeTransitive(a.expenseType, b.expenseType, c.expenseType);
      }
    } else if a.category != b.category || b.category != c.category {
      if a.category == c.category {
        LexLeAntisymmetric(a.category, b.category);
      } else if a.category != b.category && b.category != c.category {
        LexLeTransitive(a.category, b.category, c.category);
      }
    }
  }

  lemma {:induction false} RowsOfSums(gs: seq<Group<GroupKey, ExpenseView>>)
    ensures SumBy(RowsOf(gs), RowTotal) == GroupsSum(gs, ViewAmount)
    ensures SumBy(RowsOf(gs), RowCount) == GroupsSize(gs)
  {
    if gs != [] {
      RowsOfSums(gs[1..]);
      assert RowsOf(gs) == [RowOf(gs[0])] + RowsOf(gs[1..]);
      SumByAppend([RowOf(gs[0])], RowsOf(gs[1..]), RowTotal);
      SumByAppend([RowOf(gs[0])], RowsOf(gs[1..]), RowCount);
      assert SumBy([RowOf(gs[0])], RowTotal) == SumBy([], RowTotal) + RowTotal(RowOf(gs[0]));
      assert SumBy([RowOf(gs[0])], RowCount) == SumBy([], RowCount) + RowCount(RowOf(gs[0]));
    }
  }

  /** A line of the grouping is the reference line of a key that occurs. */
  lemma GroupedRowFromKey(vs: seq<ExpenseView>, j: nat)
    requires j < |GroupBy(vs, KeyOf)|
    ensures exists i :: 0 <= i < |vs| && RowOf(GroupBy(vs, KeyOf)[j]) == GroupRow(vs, KeyOf(vs[i]))
  {
    var gs := GroupBy(vs, KeyOf);
    GroupByGroups(vs, KeyOf);
    var k := gs[j].key;
    var m := Members(vs, KeyOf, k);
    assert gs[j].items == m != [];
    MembersIn(vs, KeyOf, k, m[0]);
    var i :| 0 <= i < |vs| && vs[i] == m[0];
    assert KeyOf(vs[i]) == k;
    assert RowOf(gs[j]) == GroupRow(vs, KeyOf(vs[i]));
  }

  /** The reference line of a key that occurs is a line of the grouping. */
  lemma GroupedRowOfKey(vs: seq<ExpenseView>, i: nat)
    requires i < |vs|
    ensures GroupRow(vs, KeyOf(vs[i])) in RowsOf(GroupBy(vs, KeyOf))
  {
    var gs := GroupBy(vs, KeyOf);
    GroupByGroups(vs, KeyOf);
    GroupByHasKey(vs, KeyOf, KeyOf(vs[i]));
    var j :| 0 <= j < |gs| && gs[j].key == KeyOf(vs[i]);
    assert RowsOf(gs)[j] == GroupRow(vs, KeyOf(vs[i]));
  }

  /** The lines of the grouping are exactly the reference lines of the keys that occur. */
  lemma GroupedRowsMembers(vs: seq<ExpenseView>, row: ReportRow)
    ensures row in RowsOf(GroupBy(vs, KeyOf)) <==> exists i :: 0 <= i < |vs| && row == GroupRow(vs, KeyOf(vs[i]))
  {
    var rows := RowsOf(GroupBy(vs, KeyOf));
    if row in rows {
      var j :| 0 <= j < |rows| && rows[j] == row;
      GroupedRowFromKey(vs, j);
    }
    if i :| 0 <= i < |vs| && row == GroupRow(vs, KeyOf(vs[i])) {
      GroupedRowOfKey(vs, i);
    }
  }

  /**
   * The grouped query orders its lines by type name, category name and total
   * descending; a line exists exactly for a (type, category, method) group with
   * at least one expense, carrying that group's sum and count; and the lines
   * add up to all the expenses.
   */
  lemma GroupedRowsFacts(vs: seq<ExpenseView>)
    ensures Sorted(GroupedRows(vs), ReportOrder)
    ensures forall row :: row in GroupedRows(vs) <==> exists i :: 0 <= i < |vs| && row == GroupRow(vs, KeyOf(vs[i]))
    ensures forall row :: row in GroupedRows(vs) ==> row.count >= 1
    ensures SumBy(GroupedRows(vs), RowTotal) == SumBy(vs, ViewAmount)
    ensures SumBy(GroupedRows(vs), RowCount) == |vs|
  {
    var rows := RowsOf(GroupBy(vs, KeyOf));
    ReportOrderTotal();
    SortSorted(rows, ReportOrder);
    forall row
      ensures row in GroupedRows(vs) <==> exists i :: 0 <= i < |vs| && row == GroupRow(vs, KeyOf(vs[i]))
    {
      SortMembership(rows, ReportOrder, row);
      GroupedRowsMembers(vs, row);
    }
    forall row | row in GroupedRows(vs)
      ensures row.count >= 1
    {
      var i :| 0 <= i < |vs| && row == GroupRow(vs, KeyOf(vs[i]));
      MembersIn(vs, KeyOf, KeyOf(vs[i]), vs[i]);
    }
    SortSumBy(rows, ReportOrder, RowTotal);
    SortSumBy(rows, ReportOrder, RowCount);
    RowsOfSums(GroupBy(vs, KeyOf));
    GroupBySum(vs, KeyOf, ViewAmount);
  }

  // ---------------------------------------------------------------------------
  // Credit-card totals for the reconciliation

  /** One line of the payments query or of the card-expenses query: a card name and a SUM. */
  datatype CardTotal = CardTotal(cardName: string, total: int)

  /** An itemised expense charged to a payment method of type 'credit_card', under that method's name. */
  datatype CardCharge = CardCharge(cardName: string, amount: int)

  function PaymentCard(p: CardPayment): string { p.cardName }
  function PaymentAmount(p: CardPayment): int { p.amount }
  function ChargeCard(c: CardCharge): string { c.cardName }
  function ChargeAmount(c: CardCharge): int { c.amount }

  predicate PaymentInMonth(p: CardPayment, year: string, month: string) {
    DateYear(p.date) == Some(year) && DateMonth(p.date) == Some(month)
  }

  function InMonth(year: string, month: string): CardPayment -> bool {
    (p: CardPayment) => PaymentInMonth(p, year, month)
  }

  /** `FROM expenses e JOIN payment_methods pm ... WHERE pm.type = 'credit_card'`: only the method table is joined. */
  function CardCharges(methods: seq<PaymentMethod>, rows: seq<Expense>): (r: seq<CardCharge>)
    ensures |r| <= |rows|
  {
    if rows == [] then []
    else
      var e := rows[|rows| - 1];
      CardCharges(methods, rows[..|rows| - 1])
      + match MethodOf(methods, e.methodId)
        case Some(m) => if m.kind == CreditCard then [CardCharge(m.name, e.amount)] else []
        case None => []
  }

  function Totals<T>(gs: seq<Group<string, T>>, val: T -> int): (r: seq<CardTotal>)
    ensures |r| == |gs|
    ensures forall i :: 0 <= i < |gs| ==> r[i] == CardTotal(gs[i].key, SumBy(gs[i].items, val))
  {
    if gs == [] then [] else [CardTotal(gs[0].key, SumBy(gs[0].items, val))] + Totals(gs[1..], val)
  }

  /** `SELECT credit_card_name, SUM(payment_amount) ... GROUP BY credit_card_name`. */
  function PaymentTotals(ps: seq<CardPayment>): seq<CardTotal> {
    Totals(GroupBy(ps, PaymentCard), PaymentAmount)
  }

  /** `SELECT pm.name, SUM(e.amount) ... GROUP BY pm.name`. */
  function ChargeTotals(cs: seq<CardCharge>): seq<CardTotal> {
    Totals(GroupBy(cs, ChargeCard), ChargeAmount)
  }

  /** `cardExpenseRows.find(ce => ce.credit_card_name === name)`: the total of the first line with that name. */
  function FindTotal(ts: seq<CardTotal>, name: string): Option<int> {
    if ts == [] then None
    else if ts[0].cardName == name then Some(ts[0].total)
    else FindTotal(ts[1..], name)
  }

  /** The reference sums: everything paid to card `name`, and everything charged to card methods called `name`. */
  function Paid(ps: seq<CardPayment>, name: string): int {
    SumBy(Members(ps, PaymentCard, name), PaymentAmount)
  }

  function Spent(cs: seq<CardCharge>, name: string): int {
    SumBy(Members(cs, ChargeCard, name), ChargeAmount)
  }

  lemma {:induction false} FindTotalOfTotals<T>(gs: seq<Group<string, T>>, val: T -> int, name: string)
    ensures FindTotal(Totals(gs, val), name) ==
      match FindGroup(gs, name) case None => None case Some(s) => Some(SumBy(s, val))
  {
    if gs != [] && gs[0].key != name {
      assert Totals(gs, val)[1..] == Totals(gs[1..], val);
      FindTotalOfTotals(gs[1..], val, name);
    }
  }

  /** Looking a card up among the card-expense lines gives what was charged to it, and nothing when nothing was. */
  lemma FindChargeTotal(cs: seq<CardCharge>, name: string)
    ensures FindTotal(ChargeTotals(cs), name) == if Members(cs, ChargeCard, name) == [] then None else Some(Spent(cs, name))
  {
    FindTotalOfTotals(GroupBy(cs, ChargeCard), ChargeAmount, name);
    GroupByFind(cs, ChargeCard, name);
  }

  // ---------------------------------------------------------------------------
  // The Others lines

  /** The line that accounts for card payments that no itemised expense explains. */
  function OthersRow(name: string, amount: int): ReportRow {
    ReportRow("Others", name + " - Others", name, CreditCard, amount, 1)
  }

  /** `payment.total_payments - expenseTotal`, with `expenseTotal` 0 when the card has no expense line. */
  function Residual(p: CardTotal, cards: seq<CardTotal>): int {
    p.total - match FindTotal(cards, p.cardName) case Some(t) => t case None => 0
  }

  /** What the `forEach` over the payment lines pushes: an Others line for each card whose residual is positive. */
  function OthersSpec(payments: seq<CardTotal>, cards: seq<CardTotal>): seq<ReportRow> {
    if payments == [] then []
    else
      var p := payments[|payments| - 1];
      OthersSpec(payments[..|payments| - 1], cards)
      + (if Residual(p, cards) > 0 then [OthersRow(p.cardName, Residual(p, cards))] else [])
  }

  /** The loop that builds `othersData`. */
  method BuildOthers(paymentRows: seq<CardTotal>, cardExpenseRows: seq<CardTotal>) returns (othersData: seq<ReportRow>)
    ensures othersData == OthersSpec(paymentRows, cardExpenseRows)
  {
    othersData := [];
    var i := 0;
    while i < |paymentRows|
      invariant 0 <= i <= |paymentRows|
      invariant othersData == OthersSpec(paymentRows[..i], cardExpenseRows)
    {
      var payment := paymentRows[i];
      var cardExpenses := FindTotal(cardExpenseRows, payment.cardName);
      var expenseTotal := if cardExpenses.Some? then cardExpenses.value else 0;
      var othersAmount := payment.total - expenseTotal;
      if othersAmount > 0 {
        othersData := othersData + [OthersRow(payment.cardName, othersAmount)];
      }
      assert paymentRows[..i + 1][..i] == paymentRows[..i];
      i := i + 1;
    }
    assert paymentRows[..i] == paymentRows;
  }

  /** The Others lines are the lines of the payment totals with a positive residual, in payment order. */
  lemma {:induction false} OthersSpecMembers(payments: seq<CardTotal>, cards: seq<CardTotal>, row: ReportRow)
    ensures row in OthersSpec(payments, cards) <==>
      exists i :: 0 <= i < |payments| && Residual(payments[i], cards) > 0 && row == OthersRow(payments[i].cardName, Residual(payments[i], cards))
  {
    if payments != [] {
      var init := payments[..|payments| - 1];
      OthersSpecMembers(init, cards, row);
      if i :| 0 <= i < |init| && Residual(init[i], cards) > 0 && row == OthersRow(init[i].cardName, Residual(init[i], cards)) {
        assert payments[i] == init[i];
      }
      if i :| 0 <= i < |payments| && Residual(payments[i], cards) > 0 && row == OthersRow(payments[i].cardName, Residual(payments[i], cards)) {
        if i < |init| {
          assert payments[i] == init[i];
        }
      }
    }
  }

  /** No two lines name the same payment method. */
  predicate OneLinePerCard(o: seq<ReportRow>) {
    forall i, j :: 0 <= i < j < |o| ==> o[i].paymentMethod != o[j].paymentMethod
  }

  /** Distinct card names among the payment lines give at most one Others line per card. */
  lemma {:induction false} OthersSpecDistinct(payments: seq<CardTotal>, cards: seq<CardTotal>)
    requires forall i, j :: 0 <= i < j < |payments| ==> payments[i].cardName != payments[j].cardName
    ensures OneLinePerCard(OthersSpec(payments, cards))
  {
    if payments != [] {
      var init := payments[..|payments| - 1];
      var p := payments[|payments| - 1];
      forall i, j | 0 <= i < j < |init|
        ensures init[i].cardName != init[j].cardName
      {
        assert init[i] == payments[i] && init[j] == payments[j];
      }
      OthersSpecDistinct(init, cards);
      var oi := OthersSpec(init, cards);
      assert OneLinePerCard(oi);
      var o := OthersSpec(payments, cards);
      if Residual(p, cards) > 0 {
        var last := OthersRow(p.cardName, Residual(p, cards));
        assert o == oi + [last];
        forall i | 0 <= i < |oi|
          ensures oi[i].paymentMethod != p.cardName
        {
          assert oi[i] in oi;
          OthersSpecMembers(init, cards, oi[i]);
          var k :| 0 <= k < |init| && Residual(init[k], cards) > 0 && oi[i] == OthersRow(init[k].cardName, Residual(init[k], cards));
          assert oi[i].paymentMethod == init[k].cardName;
          assert init[k] == payments[k];
          assert payments[k].cardName != payments[|payments| - 1].cardName;
        }
        forall i, j | 0 <= i < j < |o|
          ensures o[i].paymentMethod != o[j].paymentMethod
        {
          assert o[i] == oi[i];
          if j < |oi| {
            assert o[j] == oi[j];
            assert oi[i].paymentMethod != oi[j].paymentMethod;
          } else {
            assert o[j] == last && last.paymentMethod == p.cardName;
            assert oi[i].paymentMethod != p.cardName;
          }
        }
        assert OneLinePerCard(o);
      } else {
        assert o == oi + [];
      }
    }
  }

  // ---------------------------------------------------------------------------
  // The two reports

  /** The period's payments and card charges of the monthly report; `month` is already padded. */
  function MonthPayments(d: Db, year: string, month: string): seq<CardPayment> {
    Filter(d.cardPayments, InMonth(year, month))
  }

  function MonthCharges(d: Db, year: string, month: string): seq<CardCharge> {
    CardCharges(d.paymentMethods, Filter(d.expenses, InPeriod(year, Some(month))))
  }

  function MonthlyOthers(d: Db, year: string, month: string): seq<ReportRow> {
    var m := PadStart2(month);
    OthersSpec(PaymentTotals(MonthPayments(d, year, m)), ChargeTotals(MonthCharges(d, year, m)))
  }

  /** GET /api/reports/monthly/:year/:month: the grouped lines, then the Others lines. */
  function MonthlyReport(d: Db, year: string, month: string): seq<ReportRow> {
    GroupedRows(PeriodViews(d, year, Some(PadStart2(month)))) + MonthlyOthers(d, year, month)
  }

  /** GET /api/reports/yearly/:year: the grouped lines only, with no reconciliation step. */
  function YearlyReport(d: Db, year: string): seq<ReportRow> {
    GroupedRows(PeriodViews(d, year, None))
  }

  /** The monthly handler: three queries, the loop over the payment lines, and the concatenation. */
  method MonthlyReportOf(db: Store, year: string, month: string) returns (combinedData: seq<ReportRow>)
    ensures combinedData == MonthlyReport(db.State(), year, month)
  {
    var paddedMonth := PadStart2(month);
    var d := db.State();
    var expenseRows := GroupedRows(PeriodViews(d, year, Some(paddedMonth)));
    var paymentRows := PaymentTotals(MonthPayments(d, year, paddedMonth));
    var cardExpenseRows := ChargeTotals(MonthCharges(d, year, paddedMonth));
    var othersData := BuildOthers(paymentRows, cardExpenseRows);
    combinedData := expenseRows + othersData;
  }

  /** Line `i` of the payment totals is a card with at least one payment, carrying everything paid to it. */
  lemma PaymentTotalsAt(ps: seq<CardPayment>, i: nat)
    requires i < |PaymentTotals(ps)|
    ensures Members(ps, PaymentCard, PaymentTotals(ps)[i].cardName) != []
    ensures PaymentTotals(ps)[i].total == Paid(ps, PaymentTotals(ps)[i].cardName)
  {
    GroupByGroups(ps, PaymentCard);
  }

  /** The residual of a payment line is what was paid to the card minus what was charged to it. */
  lemma ResidualIs(ps: seq<CardPayment>, cs: seq<CardCharge>, i: nat)
    requires i < |PaymentTotals(ps)|
    ensures var p := PaymentTotals(ps)[i];
      Residual(p, ChargeTotals(cs)) == Paid(ps, p.cardName) - Spent(cs, p.cardName)
  {
    var p := PaymentTotals(ps)[i];
    PaymentTotalsAt(ps, i);
    FindChargeTotal(cs, p.cardName);
  }

  /**
   * The reconciliation of one card: there is an Others line for card `name`
   * exactly when the month has a payment to it and the payments exceed the
   * card expenses, and then the line carries that difference.
   */
  lemma OthersMeaning(ps: seq<CardPayment>, cs: seq<CardCharge>, name: string)
    ensures var o := OthersSpec(PaymentTotals(ps), ChargeTotals(cs));
      && ((exists row :: row in o && row.paymentMethod == name) <==>
            Members(ps, PaymentCard, name) != [] && Paid(ps, name) - Spent(cs, name) > 0)
      && (Members(ps, PaymentCard, name) != [] && Paid(ps, name) - Spent(cs, name) > 0 ==>
            OthersRow(name, Paid(ps, name) - Spent(cs, name)) in o)
  {
    var o := OthersSpec(PaymentTotals(ps), ChargeTotals(cs));
    if row :| row in o && row.paymentMethod == name {
      OthersLineOnlyIfOwed(ps, cs, row);
    }
    if Members(ps, PaymentCard, name) != [] && Paid(ps, name) - Spent(cs, name) > 0 {
      OthersLineIfOwed(ps, cs, name);
    }
  }

  lemma OthersLineOnlyIfOwed(ps: seq<CardPayment>, cs: seq<CardCharge>, row: ReportRow)
    requires row in OthersSpec(PaymentTotals(ps), ChargeTotals(cs))
    ensures Members(ps, PaymentCard, row.paymentMethod) != [] && Paid(ps, row.paymentMethod) - Spent(cs, row.paymentMethod) > 0
  {
    var pt := PaymentTotals(ps);
    var ct := ChargeTotals(cs);
    OthersSpecMembers(pt, ct, row);
    var i :| 0 <= i < |pt| && Residual(pt[i], ct) > 0 && row == OthersRow(pt[i].cardName, Residual(pt[i], ct));
    PaymentTotalsAt(ps, i);
    ResidualIs(ps, cs, i);
  }

  lemma OthersLineIfOwed(ps: seq<CardPayment>, cs: seq<CardCharge>, name: string)
    requires Members(ps, PaymentCard, name) != [] && Paid(ps, name) - Spent(cs, name) > 0
    ensures OthersRow(name, Paid(ps, name) - Spent(cs, name)) in OthersSpec(PaymentTotals(ps), ChargeTotals(cs))
  {
    var pt := PaymentTotals(ps);
    var ct := ChargeTotals(cs);
    var i := PaymentTotalsHas(ps, name);
    ResidualIs(ps, cs, i);
    assert Residual(pt[i], ct) > 0 && OthersRow(name, Paid(ps, name) - Spent(cs, name)) == OthersRow(pt[i].cardName, Residual(pt[i], ct));
    OthersSpecMembers(pt, ct, OthersRow(name, Paid(ps, name) - Spent(cs, name)));
  }

  /** A card with a payment has a line among the payment totals. */
  lemma PaymentTotalsHas(ps: seq<CardPayment>, name: string) returns (i: nat)
    requires Members(ps, PaymentCard, name) != []
    ensures i < |PaymentTotals(ps)| && PaymentTotals(ps)[i].cardName == name
  {
    var m := Members(ps, PaymentCard, name);
    MembersIn(ps, PaymentCard, name, m[0]);
    GroupByHasKey(ps, PaymentCard, name);
    var gs := GroupBy(ps, PaymentCard);
    i :| 0 <= i < |gs| && gs[i].key == name;
  }

  /** Every Others line has the fixed shape, a positive amount, and its card's difference; no card has two. */
  lemma OthersShape(ps: seq<CardPayment>, cs: seq<CardCharge>)
    ensures var o := OthersSpec(PaymentTotals(ps), ChargeTotals(cs));
      && (forall row :: row in o ==>
            && row.expenseType == "Others" && row.category == row.paymentMethod + " - Others"
            && row.methodKind == CreditCard && row.count == 1
            && row.total == Paid(ps, row.paymentMethod) - Spent(cs, row.paymentMethod) > 0)
      && (forall i, j :: 0 <= i < j < |o| ==> o[i].paymentMethod != o[j].paymentMethod)
  {
    var pt := PaymentTotals(ps);
    var ct := ChargeTotals(cs);
    var o := OthersSpec(pt, ct);
    forall row | row in o
      ensures row.expenseType == "Others" && row.category == row.paymentMethod + " - Others"
      ensures row.methodKind == CreditCard && row.count == 1
      ensures row.total == Paid(ps, row.paymentMethod) - Spent(cs, row.paymentMethod) > 0
    {
      OthersSpecMembers(pt, ct, row);
      var i :| 0 <= i < |pt| && Residual(pt[i], ct) > 0 && row == OthersRow(pt[i].cardName, Residual(pt[i], ct));
      ResidualIs(ps, cs, i);
    }
    GroupByFind(ps, PaymentCard, "");
    forall i, j | 0 <= i < j < |pt|
      ensures pt[i].cardName != pt[j].cardName
    {
      assert GroupBy(ps, PaymentCard)[i].key != GroupBy(ps, PaymentCard)[j].key;
    }
    OthersSpecDistinct(pt, ct);
  }

  /**
   * The monthly report is the sorted grouped lines of the month followed by
   * the Others lines, and its total is the month's expenses plus the Others
   * amounts; the yearly report's lines add up to the year's expenses exactly.
   */
  lemma ReportTotals(d: Db, year: string, month: string)
    ensures var g := GroupedRows(PeriodViews(d, year, Some(PadStart2(month))));
      && MonthlyReport(d, year, month)[..|g|] == g
      && MonthlyReport(d, year, month)[|g|..] == MonthlyOthers(d, year, month)
      && SumBy(MonthlyReport(d, year, month), RowTotal) ==
           SumBy(PeriodViews(d, year, Some(PadStart2(month))), ViewAmount) + SumBy(MonthlyOthers(d, year, month), RowTotal)
    ensures SumBy(YearlyReport(d, year), RowTotal) == SumBy(PeriodViews(d, year, None), ViewAmount)
    ensures SumBy(YearlyReport(d, year), RowCount) == |PeriodViews(d, year, None)|
  {
    var vs := PeriodViews(d, year, Some(PadStart2(month)));
    GroupedRowsFacts(vs);
    SumByAppend(GroupedRows(vs), MonthlyOthers(d, year, month), RowTotal);
    GroupedRowsFacts(PeriodViews(d, year, None));
  }

  // ---------------------------------------------------------------------------
  // Month names

  const MonthNames: seq<string> := ["January", "February", "March", "April", "May", "June",
    "July", "August", "September", "October", "November", "December"]

  /** `months[monthNumber - 1]`, `undefined` (None) outside 1..12. */
  function MonthName(n: int): (r: Option<string>)
    ensures r.Some? <==> 1 <= n <= 12
  {
    if 1 <= n <= 12 then Some(MonthNames[n - 1]) else None
  }

  /** The inverse lookup, the position of a month name. */
  function MonthNumber(name: string): (r: Option<int>)
  {
    if name == "January" then Some(1) else if name == "February" then Some(2)
    else if name == "March" then Some(3) else if name == "April" then Some(4)
    else if name == "May" then Some(5) else if name == "June" then Some(6)
    else if name == "July" then Some(7) else if name == "August" then Some(8)
    else if name == "September" then Some(9) else if name == "October" then Some(10)
    else if name == "November" then Some(11) else if name == "December" then Some(12)
    else None
  }

  /** Month names and numbers 1..12 correspond one to one. */
  lemma MonthNameRoundTrip(n: int, name: string)
    ensures 1 <= n <= 12 ==> MonthNumber(MonthName(n).value) == Some(n)
    ensures MonthNumber(name).Some? ==> MonthName(MonthNumber(name).value) == Some(name)
  {
  }

  // ---------------------------------------------------------------------------
  // Excel export

  /** The characters Excel refuses in a sheet name: `\ / ? * [ ]`. */
  predicate SheetForbidden(c: char) {
    c == '\\' || c == '/' || c == '?' || c == '*' || c == '[' || c == ']'
  }

  function ReplaceForbidden(s: string): (r: string)
    ensures |r| == |s|
    ensures forall i :: 0 <= i < |s| ==> r[i] == if SheetForbidden(s[i]) then '_' else s[i]
  {
    if s == [] then []
    else [if SheetForbidden(s[0]) then '_' else s[0]] + ReplaceForbidden(s[1..])
  }

  /** `expenseType.replace(/[\\\/\?\*\[\]]/g, '_').substring(0, 31)`. */
  function SanitizeSheetName(s: string): (r: string)
    ensures |r| == if |s| < 31 then |s| else 31
    ensures forall i :: 0 <= i < |r| ==> r[i] == if SheetForbidden(s[i]) then '_' else s[i]
    ensures forall i :: 0 <= i < |r| ==> !SheetForbidden(r[i])
  {
    var t := ReplaceForbidden(s);
    if |t| <= 31 then t else t[..31]
  }

  /** A sanitised name is left as it is by a second sanitising. */
  lemma SanitizeIdempotent(s: string)
    ensures SanitizeSheetName(SanitizeSheetName(s)) == SanitizeSheetName(s)
  {
    var r := SanitizeSheetName(s);
    assert SanitizeSheetName(r) == r;
  }

  /** A detail sheet: the lines of one expense type. */
  datatype Sheet = Sheet(name: string, rows: seq<ReportRow>)

  /** The workbook's content: summary header, totals, the breakdown lines and a sheet per expense type. */
  datatype Workbook = Workbook(title: string, fileName: string, total: int, transactions: int,
                               breakdown: seq<ReportRow>, sheets: seq<Sheet>)

  function SheetsOf(gs: seq<Group<string, ReportRow>>): (r: seq<Sheet>)
    ensures |r| == |gs|
    ensures forall i :: 0 <= i < |gs| ==> r[i] == Sheet(SanitizeSheetName(gs[i].key), gs[i].items)
  {
    if gs == [] then [] else [Sheet(SanitizeSheetName(gs[0].key), gs[0].items)] + SheetsOf(gs[1..])
  }

  function SheetsTotal(ss: seq<Sheet>): int {
    if ss == [] then 0 else SumBy(ss[0].rows, RowTotal) + SheetsTotal(ss[1..])
  }

  /** The summary's reduce over the lines, then the detail sheets grouped by expense type in first-appearance order. */
  function WorkbookOf(title: string, fileName: string, rows: seq<ReportRow>): Workbook {
    Workbook(title, fileName, SumBy(rows, RowTotal), SumBy(rows, RowCount), rows, SheetsOf(GroupBy(rows, RowType)))
  }

  /** GET /api/reports/export/monthly/:year/:month: the lines of the monthly report. */
  function MonthlyExport(d: Db, year: string, month: string): Workbook {
    var name := match ParseInt(month) case Some(n) => MonthName(n) case None => None;
    WorkbookOf("Period: " + (match name case Some(s) => s case None => "undefined") + " " + year,
               "spending-report-" + year + "-" + PadStart2(month) + ".xlsx",
               MonthlyReport(d, year, month))
  }

  /** GET /api/reports/export/yearly/:year: the lines of the yearly report. */
  function YearlyExport(d: Db, year: string): Workbook {
    WorkbookOf("Year: " + year, "spending-report-" + year + ".xlsx", YearlyReport(d, year))
  }

  lemma {:induction false} SheetsTotalOf(gs: seq<Group<string, ReportRow>>)
    ensures SheetsTotal(SheetsOf(gs)) == GroupsSum(gs, RowTotal)
  {
    if gs != [] {
      SheetsTotalOf(gs[1..]);
      assert SheetsOf(gs)[1..] == SheetsOf(gs[1..]);
    }
  }

  /** The detail sheet of expense type `t`: its lines, under the sanitised name. */
  function TypeSheet(rows: seq<ReportRow>, t: string): Sheet {
    Sheet(SanitizeSheetName(t), Members(rows, RowType, t))
  }

  /**
   * A workbook lists its lines unchanged on the summary sheet; each detail
   * sheet holds the lines of one expense type in their order, under the
   * sanitised type name; and the sheets' amounts add up to the summary total.
   */
  lemma WorkbookFacts(title: string, fileName: string, rows: seq<ReportRow>)
    ensures var w := WorkbookOf(title, fileName, rows);
      && w.breakdown == rows
      && w.total == SumBy(rows, RowTotal)
      && SheetsTotal(w.sheets) == w.total
      && (forall i :: 0 <= i < |w.sheets| ==> exists j :: 0 <= j < |rows| && w.sheets[i] == TypeSheet(rows, rows[j].expenseType))
      && (forall j :: 0 <= j < |rows| ==> TypeSheet(rows, rows[j].expenseType) in w.sheets)
  {
    var gs := GroupBy(rows, RowType);
    SheetsTotalOf(gs);
    GroupBySum(rows, RowType, RowTotal);
    SheetsAreTypes(rows);
    TypesHaveSheets(rows);
  }

  lemma SheetsAreTypes(rows: seq<ReportRow>)
    ensures var ss := SheetsOf(GroupBy(rows, RowType));
      forall i :: 0 <= i < |ss| ==> exists j :: 0 <= j < |rows| && ss[i] == TypeSheet(rows, rows[j].expenseType)
  {
    var gs := GroupBy(rows, RowType);
    var ss := SheetsOf(gs);
    GroupByGroups(rows, RowType);
    forall i | 0 <= i < |ss|
      ensures exists j :: 0 <= j < |rows| && ss[i] == TypeSheet(rows, rows[j].expenseType)
    {
      var m := Members(rows, RowType, gs[i].key);
      MembersIn(rows, RowType, gs[i].key, m[0]);
      var j :| 0 <= j < |rows| && rows[j] == m[0];
      assert ss[i] == TypeSheet(rows, rows[j].expenseType);
    }
  }

  lemma TypesHaveSheets(rows: seq<ReportRow>)
    ensures forall j :: 0 <= j < |rows| ==> TypeSheet(rows, rows[j].expenseType) in SheetsOf(GroupBy(rows, RowType))
  {
    var gs := GroupBy(rows, RowType);
    var ss := SheetsOf(gs);
    GroupByGroups(rows, RowType);
    forall j | 0 <= j < |rows|
      ensures TypeSheet(rows, rows[j].expenseType) in ss
    {
      GroupByHasKey(rows, RowType, rows[j].expenseType);
      var i :| 0 <= i < |gs| && gs[i].key == rows[j].expenseType;
      assert ss[i] == TypeSheet(rows, rows[j].expenseType);
    }
  }

  /** A sheet is in SheetsOf(gs) exactly when it is the sheet of one of the groups. */
  lemma SheetsOfMembers(gs: seq<Group<string, ReportRow>>, s: Sheet)
    ensures s in SheetsOf(gs) <==> exists g :: g in gs && s == Sheet(SanitizeSheetName(g.key), g.items)
  {
    if s in SheetsOf(gs) {
      var i :| 0 <= i < |gs| && SheetsOf(gs)[i] == s;
      assert gs[i] in gs;
    }
    if g :| g in gs && s == Sheet(SanitizeSheetName(g.key), g.items) {
      var i :| 0 <= i < |gs| && gs[i] == g;
      assert SheetsOf(gs)[i] == s;
    }
  }

  /**
   * The export as the handler writes it: the detail sheets come from the
   * `{}` grouping and `Object.entries`. None where that grouping throws inside
   * the query callback, which ends the server process without a response.
   */
  function WorkbookAsWritten(title: string, fileName: string, rows: seq<ReportRow>): Option<Workbook> {
    match ObjectGroupBy(rows, RowType)
    case None => None
    case Some(gs) => Some(WorkbookOf(title, fileName, rows).(sheets := SheetsOf(gs)))
  }

  /**
   * The export as written throws exactly when a line's expense type is the
   * name of an inherited object property. Otherwise it has the summary and the
   * detail sheets of WorkbookOf, with the sheets of array-index type names
   * moved to the front in numeric order.
   */
  lemma WorkbookAsWrittenFacts(title: string, fileName: string, rows: seq<ReportRow>)
    ensures WorkbookAsWritten(title, fileName, rows).None? <==>
      exists j :: 0 <= j < |rows| && IsInheritedName(rows[j].expenseType)
    ensures WorkbookAsWritten(title, fileName, rows).Some? ==>
      var w := WorkbookAsWritten(title, fileName, rows).value;
      var c := WorkbookOf(title, fileName, rows);
      && w.(sheets := c.sheets) == c
      && (forall s :: s in w.sheets <==> s in c.sheets)
      && w.sheets == SheetsOf(ObjectGroupBy(rows, RowType).value)
      && IndexFirst(ObjectGroupBy(rows, RowType).value)
  {
    var r := ObjectGroupBy(rows, RowType);
    if r.Some? {
      assert forall j :: 0 <= j < |rows| ==> !IsInheritedName(RowType(rows[j]));
      ObjectGroupByGroups(rows, RowType);
      EntriesOrder(GroupBy(rows, RowType));
      forall s
        ensures s in SheetsOf(r.value) <==> s in SheetsOf(GroupBy(rows, RowType))
      {
        SheetsOfMembers(r.value, s);
        SheetsOfMembers(GroupBy(rows, RowType), s);
      }
    }
  }

  /**
   * A line of expense type "constructor": the corrected export has a sheet
   * for it, while the handler as written throws in its reduce.
   */
  lemma InheritedTypeNameBreaksExport(title: string, fileName: string, row: ReportRow)
    requires row.expenseType == "constructor"
    ensures WorkbookAsWritten(title, fileName, [row]).None?
    ensures WorkbookOf(title, fileName, [row]).sheets == [Sheet("constructor", [row])]
  {
    ConstructorLineThrows(title, fileName, row);
    ConstructorLineSheet(title, fileName, row);
  }

  lemma ConstructorLineThrows(title: string, fileName: string, row: ReportRow)
    requires row.expenseType == "constructor"
    ensures WorkbookAsWritten(title, fileName, [row]).None?
  {
    assert IsInheritedName("constructor");
    assert RowType([row][0]) == "constructor";
  }

  lemma ConstructorLineSheet(title: string, fileName: string, row: ReportRow)
    requires row.expenseType == "constructor"
    ensures WorkbookOf(title, fileName, [row]).sheets == [Sheet("constructor", [row])]
  {
    GroupByOne(row);
    SanitizeClean("constructor");
  }

  /** A single line makes a single group. */
  lemma GroupByOne(row: ReportRow)
    ensures GroupBy([row], RowType) == [Group(row.expenseType, [row])]
  {
    assert [row][..0] == [];
  }

  /** A name of at most 31 characters, none of them forbidden, is its own sheet name. */
  lemma SanitizeClean(s: string)
    requires |s| <= 31 && forall i :: 0 <= i < |s| ==> !SheetForbidden(s[i])
    ensures SanitizeSheetName(s) == s
  {
  }

  /** The monthly export's summary lists exactly the monthly report's lines, and totals them. */
  lemma MonthlyExportFacts(d: Db, year: string, month: string)
    ensures MonthlyExport(d, year, month).breakdown == MonthlyReport(d, year, month)
    ensures MonthlyExport(d, year, month).total ==
      SumBy(PeriodViews(d, year, Some(PadStart2(month))), ViewAmount) + SumBy(MonthlyOthers(d, year, month), RowTotal)
  {
    ReportTotals(d, year, month);
  }

  /** The yearly export's summary lists exactly the yearly report's lines, and totals and counts the year's expenses. */
  lemma YearlyExportFacts(d: Db, year: string)
    ensures YearlyExport(d, year).breakdown == YearlyReport(d, year)
    ensures YearlyExport(d, year).total == SumBy(PeriodViews(d, year, None), ViewAmount)
    ensures YearlyExport(d, year).transactions == |PeriodViews(d, year, None)|
  {
    ReportTotals(d, year, "");
  }

  /** The export's period line names the month that `parseInt(month)` gives. */
  lemma MonthlyExportTitle(d: Db, year: string, month: string, n: nat)
    requires ParseInt(month) == Some(n) && 1 <= n <= 12
    ensures MonthlyExport(d, year, month).title == "Period: " + MonthNames[n - 1] + " " + year
  {
  }

  // ---------------------------------------------------------------------------
  // GET /api/credit-cards

  function Same(s: string): string { s }

  function PaymentNames(ps: seq<CardPayment>): (r: seq<string>)
    ensures |r| == |ps|
    ensures forall i :: 0 <= i < |ps| ==> r[i] == ps[i].cardName
  {
    if ps == [] then [] else [ps[0].cardName] + PaymentNames(ps[1..])
  }

  function CardMethodNames(ms: seq<PaymentMethod>): (r: seq<string>)
    ensures forall n :: n in r <==> exists i :: 0 <= i < |ms| && ms[i].kind == CreditCard && ms[i].name == n
  {
    if ms == [] then []
    else
      (if ms[0].kind == CreditCard then [ms[0].name] else [])
      + assert forall i :: 1 <= i < |ms| ==> ms[1..][i - 1] == ms[i];
        CardMethodNames(ms[1..])
  }

  /** `SELECT DISTINCT name FROM (payment card names UNION credit_card method names) ORDER BY name`. */
  function CreditCardNames(d: Db): seq<string> {
    Sort(Keys(GroupBy(PaymentNames(d.cardPayments) + CardMethodNames(d.paymentMethods), Same)), LexLe)
  }

  lemma LexLeOrder()
    ensures TotalPreorder(LexLe)
  {
    forall a: string, b: string
      ensures LexLe(a, b) || LexLe(b, a)
    {
      LexLeTotal(a, b);
    }
    forall a: string, b: string, c: string | LexLe(a, b) && LexLe(b, c)
      ensures LexLe(a, c)
    {
      LexLeTransitive(a, b, c);
    }
  }

  /** Some card payment names card `n`, or some credit-card payment method is called `n`. */
  predicate IsCardName(d: Db, n: string) {
    || (exists i :: 0 <= i < |d.cardPayments| && d.cardPayments[i].cardName == n)
    || (exists i :: 0 <= i < |d.paymentMethods| && d.paymentMethods[i].kind == CreditCard && d.paymentMethods[i].name == n)
  }

  /**
   * The card list is strictly increasing, and holds a name exactly when some
   * card payment names it or some credit-card payment method is called that.
   */
  lemma CreditCardNamesFacts(d: Db)
    ensures var r := CreditCardNames(d);
      && (forall i, j :: 0 <= i < j < |r| ==> LexLe(r[i], r[j]) && r[i] != r[j])
      && (forall n :: n in r <==> IsCardName(d, n))
  {
    var names := PaymentNames(d.cardPayments) + CardMethodNames(d.paymentMethods);
    var u := Keys(GroupBy(names, Same));
    var r := CreditCardNames(d);
    GroupByKeys(names, Same);
    LexLeOrder();
    SortSorted(u, LexLe);
    SortDistinct(u, LexLe);
    assert Sorted(r, LexLe) && Distinct(r);
    forall n
      ensures n in r <==> IsCardName(d, n)
    {
      SortMembership(u, LexLe, n);
      UnionNames(d, n);
    }
  }

  /** A name occurs in the UNION's input exactly when a payment or a credit-card method carries it. */
  lemma UnionNames(d: Db, n: string)
    ensures var names := PaymentNames(d.cardPayments) + CardMethodNames(d.paymentMethods);
      (exists i :: 0 <= i < |names| && Same(names[i]) == n) <==> IsCardName(d, n)
  {
    var names := PaymentNames(d.cardPayments) + CardMethodNames(d.paymentMethods);
    if i :| 0 <= i < |names| && Same(names[i]) == n {
      UnionNameIsCard(d, i);
    }
    if IsCardName(d, n) {
      var i := CardNameInUnion(d, n);
    }
  }

  lemma UnionNameIsCard(d: Db, i: int)
    requires 0 <= i < |PaymentNames(d.cardPayments) + CardMethodNames(d.paymentMethods)|
    ensures IsCardName(d, (PaymentNames(d.cardPayments) + CardMethodNames(d.paymentMethods))[i])
  {
    var pn := PaymentNames(d.cardPayments);
    var cn := CardMethodNames(d.paymentMethods);
    var n := (pn + cn)[i];
    if i >= |pn| {
      assert n == cn[i - |pn|];
      assert n in cn;
    } else {
      assert d.cardPayments[i].cardName == n;
    }
  }

  lemma CardNameInUnion(d: Db, n: string) returns (i: nat)
    requires IsCardName(d, n)
    ensures i < |PaymentNames(d.cardPayments) + CardMethodNames(d.paymentMethods)|
    ensures Same((PaymentNames(d.cardPayments) + CardMethodNames(d.paymentMethods))[i]) == n
  {
    var pn := PaymentNames(d.cardPayments);
    var cn := CardMethodNames(d.paymentMethods);
    if j :| 0 <= j < |d.cardPayments| && d.cardPayments[j].cardName == n {
      i := j;
    } else {
      assert n in cn;
      var k :| 0 <= k < |cn| && cn[k] == n;
      i := |pn| + k;
    }
  }



}
