/**
 * The browser client of dist/client/app.js, as far as it computes: the year
 * selectors and the previous-month default of the duplication form, month
 * labels, the report page's totals and grouping, the query and cut-off of
 * the recent lists, and the two duplication loops, which list one period
 * and re-post each row with today's date against the server's handlers.
 */
module Client {
  import opened Wrappers
  import opened Text
  import opened Sorting
  import opened Grouping
  import opened JsObjects
  import opened Schema
  import opened Catalog
  import opened Ledger
  import opened Reports

  // ---------------------------------------------------------------------------
  // Year selectors and the duplication default

  /** `Array.from({length: 10}, (_, i) => currentYear - i + 5)`. */
  function YearOptions(currentYear: int): (years: seq<int>)
    ensures |years| == 10
    ensures forall i :: 0 <= i < 10 ==> years[i] == currentYear - i + 5
  {
    seq(10, i => currentYear - i + 5)
  }

  /** The selectors offer ten consecutive years, newest first, from five ahead to four back, the current one among them. */
  lemma YearOptionsRange(currentYear: int)
    ensures var ys := YearOptions(currentYear);
      && ys[0] == currentYear + 5 && ys[9] == currentYear - 4
      && (forall i, j :: 0 <= i < j < |ys| ==> ys[i] > ys[j])
      && (forall y :: y in ys <==> currentYear - 4 <= y <= currentYear + 5)
      && ys[5] == currentYear
  {
    var ys := YearOptions(currentYear);
    forall y | currentYear - 4 <= y <= currentYear + 5
      ensures y in ys
    {
      assert ys[currentYear + 5 - y] == y;
    }
  }

  /** A period as the duplication form holds it: the year option and the two-digit month value. */
  datatype Period = Period(year: int, month: string)

  /**
   * The duplication form's default: the previous month, 12 in January, and in
   * January the previous year; otherwise the year selector keeps the current
   * year it was given. `currentMonth0` is `getMonth()`, counted from 0.
   */
  function DuplicateDefault(currentYear: int, currentMonth0: nat): Period
    requires currentMonth0 < 12
  {
    var prevMonth := if currentMonth0 == 0 then 12 else currentMonth0;
    Period(if currentMonth0 == 0 then currentYear - 1 else currentYear, MonthText(prevMonth))
  }

  /** The default is the calendar month just before the current one, and its year is one of the selector's options. */
  lemma DuplicateDefaultIsPreviousMonth(currentYear: int, currentMonth0: nat)
    requires currentMonth0 < 12
    ensures var p := DuplicateDefault(currentYear, currentMonth0);
      exists m :: 1 <= m <= 12 && ParseInt(p.month) == Some(m)
        && p.year * 12 + (m - 1) == currentYear * 12 + currentMonth0 - 1
        && |p.month| == 2
        && p.year in YearOptions(currentYear)
  {
    var p := DuplicateDefault(currentYear, currentMonth0);
    var m := if currentMonth0 == 0 then 12 else currentMonth0;
    MonthTextRoundTrip(m);
    YearOptionsRange(currentYear);
    assert p.year * 12 + (m - 1) == currentYear * 12 + currentMonth0 - 1;
  }

  // ---------------------------------------------------------------------------
  // Month labels

  /** The client's `getMonthName(monthNumber)`: `months[parseInt(monthNumber) - 1]`, None for `undefined`. */
  function MonthLabel(monthNumber: string): Option<string> {
    match ParseInt(monthNumber)
    case Some(n) => MonthName(n)
    case None => None
  }

  /** Every month value "01".."12" of the selectors is labelled with its English name. */
  lemma MonthLabelOfSelector(m: nat)
    requires 1 <= m <= 12
    ensures MonthLabel(MonthText(m)) == Some(MonthNames[m - 1])
  {
    MonthTextRoundTrip(m);
  }

  // ---------------------------------------------------------------------------
  // The report page

  /** One block of the report page: an expense type, its total and its lines. */
  datatype TypeBlock = TypeBlock(expenseType: string, total: int, items: seq<ReportRow>)

  /** What `displayReport` shows: a notice for no data, or the summary and a block per expense type. */
  datatype ReportPage =
    | NoData
    | Summary(period: string, total: int, transactions: int, blocks: seq<TypeBlock>)

  function TypeBlocks(gs: seq<Group<string, ReportRow>>): (r: seq<TypeBlock>)
    ensures |r| == |gs|
    ensures forall i :: 0 <= i < |gs| ==> r[i] == TypeBlock(gs[i].key, SumBy(gs[i].items, RowTotal), gs[i].items)
  {
    if gs == [] then [] else [TypeBlock(gs[0].key, SumBy(gs[0].items, RowTotal), gs[0].items)] + TypeBlocks(gs[1..])
  }

  function BlocksTotal(bs: seq<TypeBlock>): int {
    if bs == [] then 0 else bs[0].total + BlocksTotal(bs[1..])
  }

  /** `` month ? `${getMonthName(month)} ${year}` : year ``. */
  function PeriodLabel(year: string, month: string): string {
    if month == "" then year
    else (match MonthLabel(month) case Some(s) => s case None => "undefined") + " " + year
  }

  function DisplayReport(data: seq<ReportRow>, year: string, month: string): ReportPage {
    if data == [] then NoData
    else Summary(PeriodLabel(year, month), SumBy(data, RowTotal), SumBy(data, RowCount), TypeBlocks(GroupBy(data, RowType)))
  }

  lemma {:induction false} TypeBlocksTotal(gs: seq<Group<string, ReportRow>>)
    ensures BlocksTotal(TypeBlocks(gs)) == GroupsSum(gs, RowTotal)
  {
    if gs != [] {
      TypeBlocksTotal(gs[1..]);
      assert TypeBlocks(gs)[1..] == TypeBlocks(gs[1..]);
    }
  }

  /**
   * The page shows the notice exactly for no data. Otherwise its totals are
   * the sums over the lines, there is one block per expense type holding that
   * type's lines in their order with their sum, and the block totals add up
   * to the overall total.
   */
  lemma DisplayReportFacts(data: seq<ReportRow>, year: string, month: string)
    ensures DisplayReport(data, year, month).NoData? <==> data == []
    ensures data != [] ==>
      var p := DisplayReport(data, year, month);
      && p.total == SumBy(data, RowTotal)
      && p.transactions == SumBy(data, RowCount)
      && BlocksTotal(p.blocks) == p.total
      && (forall i :: 0 <= i < |p.blocks| ==>
            p.blocks[i].items == Members(data, RowType, p.blocks[i].expenseType) != []
            && p.blocks[i].total == SumBy(p.blocks[i].items, RowTotal))
      && (forall i, j :: 0 <= i < j < |p.blocks| ==> p.blocks[i].expenseType != p.blocks[j].expenseType)
      && (forall k :: 0 <= k < |data| ==> exists i :: 0 <= i < |p.blocks| && p.blocks[i].expenseType == data[k].expenseType)
  {
    if data != [] {
      var gs := GroupBy(data, RowType);
      var p := DisplayReport(data, year, month);
      TypeBlocksTotal(gs);
      GroupBySum(data, RowType, RowTotal);
      GroupByGroups(data, RowType);
      GroupByFind(data, RowType, "");
      forall i, j | 0 <= i < j < |p.blocks|
        ensures p.blocks[i].expenseType != p.blocks[j].expenseType
      {
        assert gs[i].key != gs[j].key;
      }
      forall k | 0 <= k < |data|
        ensures exists i :: 0 <= i < |p.blocks| && p.blocks[i].expenseType == data[k].expenseType
      {
        GroupByHasKey(data, RowType, data[k].expenseType);
        var i :| 0 <= i < |gs| && gs[i].key == data[k].expenseType;
        assert p.blocks[i].expenseType == data[k].expenseType;
      }
    }
  }

  /** A block is in TypeBlocks(gs) exactly when it is the block of one of the groups. */
  lemma TypeBlocksMembers(gs: seq<Group<string, ReportRow>>, b: TypeBlock)
    ensures b in TypeBlocks(gs) <==> exists g :: g in gs && b == TypeBlock(g.key, SumBy(g.items, RowTotal), g.items)
  {
    if b in TypeBlocks(gs) {
      var i :| 0 <= i < |gs| && TypeBlocks(gs)[i] == b;
      assert gs[i] in gs;
    }
    if g :| g in gs && b == TypeBlock(g.key, SumBy(g.items, RowTotal), g.items) {
      var i :| 0 <= i < |gs| && gs[i] == g;
      assert TypeBlocks(gs)[i] == b;
    }
  }

  /**
   * `displayReport` as written, grouping into `{}` and listing with
   * `Object.entries`. None where the reduce throws; `generateReport` then
   * shows its error alert and the page keeps what it showed before.
   */
  function DisplayReportAsWritten(data: seq<ReportRow>, year: string, month: string): Option<ReportPage> {
    if data == [] then Some(NoData)
    else
      match ObjectGroupBy(data, RowType)
      case None => None
      case Some(gs) => Some(DisplayReport(data, year, month).(blocks := TypeBlocks(gs)))
  }

  /**
   * The page as written fails exactly when a line's expense type is the name
   * of an inherited object property. Otherwise it shows the summary and the
   * blocks of DisplayReport, with the blocks of array-index type names moved
   * to the front in numeric order.
   */
  lemma DisplayReportAsWrittenFacts(data: seq<ReportRow>, year: string, month: string)
    ensures DisplayReportAsWritten(data, year, month).None? <==>
      exists j :: 0 <= j < |data| && IsInheritedName(data[j].expenseType)
    ensures data != [] && DisplayReportAsWritten(data, year, month).Some? ==>
      var w := DisplayReportAsWritten(data, year, month).value;
      var c := DisplayReport(data, year, month);
      && w.Summary? && w.(blocks := c.blocks) == c
      && (forall b :: b in w.blocks <==> b in c.blocks)
      && w.blocks == TypeBlocks(ObjectGroupBy(data, RowType).value)
      && IndexFirst(ObjectGroupBy(data, RowType).value)
  {
    var r := ObjectGroupBy(data, RowType);
    if data != [] && r.Some? {
      assert forall j :: 0 <= j < |data| ==> !IsInheritedName(RowType(data[j]));
      ObjectGroupByGroups(data, RowType);
      EntriesOrder(GroupBy(data, RowType));
      forall b
        ensures b in TypeBlocks(r.value) <==> b in TypeBlocks(GroupBy(data, RowType))
      {
        TypeBlocksMembers(r.value, b);
        TypeBlocksMembers(GroupBy(data, RowType), b);
      }
    }
  }

  /**
   * A line of expense type "toString": the corrected page shows a block for
   * it, while `displayReport` as written throws in its reduce.
   */
  lemma InheritedTypeNameBreaksReport(row: ReportRow, year: string, month: string)
    requires row.expenseType == "toString"
    ensures DisplayReportAsWritten([row], year, month).None?
    ensures DisplayReport([row], year, month).blocks == [TypeBlock("toString", row.total, [row])]
  {
    ToStringLineThrows(row, year, month);
    ToStringLineBlock(row, year, month);
  }

  lemma ToStringLineThrows(row: ReportRow, year: string, month: string)
    requires row.expenseType == "toString"
    ensures DisplayReportAsWritten([row], year, month).None?
  {
    assert IsInheritedName("toString");
    assert RowType([row][0]) == "toString";
  }

  lemma ToStringLineBlock(row: ReportRow, year: string, month: string)
    requires row.expenseType == "toString"
    ensures DisplayReport([row], year, month).blocks == [TypeBlock("toString", row.total, [row])]
  {
    GroupByOne(row);
    assert [row][..0] == [];
    assert SumBy([row], RowTotal) == row.total;
  }

  // ---------------------------------------------------------------------------
  // The recent lists

  /**
   * The year and month parameters of the recent lists ("" for a parameter
   * that is not sent): 'all' sends none, '' the current month, anything else
   * that month, both of the latter with the current year.
   */
  function RecentPeriod(filterMonth: string, currentYear: nat, currentMonth0: nat): (string, string) {
    if filterMonth == "all" then ("", "")
    else if filterMonth == "" then (NatToString(currentYear), MonthText(currentMonth0 + 1))
    else (NatToString(currentYear), filterMonth)
  }

  function RecentExpenseQuery(filterMonth: string, currentYear: nat, currentMonth0: nat): ExpenseQuery {
    var (y, m) := RecentPeriod(filterMonth, currentYear, currentMonth0);
    ExpenseQuery(y, m, None, None, None)
  }

  function RecentPaymentQuery(filterMonth: string, currentYear: nat, currentMonth0: nat): PaymentQuery {
    var (y, m) := RecentPeriod(filterMonth, currentYear, currentMonth0);
    PaymentQuery(y, m, "")
  }

  /** Which dates the recent-expenses list asks the server for. */
  lemma RecentExpensesMeaning(filterMonth: string, currentYear: nat, currentMonth0: nat, v: ExpenseView)
    requires currentMonth0 < 12
    ensures var q := RecentExpenseQuery(filterMonth, currentYear, currentMonth0);
      && (filterMonth == "all" ==> MatchesExpense(ExpenseConditions(q))(v))
      && (filterMonth == "" ==> (MatchesExpense(ExpenseConditions(q))(v) <==>
            DateYear(v.expense.date) == Some(NatToString(currentYear)) && DateMonth(v.expense.date) == Some(MonthText(currentMonth0 + 1))))
      && (filterMonth != "all" && filterMonth != "" ==> (MatchesExpense(ExpenseConditions(q))(v) <==>
            DateYear(v.expense.date) == Some(NatToString(currentYear)) && DateMonth(v.expense.date) == Some(PadStart2(filterMonth))))
  {
    var q := RecentExpenseQuery(filterMonth, currentYear, currentMonth0);
    if filterMonth == "all" {
      ExpenseConditionsMeaning(q, v);
    } else if filterMonth == "" {
      RecentExpensesThisMonth(currentYear, currentMonth0, v);
    } else {
      RecentExpensesOfMonth(filterMonth, currentYear, v);
    }
  }

  lemma RecentExpensesThisMonth(currentYear: nat, currentMonth0: nat, v: ExpenseView)
    requires currentMonth0 < 12
    ensures MatchesExpense(ExpenseConditions(RecentExpenseQuery("", currentYear, currentMonth0)))(v) <==>
      DateYear(v.expense.date) == Some(NatToString(currentYear)) && DateMonth(v.expense.date) == Some(MonthText(currentMonth0 + 1))
  {
    ExpenseConditionsMeaning(RecentExpenseQuery("", currentYear, currentMonth0), v);
    MonthTextRoundTrip(currentMonth0 + 1);
  }

  lemma RecentExpensesOfMonth(filterMonth: string, currentYear: nat, v: ExpenseView)
    requires filterMonth != "all" && filterMonth != ""
    ensures MatchesExpense(ExpenseConditions(RecentExpenseQuery(filterMonth, currentYear, 0)))(v) <==>
      DateYear(v.expense.date) == Some(NatToString(currentYear)) && DateMonth(v.expense.date) == Some(PadStart2(filterMonth))
  {
    ExpenseConditionsMeaning(RecentExpenseQuery(filterMonth, currentYear, 0), v);
  }

  /** Which dates the recent card-payments list asks the server for. */
  lemma RecentPaymentsMeaning(filterMonth: string, currentYear: nat, currentMonth0: nat, p: CardPayment)
    requires currentMonth0 < 12
    ensures var q := RecentPaymentQuery(filterMonth, currentYear, currentMonth0);
      && (filterMonth == "all" ==> MatchesPayment(PaymentConditions(q))(p))
      && (filterMonth == "" ==> (MatchesPayment(PaymentConditions(q))(p) <==>
            DateYear(p.date) == Some(NatToString(currentYear)) && DateMonth(p.date) == Some(MonthText(currentMonth0 + 1))))
      && (filterMonth != "all" && filterMonth != "" ==> (MatchesPayment(PaymentConditions(q))(p) <==>
            DateYear(p.date) == Some(NatToString(currentYear)) && DateMonth(p.date) == Some(PadStart2(filterMonth))))
  {
    var q := RecentPaymentQuery(filterMonth, currentYear, currentMonth0);
    PaymentConditionsMeaning(q, p);
    NatToStringValue(currentYear);
    MonthTextRoundTrip(currentMonth0 + 1);
  }

  /** `slice(0, 20)`. */
  function RecentShown<T>(rows: seq<T>): (shown: seq<T>)
    ensures |shown| == if |rows| < 20 then |rows| else 20
    ensures shown <= rows
  {
    if |rows| <= 20 then rows else rows[..20]
  }

  /** The recent-expenses panel shows at most 20 listed expenses, and none of the ones left out is newer than a shown one. */
  lemma RecentExpensesShown(d: Db, q: ExpenseQuery)
    ensures var listed := ListExpenses(d, q);
      var shown := RecentShown(listed);
      && |shown| <= 20
      && (forall i :: 0 <= i < |shown| ==> shown[i] in listed)
      && (forall i, j :: 0 <= i < |shown| <= j < |listed| ==> LexLe(listed[j].expense.date, shown[i].expense.date))
  {
    ListExpensesFacts(d, q);
  }

  /** The recent-payments panel likewise shows the newest 20 listed payments at most. */
  lemma RecentPaymentsShown(d: Db, q: PaymentQuery)
    ensures var listed := ListPayments(d, q);
      var shown := RecentShown(listed);
      && |shown| <= 20
      && (forall i :: 0 <= i < |shown| ==> shown[i] in listed)
      && (forall i, j :: 0 <= i < |shown| <= j < |listed| ==> LexLe(listed[j].date, shown[i].date))
  {
    ListPaymentsFacts(d, q);
  }

  // ---------------------------------------------------------------------------
  // Duplicating a period

  /** `value || ''`. */
  function OrEmpty(o: Option<string>): string {
    match o case Some(s) => s case None => ""
  }

  /** The body posted for one listed expense: today's date, its three names and amount, '' for a missing description or note. */
  function ExpenseCopy(v: ExpenseView, today: string): ExpenseRequest {
    ExpenseRequest(today, v.typeName, v.categoryName, v.methodName,
                   Some(OrEmpty(v.expense.description)), Some(v.expense.amount), Some(OrEmpty(v.expense.notes)))
  }

  /** The body posted for one listed card payment: today's date, its card name and amount, '' for a missing note. */
  function PaymentCopy(p: CardPayment, today: string): PaymentRequest {
    PaymentRequest(today, p.cardName, Some(p.amount), Some(OrEmpty(p.notes)))
  }

  function ExpenseCopies(vs: seq<ExpenseView>, today: string): (r: seq<ExpenseRequest>)
    ensures |r| == |vs|
    ensures forall i :: 0 <= i < |vs| ==> r[i] == ExpenseCopy(vs[i], today)
  {
    seq(|vs|, i requires 0 <= i < |vs| => ExpenseCopy(vs[i], today))
  }

  function PaymentCopies(ps: seq<CardPayment>, today: string): (r: seq<PaymentRequest>)
    ensures |r| == |ps|
    ensures forall i :: 0 <= i < |ps| ==> r[i] == PaymentCopy(ps[i], today)
  {
    seq(|ps|, i requires 0 <= i < |ps| => PaymentCopy(ps[i], today))
  }

  /** Posting one body: the store the handler leaves, and one more accepted or refused post. */
  function PostExpense(acc: (Db, nat, nat), req: ExpenseRequest): (Db, nat, nat) {
    var (d2, r) := CreateExpenseSpec(acc.0, req);
    if r.Success? then (d2, acc.1 + 1, acc.2) else (d2, acc.1, acc.2 + 1)
  }

  function PostPayment(acc: (Db, nat, nat), req: PaymentRequest): (Db, nat, nat) {
    var (d2, r) := CreatePaymentSpec(acc.0, req);
    if r.Success? then (d2, acc.1 + 1, acc.2) else (d2, acc.1, acc.2 + 1)
  }

  /** Posting the bodies one after another: the final store and the numbers of accepted and refused posts. */
  function PostExpenses(d: Db, reqs: seq<ExpenseRequest>): (Db, nat, nat) {
    if reqs == [] then (d, 0, 0)
    else PostExpense(PostExpenses(d, reqs[..|reqs| - 1]), reqs[|reqs| - 1])
  }

  function PostPayments(d: Db, reqs: seq<PaymentRequest>): (Db, nat, nat) {
    if reqs == [] then (d, 0, 0)
    else PostPayment(PostPayments(d, reqs[..|reqs| - 1]), reqs[|reqs| - 1])
  }

  /** One post, given what the handler returned. */
  lemma PostExpenseStep(acc: (Db, nat, nat), req: ExpenseRequest, d2: Db, r: Result<Expense, Error>)
    requires (d2, r) == CreateExpenseSpec(acc.0, req)
    ensures PostExpense(acc, req) == if r.Success? then (d2, acc.1 + 1, acc.2) else (d2, acc.1, acc.2 + 1)
  {
  }

  lemma PostPaymentStep(acc: (Db, nat, nat), req: PaymentRequest, d2: Db, r: Result<CardPayment, Error>)
    requires (d2, r) == CreatePaymentSpec(acc.0, req)
    ensures PostPayment(acc, req) == if r.Success? then (d2, acc.1 + 1, acc.2) else (d2, acc.1, acc.2 + 1)
  {
  }

  lemma ExpenseCopiesSnoc(vs: seq<ExpenseView>, i: nat, today: string)
    requires i < |vs|
    ensures ExpenseCopies(vs[..i + 1], today) == ExpenseCopies(vs[..i], today) + [ExpenseCopy(vs[i], today)]
  {
  }

  lemma PaymentCopiesSnoc(ps: seq<CardPayment>, i: nat, today: string)
    requires i < |ps|
    ensures PaymentCopies(ps[..i + 1], today) == PaymentCopies(ps[..i], today) + [PaymentCopy(ps[i], today)]
  {
  }

  lemma PostExpensesSnoc(d: Db, reqs: seq<ExpenseRequest>, req: ExpenseRequest)
    ensures PostExpenses(d, reqs + [req]) == PostExpense(PostExpenses(d, reqs), req)
  {
    assert (reqs + [req])[..|reqs|] == reqs;
  }

  lemma PostPaymentsSnoc(d: Db, reqs: seq<PaymentRequest>, req: PaymentRequest)
    ensures PostPayments(d, reqs + [req]) == PostPayment(PostPayments(d, reqs), req)
  {
    assert (reqs + [req])[..|reqs|] == reqs;
  }

  /**
   * Every body is posted once: the accepted and refused posts add up to the
   * number of bodies, the store stays valid, and the expenses table grows by
   * exactly the accepted posts, at its end.
   */
  lemma {:induction false} PostExpensesFacts(d: Db, reqs: seq<ExpenseRequest>)
    requires DbValid(d)
    ensures var (d', s, f) := PostExpenses(d, reqs);
      && s + f == |reqs|
      && DbValid(d')
      && d.expenses <= d'.expenses
      && |d'.expenses| == |d.expenses| + s
  {
    if reqs != [] {
      var init := reqs[..|reqs| - 1];
      PostExpensesFacts(d, init);
      var (d1, s, f) := PostExpenses(d, init);
      CreateExpenseValid(d1, reqs[|reqs| - 1]);
      CreateExpenseFacts(d1, reqs[|reqs| - 1]);
    }
  }

  /** The same for card payments: each accepted post appends one payment. */
  lemma {:induction false} PostPaymentsFacts(d: Db, reqs: seq<PaymentRequest>)
    requires DbValid(d)
    ensures var (d', s, f) := PostPayments(d, reqs);
      && s + f == |reqs|
      && DbValid(d')
      && d.cardPayments <= d'.cardPayments
      && |d'.cardPayments| == |d.cardPayments| + s
  {
    if reqs != [] {
      var init := reqs[..|reqs| - 1];
      PostPaymentsFacts(d, init);
      var (d1, s, f) := PostPayments(d, init);
      CreatePaymentFacts(d1, reqs[|reqs| - 1]);
    }
  }

  /** Expense `e`, stored in `d`, is what the POST of `req` writes: the sent date, amount and notes, the trimmed description, and the rows of the trimmed names. */
  predicate CopiedFrom(e: Expense, d: Db, req: ExpenseRequest) {
    && SentFields(e, req) && e.description == TrimmedOption(req.description)
    && RefersTo(d, e, Trim(req.typeName), Trim(req.categoryName), Trim(req.methodName))
  }

  /** Expense `e` of `d` is what one of the bodies asked for. */
  predicate CopiedBySome(e: Expense, d: Db, reqs: seq<ExpenseRequest>) {
    exists j :: 0 <= j < |reqs| && CopiedFrom(e, d, reqs[j])
  }

  /** Every expense of `d'` from position `from` on is what one of the bodies asked for. */
  predicate AppendedExpensesCopied(d': Db, from: nat, reqs: seq<ExpenseRequest>) {
    forall k :: from <= k < |d'.expenses| ==> CopiedBySome(d'.expenses[k], d', reqs)
  }

  /** What one more POST does to the expenses: nothing when refused, one appended row of its own body when accepted. */
  lemma CreateExpenseAppends(d: Db, req: ExpenseRequest)
    requires DbValid(d)
    ensures var (d', r) := CreateExpenseSpec(d, req);
      && DbValid(d') && CatalogsGrew(d, d')
      && (r.Failure? ==> d'.expenses == d.expenses)
      && (r.Success? ==> d'.expenses == d.expenses + [r.value] && CopiedFrom(r.value, d', req))
  {
    CreateExpenseValid(d, req);
    CreateExpenseFacts(d, req);
    CreateExpenseCatalogs(d, req);
  }

  /** A copy stays a copy while the catalogs only grow, and whatever body comes after. */
  lemma CopiedBySomeGrow(d1: Db, d2: Db, e: Expense, init: seq<ExpenseRequest>, last: ExpenseRequest)
    requires CatalogsGrew(d1, d2) && CopiedBySome(e, d1, init)
    ensures CopiedBySome(e, d2, init + [last])
  {
    var j :| 0 <= j < |init| && CopiedFrom(e, d1, init[j]);
    var req := init[j];
    RefersToGrow(d1, d2, e, Trim(req.typeName), Trim(req.categoryName), Trim(req.methodName));
    assert CopiedFrom(e, d2, req);
    assert (init + [last])[j] == req;
  }

  lemma CopiedBySomeLast(e: Expense, d: Db, init: seq<ExpenseRequest>, last: ExpenseRequest)
    requires CopiedFrom(e, d, last)
    ensures CopiedBySome(e, d, init + [last])
  {
    assert (init + [last])[|init|] == last;
  }

  /** One more accepted or refused POST keeps every appended expense a copy of some body. */
  lemma PostExpensesRowsStep(d1: Db, d2: Db, r: Result<Expense, Error>, from: nat, init: seq<ExpenseRequest>, last: ExpenseRequest)
    requires from <= |d1.expenses| && CatalogsGrew(d1, d2) && AppendedExpensesCopied(d1, from, init)
    requires r.Failure? ==> d2.expenses == d1.expenses
    requires r.Success? ==> d2.expenses == d1.expenses + [r.value] && CopiedFrom(r.value, d2, last)
    ensures AppendedExpensesCopied(d2, from, init + [last])
  {
    forall k | from <= k < |d2.expenses|
      ensures CopiedBySome(d2.expenses[k], d2, init + [last])
    {
      if k < |d1.expenses| {
        assert d2.expenses[k] == d1.expenses[k];
        CopiedBySomeGrow(d1, d2, d1.expenses[k], init, last);
      } else {
        CopiedBySomeLast(d2.expenses[k], d2, init, last);
      }
    }
  }

  /**
   * Posting the bodies leaves the payment methods as they were and only
   * appends to the two lazily resolved catalogs; every expense the posts
   * append is the row that one of the bodies asked for.
   */
  lemma {:induction false} PostExpensesRows(d: Db, reqs: seq<ExpenseRequest>)
    requires DbValid(d)
    ensures var d' := PostExpenses(d, reqs).0;
      CatalogsGrew(d, d') && |d.expenses| <= |d'.expenses| && AppendedExpensesCopied(d', |d.expenses|, reqs)
  {
    if reqs != [] {
      var init := reqs[..|reqs| - 1];
      PostExpensesRows(d, init);
      PostExpensesFacts(d, init);
      PostExpensesRowsNext(d, PostExpenses(d, init).0, init, reqs[|reqs| - 1]);
      assert init + [reqs[|reqs| - 1]] == reqs;
    }
  }

  /** The induction step of PostExpensesRows: one more POST after the bodies `init`. */
  lemma PostExpensesRowsNext(d: Db, d1: Db, init: seq<ExpenseRequest>, last: ExpenseRequest)
    requires DbValid(d1) && CatalogsGrew(d, d1) && |d.expenses| <= |d1.expenses|
    requires AppendedExpensesCopied(d1, |d.expenses|, init)
    ensures var d2 := CreateExpenseSpec(d1, last).0;
      CatalogsGrew(d, d2) && |d.expenses| <= |d2.expenses| && AppendedExpensesCopied(d2, |d.expenses|, init + [last])
  {
    var (d2, r) := CreateExpenseSpec(d1, last);
    CreateExpenseAppends(d1, last);
    PostExpensesRowsStep(d1, d2, r, |d.expenses|, init, last);
  }

  /** The names of a listed expense are the trimmed names stored in the catalogs, so trimming them again changes nothing. */
  lemma ListedNamesTrimmed(d: Db, v: ExpenseView)
    requires DbValid(d) && v in Join(d)
    ensures Trim(v.typeName) == v.typeName && Trim(v.categoryName) == v.categoryName && Trim(v.methodName) == v.methodName
  {
    var i :| 0 <= i < |d.expenseTypes| && d.expenseTypes[i] == CatalogRow(v.expense.typeId, v.typeName);
    var j :| 0 <= j < |d.categories| && d.categories[j] == CatalogRow(v.expense.categoryId, v.categoryName);
    var k :| 0 <= k < |d.paymentMethods| && d.paymentMethods[k].id == v.expense.methodId && d.paymentMethods[k].name == v.methodName;
    TrimOfTrimmed(v.typeName);
    TrimOfTrimmed(v.categoryName);
    TrimOfTrimmed(v.methodName);
  }

  /** Expense `e` of `d` is the duplicate of listed expense `v`. */
  predicate DuplicateOf(e: Expense, d: Db, v: ExpenseView, today: string) {
    && e.date == today
    && e.amount == v.expense.amount
    && e.notes == Some(OrEmpty(v.expense.notes))
    && e.description == Some(Trim(OrEmpty(v.expense.description)))
    && RefersTo(d, e, v.typeName, v.categoryName, v.methodName)
  }

  /**
   * What duplicating expenses writes: each new expense is dated today and
   * copies one listed expense of the source period, pointing at catalog rows
   * with that expense's type, category and payment-method names, carrying its
   * amount, its notes or '' and its description or '' (trimmed).
   */
  lemma DuplicatedExpenseRows(d: Db, q: ExpenseQuery, today: string)
    requires DbValid(d)
    ensures var rows := ListExpenses(d, q);
      var d' := PostExpenses(d, ExpenseCopies(rows, today)).0;
      forall k :: |d.expenses| <= k < |d'.expenses| ==>
        exists i :: 0 <= i < |rows| && DuplicateOf(d'.expenses[k], d', rows[i], today)
  {
    var rows := ListExpenses(d, q);
    var reqs := ExpenseCopies(rows, today);
    var d' := PostExpenses(d, reqs).0;
    PostExpensesRows(d, reqs);
    ListExpensesFacts(d, q);
    forall k | |d.expenses| <= k < |d'.expenses|
      ensures exists i :: 0 <= i < |rows| && DuplicateOf(d'.expenses[k], d', rows[i], today)
    {
      assert CopiedBySome(d'.expenses[k], d', reqs);
      var j :| 0 <= j < |reqs| && CopiedFrom(d'.expenses[k], d', reqs[j]);
      assert reqs[j] == ExpenseCopy(rows[j], today);
      assert rows[j] in rows;
      ListedNamesTrimmed(d, rows[j]);
      assert DuplicateOf(d'.expenses[k], d', rows[j], today);
    }
  }

  /** Payment `p` is what the POST of `req` writes: its date, trimmed card name, amount and notes. */
  predicate PaymentFrom(p: CardPayment, req: PaymentRequest) {
    p.date == req.date && p.cardName == Trim(req.cardName) && Some(p.amount) == req.amount && p.notes == req.notes
  }

  predicate AppendedPaymentsCopied(d': Db, from: nat, reqs: seq<PaymentRequest>) {
    forall k :: from <= k < |d'.cardPayments| ==> exists j :: 0 <= j < |reqs| && PaymentFrom(d'.cardPayments[k], reqs[j])
  }

  lemma PostPaymentsRowsStep(d1: Db, from: nat, init: seq<PaymentRequest>, last: PaymentRequest)
    requires DbValid(d1) && from <= |d1.cardPayments| && AppendedPaymentsCopied(d1, from, init)
    ensures var d2 := CreatePaymentSpec(d1, last).0;
      DbValid(d2) && AppendedPaymentsCopied(d2, from, init + [last])
  {
    var (d2, r) := CreatePaymentSpec(d1, last);
    CreatePaymentFacts(d1, last);
    var reqs := init + [last];
    forall k | from <= k < |d2.cardPayments|
      ensures exists j :: 0 <= j < |reqs| && PaymentFrom(d2.cardPayments[k], reqs[j])
    {
      if k < |d1.cardPayments| {
        assert d2.cardPayments[k] == d1.cardPayments[k];
        var j :| 0 <= j < |init| && PaymentFrom(d1.cardPayments[k], init[j]);
        assert reqs[j] == init[j];
      } else {
        assert reqs[|init|] == last;
      }
    }
  }

  /** Every payment the posts append is the row one of the bodies asked for. */
  lemma {:induction false} PostPaymentsRows(d: Db, reqs: seq<PaymentRequest>)
    requires DbValid(d)
    ensures var d' := PostPayments(d, reqs).0;
      DbValid(d') && |d.cardPayments| <= |d'.cardPayments| && AppendedPaymentsCopied(d', |d.cardPayments|, reqs)
  {
    if reqs != [] {
      var init := reqs[..|reqs| - 1];
      PostPaymentsRows(d, init);
      PostPaymentsFacts(d, init);
      var d1 := PostPayments(d, init).0;
      PostPaymentsRowsStep(d1, |d.cardPayments|, init, reqs[|reqs| - 1]);
      assert init + [reqs[|reqs| - 1]] == reqs;
    }
  }

  /** Payment `p` is the duplicate of listed payment `src`. */
  predicate PaymentDuplicateOf(p: CardPayment, src: CardPayment, today: string) {
    p.date == today && p.cardName == src.cardName && p.amount == src.amount && p.notes == Some(OrEmpty(src.notes))
  }

  /**
   * What duplicating card payments writes: each new payment is dated today
   * and copies one listed payment of the source period, with its card name,
   * its amount and its notes or ''.
   */
  lemma DuplicatedPaymentRows(d: Db, q: PaymentQuery, today: string)
    requires DbValid(d)
    ensures var rows := ListPayments(d, q);
      var d' := PostPayments(d, PaymentCopies(rows, today)).0;
      forall k :: |d.cardPayments| <= k < |d'.cardPayments| ==>
        exists i :: 0 <= i < |rows| && PaymentDuplicateOf(d'.cardPayments[k], rows[i], today)
  {
    var rows := ListPayments(d, q);
    var reqs := PaymentCopies(rows, today);
    var d' := PostPayments(d, reqs).0;
    PostPaymentsRows(d, reqs);
    forall k | |d.cardPayments| <= k < |d'.cardPayments|
      ensures exists i :: 0 <= i < |rows| && PaymentDuplicateOf(d'.cardPayments[k], rows[i], today)
    {
      var j :| 0 <= j < |reqs| && PaymentFrom(d'.cardPayments[k], reqs[j]);
      assert reqs[j] == PaymentCopy(rows[j], today);
      ListedCardNameTrimmed(d, q, j);
      assert PaymentDuplicateOf(d'.cardPayments[k], rows[j], today);
    }
  }

  /** A listed payment is a stored one, so its card name is already trimmed. */
  lemma ListedCardNameTrimmed(d: Db, q: PaymentQuery, j: int)
    requires DbValid(d) && 0 <= j < |ListPayments(d, q)|
    ensures Trim(ListPayments(d, q)[j].cardName) == ListPayments(d, q)[j].cardName
  {
    var p := ListPayments(d, q)[j];
    ListPaymentsFacts(d, q);
    assert p in d.cardPayments;
    var m :| 0 <= m < |d.cardPayments| && d.cardPayments[m] == p;
    assert PaymentValid(d.cardPayments[m]);
    TrimOfTrimmed(p.cardName);
  }

  /** One iteration: the POST of one body, and the count it adds to. */
  method PostExpenseOne(db: Store, req: ExpenseRequest, successCount: nat, failCount: nat) returns (successCount': nat, failCount': nat)
    modifies db
    ensures db.State() == PostExpense((old(db.State()), successCount, failCount), req).0
    ensures successCount' == PostExpense((old(db.State()), successCount, failCount), req).1
    ensures failCount' == PostExpense((old(db.State()), successCount, failCount), req).2
  {
    var r := CreateExpense(db, req);
    successCount' := if r.Success? then successCount + 1 else successCount;
    failCount' := if r.Success? then failCount else failCount + 1;
  }

  /** The `for ... of` loop: posts a copy of each row in order and counts the accepted and refused posts. */
  method PostExpenseCopies(db: Store, rows: seq<ExpenseView>, today: string) returns (successCount: nat, failCount: nat)
    modifies db
    ensures (db.State(), successCount, failCount) == PostExpenses(old(db.State()), ExpenseCopies(rows, today))
  {
    successCount, failCount := 0, 0;
    var i := 0;
    while i < |rows|
      invariant 0 <= i <= |rows|
      invariant (db.State(), successCount, failCount) == PostExpenses(old(db.State()), ExpenseCopies(rows[..i], today))
    {
      var newExpense := ExpenseCopy(rows[i], today);
      ghost var before := ExpenseCopies(rows[..i], today);
      successCount, failCount := PostExpenseOne(db, newExpense, successCount, failCount);
      ExpenseCopiesSnoc(rows, i, today);
      PostExpensesSnoc(old(db.State()), before, newExpense);
      i := i + 1;
    }
    assert rows[..i] == rows;
  }

  /** One iteration: the POST of one body, and the count it adds to. */
  method PostPaymentOne(db: Store, req: PaymentRequest, successCount: nat, failCount: nat) returns (successCount': nat, failCount': nat)
    requires db.Valid()
    modifies db
    ensures db.Valid()
    ensures db.State() == PostPayment((old(db.State()), successCount, failCount), req).0
    ensures successCount' == PostPayment((old(db.State()), successCount, failCount), req).1
    ensures failCount' == PostPayment((old(db.State()), successCount, failCount), req).2
  {
    var r := CreateCardPayment(db, req);
    successCount' := if r.Success? then successCount + 1 else successCount;
    failCount' := if r.Success? then failCount else failCount + 1;
  }

  /** The `for ... of` loop: posts a copy of each row in order and counts the accepted and refused posts. */
  method PostPaymentCopies(db: Store, rows: seq<CardPayment>, today: string) returns (successCount: nat, failCount: nat)
    requires db.Valid()
    modifies db
    ensures db.Valid()
    ensures (db.State(), successCount, failCount) == PostPayments(old(db.State()), PaymentCopies(rows, today))
  {
    successCount, failCount := 0, 0;
    var i := 0;
    while i < |rows|
      invariant 0 <= i <= |rows|
      invariant db.Valid()
      invariant (db.State(), successCount, failCount) == PostPayments(old(db.State()), PaymentCopies(rows[..i], today))
    {
      var newPayment := PaymentCopy(rows[i], today);
      ghost var before := PaymentCopies(rows[..i], today);
      successCount, failCount := PostPaymentOne(db, newPayment, successCount, failCount);
      PaymentCopiesSnoc(rows, i, today);
      PostPaymentsSnoc(old(db.State()), before, newPayment);
      i := i + 1;
    }
    assert rows[..i] == rows;
  }

  /** How a duplication ends: a period is missing, the user declined, the period was empty, or the two counts. */
  datatype DuplicateOutcome =
    | NeedPeriod
    | Declined
    | NothingFound
    | Duplicated(successCount: nat, failCount: nat)

  /**
   * `duplicateExpenses`: with a year and a month chosen and the dialog
   * confirmed, lists that period and posts a copy of each listed expense in
   * order, counting accepted and refused posts; `confirmed` is the user's
   * answer to the dialog and `today` the clock's date.
   */
  method DuplicateExpenses(db: Store, year: string, month: string, confirmed: bool, today: string)
    returns (outcome: DuplicateOutcome)
    modifies db
    ensures year == "" || month == "" ==> outcome == NeedPeriod && db.State() == old(db.State())
    ensures year != "" && month != "" && !confirmed ==> outcome == Declined && db.State() == old(db.State())
    ensures year != "" && month != "" && confirmed ==>
      var rows := ListExpenses(old(db.State()), ExpenseQuery(year, month, None, None, None));
      var (d', s, f) := PostExpenses(old(db.State()), ExpenseCopies(rows, today));
      && (rows == [] ==> outcome == NothingFound && db.State() == old(db.State()))
      && (rows != [] ==> outcome == Duplicated(s, f) && db.State() == d')
  {
    if year == "" || month == "" {
      return NeedPeriod;
    }
    if !confirmed {
      return Declined;
    }
    var expensesToDuplicate := ListExpenses(db.State(), ExpenseQuery(year, month, None, None, None));
    if |expensesToDuplicate| == 0 {
      return NothingFound;
    }
    var successCount, failCount := PostExpenseCopies(db, expensesToDuplicate, today);
    outcome := Duplicated(successCount, failCount);
  }

  /** `duplicateCCPayments`: the same loop over the period's card payments. */
  method DuplicateCardPayments(db: Store, year: string, month: string, confirmed: bool, today: string)
    returns (outcome: DuplicateOutcome)
    requires db.Valid()
    modifies db
    ensures db.Valid()
    ensures year == "" || month == "" ==> outcome == NeedPeriod && db.State() == old(db.State())
    ensures year != "" && month != "" && !confirmed ==> outcome == Declined && db.State() == old(db.State())
    ensures year != "" && month != "" && confirmed ==>
      var rows := ListPayments(old(db.State()), PaymentQuery(year, month, ""));
      var (d', s, f) := PostPayments(old(db.State()), PaymentCopies(rows, today));
      && (rows == [] ==> outcome == NothingFound && db.State() == old(db.State()))
      && (rows != [] ==> outcome == Duplicated(s, f) && db.State() == d')
  {
    if year == "" || month == "" {
      return NeedPeriod;
    }
    if !confirmed {
      return Declined;
    }
    var paymentsToDuplicate := ListPayments(db.State(), PaymentQuery(year, month, ""));
    if |paymentsToDuplicate| == 0 {
      return NothingFound;
    }
    var successCount, failCount := PostPaymentCopies(db, paymentsToDuplicate, today);
    outcome := Duplicated(successCount, failCount);
  }
}
