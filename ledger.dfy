/**
 * Expenses and credit-card payments (server/index.js): the create, update and
 * delete handlers, and the two listings with their optional filters.
 *
 * An expense names its type, category and payment method by name. The type
 * and the category are resolved lazily (created when missing), the payment
 * method strictly, in that order, so a request that names an unknown payment
 * method still leaves behind the type and category it introduced.
 */
module Ledger {
  import opened Wrappers
  import opened Text
  import opened Sorting
  import opened Schema
  import opened Catalog

  // ---------------------------------------------------------------------------
  // Requests and validation

  /** The body of an expense POST or PUT. Amounts are in cents; None stands for a value that is not a number. */
  datatype ExpenseRequest = ExpenseRequest(
    date: string, typeName: string, categoryName: string, methodName: string,
    description: Option<string>, amount: Option<int>, notes: Option<string>)

  /** `isFloat({ min: 0 })`. */
  predicate ValidAmount(a: Option<int>) {
    a.Some? && a.value >= 0
  }

  /** The fields the expense validators reject, in the order the validators are declared. */
  function ExpenseFailures(req: ExpenseRequest): (fields: seq<string>)
    ensures fields == [] <==>
      && IsIsoDate(req.date) && req.typeName != "" && req.categoryName != "" && req.methodName != ""
      && ValidAmount(req.amount)
    ensures "date" in fields <==> !IsIsoDate(req.date)
    ensures "amount" in fields <==> !ValidAmount(req.amount)
  {
    (if IsIsoDate(req.date) then [] else ["date"])
    + (if req.typeName != "" then [] else ["expense_type_name"])
    + (if req.categoryName != "" then [] else ["category_name"])
    + (if req.methodName != "" then [] else ["payment_method_name"])
    + (if ValidAmount(req.amount) then [] else ["amount"])
  }

  /** `optional().trim()`: a description that was sent is trimmed, an absent one stays NULL. */
  function TrimmedOption(o: Option<string>): (r: Option<string>)
    ensures r.None? <==> o.None?
    ensures r.Some? ==> IsTrimmed(r.value)
  {
    match o
    case None => None
    case Some(s) => Some(Trim(s))
  }

  // ---------------------------------------------------------------------------
  // Resolving the three names of an expense

  /** The store after the two lazy resolvers, the type and category ids, and the strict payment-method lookup. */
  function ResolveNames(d: Db, req: ExpenseRequest): (Db, nat, nat, Result<nat, Error>) {
    var (types, nextType, typeId) := FindOrCreateRow(d.expenseTypes, d.nextTypeId, Trim(req.typeName));
    var (categories, nextCategory, categoryId) := FindOrCreateRow(d.categories, d.nextCategoryId, Trim(req.categoryName));
    var d2 := d.(expenseTypes := types, nextTypeId := nextType, categories := categories, nextCategoryId := nextCategory);
    (d2, typeId, categoryId, FindPaymentMethodByName(d2, Trim(req.methodName)))
  }

  /** The expense row points at catalog rows carrying these three names. */
  predicate RefersTo(d: Db, e: Expense, typeName: string, categoryName: string, methodName: string) {
    && CatalogRow(e.typeId, typeName) in d.expenseTypes
    && CatalogRow(e.categoryId, categoryName) in d.categories
    && exists i :: 0 <= i < |d.paymentMethods| && d.paymentMethods[i].id == e.methodId && d.paymentMethods[i].name == methodName
  }

  lemma RowHasId(rows: seq<CatalogRow>, row: CatalogRow)
    requires row in rows
    ensures HasCatalogId(rows, row.id) && HasCatalogName(rows, row.name)
  {
    var i :| 0 <= i < |rows| && rows[i] == row;
  }

  /**
   * Resolution changes only the two catalogs, each of which keeps its
   * constraints and only grows at its end; the rows it returns carry the
   * trimmed names, and the payment method is looked up as in the store it
   * started from.
   */
  lemma ResolveNamesFacts(d: Db, req: ExpenseRequest)
    requires CatalogValid(d.expenseTypes, d.nextTypeId) && CatalogValid(d.categories, d.nextCategoryId)
    ensures var res := ResolveNames(d, req);
      && res.0 == d.(expenseTypes := res.0.expenseTypes, nextTypeId := res.0.nextTypeId,
                     categories := res.0.categories, nextCategoryId := res.0.nextCategoryId)
      && CatalogValid(res.0.expenseTypes, res.0.nextTypeId) && CatalogValid(res.0.categories, res.0.nextCategoryId)
      && d.expenseTypes <= res.0.expenseTypes && d.categories <= res.0.categories
      && CatalogRow(res.1, Trim(req.typeName)) in res.0.expenseTypes
      && CatalogRow(res.2, Trim(req.categoryName)) in res.0.categories
      && res.3 == FindPaymentMethodByName(d, Trim(req.methodName))
  {
    FindOrCreateRowFacts(d.expenseTypes, d.nextTypeId, Trim(req.typeName));
    FindOrCreateRowFacts(d.categories, d.nextCategoryId, Trim(req.categoryName));
  }

  // ---------------------------------------------------------------------------
  // Expense handlers

  /** POST /api/expenses. */
  function CreateExpenseSpec(d: Db, req: ExpenseRequest): (Db, Result<Expense, Error>) {
    var fields := ExpenseFailures(req);
    if fields != [] then (d, Failure(ValidationFailed(fields)))
    else InsertResolved(ResolveNames(d, req), req)
  }

  /** The INSERT that follows resolution; a failed payment-method lookup is passed on with the store the resolvers left. */
  function InsertResolved(res: (Db, nat, nat, Result<nat, Error>), req: ExpenseRequest): (Db, Result<Expense, Error>)
    requires ValidAmount(req.amount)
  {
    var d2 := res.0;
    match res.3
    case Failure(err) => (d2, Failure(err))
    case Success(methodId) =>
      var e := Expense(d2.nextExpenseId, req.date, res.1, res.2, methodId,
                       TrimmedOption(req.description), req.amount.value, req.notes);
      (d2.(expenses := d2.expenses + [e], nextExpenseId := d2.nextExpenseId + 1), Success(e))
  }

  predicate HasExpenseId(rows: seq<Expense>, id: nat) {
    exists i :: 0 <= i < |rows| && rows[i].id == id
  }

  /** `UPDATE expenses SET ... WHERE id = ?` with the new row `e`. */
  function ReplaceExpense(rows: seq<Expense>, e: Expense): (r: seq<Expense>)
    ensures |r| == |rows|
    ensures forall i :: 0 <= i < |rows| ==> r[i] == if rows[i].id == e.id then e else rows[i]
  {
    seq(|rows|, i requires 0 <= i < |rows| => if rows[i].id == e.id then e else rows[i])
  }

  /** PUT /api/expenses/:id: the description and notes are stored as sent; reports the number of rows changed. */
  function UpdateExpenseSpec(d: Db, id: nat, req: ExpenseRequest): (Db, Result<nat, Error>) {
    var fields := ExpenseFailures(req);
    if fields != [] then (d, Failure(ValidationFailed(fields)))
    else UpdateResolved(ResolveNames(d, req), id, req)
  }

  /** The UPDATE that follows resolution: it changes the row with that id, or no row. */
  function UpdateResolved(res: (Db, nat, nat, Result<nat, Error>), id: nat, req: ExpenseRequest): (Db, Result<nat, Error>)
    requires ValidAmount(req.amount)
  {
    var d2 := res.0;
    match res.3
    case Failure(err) => (d2, Failure(err))
    case Success(methodId) =>
      if !HasExpenseId(d2.expenses, id) then (d2, Success(0))
      else
        var e := Expense(id, req.date, res.1, res.2, methodId, req.description, req.amount.value, req.notes);
        (d2.(expenses := ReplaceExpense(d2.expenses, e)), Success(1))
  }

  function OtherExpense(id: nat): Expense -> bool {
    (e: Expense) => e.id != id
  }

  /** `DELETE FROM expenses WHERE id = ?`. */
  function RemoveExpense(rows: seq<Expense>, id: nat): (r: seq<Expense>)
    ensures forall e :: e in r <==> e in rows && e.id != id
  {
    Filter(rows, OtherExpense(id))
  }

  /** DELETE /api/expenses/:id: reports the number of rows deleted. */
  function DeleteExpenseSpec(d: Db, id: nat): (Db, nat) {
    var rest := RemoveExpense(d.expenses, id);
    (d.(expenses := rest), |d.expenses| - |rest|)
  }

  /** Ids strictly increase, so at most one row carries a given id. */
  predicate IncreasingIds(rows: seq<Expense>) {
    forall i, j :: 0 <= i < j < |rows| ==> rows[i].id < rows[j].id
  }

  lemma RemoveExpenseCount(rows: seq<Expense>, id: nat)
    requires IncreasingIds(rows)
    ensures |rows| - |RemoveExpense(rows, id)| == if HasExpenseId(rows, id) then 1 else 0
  {
    if HasExpenseId(rows, id) {
      var k :| 0 <= k < |rows| && rows[k].id == id;
      FilterDropsOne(rows, OtherExpense(id), k);
    } else {
      FilterKeepsAll(rows, OtherExpense(id));
    }
  }

  /** Appending a valid expense under the fresh id keeps the expenses table valid; no stored row had that id. */
  lemma AppendExpenseValid(rows: seq<Expense>, next: nat, types: seq<CatalogRow>, categories: seq<CatalogRow>,
                           methods: seq<PaymentMethod>, e: Expense)
    requires ExpensesValid(rows, next, types, categories, methods) && ExpenseValid(e, types, categories, methods)
    requires e.id == next
    ensures ExpensesValid(rows + [e], next + 1, types, categories, methods)
    ensures !HasExpenseId(rows, e.id)
  {
    var r := rows + [e];
    forall i, j | 0 <= i < j < |r|
      ensures r[i].id < r[j].id
    {
      assert r[i] == rows[i];
      if j < |rows| {
        assert r[j] == rows[j];
      }
    }
    forall i | 0 <= i < |r|
      ensures r[i].id < next + 1 && ExpenseValid(r[i], types, categories, methods)
    {
      if i < |rows| {
        assert r[i] == rows[i];
      }
    }
  }

  /** Replacing the row that has `e.id` by a valid `e` keeps the expenses table valid. */
  lemma ReplaceExpenseValid(rows: seq<Expense>, next: nat, types: seq<CatalogRow>, categories: seq<CatalogRow>,
                            methods: seq<PaymentMethod>, e: Expense)
    requires ExpensesValid(rows, next, types, categories, methods) && ExpenseValid(e, types, categories, methods)
    ensures ExpensesValid(ReplaceExpense(rows, e), next, types, categories, methods)
  {
    var r := ReplaceExpense(rows, e);
    forall i, j | 0 <= i < j < |r|
      ensures r[i].id < r[j].id
    {
      assert rows[i].id < rows[j].id;
    }
    forall i | 0 <= i < |r|
      ensures r[i].id < next && ExpenseValid(r[i], types, categories, methods)
    {
      assert rows[i].id < next;
    }
  }

  /** Deleting rows keeps the expenses table valid. */
  lemma RemoveExpenseValid(rows: seq<Expense>, next: nat, types: seq<CatalogRow>, categories: seq<CatalogRow>,
                           methods: seq<PaymentMethod>, id: nat)
    requires ExpensesValid(rows, next, types, categories, methods)
    ensures ExpensesValid(RemoveExpense(rows, id), next, types, categories, methods)
  {
    var r := RemoveExpense(rows, id);
    FilterPairwise(rows, OtherExpense(id), (a: Expense, b: Expense) => a.id < b.id);
    forall i | 0 <= i < |r|
      ensures r[i].id < next && ExpenseValid(r[i], types, categories, methods)
    {
      assert r[i] in r;
      var k :| 0 <= k < |rows| && rows[k] == r[i];
    }
  }

  /** No stored expense carries the counter's value. */
  lemma FreshExpenseId(rows: seq<Expense>, next: nat)
    requires forall i :: 0 <= i < |rows| ==> rows[i].id < next
    ensures !HasExpenseId(rows, next)
  {
  }

  /** The stored fields of an expense are the ones the request sent (the description as given). */
  predicate SentFields(e: Expense, req: ExpenseRequest) {
    e.date == req.date && req.amount == Some(e.amount) && e.notes == req.notes
  }

  /** The ids resolution hands on name existing rows of the store it hands on. */
  predicate ResolvedValid(res: (Db, nat, nat, Result<nat, Error>)) {
    && DbValid(res.0)
    && HasCatalogId(res.0.expenseTypes, res.1)
    && HasCatalogId(res.0.categories, res.2)
    && (res.3.Success? ==> HasMethodId(res.0.paymentMethods, res.3.value))
  }

  lemma ResolveNamesValid(d: Db, req: ExpenseRequest)
    requires DbValid(d)
    ensures ResolvedValid(ResolveNames(d, req))
  {
    ResolveNamesFacts(d, req);
    var res := ResolveNames(d, req);
    ExpensesValidGrow(d.expenses, d.nextExpenseId, d.expenseTypes, d.categories,
                      res.0.expenseTypes, res.0.categories, d.paymentMethods);
    RowHasId(res.0.expenseTypes, CatalogRow(res.1, Trim(req.typeName)));
    RowHasId(res.0.categories, CatalogRow(res.2, Trim(req.categoryName)));
    if res.3.Success? {
      var k :| 0 <= k < |d.paymentMethods| && d.paymentMethods[k].id == res.3.value;
      assert res.0.paymentMethods[k].id == res.3.value;
    }
  }

  lemma InsertResolvedValid(res: (Db, nat, nat, Result<nat, Error>), req: ExpenseRequest)
    requires IsIsoDate(req.date) && ValidAmount(req.amount) && ResolvedValid(res)
    ensures DbValid(InsertResolved(res, req).0)
  {
    if res.3.Success? {
      var d2 := res.0;
      var e := Expense(d2.nextExpenseId, req.date, res.1, res.2, res.3.value,
                       TrimmedOption(req.description), req.amount.value, req.notes);
      AppendExpenseValid(d2.expenses, d2.nextExpenseId, d2.expenseTypes, d2.categories, d2.paymentMethods, e);
    }
  }

  lemma UpdateResolvedValid(res: (Db, nat, nat, Result<nat, Error>), id: nat, req: ExpenseRequest)
    requires IsIsoDate(req.date) && ValidAmount(req.amount) && ResolvedValid(res)
    ensures DbValid(UpdateResolved(res, id, req).0)
  {
    if res.3.Success? && HasExpenseId(res.0.expenses, id) {
      var d2 := res.0;
      var e := Expense(id, req.date, res.1, res.2, res.3.value, req.description, req.amount.value, req.notes);
      ReplaceExpenseValid(d2.expenses, d2.nextExpenseId, d2.expenseTypes, d2.categories, d2.paymentMethods, e);
    }
  }

  /** Creating an expense keeps every constraint of the store. */
  lemma CreateExpenseValid(d: Db, req: ExpenseRequest)
    requires DbValid(d)
    ensures DbValid(CreateExpenseSpec(d, req).0)
  {
    if ExpenseFailures(req) == [] {
      ResolveNamesValid(d, req);
      InsertResolvedValid(ResolveNames(d, req), req);
    }
  }

  /** Updating an expense keeps every constraint of the store. */
  lemma UpdateExpenseValid(d: Db, id: nat, req: ExpenseRequest)
    requires DbValid(d)
    ensures DbValid(UpdateExpenseSpec(d, id, req).0)
  {
    if ExpenseFailures(req) == [] {
      ResolveNamesValid(d, req);
      UpdateResolvedValid(ResolveNames(d, req), id, req);
    }
  }

  /** The INSERT after resolution: a failed lookup is passed on, otherwise one row is appended under the counter's id. */
  lemma InsertResolvedFacts(res: (Db, nat, nat, Result<nat, Error>), req: ExpenseRequest)
    requires ValidAmount(req.amount)
    ensures var (d', r) := InsertResolved(res, req);
      && (res.3.Failure? ==> d' == res.0 && r == Failure(res.3.error))
      && (res.3.Success? ==>
            && r == Success(Expense(res.0.nextExpenseId, req.date, res.1, res.2, res.3.value,
                                    TrimmedOption(req.description), req.amount.value, req.notes))
            && d' == res.0.(expenses := res.0.expenses + [r.value], nextExpenseId := res.0.nextExpenseId + 1))
  {
  }

  /** The UPDATE after resolution: a failed lookup is passed on, an unknown id changes nothing, a known one replaces its row. */
  lemma UpdateResolvedFacts(res: (Db, nat, nat, Result<nat, Error>), id: nat, req: ExpenseRequest)
    requires ValidAmount(req.amount)
    ensures var (d', r) := UpdateResolved(res, id, req);
      && (res.3.Failure? ==> d' == res.0 && r == Failure(res.3.error))
      && (res.3.Success? && !HasExpenseId(res.0.expenses, id) ==> d' == res.0 && r == Success(0))
      && (res.3.Success? && HasExpenseId(res.0.expenses, id) ==>
            && r == Success(1)
            && d' == res.0.(expenses := ReplaceExpense(res.0.expenses,
                        Expense(id, req.date, res.1, res.2, res.3.value, req.description, req.amount.value, req.notes))))
  {
  }

  /** Only the type and category catalogs grow, and only at their end. */
  predicate CatalogsGrew(d: Db, d': Db) {
    d.expenseTypes <= d'.expenseTypes && d.categories <= d'.categories && d'.paymentMethods == d.paymentMethods
  }

  /** What an expense handler may do to the other tables: append to the type and category catalogs, nothing else. */
  predicate OtherTablesKept(d: Db, d': Db) {
    CatalogsGrew(d, d') && d'.cardPayments == d.cardPayments && d'.nextPaymentId == d.nextPaymentId
  }

  /**
   * Creating an expense. Invalid input changes nothing. An unknown payment
   * method is reported as not found, and the type and category resolved
   * before the lookup remain in their catalogs. Otherwise exactly one
   * expense is appended, under a fresh id, carrying the sent date, amount
   * and notes and the trimmed description, and pointing at the rows with
   * the trimmed names.
   */
  lemma CreateExpenseFacts(d: Db, req: ExpenseRequest)
    requires CatalogValid(d.expenseTypes, d.nextTypeId) && CatalogValid(d.categories, d.nextCategoryId)
    requires forall i :: 0 <= i < |d.expenses| ==> d.expenses[i].id < d.nextExpenseId
    ensures var (d', r) := CreateExpenseSpec(d, req);
      && OtherTablesKept(d, d')
      && (ExpenseFailures(req) != [] ==> d' == d && r == Failure(ValidationFailed(ExpenseFailures(req))))
      && (r.Failure? ==> d'.expenses == d.expenses && d'.paymentMethods == d.paymentMethods)
      && (r == Failure(PaymentMethodNotFound(Trim(req.methodName))) <==>
            ExpenseFailures(req) == [] && !HasMethodName(d.paymentMethods, Trim(req.methodName)))
      && (ExpenseFailures(req) == [] ==>
            CatalogRow(ResolveNames(d, req).1, Trim(req.typeName)) in d'.expenseTypes
            && CatalogRow(ResolveNames(d, req).2, Trim(req.categoryName)) in d'.categories)
      && (r.Success? ==>
            && d'.expenses == d.expenses + [r.value]
            && !HasExpenseId(d.expenses, r.value.id)
            && SentFields(r.value, req) && r.value.description == TrimmedOption(req.description)
            && RefersTo(d', r.value, Trim(req.typeName), Trim(req.categoryName), Trim(req.methodName)))
  {
    CreateExpenseCatalogs(d, req);
    if ExpenseFailures(req) == [] {
      ResolveNamesFacts(d, req);
      var res := ResolveNames(d, req);
      InsertResolvedFacts(res, req);
      if res.3.Success? {
        FreshExpenseId(d.expenses, d.nextExpenseId);
        var k :| 0 <= k < |d.paymentMethods| && d.paymentMethods[k].id == res.3.value && d.paymentMethods[k].name == Trim(req.methodName);
        assert res.0.paymentMethods[k] == d.paymentMethods[k];
      }
    }
  }

  /** Creating an expense only ever appends to the type and category catalogs and never touches the payment methods or card payments. */
  lemma CreateExpenseCatalogs(d: Db, req: ExpenseRequest)
    requires CatalogValid(d.expenseTypes, d.nextTypeId) && CatalogValid(d.categories, d.nextCategoryId)
    ensures OtherTablesKept(d, CreateExpenseSpec(d, req).0)
  {
    if ExpenseFailures(req) == [] {
      ResolveNamesFacts(d, req);
      InsertResolvedFacts(ResolveNames(d, req), req);
    }
  }

  /** Updating an expense, likewise, only ever appends to the type and category catalogs. */
  lemma UpdateExpenseCatalogs(d: Db, id: nat, req: ExpenseRequest)
    requires CatalogValid(d.expenseTypes, d.nextTypeId) && CatalogValid(d.categories, d.nextCategoryId)
    ensures OtherTablesKept(d, UpdateExpenseSpec(d, id, req).0)
  {
    if ExpenseFailures(req) == [] {
      ResolveNamesFacts(d, req);
      UpdateResolvedFacts(ResolveNames(d, req), id, req);
    }
  }

  /** An expense keeps the names it refers to while the type and category catalogs grow at their end and the payment methods stay. */
  lemma RefersToGrow(d: Db, d': Db, e: Expense, typeName: string, categoryName: string, methodName: string)
    requires RefersTo(d, e, typeName, categoryName, methodName)
    requires d.expenseTypes <= d'.expenseTypes && d.categories <= d'.categories && d'.paymentMethods == d.paymentMethods
    ensures RefersTo(d', e, typeName, categoryName, methodName)
  {
    var i :| 0 <= i < |d.expenseTypes| && d.expenseTypes[i] == CatalogRow(e.typeId, typeName);
    assert d'.expenseTypes[i] == d.expenseTypes[i];
    var j :| 0 <= j < |d.categories| && d.categories[j] == CatalogRow(e.categoryId, categoryName);
    assert d'.categories[j] == d.categories[j];
  }

  lemma ReplacedRows(rows: seq<Expense>, d': Db, e: Expense, req: ExpenseRequest)
    requires d'.expenses == ReplaceExpense(rows, e)
    requires SentFields(e, req) && e.description == req.description
    requires RefersTo(d', e, Trim(req.typeName), Trim(req.categoryName), Trim(req.methodName))
    ensures |d'.expenses| == |rows|
    ensures forall i :: 0 <= i < |rows| && rows[i].id != e.id ==> d'.expenses[i] == rows[i]
    ensures forall i :: 0 <= i < |rows| && rows[i].id == e.id ==>
              && d'.expenses[i].id == e.id && SentFields(d'.expenses[i], req)
              && d'.expenses[i].description == req.description
              && RefersTo(d', d'.expenses[i], Trim(req.typeName), Trim(req.categoryName), Trim(req.methodName))
  {
  }

  /**
   * Updating an expense. Invalid input changes nothing; an unknown payment
   * method is not found. Otherwise an unknown id reports 0 and leaves the
   * expenses as they were; a known id reports 1 and exactly that row takes
   * the sent fields, every other row and every id staying as they were.
   */
  lemma UpdateExpenseFacts(d: Db, id: nat, req: ExpenseRequest)
    requires CatalogValid(d.expenseTypes, d.nextTypeId) && CatalogValid(d.categories, d.nextCategoryId)
    ensures var (d', r) := UpdateExpenseSpec(d, id, req);
      && OtherTablesKept(d, d')
      && (ExpenseFailures(req) != [] ==> d' == d && r == Failure(ValidationFailed(ExpenseFailures(req))))
      && (r.Failure? || r == Success(0) ==> d'.expenses == d.expenses && d'.paymentMethods == d.paymentMethods)
      && (r == Failure(PaymentMethodNotFound(Trim(req.methodName))) <==>
            ExpenseFailures(req) == [] && !HasMethodName(d.paymentMethods, Trim(req.methodName)))
      && (ExpenseFailures(req) == [] && HasMethodName(d.paymentMethods, Trim(req.methodName)) ==>
            r == Success(if HasExpenseId(d.expenses, id) then 1 else 0))
      && (r == Success(1) ==>
            && |d'.expenses| == |d.expenses|
            && (forall i :: 0 <= i < |d.expenses| && d.expenses[i].id != id ==> d'.expenses[i] == d.expenses[i])
            && (forall i :: 0 <= i < |d.expenses| && d.expenses[i].id == id ==>
                  && d'.expenses[i].id == id && SentFields(d'.expenses[i], req)
                  && d'.expenses[i].description == req.description
                  && RefersTo(d', d'.expenses[i], Trim(req.typeName), Trim(req.categoryName), Trim(req.methodName))))
  {
    UpdateExpenseCatalogs(d, id, req);
    if ExpenseFailures(req) == [] {
      ResolveNamesFacts(d, req);
      var res := ResolveNames(d, req);
      UpdateResolvedFacts(res, id, req);
      if res.3.Success? && HasExpenseId(res.0.expenses, id) {
        var e := Expense(id, req.date, res.1, res.2, res.3.value, req.description, req.amount.value, req.notes);
        var d' := res.0.(expenses := ReplaceExpense(res.0.expenses, e));
        var k :| 0 <= k < |d.paymentMethods| && d.paymentMethods[k].id == res.3.value && d.paymentMethods[k].name == Trim(req.methodName);
        assert d'.paymentMethods[k] == d.paymentMethods[k];
        assert RefersTo(d', e, Trim(req.typeName), Trim(req.categoryName), Trim(req.methodName));
        ReplacedRows(d.expenses, d', e, req);
      }
    }
  }

  /** Deleting an expense removes exactly the row with that id and reports 1, or 0 when there was none. */
  lemma DeleteExpenseFacts(d: Db, id: nat)
    requires DbValid(d)
    ensures var (d', n) := DeleteExpenseSpec(d, id);
      && DbValid(d')
      && d' == d.(expenses := d'.expenses)
      && n == (if HasExpenseId(d.expenses, id) then 1 else 0)
      && !HasExpenseId(d'.expenses, id)
      && (forall e :: e in d'.expenses <==> e in d.expenses && e.id != id)
  {
    RemoveExpenseValid(d.expenses, d.nextExpenseId, d.expenseTypes, d.categories, d.paymentMethods, id);
    RemoveExpenseCount(d.expenses, id);
    var rest := RemoveExpense(d.expenses, id);
    forall i | 0 <= i < |rest|
      ensures rest[i].id != id
    {
      assert rest[i] in rest;
    }
  }

  // ---------------------------------------------------------------------------
  // Credit-card payment handlers

  /** The body of a credit-card payment POST or PUT. Amounts are in cents; None stands for a value that is not a number. */
  datatype PaymentRequest = PaymentRequest(date: string, cardName: string, amount: Option<int>, notes: Option<string>)

  function PaymentFailures(req: PaymentRequest): (fields: seq<string>)
    ensures fields == [] <==> IsIsoDate(req.date) && req.cardName != "" && ValidAmount(req.amount)
  {
    (if IsIsoDate(req.date) then [] else ["date"])
    + (if req.cardName != "" then [] else ["credit_card_name"])
    + (if ValidAmount(req.amount) then [] else ["payment_amount"])
  }

  /** POST /api/credit-card-payments: the card is free text, no payment method has to exist. */
  function CreatePaymentSpec(d: Db, req: PaymentRequest): (Db, Result<CardPayment, Error>) {
    var fields := PaymentFailures(req);
    if fields != [] then (d, Failure(ValidationFailed(fields)))
    else
      var p := CardPayment(d.nextPaymentId, req.date, Trim(req.cardName), req.amount.value, req.notes);
      (d.(cardPayments := d.cardPayments + [p], nextPaymentId := d.nextPaymentId + 1), Success(p))
  }

  predicate HasPaymentId(rows: seq<CardPayment>, id: nat) {
    exists i :: 0 <= i < |rows| && rows[i].id == id
  }

  function ReplacePayment(rows: seq<CardPayment>, p: CardPayment): (r: seq<CardPayment>)
    ensures |r| == |rows|
    ensures forall i :: 0 <= i < |rows| ==> r[i] == if rows[i].id == p.id then p else rows[i]
  {
    seq(|rows|, i requires 0 <= i < |rows| => if rows[i].id == p.id then p else rows[i])
  }

  /** PUT /api/credit-card-payments/:id: reports the number of rows changed. */
  function UpdatePaymentSpec(d: Db, id: nat, req: PaymentRequest): (Db, Result<nat, Error>) {
    var fields := PaymentFailures(req);
    if fields != [] then (d, Failure(ValidationFailed(fields)))
    else if !HasPaymentId(d.cardPayments, id) then (d, Success(0))
    else
      var p := CardPayment(id, req.date, Trim(req.cardName), req.amount.value, req.notes);
      (d.(cardPayments := ReplacePayment(d.cardPayments, p)), Success(1))
  }

  function OtherPayment(id: nat): CardPayment -> bool {
    (p: CardPayment) => p.id != id
  }

  function RemovePayment(rows: seq<CardPayment>, id: nat): (r: seq<CardPayment>)
    ensures forall p :: p in r <==> p in rows && p.id != id
  {
    Filter(rows, OtherPayment(id))
  }

  /** DELETE /api/credit-card-payments/:id: reports the number of rows deleted. */
  function DeletePaymentSpec(d: Db, id: nat): (Db, nat) {
    var rest := RemovePayment(d.cardPayments, id);
    (d.(cardPayments := rest), |d.cardPayments| - |rest|)
  }

  /** Creating a payment: invalid input changes nothing; otherwise one payment with the trimmed card name and a fresh id is appended. */
  lemma CreatePaymentFacts(d: Db, req: PaymentRequest)
    requires DbValid(d)
    ensures var (d', r) := CreatePaymentSpec(d, req);
      && DbValid(d')
      && (r.Failure? <==> PaymentFailures(req) != [])
      && (r.Failure? ==> d' == d)
      && (r.Success? ==>
            && d' == d.(cardPayments := d.cardPayments + [r.value], nextPaymentId := d.nextPaymentId + 1)
            && !HasPaymentId(d.cardPayments, r.value.id)
            && r.value.date == req.date && r.value.cardName == Trim(req.cardName)
            && r.value.amount == req.amount.value && r.value.notes == req.notes)
  {
    var (d', r) := CreatePaymentSpec(d, req);
    if r.Success? {
      assert !HasPaymentId(d.cardPayments, r.value.id) by {
        forall i | 0 <= i < |d.cardPayments|
          ensures d.cardPayments[i].id != r.value.id
        {
          assert d.cardPayments[i].id < d.nextPaymentId;
        }
      }
      forall i, j | 0 <= i < j < |d'.cardPayments|
        ensures d'.cardPayments[i].id < d'.cardPayments[j].id
      {
        if j < |d.cardPayments| {
          assert d'.cardPayments[i] == d.cardPayments[i] && d'.cardPayments[j] == d.cardPayments[j];
        } else {
          assert d'.cardPayments[i] == d.cardPayments[i];
        }
      }
    }
  }

  /** Updating a payment: an unknown id reports 0 and changes nothing; a known id reports 1 and exactly that row takes the sent fields. */
  lemma UpdatePaymentFacts(d: Db, id: nat, req: PaymentRequest)
    requires DbValid(d)
    ensures var (d', r) := UpdatePaymentSpec(d, id, req);
      && DbValid(d')
      && (r.Failure? <==> PaymentFailures(req) != [])
      && (r.Failure? || r == Success(0) ==> d' == d)
      && (r.Success? ==> (r == Success(0) <==> !HasPaymentId(d.cardPayments, id)))
      && (r == Success(1) ==>
            && d' == d.(cardPayments := d'.cardPayments)
            && |d'.cardPayments| == |d.cardPayments|
            && (forall i :: 0 <= i < |d.cardPayments| && d.cardPayments[i].id != id ==> d'.cardPayments[i] == d.cardPayments[i])
            && (forall i :: 0 <= i < |d.cardPayments| && d.cardPayments[i].id == id ==>
                  d'.cardPayments[i] == CardPayment(id, req.date, Trim(req.cardName), req.amount.value, req.notes)))
  {
    var (d', r) := UpdatePaymentSpec(d, id, req);
    if r == Success(1) {
      forall i, j | 0 <= i < j < |d'.cardPayments|
        ensures d'.cardPayments[i].id < d'.cardPayments[j].id
      {
        assert d.cardPayments[i].id < d.cardPayments[j].id;
      }
    }
  }

  /** Deleting a payment removes exactly the row with that id and reports 1, or 0 when there was none. */
  lemma DeletePaymentFacts(d: Db, id: nat)
    requires DbValid(d)
    ensures var (d', n) := DeletePaymentSpec(d, id);
      && DbValid(d')
      && d' == d.(cardPayments := d'.cardPayments)
      && n == (if HasPaymentId(d.cardPayments, id) then 1 else 0)
      && !HasPaymentId(d'.cardPayments, id)
      && (forall p :: p in d'.cardPayments <==> p in d.cardPayments && p.id != id)
  {
    RemovePaymentValid(d.cardPayments, d.nextPaymentId, id);
    RemovePaymentCount(d.cardPayments, id);
    var rest := RemovePayment(d.cardPayments, id);
    forall i | 0 <= i < |rest|
      ensures rest[i].id != id
    {
      assert rest[i] in rest;
    }
  }

  lemma RemovePaymentValid(rows: seq<CardPayment>, next: nat, id: nat)
    requires PaymentsValid(rows, next)
    ensures PaymentsValid(RemovePayment(rows, id), next)
  {
    var r := RemovePayment(rows, id);
    FilterPairwise(rows, OtherPayment(id), (a: CardPayment, b: CardPayment) => a.id < b.id);
    forall i | 0 <= i < |r|
      ensures r[i].id < next && PaymentValid(r[i])
    {
      assert r[i] in r;
      var k :| 0 <= k < |rows| && rows[k] == r[i];
    }
  }

  lemma RemovePaymentCount(rows: seq<CardPayment>, id: nat)
    requires forall i, j :: 0 <= i < j < |rows| ==> rows[i].id < rows[j].id
    ensures |rows| - |RemovePayment(rows, id)| == if HasPaymentId(rows, id) then 1 else 0
  {
    if HasPaymentId(rows, id) {
      var k :| 0 <= k < |rows| && rows[k].id == id;
      FilterDropsOne(rows, OtherPayment(id), k);
    } else {
      FilterKeepsAll(rows, OtherPayment(id));
    }
  }

  // ---------------------------------------------------------------------------
  // The expense listing: an inner join of expenses with the three catalogs

  /** One row of GET /api/expenses: the expense and the names its ids resolve to. */
  datatype ExpenseView = ExpenseView(expense: Expense, typeName: string, categoryName: string, methodName: string, methodKind: PaymentKind)

  function CatalogNameOf(rows: seq<CatalogRow>, id: nat): (r: Option<string>)
    ensures r.None? <==> !HasCatalogId(rows, id)
    ensures r.Some? ==> CatalogRow(id, r.value) in rows
  {
    if rows == [] then None
    else if rows[0].id == id then Some(rows[0].name)
    else
      assert HasCatalogId(rows, id) ==> HasCatalogId(rows[1..], id) by {
        if HasCatalogId(rows, id) {
          var i :| 0 <= i < |rows| && rows[i].id == id;
          assert rows[1..][i - 1].id == id;
        }
      }
      assert HasCatalogId(rows[1..], id) ==> HasCatalogId(rows, id) by {
        if HasCatalogId(rows[1..], id) {
          var i :| 0 <= i < |rows[1..]| && rows[1..][i].id == id;
          assert rows[i + 1].id == id;
        }
      }
      CatalogNameOf(rows[1..], id)
  }

  function MethodOf(rows: seq<PaymentMethod>, id: nat): (r: Option<PaymentMethod>)
    ensures r.None? <==> !HasMethodId(rows, id)
    ensures r.Some? ==> r.value in rows && r.value.id == id
  {
    if rows == [] then None
    else if rows[0].id == id then Some(rows[0])
    else
      assert HasMethodId(rows, id) ==> HasMethodId(rows[1..], id) by {
        if HasMethodId(rows, id) {
          var i :| 0 <= i < |rows| && rows[i].id == id;
          assert rows[1..][i - 1].id == id;
        }
      }
      assert HasMethodId(rows[1..], id) ==> HasMethodId(rows, id) by {
        if HasMethodId(rows[1..], id) {
          var i :| 0 <= i < |rows[1..]| && rows[1..][i].id == id;
          assert rows[i + 1].id == id;
        }
      }
      MethodOf(rows[1..], id)
  }

  /** The joined row of one expense, or None when one of its ids has no catalog row. */
  function ViewOf(d: Db, e: Expense): (r: Option<ExpenseView>)
    ensures r.None? <==> !(HasCatalogId(d.expenseTypes, e.typeId) && HasCatalogId(d.categories, e.categoryId) && HasMethodId(d.paymentMethods, e.methodId))
    ensures r.Some? ==> r.value.expense == e && RefersTo(d, e, r.value.typeName, r.value.categoryName, r.value.methodName)
  {
    var t := CatalogNameOf(d.expenseTypes, e.typeId);
    var c := CatalogNameOf(d.categories, e.categoryId);
    var m := MethodOf(d.paymentMethods, e.methodId);
    if t.Some? && c.Some? && m.Some? then
      assert RefersTo(d, e, t.value, c.value, m.value.name) by {
        var i :| 0 <= i < |d.paymentMethods| && d.paymentMethods[i] == m.value;
      }
      Some(ExpenseView(e, t.value, c.value, m.value.name, m.value.kind))
    else None
  }

  /** The inner join over `rows`, in rowid order. */
  function JoinRows(d: Db, rows: seq<Expense>): (r: seq<ExpenseView>)
    ensures |r| <= |rows|
    ensures forall v :: v in r ==> v.expense in rows && RefersTo(d, v.expense, v.typeName, v.categoryName, v.methodName)
  {
    if rows == [] then []
    else
      var last := rows[|rows| - 1];
      JoinRows(d, rows[..|rows| - 1]) + (match ViewOf(d, last) case Some(v) => [v] case None => [])
  }

  function Join(d: Db): seq<ExpenseView> {
    JoinRows(d, d.expenses)
  }

  /** When every row joins, the join keeps them all, in order: row `i` of the join is the joined row of expense `i`. */
  lemma {:induction false} JoinRowsComplete(d: Db, rows: seq<Expense>)
    requires forall i :: 0 <= i < |rows| ==> ViewOf(d, rows[i]).Some?
    ensures |JoinRows(d, rows)| == |rows|
    ensures forall i :: 0 <= i < |rows| ==> JoinRows(d, rows)[i] == ViewOf(d, rows[i]).value
  {
    if rows != [] {
      var init := rows[..|rows| - 1];
      JoinRowsComplete(d, init);
      var r := JoinRows(d, rows);
      assert r == JoinRows(d, init) + [ViewOf(d, rows[|rows| - 1]).value];
      forall i | 0 <= i < |rows|
        ensures r[i] == ViewOf(d, rows[i]).value
      {
        if i < |init| {
          assert rows[i] == init[i];
        }
      }
    }
  }

  /** In a valid store the join loses no expense: row `i` of the join is expense `i` with the names of its catalog rows. */
  lemma JoinComplete(d: Db)
    requires DbValid(d)
    ensures |Join(d)| == |d.expenses|
    ensures forall i :: 0 <= i < |d.expenses| ==>
      var v := Join(d)[i];
      && v.expense == d.expenses[i]
      && RefersTo(d, v.expense, v.typeName, v.categoryName, v.methodName)
  {
    forall i | 0 <= i < |d.expenses|
      ensures ViewOf(d, d.expenses[i]).Some?
    {
      assert ExpenseValid(d.expenses[i], d.expenseTypes, d.categories, d.paymentMethods);
    }
    JoinRowsComplete(d, d.expenses);
  }

  // ---------------------------------------------------------------------------
  // Listing filters

  /** The query string of GET /api/expenses; "" or None stands for a parameter that is absent or empty. */
  datatype ExpenseQuery = ExpenseQuery(year: string, month: string, typeId: Option<nat>, categoryId: Option<nat>, methodId: Option<nat>)

  /** One pushed condition of the WHERE clause. */
  datatype ExpenseCondition =
    | InYear(year: string)       // strftime('%Y', e.date) = ?
    | InMonth(month: string)     // strftime('%m', e.date) = ?
    | OfType(typeId: nat)        // e.expense_type_id = ?
    | InCategory(categoryId: nat)
    | PaidWith(methodId: nat)

  /** The conditions in the order the handler pushes them; the month is padded to two digits first. */
  function ExpenseConditions(q: ExpenseQuery): seq<ExpenseCondition> {
    (if q.year != "" then [InYear(q.year)] else [])
    + (if q.month != "" then [InMonth(PadStart2(q.month))] else [])
    + (match q.typeId case Some(t) => [OfType(t)] case None => [])
    + (match q.categoryId case Some(c) => [InCategory(c)] case None => [])
    + (match q.methodId case Some(m) => [PaidWith(m)] case None => [])
  }

  predicate ExpenseHolds(c: ExpenseCondition, v: ExpenseView) {
    match c
    case InYear(y) => DateYear(v.expense.date) == Some(y)
    case InMonth(m) => DateMonth(v.expense.date) == Some(m)
    case OfType(t) => v.expense.typeId == t
    case InCategory(k) => v.expense.categoryId == k
    case PaidWith(m) => v.expense.methodId == m
  }

  /** Every condition holds of the row. */
  predicate AllExpenseHold(conds: seq<ExpenseCondition>, v: ExpenseView) {
    forall i :: 0 <= i < |conds| ==> ExpenseHolds(conds[i], v)
  }

  lemma AllExpenseHoldAppend(a: seq<ExpenseCondition>, b: seq<ExpenseCondition>, v: ExpenseView)
    ensures AllExpenseHold(a + b, v) <==> AllExpenseHold(a, v) && AllExpenseHold(b, v)
  {
    if AllExpenseHold(a + b, v) {
      forall i | 0 <= i < |a|
        ensures ExpenseHolds(a[i], v)
      {
        assert (a + b)[i] == a[i];
      }
      forall i | 0 <= i < |b|
        ensures ExpenseHolds(b[i], v)
      {
        assert (a + b)[|a| + i] == b[i];
      }
    }
    if AllExpenseHold(a, v) && AllExpenseHold(b, v) {
      forall i | 0 <= i < |a + b|
        ensures ExpenseHolds((a + b)[i], v)
      {
        if i >= |a| {
          assert (a + b)[i] == b[i - |a|];
        }
      }
    }
  }

  lemma AllExpenseHoldOne(c: ExpenseCondition, v: ExpenseView)
    ensures AllExpenseHold([c], v) <==> ExpenseHolds(c, v)
  {
    assert [c][0] == c;
  }

  /** The conditions joined with AND; no conditions means no WHERE clause. */
  function MatchesExpense(conds: seq<ExpenseCondition>): ExpenseView -> bool {
    (v: ExpenseView) => AllExpenseHold(conds, v)
  }

  /** ORDER BY e.date DESC: dates compare as text, which for "YYYY-MM-DD" is the calendar order. */
  predicate DateDescExpense(a: ExpenseView, b: ExpenseView) {
    LexLe(b.expense.date, a.expense.date)
  }

  /** GET /api/expenses. */
  function ListExpenses(d: Db, q: ExpenseQuery): seq<ExpenseView> {
    Sort(Filter(Join(d), MatchesExpense(ExpenseConditions(q))), DateDescExpense)
  }

  /** A row passes the WHERE clause exactly when it satisfies every filter that was given. */
  lemma ExpenseConditionsMeaning(q: ExpenseQuery, v: ExpenseView)
    ensures MatchesExpense(ExpenseConditions(q))(v) <==>
      && (q.year != "" ==> DateYear(v.expense.date) == Some(q.year))
      && (q.month != "" ==> DateMonth(v.expense.date) == Some(PadStart2(q.month)))
      && (q.typeId.Some? ==> v.expense.typeId == q.typeId.value)
      && (q.categoryId.Some? ==> v.expense.categoryId == q.categoryId.value)
      && (q.methodId.Some? ==> v.expense.methodId == q.methodId.value)
  {
    var c0 := if q.year != "" then [InYear(q.year)] else [];
    var c1 := if q.month != "" then [InMonth(PadStart2(q.month))] else [];
    var c2 := match q.typeId case Some(t) => [OfType(t)] case None => [];
    var c3 := match q.categoryId case Some(c) => [InCategory(c)] case None => [];
    var c4 := match q.methodId case Some(m) => [PaidWith(m)] case None => [];
    assert ExpenseConditions(q) == c0 + c1 + c2 + c3 + c4;
    AllExpenseHoldAppend(c0 + c1 + c2 + c3, c4, v);
    AllExpenseHoldAppend(c0 + c1 + c2, c3, v);
    AllExpenseHoldAppend(c0 + c1, c2, v);
    AllExpenseHoldAppend(c0, c1, v);
    assert MatchesExpense(ExpenseConditions(q))(v) == AllExpenseHold(ExpenseConditions(q), v);
    if q.year != "" { AllExpenseHoldOne(InYear(q.year), v); }
    if q.month != "" { AllExpenseHoldOne(InMonth(PadStart2(q.month)), v); }
    if q.typeId.Some? { AllExpenseHoldOne(OfType(q.typeId.value), v); }
    if q.categoryId.Some? { AllExpenseHoldOne(InCategory(q.categoryId.value), v); }
    if q.methodId.Some? { AllExpenseHoldOne(PaidWith(q.methodId.value), v); }
  }

  lemma DateDescExpenseOrder()
    ensures TotalPreorder(DateDescExpense)
  {
    forall a: ExpenseView, b: ExpenseView
      ensures DateDescExpense(a, b) || DateDescExpense(b, a)
    {
      LexLeTotal(a.expense.date, b.expense.date);
    }
    forall a: ExpenseView, b: ExpenseView, c: ExpenseView | DateDescExpense(a, b) && DateDescExpense(b, c)
      ensures DateDescExpense(a, c)
    {
      LexLeTransitive(c.expense.date, b.expense.date, a.expense.date);
    }
  }

  /**
   * The listing is every joined expense that passes the filters, each exactly
   * as often as it is stored, newest date first.
   */
  lemma ListExpensesFacts(d: Db, q: ExpenseQuery)
    ensures var r := ListExpenses(d, q);
      && Sorted(r, DateDescExpense)
      && multiset(r) == multiset(Filter(Join(d), MatchesExpense(ExpenseConditions(q))))
      && forall v :: v in r <==> v in Join(d) && MatchesExpense(ExpenseConditions(q))(v)
  {
    DateDescExpenseOrder();
    var f := Filter(Join(d), MatchesExpense(ExpenseConditions(q)));
    SortSorted(f, DateDescExpense);
    forall v
      ensures v in ListExpenses(d, q) <==> v in f
    {
      SortMembership(f, DateDescExpense, v);
    }
  }

  /** The query string of GET /api/credit-card-payments; "" stands for a parameter that is absent or empty. */
  datatype PaymentQuery = PaymentQuery(year: string, month: string, cardName: string)

  datatype PaymentCondition =
    | PaidInYear(year: string)    // strftime('%Y', date) = ?
    | PaidInMonth(month: string)  // strftime('%m', date) = ?
    | ToCard(cardName: string)    // credit_card_name = ?

  function PaymentConditions(q: PaymentQuery): seq<PaymentCondition> {
    (if q.year != "" then [PaidInYear(q.year)] else [])
    + (if q.month != "" then [PaidInMonth(PadStart2(q.month))] else [])
    + (if q.cardName != "" then [ToCard(q.cardName)] else [])
  }

  predicate PaymentHolds(c: PaymentCondition, p: CardPayment) {
    match c
    case PaidInYear(y) => DateYear(p.date) == Some(y)
    case PaidInMonth(m) => DateMonth(p.date) == Some(m)
    case ToCard(n) => p.cardName == n
  }

  predicate AllPaymentHold(conds: seq<PaymentCondition>, p: CardPayment) {
    forall i :: 0 <= i < |conds| ==> PaymentHolds(conds[i], p)
  }

  lemma AllPaymentHoldAppend(a: seq<PaymentCondition>, b: seq<PaymentCondition>, p: CardPayment)
    ensures AllPaymentHold(a + b, p) <==> AllPaymentHold(a, p) && AllPaymentHold(b, p)
  {
    if AllPaymentHold(a + b, p) {
      forall i | 0 <= i < |a|
        ensures PaymentHolds(a[i], p)
      {
        assert (a + b)[i] == a[i];
      }
      forall i | 0 <= i < |b|
        ensures PaymentHolds(b[i], p)
      {
        assert (a + b)[|a| + i] == b[i];
      }
    }
    if AllPaymentHold(a, p) && AllPaymentHold(b, p) {
      forall i | 0 <= i < |a + b|
        ensures PaymentHolds((a + b)[i], p)
      {
        if i >= |a| {
          assert (a + b)[i] == b[i - |a|];
        }
      }
    }
  }

  lemma AllPaymentHoldOne(c: PaymentCondition, p: CardPayment)
    ensures AllPaymentHold([c], p) <==> PaymentHolds(c, p)
  {
    assert [c][0] == c;
  }

  function MatchesPayment(conds: seq<PaymentCondition>): CardPayment -> bool {
    (p: CardPayment) => AllPaymentHold(conds, p)
  }

  predicate DateDescPayment(a: CardPayment, b: CardPayment) {
    LexLe(b.date, a.date)
  }

  /** GET /api/credit-card-payments. */
  function ListPayments(d: Db, q: PaymentQuery): seq<CardPayment> {
    Sort(Filter(d.cardPayments, MatchesPayment(PaymentConditions(q))), DateDescPayment)
  }

  lemma PaymentConditionsMeaning(q: PaymentQuery, p: CardPayment)
    ensures MatchesPayment(PaymentConditions(q))(p) <==>
      && (q.year != "" ==> DateYear(p.date) == Some(q.year))
      && (q.month != "" ==> DateMonth(p.date) == Some(PadStart2(q.month)))
      && (q.cardName != "" ==> p.cardName == q.cardName)
  {
    var c0 := if q.year != "" then [PaidInYear(q.year)] else [];
    var c1 := if q.month != "" then [PaidInMonth(PadStart2(q.month))] else [];
    var c2 := if q.cardName != "" then [ToCard(q.cardName)] else [];
    assert PaymentConditions(q) == c0 + c1 + c2;
    AllPaymentHoldAppend(c0 + c1, c2, p);
    AllPaymentHoldAppend(c0, c1, p);
    assert MatchesPayment(PaymentConditions(q))(p) == AllPaymentHold(PaymentConditions(q), p);
    if q.year != "" { AllPaymentHoldOne(PaidInYear(q.year), p); }
    if q.month != "" { AllPaymentHoldOne(PaidInMonth(PadStart2(q.month)), p); }
    if q.cardName != "" { AllPaymentHoldOne(ToCard(q.cardName), p); }
  }

  lemma DateDescPaymentOrder()
    ensures TotalPreorder(DateDescPayment)
  {
    forall a: CardPayment, b: CardPayment
      ensures DateDescPayment(a, b) || DateDescPayment(b, a)
    {
      LexLeTotal(a.date, b.date);
    }
    forall a: CardPayment, b: CardPayment, c: CardPayment | DateDescPayment(a, b) && DateDescPayment(b, c)
      ensures DateDescPayment(a, c)
    {
      LexLeTransitive(c.date, b.date, a.date);
    }
  }

  /** The payment listing is every stored payment that passes the filters, each as often as stored, newest date first. */
  lemma ListPaymentsFacts(d: Db, q: PaymentQuery)
    ensures var r := ListPayments(d, q);
      && Sorted(r, DateDescPayment)
      && multiset(r) == multiset(Filter(d.cardPayments, MatchesPayment(PaymentConditions(q))))
      && forall p :: p in r <==> p in d.cardPayments && MatchesPayment(PaymentConditions(q))(p)
  {
    DateDescPaymentOrder();
    var f := Filter(d.cardPayments, MatchesPayment(PaymentConditions(q)));
    SortSorted(f, DateDescPayment);
    forall p
      ensures p in ListPayments(d, q) <==> p in f
    {
      SortMembership(f, DateDescPayment, p);
    }
  }

  // ---------------------------------------------------------------------------
  // The handlers as operations on the store object

  /** The three lookups both expense handlers run, in order, on the live store. */
  method ResolveOnStore(db: Store, req: ExpenseRequest) returns (typeId: nat, categoryId: nat, found: Result<nat, Error>)
    modifies db
    ensures (db.State(), typeId, categoryId, found) == ResolveNames(old(db.State()), req)
  {
    typeId := FindOrCreateItem(db, ExpenseTypes, Trim(req.typeName));
    categoryId := FindOrCreateItem(db, Categories, Trim(req.categoryName));
    found := FindPaymentMethodByName(db.State(), Trim(req.methodName));
  }

  method CreateExpense(db: Store, req: ExpenseRequest) returns (r: Result<Expense, Error>)
    modifies db
    ensures (db.State(), r) == CreateExpenseSpec(old(db.State()), req)
  {
    var fields := ExpenseFailures(req);
    if fields != [] {
      r := Failure(ValidationFailed(fields));
    } else {
      var typeId, categoryId, found := ResolveOnStore(db, req);
      ghost var res := (db.State(), typeId, categoryId, found);
      InsertResolvedFacts(res, req);
      if found.Failure? {
        r := Failure(found.error);
      } else {
        var e := Expense(db.nextExpenseId, req.date, typeId, categoryId, found.value,
                         TrimmedOption(req.description), req.amount.value, req.notes);
        db.expenses := db.expenses + [e];
        db.nextExpenseId := db.nextExpenseId + 1;
        r := Success(e);
        assert db.State() == res.0.(expenses := res.0.expenses + [e], nextExpenseId := res.0.nextExpenseId + 1);
      }
    }
  }

  method UpdateExpense(db: Store, id: nat, req: ExpenseRequest) returns (r: Result<nat, Error>)
    modifies db
    ensures (db.State(), r) == UpdateExpenseSpec(old(db.State()), id, req)
  {
    var fields := ExpenseFailures(req);
    if fields != [] {
      return Failure(ValidationFailed(fields));
    }
    var typeId, categoryId, found := ResolveOnStore(db, req);
    ghost var res := (db.State(), typeId, categoryId, found);
    UpdateResolvedFacts(res, id, req);
    if found.Failure? {
      return Failure(found.error);
    }
    if !HasExpenseId(db.expenses, id) {
      return Success(0);
    }
    var e := Expense(id, req.date, typeId, categoryId, found.value, req.description, req.amount.value, req.notes);
    db.expenses := ReplaceExpense(db.expenses, e);
    r := Success(1);
    assert db.State() == res.0.(expenses := ReplaceExpense(res.0.expenses, e));
  }

  method DeleteExpense(db: Store, id: nat) returns (deleted: nat)
    requires db.Valid()
    modifies db
    ensures db.Valid()
    ensures (db.State(), deleted) == DeleteExpenseSpec(old(db.State()), id)
  {
    DeleteExpenseFacts(db.State(), id);
    var before := |db.expenses|;
    db.expenses := RemoveExpense(db.expenses, id);
    deleted := before - |db.expenses|;
  }

  method CreateCardPayment(db: Store, req: PaymentRequest) returns (r: Result<CardPayment, Error>)
    requires db.Valid()
    modifies db
    ensures db.Valid()
    ensures (db.State(), r) == CreatePaymentSpec(old(db.State()), req)
  {
    CreatePaymentFacts(db.State(), req);
    var fields := PaymentFailures(req);
    if fields != [] {
      return Failure(ValidationFailed(fields));
    }
    var p := CardPayment(db.nextPaymentId, req.date, Trim(req.cardName), req.amount.value, req.notes);
    db.cardPayments := db.cardPayments + [p];
    db.nextPaymentId := db.nextPaymentId + 1;
    r := Success(p);
  }

  method UpdateCardPayment(db: Store, id: nat, req: PaymentRequest) returns (r: Result<nat, Error>)
    requires db.Valid()
    modifies db
    ensures db.Valid()
    ensures (db.State(), r) == UpdatePaymentSpec(old(db.State()), id, req)
  {
    UpdatePaymentFacts(db.State(), id, req);
    var fields := PaymentFailures(req);
    if fields != [] {
      return Failure(ValidationFailed(fields));
    }
    if !HasPaymentId(db.cardPayments, id) {
      return Success(0);
    }
    db.cardPayments := ReplacePayment(db.cardPayments, CardPayment(id, req.date, Trim(req.cardName), req.amount.value, req.notes));
    r := Success(1);
  }

  method DeleteCardPayment(db: Store, id: nat) returns (deleted: nat)
    requires db.Valid()
    modifies db
    ensures db.Valid()
    ensures (db.State(), deleted) == DeletePaymentSpec(old(db.State()), id)
  {
    DeletePaymentFacts(db.State(), id);
    var before := |db.cardPayments|;
    db.cardPayments := RemovePayment(db.cardPayments, id);
    deleted := before - |db.cardPayments|;
  }
}
