/**
 * Catalog resolution and payment-method management (server/index.js).
 *
 * Expense types and categories are resolved lazily: a name that is missing is
 * inserted (findOrCreateItem). Payment methods are resolved strictly: a name
 * that is missing is an error (findPaymentMethodByName), and payment methods
 * are created, renamed and deleted only through their own handlers; deletion
 * is refused while an expense still references the method.
 */
module Catalog {
  import opened Wrappers
  import opened Text
  import opened Sorting
  import opened Schema

  /** The failures the handlers report to the client. */
  datatype Error =
    | ValidationFailed(fields: seq<string>)  // 400 with the fields that failed, before any store change
    | PaymentMethodNotFound(name: string)     // the strict lookup threw: create the method first
    | MethodInUse                             // 400: the payment method is used in expenses
    | UniqueViolation                         // the UNIQUE constraint on a name rejected the write (500)

  datatype CatalogTable = ExpenseTypes | Categories

  // ---------------------------------------------------------------------------
  // Lookups

  /** `SELECT id FROM <table> WHERE name = ?`. */
  function FindByName(rows: seq<CatalogRow>, name: string): (r: Option<nat>)
    ensures r.None? <==> !HasCatalogName(rows, name)
    ensures r.Some? ==> exists i :: 0 <= i < |rows| && rows[i] == CatalogRow(r.value, name)
  {
    if rows == [] then None
    else if rows[0].name == name then Some(rows[0].id)
    else
      var r := FindByName(rows[1..], name);
      assert forall i :: 1 <= i < |rows| ==> rows[i] == rows[1..][i - 1];
      assert HasCatalogName(rows, name) ==> HasCatalogName(rows[1..], name) by {
        if HasCatalogName(rows, name) {
          var i :| 0 <= i < |rows| && rows[i].name == name;
          assert rows[1..][i - 1].name == name;
        }
      }
      r
  }

  /** `SELECT id FROM payment_methods WHERE name = ?`. */
  function FindMethodByName(rows: seq<PaymentMethod>, name: string): (r: Option<nat>)
    ensures r.None? <==> !HasMethodName(rows, name)
    ensures r.Some? ==> exists i :: 0 <= i < |rows| && rows[i].id == r.value && rows[i].name == name
  {
    if rows == [] then None
    else if rows[0].name == name then Some(rows[0].id)
    else
      var r := FindMethodByName(rows[1..], name);
      assert forall i :: 1 <= i < |rows| ==> rows[i] == rows[1..][i - 1];
      assert HasMethodName(rows, name) ==> HasMethodName(rows[1..], name) by {
        if HasMethodName(rows, name) {
          var i :| 0 <= i < |rows| && rows[i].name == name;
          assert rows[1..][i - 1].name == name;
        }
      }
      r
  }

  /** In a table with UNIQUE names, a name belongs to at most one row, so the lookup names that row. */
  lemma UniqueNameRow(rows: seq<CatalogRow>, next: nat, name: string, i: nat)
    requires CatalogValid(rows, next) && i < |rows| && rows[i].name == name
    ensures FindByName(rows, name) == Some(rows[i].id)
  {
    var j :| 0 <= j < |rows| && rows[j] == CatalogRow(FindByName(rows, name).value, name);
    assert j == i;
  }

  // ---------------------------------------------------------------------------
  // findOrCreateItem

  function TableRows(d: Db, t: CatalogTable): seq<CatalogRow> {
    match t
    case ExpenseTypes => d.expenseTypes
    case Categories => d.categories
  }

  function TableNext(d: Db, t: CatalogTable): nat {
    match t
    case ExpenseTypes => d.nextTypeId
    case Categories => d.nextCategoryId
  }

  function WithTable(d: Db, t: CatalogTable, rows: seq<CatalogRow>, next: nat): Db {
    match t
    case ExpenseTypes => d.(expenseTypes := rows, nextTypeId := next)
    case Categories => d.(categories := rows, nextCategoryId := next)
  }

  /** findOrCreateItem on one table: the rows, the counter and the id after the SELECT and, when the name is missing, the INSERT. */
  function FindOrCreateRow(rows: seq<CatalogRow>, next: nat, name: string): (seq<CatalogRow>, nat, nat) {
    match FindByName(rows, name)
    case Some(id) => (rows, next, id)
    case None => (rows + [CatalogRow(next, name)], next + 1, next)
  }

  /** `findOrCreateItem(table, name)`: the id of the row with that name, inserting the row first when there is none. */
  function FindOrCreate(d: Db, t: CatalogTable, name: string): (Db, nat) {
    var res := FindOrCreateRow(TableRows(d, t), TableNext(d, t), name);
    (WithTable(d, t, res.0, res.1), res.2)
  }

  function CountNamed(rows: seq<CatalogRow>, name: string): nat {
    if rows == [] then 0 else CountNamed(rows[..|rows| - 1], name) + (if rows[|rows| - 1].name == name then 1 else 0)
  }

  lemma {:induction false} CountNamedUnique(rows: seq<CatalogRow>, next: nat, name: string)
    requires CatalogValid(rows, next)
    ensures CountNamed(rows, name) == if HasCatalogName(rows, name) then 1 else 0
  {
    if rows != [] {
      var init := rows[..|rows| - 1];
      assert CatalogValid(init, next);
      CountNamedUnique(init, next, name);
      assert forall x :: HasCatalogName(rows, x) <==> HasCatalogName(init, x) || rows[|rows| - 1].name == x by {
        forall x | HasCatalogName(rows, x)
          ensures HasCatalogName(init, x) || rows[|rows| - 1].name == x
        {
          var i :| 0 <= i < |rows| && rows[i].name == x;
          if i < |init| { assert init[i].name == x; }
        }
        forall x | HasCatalogName(init, x)
          ensures HasCatalogName(rows, x)
        {
          var i :| 0 <= i < |init| && init[i].name == x;
          assert rows[i].name == x;
        }
      }
      assert rows[|rows| - 1].name == name ==> !HasCatalogName(init, name) by {
        forall i | 0 <= i < |init|
          ensures init[i].name != rows[|rows| - 1].name
        {
          assert rows[i] == init[i];
        }
      }
    }
  }

  /** Appending a row with a fresh id and a fresh trimmed name keeps a catalog valid. */
  lemma AppendCatalogValid(rows: seq<CatalogRow>, next: nat, name: string)
    requires CatalogValid(rows, next) && !HasCatalogName(rows, name) && IsTrimmed(name)
    ensures CatalogValid(rows + [CatalogRow(next, name)], next + 1)
  {
    var r := rows + [CatalogRow(next, name)];
    forall i, j | 0 <= i < j < |r|
      ensures r[i].id < r[j].id && r[i].name != r[j].name
    {
      if j == |rows| {
        assert r[i] == rows[i];
      }
    }
  }

  /**
   * findOrCreateItem on one table keeps it valid and only ever appends. If
   * the name exists, that row's id comes back and nothing is inserted;
   * otherwise exactly one row is appended, carrying the name and the returned
   * id. Either way the table then holds exactly one row with that name.
   */
  lemma FindOrCreateRowFacts(rows: seq<CatalogRow>, next: nat, name: string)
    requires CatalogValid(rows, next) && IsTrimmed(name)
    ensures var (rows', next', id) := FindOrCreateRow(rows, next, name);
      && CatalogValid(rows', next')
      && rows <= rows'
      && (HasCatalogName(rows, name) ==> rows' == rows && next' == next)
      && (!HasCatalogName(rows, name) ==> rows' == rows + [CatalogRow(id, name)] && next' == next + 1)
      && CatalogRow(id, name) in rows'
      && CountNamed(rows', name) == 1
  {
    var (rows', next', id) := FindOrCreateRow(rows, next, name);
    if HasCatalogName(rows, name) {
      var i :| 0 <= i < |rows| && rows[i] == CatalogRow(id, name);
      CountNamedUnique(rows, next, name);
    } else {
      AppendCatalogValid(rows, next, name);
      assert rows'[|rows|] == CatalogRow(id, name);
      assert HasCatalogName(rows', name);
      CountNamedUnique(rows', next', name);
    }
  }

  /** findOrCreateItem on the store: the same facts, and no other table or counter changes. */
  lemma FindOrCreateFacts(d: Db, t: CatalogTable, name: string)
    requires DbValid(d) && IsTrimmed(name)
    ensures var (d', id) := FindOrCreate(d, t, name);
      && DbValid(d')
      && d' == WithTable(d, t, TableRows(d', t), TableNext(d', t))
      && TableRows(d, t) <= TableRows(d', t)
      && (HasCatalogName(TableRows(d, t), name) ==> d' == d)
      && (!HasCatalogName(TableRows(d, t), name) ==> TableRows(d', t) == TableRows(d, t) + [CatalogRow(id, name)])
      && CatalogRow(id, name) in TableRows(d', t)
      && CountNamed(TableRows(d', t), name) == 1
  {
    FindOrCreateRowFacts(TableRows(d, t), TableNext(d, t), name);
    var (rows', next', id) := FindOrCreateRow(TableRows(d, t), TableNext(d, t), name);
    if t == ExpenseTypes {
      ExpensesValidGrow(d.expenses, d.nextExpenseId, d.expenseTypes, d.categories, rows', d.categories, d.paymentMethods);
    } else {
      ExpensesValidGrow(d.expenses, d.nextExpenseId, d.expenseTypes, d.categories, d.expenseTypes, rows', d.paymentMethods);
    }
  }

  /** Resolving the same name twice yields the same id and the store of the first call: the catalog grows once. */
  lemma FindOrCreateIdempotent(d: Db, t: CatalogTable, name: string)
    requires CatalogValid(TableRows(d, t), TableNext(d, t)) && IsTrimmed(name)
    ensures var (d1, id1) := FindOrCreate(d, t, name);
      FindOrCreate(d1, t, name) == (d1, id1)
  {
    var (rows', next', id) := FindOrCreateRow(TableRows(d, t), TableNext(d, t), name);
    FindOrCreateRowIdempotent(TableRows(d, t), TableNext(d, t), name);
    WithTableAgain(d, t, rows', next');
  }

  lemma FindOrCreateRowIdempotent(rows: seq<CatalogRow>, next: nat, name: string)
    requires CatalogValid(rows, next) && IsTrimmed(name)
    ensures var (rows', next', id) := FindOrCreateRow(rows, next, name);
      FindOrCreateRow(rows', next', name) == (rows', next', id)
  {
    var (rows', next', id) := FindOrCreateRow(rows, next, name);
    FindOrCreateRowFacts(rows, next, name);
    var i :| 0 <= i < |rows'| && rows'[i] == CatalogRow(id, name);
    UniqueNameRow(rows', next', name, i);
  }

  /** Writing a table back as it reads changes nothing. */
  lemma WithTableAgain(d: Db, t: CatalogTable, rows: seq<CatalogRow>, next: nat)
    ensures var d1 := WithTable(d, t, rows, next);
      TableRows(d1, t) == rows && TableNext(d1, t) == next && WithTable(d1, t, rows, next) == d1
  {
  }

  // ---------------------------------------------------------------------------
  // findPaymentMethodByName

  /** The strict lookup: the id of the payment method with that name, or not-found; it never creates a row. */
  function FindPaymentMethodByName(d: Db, name: string): (r: Result<nat, Error>)
    ensures r.Failure? <==> !HasMethodName(d.paymentMethods, name)
    ensures r.Failure? ==> r.error == PaymentMethodNotFound(name)
    ensures r.Success? ==> exists i :: 0 <= i < |d.paymentMethods| && d.paymentMethods[i].id == r.value && d.paymentMethods[i].name == name
  {
    match FindMethodByName(d.paymentMethods, name)
    case Some(id) => Success(id)
    case None => Failure(PaymentMethodNotFound(name))
  }

  // ---------------------------------------------------------------------------
  // Payment-method handlers

  /** The body of a payment-method POST or PUT: name and type as sent. */
  datatype MethodRequest = MethodRequest(name: string, kind: string)

  /** `body('name').notEmpty().trim()` and `body('type').isIn(['credit_card', 'bank_account'])`. */
  function ValidateMethod(req: MethodRequest): (r: Result<(string, PaymentKind), Error>)
    ensures r.Failure? <==> req.name == "" || ParseKind(req.kind).None?
    ensures r.Failure? ==> r.error.ValidationFailed? && r.error.fields != []
    ensures r.Success? ==> r.value == (Trim(req.name), ParseKind(req.kind).value)
  {
    var fields := (if req.name == "" then ["name"] else []) + (if ParseKind(req.kind).None? then ["type"] else []);
    if fields != [] then Failure(ValidationFailed(fields))
    else Success((Trim(req.name), ParseKind(req.kind).value))
  }

  /** POST /api/payment-methods. */
  function CreateMethodSpec(d: Db, req: MethodRequest): (Db, Result<PaymentMethod, Error>) {
    match ValidateMethod(req)
    case Failure(e) => (d, Failure(e))
    case Success((name, kind)) =>
      if HasMethodName(d.paymentMethods, name) then (d, Failure(UniqueViolation))
      else
        var m := PaymentMethod(d.nextMethodId, name, kind);
        (d.(paymentMethods := d.paymentMethods + [m], nextMethodId := d.nextMethodId + 1), Success(m))
  }

  /** Another row than `id` already carries `name`. */
  predicate NameTakenByOther(rows: seq<PaymentMethod>, id: nat, name: string) {
    exists i :: 0 <= i < |rows| && rows[i].id != id && rows[i].name == name
  }

  /** `UPDATE payment_methods SET name = ?, type = ? WHERE id = ?` applied row by row. */
  function ReplaceMethod(rows: seq<PaymentMethod>, id: nat, name: string, kind: PaymentKind): (r: seq<PaymentMethod>)
    ensures |r| == |rows|
    ensures forall i :: 0 <= i < |rows| ==> r[i] == if rows[i].id == id then PaymentMethod(id, name, kind) else rows[i]
  {
    seq(|rows|, i requires 0 <= i < |rows| => if rows[i].id == id then PaymentMethod(id, name, kind) else rows[i])
  }

  /** PUT /api/payment-methods/:id: reports the number of rows changed. */
  function UpdateMethodSpec(d: Db, id: nat, req: MethodRequest): (Db, Result<nat, Error>) {
    match ValidateMethod(req)
    case Failure(e) => (d, Failure(e))
    case Success((name, kind)) =>
      if !HasMethodId(d.paymentMethods, id) then (d, Success(0))
      else if NameTakenByOther(d.paymentMethods, id, name) then (d, Failure(UniqueViolation))
      else (d.(paymentMethods := ReplaceMethod(d.paymentMethods, id, name, kind)), Success(1))
  }

  /** `SELECT COUNT(*) FROM expenses WHERE payment_method_id = ?`. */
  function ReferencingExpenses(rows: seq<Expense>, methodId: nat): (n: nat)
    ensures n == 0 <==> forall i :: 0 <= i < |rows| ==> rows[i].methodId != methodId
  {
    if rows == [] then 0
    else ReferencingExpenses(rows[..|rows| - 1], methodId) + (if rows[|rows| - 1].methodId == methodId then 1 else 0)
  }

  /** `DELETE FROM payment_methods WHERE id = ?`. */
  function RemoveMethod(rows: seq<PaymentMethod>, id: nat): (r: seq<PaymentMethod>)
    ensures forall m :: m in r <==> m in rows && m.id != id
  {
    Filter(rows, OtherMethod(id))
  }

  function OtherMethod(id: nat): PaymentMethod -> bool {
    (m: PaymentMethod) => m.id != id
  }

  /** DELETE /api/payment-methods/:id: refused while an expense references the method; otherwise reports the rows deleted. */
  function DeleteMethodSpec(d: Db, id: nat): (Db, Result<nat, Error>) {
    if ReferencingExpenses(d.expenses, id) > 0 then (d, Failure(MethodInUse))
    else
      var rest := RemoveMethod(d.paymentMethods, id);
      (d.(paymentMethods := rest), Success(|d.paymentMethods| - |rest|))
  }

  lemma RemoveMethodValid(rows: seq<PaymentMethod>, next: nat, id: nat)
    requires MethodsValid(rows, next)
    ensures MethodsValid(RemoveMethod(rows, id), next)
  {
    FilterPairwise(rows, OtherMethod(id),
      (a: PaymentMethod, b: PaymentMethod) => a.id < b.id && a.name != b.name);
    var r := RemoveMethod(rows, id);
    forall i | 0 <= i < |r|
      ensures r[i].id < next && IsTrimmed(r[i].name)
    {
      assert r[i] in rows;
    }
  }

  lemma RemoveMethodCount(rows: seq<PaymentMethod>, next: nat, id: nat)
    requires MethodsValid(rows, next)
    ensures |rows| - |RemoveMethod(rows, id)| == if HasMethodId(rows, id) then 1 else 0
  {
    var keep := OtherMethod(id);
    if HasMethodId(rows, id) {
      var k :| 0 <= k < |rows| && rows[k].id == id;
      FilterDropsOne(rows, keep, k);
    } else {
      FilterKeepsAll(rows, keep);
    }
  }

  /** With no expense referencing the method, every expense still finds its payment method after the delete. */
  lemma RemoveMethodKeepsRefs(d: Db, id: nat)
    requires DbValid(d) && ReferencingExpenses(d.expenses, id) == 0
    ensures ExpensesValid(d.expenses, d.nextExpenseId, d.expenseTypes, d.categories, RemoveMethod(d.paymentMethods, id))
  {
    var rest := RemoveMethod(d.paymentMethods, id);
    forall i | 0 <= i < |d.expenses|
      ensures HasMethodId(rest, d.expenses[i].methodId)
    {
      var e := d.expenses[i];
      assert ExpenseValid(e, d.expenseTypes, d.categories, d.paymentMethods);
      RemoveMethodKeepsId(d.paymentMethods, id, e.methodId);
    }
  }

  /** Removing method `id` keeps every other method id. */
  lemma RemoveMethodKeepsId(rows: seq<PaymentMethod>, id: nat, other: nat)
    requires HasMethodId(rows, other) && other != id
    ensures HasMethodId(RemoveMethod(rows, id), other)
  {
    var rest := RemoveMethod(rows, id);
    var k :| 0 <= k < |rows| && rows[k].id == other;
    assert rows[k] in rest;
    var k' :| 0 <= k' < |rest| && rest[k'] == rows[k];
  }

  /**
   * The payment-method delete guard. While at least one expense references
   * the method the delete fails with MethodInUse and the store is untouched,
   * so the method is still there. Otherwise exactly the row with that id is
   * removed (the report is 1, or 0 when there was none) and the store stays
   * valid: no expense is left pointing at a missing method.
   */
  lemma DeleteMethodGuard(d: Db, id: nat)
    requires DbValid(d)
    ensures var (d', r) := DeleteMethodSpec(d, id);
      && DbValid(d')
      && (ReferencingExpenses(d.expenses, id) > 0 ==> d' == d && r == Failure(MethodInUse))
      && (ReferencingExpenses(d.expenses, id) == 0 ==>
            && r == Success(if HasMethodId(d.paymentMethods, id) then 1 else 0)
            && d' == d.(paymentMethods := d'.paymentMethods)
            && !HasMethodId(d'.paymentMethods, id)
            && (forall m :: m in d'.paymentMethods <==> m in d.paymentMethods && m.id != id))
  {
    if ReferencingExpenses(d.expenses, id) == 0 {
      RemoveMethodValid(d.paymentMethods, d.nextMethodId, id);
      RemoveMethodCount(d.paymentMethods, d.nextMethodId, id);
      RemoveMethodKeepsRefs(d, id);
      var (d', r) := DeleteMethodSpec(d, id);
      forall k | 0 <= k < |d'.paymentMethods|
        ensures d'.paymentMethods[k].id != id
      {
        assert d'.paymentMethods[k] in d'.paymentMethods;
      }
    }
  }

  lemma AppendMethodValid(rows: seq<PaymentMethod>, next: nat, name: string, kind: PaymentKind)
    requires MethodsValid(rows, next) && !HasMethodName(rows, name) && IsTrimmed(name)
    ensures MethodsValid(rows + [PaymentMethod(next, name, kind)], next + 1)
  {
    var r := rows + [PaymentMethod(next, name, kind)];
    forall i, j | 0 <= i < j < |r|
      ensures r[i].id < r[j].id && r[i].name != r[j].name
    {
      if j == |rows| {
        assert r[i] == rows[i];
      }
    }
  }

  lemma HasMethodIdAppend(rows: seq<PaymentMethod>, m: PaymentMethod, id: nat)
    requires HasMethodId(rows, id)
    ensures HasMethodId(rows + [m], id)
  {
    var i :| 0 <= i < |rows| && rows[i].id == id;
    assert (rows + [m])[i] == rows[i];
  }

  /**
   * Creating a payment method: a validation failure or a name already in use
   * leaves the store as it was; otherwise exactly one method with the trimmed
   * name, the requested kind and a fresh id is appended.
   */
  lemma CreateMethodFacts(d: Db, req: MethodRequest)
    requires DbValid(d)
    ensures var (d', r) := CreateMethodSpec(d, req);
      && DbValid(d')
      && (r.Failure? ==> d' == d)
      && (r.Failure? <==> ValidateMethod(req).Failure? || HasMethodName(d.paymentMethods, Trim(req.name)))
      && (r.Success? ==>
            && r.value.name == Trim(req.name) && KindName(r.value.kind) == req.kind
            && d' == d.(paymentMethods := d.paymentMethods + [r.value], nextMethodId := d.nextMethodId + 1))
  {
    var (d', r) := CreateMethodSpec(d, req);
    if r.Success? {
      AppendMethodValid(d.paymentMethods, d.nextMethodId, r.value.name, r.value.kind);
      forall i | 0 <= i < |d.expenses|
        ensures ExpenseValid(d.expenses[i], d'.expenseTypes, d'.categories, d'.paymentMethods)
      {
        assert ExpenseValid(d.expenses[i], d.expenseTypes, d.categories, d.paymentMethods);
        HasMethodIdAppend(d.paymentMethods, r.value, d.expenses[i].methodId);
      }
    }
  }

  /**
   * Updating a payment method: an unknown id reports 0 and changes nothing; a
   * name held by another method is a UNIQUE violation; otherwise the one row
   * with that id takes the new name and kind, every other row and every id stay.
   */
  lemma UpdateMethodFacts(d: Db, id: nat, req: MethodRequest)
    requires DbValid(d)
    ensures var (d', r) := UpdateMethodSpec(d, id, req);
      && DbValid(d')
      && (r.Failure? || r == Success(0) ==> d' == d)
      && (ValidateMethod(req).Failure? <==> r.Failure? && r.error.ValidationFailed?)
      && (ValidateMethod(req).Success? ==> (r == Success(0) <==> !HasMethodId(d.paymentMethods, id)))
      && (ValidateMethod(req).Success? && HasMethodId(d.paymentMethods, id) ==>
            (r == Failure(UniqueViolation) <==> NameTakenByOther(d.paymentMethods, id, Trim(req.name))))
      && ((ValidateMethod(req).Success? && HasMethodId(d.paymentMethods, id)
             && !NameTakenByOther(d.paymentMethods, id, Trim(req.name))) ==> r == Success(1))
      && (r == Success(1) ==>
            && |d'.paymentMethods| == |d.paymentMethods|
            && (forall i :: 0 <= i < |d.paymentMethods| ==> d'.paymentMethods[i].id == d.paymentMethods[i].id)
            && (forall i :: 0 <= i < |d.paymentMethods| && d.paymentMethods[i].id == id ==>
                  d'.paymentMethods[i].name == Trim(req.name) && KindName(d'.paymentMethods[i].kind) == req.kind)
            && (forall i :: 0 <= i < |d.paymentMethods| && d.paymentMethods[i].id != id ==>
                  d'.paymentMethods[i] == d.paymentMethods[i])
            && d' == d.(paymentMethods := d'.paymentMethods))
  {
    var (d', r) := UpdateMethodSpec(d, id, req);
    if r == Success(1) {
      var rows := d.paymentMethods;
      var rows' := d'.paymentMethods;
      forall i, j | 0 <= i < j < |rows'|
        ensures rows'[i].id < rows'[j].id && rows'[i].name != rows'[j].name
      {
        assert rows[i].id < rows[j].id;
        if rows[i].id == id || rows[j].id == id {
          assert !NameTakenByOther(rows, id, Trim(req.name));
        }
      }
      forall i | 0 <= i < |d.expenses|
        ensures ExpenseValid(d.expenses[i], d'.expenseTypes, d'.categories, d'.paymentMethods)
      {
        assert ExpenseValid(d.expenses[i], d.expenseTypes, d.categories, d.paymentMethods);
        var k :| 0 <= k < |rows| && rows[k].id == d.expenses[i].methodId;
        assert rows'[k].id == rows[k].id;
      }
    }
  }

  // ---------------------------------------------------------------------------
  // The handlers as operations on the store object

  /** findOrCreateItem on the live store: SELECT, then INSERT when the name is missing. */
  method FindOrCreateItem(db: Store, t: CatalogTable, name: string) returns (id: nat)
    modifies db
    ensures (db.State(), id) == FindOrCreate(old(db.State()), t, name)
  {
    var rows := if t == ExpenseTypes then db.expenseTypes else db.categories;
    var existing := FindByName(rows, name);
    if existing.Some? {
      return existing.value;
    }
    if t == ExpenseTypes {
      id := db.nextTypeId;
      db.expenseTypes := db.expenseTypes + [CatalogRow(id, name)];
      db.nextTypeId := id + 1;
    } else {
      id := db.nextCategoryId;
      db.categories := db.categories + [CatalogRow(id, name)];
      db.nextCategoryId := id + 1;
    }
  }

  method CreatePaymentMethod(db: Store, req: MethodRequest) returns (r: Result<PaymentMethod, Error>)
    requires db.Valid()
    modifies db
    ensures db.Valid()
    ensures (db.State(), r) == CreateMethodSpec(old(db.State()), req)
  {
    CreateMethodFacts(db.State(), req);
    var v := ValidateMethod(req);
    if v.Failure? {
      return Failure(v.error);
    }
    var (name, kind) := v.value;
    if HasMethodName(db.paymentMethods, name) {
      return Failure(UniqueViolation);
    }
    var m := PaymentMethod(db.nextMethodId, name, kind);
    db.paymentMethods := db.paymentMethods + [m];
    db.nextMethodId := db.nextMethodId + 1;
    r := Success(m);
  }

  method UpdatePaymentMethod(db: Store, id: nat, req: MethodRequest) returns (r: Result<nat, Error>)
    requires db.Valid()
    modifies db
    ensures db.Valid()
    ensures (db.State(), r) == UpdateMethodSpec(old(db.State()), id, req)
  {
    UpdateMethodFacts(db.State(), id, req);
    var v := ValidateMethod(req);
    if v.Failure? {
      return Failure(v.error);
    }
    var (name, kind) := v.value;
    if !HasMethodId(db.paymentMethods, id) {
      return Success(0);
    }
    if NameTakenByOther(db.paymentMethods, id, name) {
      return Failure(UniqueViolation);
    }
    db.paymentMethods := ReplaceMethod(db.paymentMethods, id, name, kind);
    r := Success(1);
  }

  method DeletePaymentMethod(db: Store, id: nat) returns (r: Result<nat, Error>)
    requires db.Valid()
    modifies db
    ensures db.Valid()
    ensures (db.State(), r) == DeleteMethodSpec(old(db.State()), id)
  {
    DeleteMethodGuard(db.State(), id);
    var count := ReferencingExpenses(db.expenses, id);
    if count > 0 {
      return Failure(MethodInUse);
    }
    var before := |db.paymentMethods|;
    db.paymentMethods := RemoveMethod(db.paymentMethods, id);
    r := Success(before - |db.paymentMethods|);
  }
}
