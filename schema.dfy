/**
 * The relational store of the tracker (server/database.js): five tables,
 * their constraints, and the start-up routine that creates the tables if
 * they are missing and seeds the three catalogs with INSERT OR IGNORE.
 *
 * A table is a sequence of rows in rowid order; each table has its own
 * AUTOINCREMENT counter, the id the next inserted row receives.
 */
module Schema {
  import opened Wrappers
  import opened Text

  /** The two values the CHECK constraint on payment_methods.type admits. */
  datatype PaymentKind = CreditCard | BankAccount

  function KindName(k: PaymentKind): string {
    match k
    case CreditCard => "credit_card"
    case BankAccount => "bank_account"
  }

  /** Reads a payment-method type string; anything but the two admitted values is rejected. */
  function ParseKind(s: string): (r: Option<PaymentKind>)
    ensures r.Some? <==> (s == "credit_card" || s == "bank_account")
    ensures r.Some? ==> KindName(r.value) == s
  {
    if s == "credit_card" then Some(CreditCard)
    else if s == "bank_account" then Some(BankAccount)
    else None
  }

  lemma KindRoundTrip(k: PaymentKind)
    ensures ParseKind(KindName(k)) == Some(k)
  {
  }

  /** A row of expense_types or of categories. */
  datatype CatalogRow = CatalogRow(id: nat, name: string)

  datatype PaymentMethod = PaymentMethod(id: nat, name: string, kind: PaymentKind)

  /** A row of expenses: three catalog ids, an amount in cents; description and notes may be NULL. */
  datatype Expense = Expense(
    id: nat, date: string,
    typeId: nat, categoryId: nat, methodId: nat,
    description: Option<string>, amount: int, notes: Option<string>)

  /** A row of credit_card_payments: the card is named in free text, with no foreign key. */
  datatype CardPayment = CardPayment(id: nat, date: string, cardName: string, amount: int, notes: Option<string>)

  /** The whole store: every table and its AUTOINCREMENT counter. */
  datatype Db = Db(
    expenseTypes: seq<CatalogRow>,
    categories: seq<CatalogRow>,
    paymentMethods: seq<PaymentMethod>,
    expenses: seq<Expense>,
    cardPayments: seq<CardPayment>,
    nextTypeId: nat, nextCategoryId: nat, nextMethodId: nat, nextExpenseId: nat, nextPaymentId: nat)

  /** The store right after the CREATE TABLE statements ran on a new database file. */
  const EmptyDb := Db([], [], [], [], [], 1, 1, 1, 1, 1)

  // ---------------------------------------------------------------------------
  // Lookups by name and by id

  predicate HasCatalogName(rows: seq<CatalogRow>, name: string) {
    exists i :: 0 <= i < |rows| && rows[i].name == name
  }

  predicate HasCatalogId(rows: seq<CatalogRow>, id: nat) {
    exists i :: 0 <= i < |rows| && rows[i].id == id
  }

  predicate HasMethodName(rows: seq<PaymentMethod>, name: string) {
    exists i :: 0 <= i < |rows| && rows[i].name == name
  }

  predicate HasMethodId(rows: seq<PaymentMethod>, id: nat) {
    exists i :: 0 <= i < |rows| && rows[i].id == id
  }

  // ---------------------------------------------------------------------------
  // Constraints

  /**
   * A catalog table: ids strictly increase in rowid order and stay below the
   * counter (AUTOINCREMENT), names are UNIQUE, and every name was trimmed by
   * the validator that let it in.
   */
  predicate CatalogValid(rows: seq<CatalogRow>, next: nat) {
    && (forall i :: 0 <= i < |rows| ==> rows[i].id < next && IsTrimmed(rows[i].name))
    && (forall i, j :: 0 <= i < j < |rows| ==> rows[i].id < rows[j].id && rows[i].name != rows[j].name)
  }

  predicate MethodsValid(rows: seq<PaymentMethod>, next: nat) {
    && (forall i :: 0 <= i < |rows| ==> rows[i].id < next && IsTrimmed(rows[i].name))
    && (forall i, j :: 0 <= i < j < |rows| ==> rows[i].id < rows[j].id && rows[i].name != rows[j].name)
  }

  /** An expense names an existing row of each catalog, is not negative and carries a calendar date. */
  predicate ExpenseValid(e: Expense, types: seq<CatalogRow>, categories: seq<CatalogRow>, methods: seq<PaymentMethod>) {
    && HasCatalogId(types, e.typeId)
    && HasCatalogId(categories, e.categoryId)
    && HasMethodId(methods, e.methodId)
    && e.amount >= 0
    && IsIsoDate(e.date)
  }

  /** The expenses table: ids strictly increase and stay below the counter, and every row is valid against the catalogs. */
  predicate ExpensesValid(rows: seq<Expense>, next: nat, types: seq<CatalogRow>, categories: seq<CatalogRow>, methods: seq<PaymentMethod>) {
    && (forall i :: 0 <= i < |rows| ==> rows[i].id < next && ExpenseValid(rows[i], types, categories, methods))
    && (forall i, j :: 0 <= i < j < |rows| ==> rows[i].id < rows[j].id)
  }

  predicate PaymentValid(p: CardPayment) {
    p.amount >= 0 && IsIsoDate(p.date) && IsTrimmed(p.cardName)
  }

  predicate PaymentsValid(rows: seq<CardPayment>, next: nat) {
    && (forall i :: 0 <= i < |rows| ==> rows[i].id < next && PaymentValid(rows[i]))
    && (forall i, j :: 0 <= i < j < |rows| ==> rows[i].id < rows[j].id)
  }

  /** Catalogs that only grew at their end keep every expense pointing at existing rows. */
  lemma ExpensesValidGrow(rows: seq<Expense>, next: nat, types: seq<CatalogRow>, categories: seq<CatalogRow>,
                          types': seq<CatalogRow>, categories': seq<CatalogRow>, methods: seq<PaymentMethod>)
    requires ExpensesValid(rows, next, types, categories, methods)
    requires types <= types' && categories <= categories'
    ensures ExpensesValid(rows, next, types', categories', methods)
  {
    forall i | 0 <= i < |rows|
      ensures HasCatalogId(types', rows[i].typeId) && HasCatalogId(categories', rows[i].categoryId)
    {
      assert ExpenseValid(rows[i], types, categories, methods);
      var k :| 0 <= k < |types| && types[k].id == rows[i].typeId;
      assert types'[k] == types[k];
      var k' :| 0 <= k' < |categories| && categories[k'].id == rows[i].categoryId;
      assert categories'[k'] == categories[k'];
    }
  }

  /** Every constraint of the schema, plus the referential integrity the handlers keep. */
  predicate DbValid(d: Db) {
    && CatalogValid(d.expenseTypes, d.nextTypeId)
    && CatalogValid(d.categories, d.nextCategoryId)
    && MethodsValid(d.paymentMethods, d.nextMethodId)
    && ExpensesValid(d.expenses, d.nextExpenseId, d.expenseTypes, d.categories, d.paymentMethods)
    && PaymentsValid(d.cardPayments, d.nextPaymentId)
  }

  lemma EmptyDbValid()
    ensures DbValid(EmptyDb)
  {
  }

  // ---------------------------------------------------------------------------
  // Default data and INSERT OR IGNORE

  const DefaultExpenseTypes: seq<string> := [
    "Utilities", "House Maintenance", "Activities", "Child Care", "Taxes", "Insurance", "Medical",
    "Groceries", "Transportation", "Entertainment", "Shopping", "Dining", "Travel"]

  const DefaultCategories: seq<string> := ["Water", "DTE Heyward", "DTE England", "Consumer gas Heyward"]

  const DefaultPaymentMethods: seq<(string, PaymentKind)> := [
    ("Bank Account", BankAccount), ("Credit Card 1", CreditCard),
    ("Credit Card 2", CreditCard), ("Credit Card 3", CreditCard)]

  /**
   * `INSERT OR IGNORE INTO <catalog> (name) VALUES (?)`. SQLite draws the
   * AUTOINCREMENT id before the UNIQUE check, so an ignored row still uses one up.
   */
  function InsertOrIgnoreName(rows: seq<CatalogRow>, next: nat, name: string): (seq<CatalogRow>, nat) {
    if HasCatalogName(rows, name) then (rows, next + 1) else (rows + [CatalogRow(next, name)], next + 1)
  }

  /** The prepared INSERT OR IGNORE run once per name, in list order. */
  function SeedNames(rows: seq<CatalogRow>, next: nat, names: seq<string>): (seq<CatalogRow>, nat) {
    if names == [] then (rows, next)
    else
      var (r, n) := SeedNames(rows, next, names[..|names| - 1]);
      InsertOrIgnoreName(r, n, names[|names| - 1])
  }

  /** `INSERT OR IGNORE INTO payment_methods (name, type)`: the UNIQUE name decides whether the row is ignored. */
  function InsertOrIgnoreMethod(rows: seq<PaymentMethod>, next: nat, m: (string, PaymentKind)): (seq<PaymentMethod>, nat) {
    if HasMethodName(rows, m.0) then (rows, next + 1) else (rows + [PaymentMethod(next, m.0, m.1)], next + 1)
  }

  function SeedMethods(rows: seq<PaymentMethod>, next: nat, ms: seq<(string, PaymentKind)>): (seq<PaymentMethod>, nat) {
    if ms == [] then (rows, next)
    else
      var (r, n) := SeedMethods(rows, next, ms[..|ms| - 1]);
      InsertOrIgnoreMethod(r, n, ms[|ms| - 1])
  }

  /** The start-up routine on a store whose tables exist: the CREATE TABLE IF NOT EXISTS statements change nothing, the three seeding loops run. */
  function Seed(d: Db): Db {
    var (types, nt) := SeedNames(d.expenseTypes, d.nextTypeId, DefaultExpenseTypes);
    var (cats, nc) := SeedNames(d.categories, d.nextCategoryId, DefaultCategories);
    var (methods, nm) := SeedMethods(d.paymentMethods, d.nextMethodId, DefaultPaymentMethods);
    d.(expenseTypes := types, nextTypeId := nt, categories := cats, nextCategoryId := nc,
       paymentMethods := methods, nextMethodId := nm)
  }

  // ---------------------------------------------------------------------------
  // Facts about seeding

  predicate AllTrimmed(names: seq<string>) {
    forall i :: 0 <= i < |names| ==> IsTrimmed(names[i])
  }

  /** Seeding keeps a catalog valid, keeps its rows as a prefix, and leaves every seeded name present. */
  /** One INSERT OR IGNORE keeps the catalog valid and only appends. */
  lemma InsertOrIgnoreNameValid(rows: seq<CatalogRow>, next: nat, name: string)
    requires CatalogValid(rows, next) && IsTrimmed(name)
    ensures var (r, n) := InsertOrIgnoreName(rows, next, name);
      CatalogValid(r, n) && next <= n && |rows| <= |r| && r[..|rows|] == rows
  {
    var (r, n) := InsertOrIgnoreName(rows, next, name);
    if !HasCatalogName(rows, name) {
      assert r[..|rows|] == rows;
    }
  }

  /** After one INSERT OR IGNORE the catalog names exactly what it named before, and the inserted name. */
  lemma InsertOrIgnoreNameHas(rows: seq<CatalogRow>, next: nat, name: string)
    ensures var r := InsertOrIgnoreName(rows, next, name).0;
      forall x :: HasCatalogName(r, x) <==> HasCatalogName(rows, x) || x == name
  {
    var r := InsertOrIgnoreName(rows, next, name).0;
    if !HasCatalogName(rows, name) {
      assert r[|rows|].name == name;
      forall x | HasCatalogName(r, x)
        ensures HasCatalogName(rows, x) || x == name
      {
        var i :| 0 <= i < |r| && r[i].name == x;
        if i < |rows| { assert rows[i].name == x; }
      }
      forall x | HasCatalogName(rows, x)
        ensures HasCatalogName(r, x)
      {
        var i :| 0 <= i < |rows| && rows[i].name == x;
        assert r[i].name == x;
      }
    }
  }

  /** Seeding names exactly the names the catalog had and the default names. */
  lemma {:induction false} SeedNamesHas(rows: seq<CatalogRow>, next: nat, names: seq<string>)
    ensures var r := SeedNames(rows, next, names).0;
      forall x :: HasCatalogName(r, x) <==> HasCatalogName(rows, x) || x in names
  {
    if names != [] {
      var init := names[..|names| - 1];
      var last := names[|names| - 1];
      SeedNamesHas(rows, next, init);
      var (r0, n0) := SeedNames(rows, next, init);
      InsertOrIgnoreNameHas(r0, n0, last);
      assert forall x :: x in names <==> x in init || x == last;
    }
  }

  /** Seeding keeps the catalog valid, only appends, and leaves every default name present. */
  lemma {:induction false} SeedNamesFacts(rows: seq<CatalogRow>, next: nat, names: seq<string>)
    requires CatalogValid(rows, next) && AllTrimmed(names)
    ensures var (r, n) := SeedNames(rows, next, names);
      && CatalogValid(r, n) && next <= n
      && |rows| <= |r| && r[..|rows|] == rows
      && (forall k :: 0 <= k < |names| ==> HasCatalogName(r, names[k]))
      && (forall x :: HasCatalogName(r, x) <==> HasCatalogName(rows, x) || x in names)
  {
    SeedNamesHas(rows, next, names);
    if names != [] {
      var init := names[..|names| - 1];
      var last := names[|names| - 1];
      SeedNamesFacts(rows, next, init);
      var (r0, n0) := SeedNames(rows, next, init);
      assert IsTrimmed(last);
      InsertOrIgnoreNameValid(r0, n0, last);
      var r := InsertOrIgnoreName(r0, n0, last).0;
      assert r[..|rows|] == r0[..|rows|];
    }
  }

  /** Seeding a catalog that already holds every default name adds no row; only the counter moves, once per name. */
  lemma {:induction false} SeedNamesNoop(rows: seq<CatalogRow>, next: nat, names: seq<string>)
    requires forall k :: 0 <= k < |names| ==> HasCatalogName(rows, names[k])
    ensures SeedNames(rows, next, names) == (rows, next + |names|)
  {
    if names != [] {
      SeedNamesNoop(rows, next, names[..|names| - 1]);
    }
  }

  /** Every run of the prepared statement uses up one id, whether it inserts or is ignored. */
  lemma {:induction false} SeedNamesNext(rows: seq<CatalogRow>, next: nat, names: seq<string>)
    ensures SeedNames(rows, next, names).1 == next + |names|
  {
    if names != [] {
      SeedNamesNext(rows, next, names[..|names| - 1]);
    }
  }

  /** On a catalog holding none of the names, each distinct name adds one row with the next id. */
  lemma {:induction false} SeedNamesFresh(rows: seq<CatalogRow>, next: nat, names: seq<string>)
    requires forall k :: 0 <= k < |names| ==> !HasCatalogName(rows, names[k])
    requires forall i, j :: 0 <= i < j < |names| ==> names[i] != names[j]
    ensures SeedNames(rows, next, names).0 == rows + seq(|names|, i requires 0 <= i < |names| => CatalogRow(next + i, names[i]))
    ensures SeedNames(rows, next, names).1 == next + |names|
  {
    if names != [] {
      var init := names[..|names| - 1];
      SeedNamesFresh(rows, next, init);
      var r0 := SeedNames(rows, next, init).0;
      var last := names[|names| - 1];
      forall i | 0 <= i < |r0|
        ensures r0[i].name != last
      {
        if i >= |rows| {
          assert r0[i].name == init[i - |rows|] == names[i - |rows|];
        }
      }
      assert SeedNames(rows, next, names).0 == r0 + [CatalogRow(next + |init|, last)];
    }
  }

  lemma InsertOrIgnoreMethodValid(rows: seq<PaymentMethod>, next: nat, m: (string, PaymentKind))
    requires MethodsValid(rows, next) && IsTrimmed(m.0)
    ensures var (r, n) := InsertOrIgnoreMethod(rows, next, m);
      MethodsValid(r, n) && next <= n && |rows| <= |r| && r[..|rows|] == rows
  {
    var (r, n) := InsertOrIgnoreMethod(rows, next, m);
    if !HasMethodName(rows, m.0) {
      assert r[..|rows|] == rows;
    }
  }

  /** One INSERT OR IGNORE keeps every method name and leaves its own name present. */
  lemma InsertOrIgnoreMethodHas(rows: seq<PaymentMethod>, next: nat, m: (string, PaymentKind))
    ensures var r := InsertOrIgnoreMethod(rows, next, m).0;
      HasMethodName(r, m.0) && forall x :: HasMethodName(rows, x) ==> HasMethodName(r, x)
  {
    var r := InsertOrIgnoreMethod(rows, next, m).0;
    if !HasMethodName(rows, m.0) {
      assert r[|rows|].name == m.0;
      forall x | HasMethodName(rows, x)
        ensures HasMethodName(r, x)
      {
        var i :| 0 <= i < |rows| && rows[i].name == x;
        assert r[i].name == x;
      }
    }
  }

  lemma {:induction false} SeedMethodsHas(rows: seq<PaymentMethod>, next: nat, ms: seq<(string, PaymentKind)>)
    ensures var r := SeedMethods(rows, next, ms).0;
      && (forall x :: HasMethodName(rows, x) ==> HasMethodName(r, x))
      && (forall k :: 0 <= k < |ms| ==> HasMethodName(r, ms[k].0))
  {
    if ms != [] {
      var init := ms[..|ms| - 1];
      SeedMethodsHas(rows, next, init);
      var (r0, n0) := SeedMethods(rows, next, init);
      InsertOrIgnoreMethodHas(r0, n0, ms[|ms| - 1]);
      assert forall k :: 0 <= k < |init| ==> ms[k] == init[k];
    }
  }

  /** Seeding keeps the method table valid, only appends, and leaves every default method present. */
  lemma {:induction false} SeedMethodsFacts(rows: seq<PaymentMethod>, next: nat, ms: seq<(string, PaymentKind)>)
    requires MethodsValid(rows, next) && forall k :: 0 <= k < |ms| ==> IsTrimmed(ms[k].0)
    ensures var (r, n) := SeedMethods(rows, next, ms);
      && MethodsValid(r, n) && next <= n
      && |rows| <= |r| && r[..|rows|] == rows
      && (forall k :: 0 <= k < |ms| ==> HasMethodName(r, ms[k].0))
  {
    SeedMethodsHas(rows, next, ms);
    if ms != [] {
      var init := ms[..|ms| - 1];
      var last := ms[|ms| - 1];
      SeedMethodsFacts(rows, next, init);
      var (r0, n0) := SeedMethods(rows, next, init);
      assert IsTrimmed(last.0);
      InsertOrIgnoreMethodValid(r0, n0, last);
      var r := InsertOrIgnoreMethod(r0, n0, last).0;
      assert r[..|rows|] == r0[..|rows|];
    }
  }

  lemma {:induction false} SeedMethodsNoop(rows: seq<PaymentMethod>, next: nat, ms: seq<(string, PaymentKind)>)
    requires forall k :: 0 <= k < |ms| ==> HasMethodName(rows, ms[k].0)
    ensures SeedMethods(rows, next, ms) == (rows, next + |ms|)
  {
    if ms != [] {
      SeedMethodsNoop(rows, next, ms[..|ms| - 1]);
    }
  }

  lemma {:induction false} SeedMethodsFresh(rows: seq<PaymentMethod>, next: nat, ms: seq<(string, PaymentKind)>)
    requires forall k :: 0 <= k < |ms| ==> !HasMethodName(rows, ms[k].0)
    requires forall i, j :: 0 <= i < j < |ms| ==> ms[i].0 != ms[j].0
    ensures SeedMethods(rows, next, ms).0 == rows + seq(|ms|, i requires 0 <= i < |ms| => PaymentMethod(next + i, ms[i].0, ms[i].1))
  {
    if ms != [] {
      var init := ms[..|ms| - 1];
      SeedMethodsFresh(rows, next, init);
      var r0 := SeedMethods(rows, next, init).0;
      var last := ms[|ms| - 1];
      forall i | 0 <= i < |r0|
        ensures r0[i].name != last.0
      {
        if i >= |rows| {
          assert r0[i].name == init[i - |rows|].0 == ms[i - |rows|].0;
        }
      }
      SeedMethodsNext(rows, next, init);
      assert SeedMethods(rows, next, ms).0 == r0 + [PaymentMethod(next + |init|, last.0, last.1)];
    }
  }

  lemma {:induction false} SeedMethodsNext(rows: seq<PaymentMethod>, next: nat, ms: seq<(string, PaymentKind)>)
    ensures SeedMethods(rows, next, ms).1 == next + |ms|
  {
    if ms != [] {
      SeedMethodsNext(rows, next, ms[..|ms| - 1]);
    }
  }

  lemma DefaultsTrimmed()
    ensures AllTrimmed(DefaultExpenseTypes) && AllTrimmed(DefaultCategories)
    ensures forall k :: 0 <= k < |DefaultPaymentMethods| ==> IsTrimmed(DefaultPaymentMethods[k].0)
  {
    DefaultTypesTrimmed();
    assert AllTrimmed(DefaultCategories);
    assert forall k :: 0 <= k < |DefaultPaymentMethods| ==> IsTrimmed(DefaultPaymentMethods[k].0);
  }

  lemma DefaultTypesTrimmed()
    ensures AllTrimmed(DefaultExpenseTypes)
  {
    assert AllTrimmed(DefaultExpenseTypes[..7]);
    assert AllTrimmed(DefaultExpenseTypes[7..]);
    assert forall k :: 0 <= k < 7 ==> DefaultExpenseTypes[k] == DefaultExpenseTypes[..7][k];
    assert forall k :: 7 <= k < 13 ==> DefaultExpenseTypes[k] == DefaultExpenseTypes[7..][k - 7];
  }

  lemma SeedRefs(d: Db, e: Expense)
    requires ExpenseValid(e, d.expenseTypes, d.categories, d.paymentMethods)
    requires |d.expenseTypes| <= |Seed(d).expenseTypes| && Seed(d).expenseTypes[..|d.expenseTypes|] == d.expenseTypes
    requires |d.categories| <= |Seed(d).categories| && Seed(d).categories[..|d.categories|] == d.categories
    requires |d.paymentMethods| <= |Seed(d).paymentMethods| && Seed(d).paymentMethods[..|d.paymentMethods|] == d.paymentMethods
    ensures ExpenseValid(e, Seed(d).expenseTypes, Seed(d).categories, Seed(d).paymentMethods)
  {
    var i :| 0 <= i < |d.expenseTypes| && d.expenseTypes[i].id == e.typeId;
    assert Seed(d).expenseTypes[i] == d.expenseTypes[i];
    var j :| 0 <= j < |d.categories| && d.categories[j].id == e.categoryId;
    assert Seed(d).categories[j] == d.categories[j];
    var k :| 0 <= k < |d.paymentMethods| && d.paymentMethods[k].id == e.methodId;
    assert Seed(d).paymentMethods[k] == d.paymentMethods[k];
  }

  /**
   * Seeding keeps the store valid, never removes or changes a row, and
   * afterwards every default name is present.
   */
  lemma SeedFacts(d: Db)
    requires DbValid(d)
    ensures DbValid(Seed(d))
    ensures |d.expenseTypes| <= |Seed(d).expenseTypes| && |d.categories| <= |Seed(d).categories|
    ensures |d.paymentMethods| <= |Seed(d).paymentMethods|
    ensures Seed(d).expenseTypes[..|d.expenseTypes|] == d.expenseTypes
    ensures Seed(d).categories[..|d.categories|] == d.categories
    ensures Seed(d).paymentMethods[..|d.paymentMethods|] == d.paymentMethods
    ensures Seed(d).expenses == d.expenses && Seed(d).cardPayments == d.cardPayments
    ensures forall k :: 0 <= k < |DefaultExpenseTypes| ==> HasCatalogName(Seed(d).expenseTypes, DefaultExpenseTypes[k])
    ensures forall k :: 0 <= k < |DefaultCategories| ==> HasCatalogName(Seed(d).categories, DefaultCategories[k])
    ensures forall k :: 0 <= k < |DefaultPaymentMethods| ==> HasMethodName(Seed(d).paymentMethods, DefaultPaymentMethods[k].0)
  {
    DefaultsTrimmed();
    SeedNamesFacts(d.expenseTypes, d.nextTypeId, DefaultExpenseTypes);
    SeedNamesFacts(d.categories, d.nextCategoryId, DefaultCategories);
    SeedMethodsFacts(d.paymentMethods, d.nextMethodId, DefaultPaymentMethods);
    forall i | 0 <= i < |d.expenses|
      ensures ExpenseValid(d.expenses[i], Seed(d).expenseTypes, Seed(d).categories, Seed(d).paymentMethods)
    {
      SeedRefs(d, d.expenses[i]);
    }
  }

  /**
   * Running the start-up routine again adds no row: INSERT OR IGNORE adds no
   * duplicates. The three AUTOINCREMENT counters still move by one per default.
   */
  lemma SeedIdempotent(d: Db)
    requires DbValid(d)
    ensures Seed(Seed(d)) == Seed(d).(
      nextTypeId := Seed(d).nextTypeId + |DefaultExpenseTypes|,
      nextCategoryId := Seed(d).nextCategoryId + |DefaultCategories|,
      nextMethodId := Seed(d).nextMethodId + |DefaultPaymentMethods|)
  {
    SeedFacts(d);
    var s := Seed(d);
    SeedNamesNoop(s.expenseTypes, s.nextTypeId, DefaultExpenseTypes);
    SeedNamesNoop(s.categories, s.nextCategoryId, DefaultCategories);
    SeedMethodsNoop(s.paymentMethods, s.nextMethodId, DefaultPaymentMethods);
  }

  function KindCount(rows: seq<PaymentMethod>, k: PaymentKind): nat {
    if rows == [] then 0 else KindCount(rows[..|rows| - 1], k) + (if rows[|rows| - 1].kind == k then 1 else 0)
  }

  /** A new store holds 13 expense types, 4 categories and 4 payment methods: one bank account and three credit cards. */
  lemma FreshStoreContents()
    ensures |Seed(EmptyDb).expenseTypes| == 13
    ensures |Seed(EmptyDb).categories| == 4
    ensures |Seed(EmptyDb).paymentMethods| == 4
    ensures KindCount(Seed(EmptyDb).paymentMethods, BankAccount) == 1
    ensures KindCount(Seed(EmptyDb).paymentMethods, CreditCard) == 3
  {
    SeedNamesFresh([], 1, DefaultExpenseTypes);
    SeedNamesFresh([], 1, DefaultCategories);
    FreshMethods();
  }

  lemma FreshMethods()
    ensures |Seed(EmptyDb).paymentMethods| == 4
    ensures KindCount(Seed(EmptyDb).paymentMethods, BankAccount) == 1
    ensures KindCount(Seed(EmptyDb).paymentMethods, CreditCard) == 3
  {
    SeedMethodsFresh([], 1, DefaultPaymentMethods);
    var m0 := PaymentMethod(1, "Bank Account", BankAccount);
    var m1 := PaymentMethod(2, "Credit Card 1", CreditCard);
    var m2 := PaymentMethod(3, "Credit Card 2", CreditCard);
    var m3 := PaymentMethod(4, "Credit Card 3", CreditCard);
    var r := [m0, m1, m2, m3];
    assert Seed(EmptyDb).paymentMethods == r;
    DefaultKindCounts(m0, m1, m2, m3);
  }

  lemma DefaultKindCounts(m0: PaymentMethod, m1: PaymentMethod, m2: PaymentMethod, m3: PaymentMethod)
    requires m0.kind == BankAccount && m1.kind == CreditCard && m2.kind == CreditCard && m3.kind == CreditCard
    ensures KindCount([m0, m1, m2, m3], BankAccount) == 1 && KindCount([m0, m1, m2, m3], CreditCard) == 3
  {
    var r := [m0, m1, m2, m3];
    assert [m0][..0] == [] && [m0, m1][..1] == [m0] && [m0, m1, m2][..2] == [m0, m1] && r[..3] == [m0, m1, m2];
    assert KindCount([], BankAccount) == 0 && KindCount([], CreditCard) == 0;
    assert KindCount([m0], BankAccount) == 1;
    assert KindCount([m0], CreditCard) == 0;
    assert KindCount([m0, m1], BankAccount) == 1 && KindCount([m0, m1], CreditCard) == 1;
    assert KindCount([m0, m1, m2], BankAccount) == 1 && KindCount([m0, m1, m2], CreditCard) == 2;
    assert KindCount(r, BankAccount) == 1 && KindCount(r, CreditCard) == 3;
  }

  // ---------------------------------------------------------------------------
  // The store object

  /** The database connection: every table is a field that the handlers reassign. */
  class Store {
    var expenseTypes: seq<CatalogRow>
    var categories: seq<CatalogRow>
    var paymentMethods: seq<PaymentMethod>
    var expenses: seq<Expense>
    var cardPayments: seq<CardPayment>
    var nextTypeId: nat
    var nextCategoryId: nat
    var nextMethodId: nat
    var nextExpenseId: nat
    var nextPaymentId: nat

    function State(): Db
      reads this
    {
      Db(expenseTypes, categories, paymentMethods, expenses, cardPayments,
         nextTypeId, nextCategoryId, nextMethodId, nextExpenseId, nextPaymentId)
    }

    predicate Valid()
      reads this
    {
      DbValid(State())
    }

    /** Opening a new database file: CREATE TABLE makes five empty tables. */
    constructor ()
      ensures State() == EmptyDb && Valid()
    {
      expenseTypes, categories, paymentMethods, expenses, cardPayments := [], [], [], [], [];
      nextTypeId, nextCategoryId, nextMethodId, nextExpenseId, nextPaymentId := 1, 1, 1, 1, 1;
    }

    /** The `db.serialize` block: tables stay as they are, then the three INSERT OR IGNORE loops seed the catalogs. */
    method Initialize()
      requires Valid()
      modifies this
      ensures Valid()
      ensures State() == Seed(old(State()))
    {
      SeedExpenseTypes();
      SeedCategories();
      SeedPaymentMethods();
      SeedFacts(old(State()));
    }

    /** The loop over the default expense types, one INSERT OR IGNORE each. */
    method SeedExpenseTypes()
      modifies this
      ensures State() == old(State()).(
        expenseTypes := SeedNames(old(expenseTypes), old(nextTypeId), DefaultExpenseTypes).0,
        nextTypeId := SeedNames(old(expenseTypes), old(nextTypeId), DefaultExpenseTypes).1)
    {
      var names := DefaultExpenseTypes;
      var i := 0;
      while i < |names|
        invariant 0 <= i <= |names|
        invariant State() == old(State()).(
          expenseTypes := SeedNames(old(expenseTypes), old(nextTypeId), names[..i]).0,
          nextTypeId := SeedNames(old(expenseTypes), old(nextTypeId), names[..i]).1)
      {
        var name := names[i];
        if !HasCatalogName(expenseTypes, name) {
          expenseTypes := expenseTypes + [CatalogRow(nextTypeId, name)];
        }
        nextTypeId := nextTypeId + 1;  // the id is drawn before the UNIQUE check
        assert names[..i + 1][..i] == names[..i];
        i := i + 1;
      }
      assert names[..i] == names;
    }

    /** The loop over the default categories. */
    method SeedCategories()
      modifies this
      ensures State() == old(State()).(
        categories := SeedNames(old(categories), old(nextCategoryId), DefaultCategories).0,
        nextCategoryId := SeedNames(old(categories), old(nextCategoryId), DefaultCategories).1)
    {
      var names := DefaultCategories;
      var i := 0;
      while i < |names|
        invariant 0 <= i <= |names|
        invariant State() == old(State()).(
          categories := SeedNames(old(categories), old(nextCategoryId), names[..i]).0,
          nextCategoryId := SeedNames(old(categories), old(nextCategoryId), names[..i]).1)
      {
        var name := names[i];
        if !HasCatalogName(categories, name) {
          categories := categories + [CatalogRow(nextCategoryId, name)];
        }
        nextCategoryId := nextCategoryId + 1;  // the id is drawn before the UNIQUE check
        assert names[..i + 1][..i] == names[..i];
        i := i + 1;
      }
      assert names[..i] == names;
    }

    /** The loop over the default payment methods, with their types. */
    method SeedPaymentMethods()
      modifies this
      ensures State() == old(State()).(
        paymentMethods := SeedMethods(old(paymentMethods), old(nextMethodId), DefaultPaymentMethods).0,
        nextMethodId := SeedMethods(old(paymentMethods), old(nextMethodId), DefaultPaymentMethods).1)
    {
      var methods := DefaultPaymentMethods;
      var i := 0;
      while i < |methods|
        invariant 0 <= i <= |methods|
        invariant State() == old(State()).(
          paymentMethods := SeedMethods(old(paymentMethods), old(nextMethodId), methods[..i]).0,
          nextMethodId := SeedMethods(old(paymentMethods), old(nextMethodId), methods[..i]).1)
      {
        var (name, kind) := methods[i];
        if !HasMethodName(paymentMethods, name) {
          paymentMethods := paymentMethods + [PaymentMethod(nextMethodId, name, kind)];
        }
        nextMethodId := nextMethodId + 1;  // the id is drawn before the UNIQUE check
        assert methods[..i + 1][..i] == methods[..i];
        i := i + 1;
      }
      assert methods[..i] == methods;
    }
  }
}
