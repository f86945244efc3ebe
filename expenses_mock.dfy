/**
 * The in-memory expense source: `listPersonalExpensesMock(userId, filters)`
 * keeps the caller's own records, applies the optional date range and
 * category filters, and returns them newest first.
 */
module ExpensesMock {
  import opened Wrappers
  import opened Text
  import opened Sorting
  import opened Records
  import Dates

  /** `PersonalExpenseFilters`; every field is optional. */
  datatype Filters = Filters(
    from: Option<string>,
    to: Option<string>,
    category: Option<string>,
    categories: Option<seq<string>>
  )

  const NoFilterFields := Filters(None, None, None, None)

  /** JavaScript truthiness of an optional string: present and not empty. */
  predicate Truthy(o: Option<string>) {
    o.Some? && o.value != ""
  }

  /** `categories && categories.length > 0 ? categories : category ? [category] : []` */
  function SelectedCategories(f: Filters): seq<string> {
    if f.categories.Some? && |f.categories.value| > 0 then f.categories.value
    else if Truthy(f.category) then [f.category.value]
    else []
  }

  /** `cats.some((c) => c && e.category.toLowerCase() === c.toLowerCase())` */
  predicate CategoryMatches(category: string, cats: seq<string>) {
    exists c :: c in cats && c != "" && SameIgnoringCase(category, c)
  }

  /** The second `filter` callback: no filters keep everything; bounds are inclusive string comparisons. */
  predicate PassesFilters(e: PersonalExpense, filters: Option<Filters>) {
    match filters
    case None => true
    case Some(f) =>
      && !(Truthy(f.from) && LexLess(e.date, f.from.value))
      && !(Truthy(f.to) && LexLess(f.to.value, e.date))
      && var cats := SelectedCategories(f);
         (|cats| > 0 ==> CategoryMatches(e.category, cats))
  }

  /** Both `filter` calls: the caller's records that pass the filters, in their original order. */
  function Select(data: seq<PersonalExpense>, userId: string, filters: Option<Filters>): (r: seq<PersonalExpense>)
    ensures forall e :: e in r <==> e in data && e.userId == userId && PassesFilters(e, filters)
    ensures multiset(r) <= multiset(data)
    ensures |r| <= |data|
  {
    if data == [] then []
    else
      assert data == [data[0]] + data[1..];
      var rest := Select(data[1..], userId, filters);
      if data[0].userId == userId && PassesFilters(data[0], filters) then [data[0]] + rest else rest
  }

  /** `a` belongs strictly before `b`: a later date, or the same date and a later creation time. */
  predicate Precedes(a: PersonalExpense, b: PersonalExpense) {
    LexLess(b.date, a.date) || (a.date == b.date && LexLess(b.createdAt, a.createdAt))
  }

  /** The `sort` comparator: by date descending, ties by `createdAt` descending. */
  function CompareRecords(a: PersonalExpense, b: PersonalExpense): (r: int)
    ensures r < 0 <==> Precedes(a, b)
    ensures r > 0 <==> Precedes(b, a)
    ensures r == 0 <==> a.date == b.date && a.createdAt == b.createdAt
  {
    LexLessIrreflexive(a.date);
    if a.date == b.date then LocaleCompare(b.createdAt, a.createdAt)
    else LocaleCompare(b.date, a.date)
  }

  /** `compare(a, b) <= 0`: `a` may stay before `b`. */
  predicate MockOrder(a: PersonalExpense, b: PersonalExpense) {
    CompareRecords(a, b) <= 0
  }

  /** The comparator is consistent, so the engine's sort is well defined. */
  lemma MockOrderConsistent()
    ensures TotalPreorder(MockOrder)
  {
    forall x, y ensures MockOrder(x, y) || MockOrder(y, x) {
    }
    forall x, y, z | MockOrder(x, y) && MockOrder(y, z) ensures MockOrder(x, z) {
      if x.date != y.date && LexLess(y.date, x.date) && y.date != z.date && LexLess(z.date, y.date) {
        LexLessTransitive(z.date, y.date, x.date);
      }
      if x.date == y.date && y.date == z.date && LexLess(y.createdAt, x.createdAt) && LexLess(z.createdAt, y.createdAt) {
        LexLessTransitive(z.createdAt, y.createdAt, x.createdAt);
      }
      if LexLess(z.date, x.date) {
        LexLessAsymmetric(z.date, x.date);
      }
      if LexLess(x.date, z.date) {
        LexLessAsymmetric(x.date, z.date);
        if x.date != y.date && y.date != z.date {
          LexLessTransitive(x.date, z.date, y.date);
        }
      }
    }
  }

  /** Sorted by the comparator means: dates never increase, and within a date creation times never increase. */
  lemma SortedMeansNewestFirst(r: seq<PersonalExpense>)
    requires SortedBy(r, MockOrder)
    ensures forall i, j :: 0 <= i < j < |r| ==> !LexLess(r[i].date, r[j].date)
    ensures forall i, j :: 0 <= i < j < |r| && r[i].date == r[j].date ==> !LexLess(r[i].createdAt, r[j].createdAt)
  {
    forall i, j | 0 <= i < j < |r| ensures !LexLess(r[i].date, r[j].date) {
      assert MockOrder(r[i], r[j]);
      LexLessAsymmetric(r[i].date, r[j].date);
    }
    forall i, j | 0 <= i < j < |r| && r[i].date == r[j].date ensures !LexLess(r[i].createdAt, r[j].createdAt) {
      assert MockOrder(r[i], r[j]);
    }
  }

  /**
   * `listPersonalExpensesMock` over a given record table: exactly the caller's
   * records that pass the filters, each once, newest date first and newest
   * creation first within a date.
   */
  function ListPersonalExpenses(data: seq<PersonalExpense>, userId: string, filters: Option<Filters>): (r: seq<PersonalExpense>)
    ensures forall e :: e in r <==> e in data && e.userId == userId && PassesFilters(e, filters)
    ensures multiset(r) == multiset(Select(data, userId, filters))
    ensures forall i, j :: 0 <= i < j < |r| ==> !LexLess(r[i].date, r[j].date)
    ensures forall i, j :: 0 <= i < j < |r| && r[i].date == r[j].date ==> !LexLess(r[i].createdAt, r[j].createdAt)
  {
    var selected := Select(data, userId, filters);
    var r := SortBy(selected, MockOrder);
    MockOrderConsistent();
    SortBySorted(selected, MockOrder);
    SortedMeansNewestFirst(r);
    assert forall e :: e in r <==> e in multiset(selected);
    r
  }

  /** `from` and `to` bound the ISO dates inclusively, in calendar order, for four-digit years. */
  lemma DateRangeIsCalendarRange(e: PersonalExpense, f: Filters, d: Dates.JsDate, lo: Dates.JsDate, hi: Dates.JsDate)
    requires Dates.HasFourDigitYear(d) && Dates.HasFourDigitYear(lo) && Dates.HasFourDigitYear(hi)
    requires Some(e.date) == Dates.ToIsoDate(Some(d))
    requires f.from == Dates.ToIsoDate(Some(lo)) && f.to == Dates.ToIsoDate(Some(hi))
    requires SelectedCategories(f) == []
    ensures PassesFilters(e, Some(f)) <==> !Dates.Before(d, lo) && !Dates.Before(hi, d)
  {
    Dates.IsoDateLayout(lo);
    Dates.IsoDateLayout(hi);
    Dates.IsoDateOrder(d, lo);
    Dates.IsoDateOrder(hi, d);
  }

  /** A non-empty `categories` list makes the deprecated `category` field irrelevant. */
  lemma CategoriesTakePrecedence(e: PersonalExpense, f: Filters, other: Option<string>)
    requires f.categories.Some? && |f.categories.value| > 0
    ensures PassesFilters(e, Some(f)) == PassesFilters(e, Some(f.(category := other)))
  {
  }

  /** The deprecated single `category`: an empty one filters nothing, otherwise it matches ignoring case. */
  lemma SingleCategoryFilter(e: PersonalExpense, c: string)
    ensures PassesFilters(e, Some(Filters(None, None, Some(c), None))) <==> c == "" || SameIgnoringCase(e.category, c)
  {
    if c != "" && SameIgnoringCase(e.category, c) {
      assert c in [c];
    }
  }

  /** Selected categories that are all empty strings match nothing, so they reject every record. */
  lemma BlankCategoriesRejectAll(e: PersonalExpense, f: Filters)
    requires |SelectedCategories(f)| > 0
    requires forall c :: c in SelectedCategories(f) ==> c == ""
    ensures !PassesFilters(e, Some(f))
  {
  }

  /** Filters whose fields are all absent or empty keep every record, like no filters at all. */
  lemma EmptyFiltersKeepAll(e: PersonalExpense, f: Filters)
    requires !Truthy(f.from) && !Truthy(f.to) && !Truthy(f.category)
    requires f.categories.None? || f.categories.value == []
    ensures PassesFilters(e, Some(f)) == PassesFilters(e, None) == true
  {
  }

  // ---------------------------------------------------------------------
  // The fixture the mock serves.

  const DemoUser := "demo-user"

  /** `MOCK_EXPENSES`, amounts in cents. */
  const MockExpenses: seq<PersonalExpense> := [
    PersonalExpense("exp_01", DemoUser, 2450, "2025-11-14", "Food", Some("Lunch at Bento Box"), Expense, "2025-03-14T13:45:00Z"),
    PersonalExpense("exp_02", DemoUser, 120000, "2025-11-12", "Income", Some("Salary"), Income, "2025-03-12T08:00:00Z"),
    PersonalExpense("exp_03", DemoUser, 1275, "2025-11-11", "Transport", Some("Metro top-up"), Expense, "2025-03-11T18:20:00Z"),
    PersonalExpense("exp_04", DemoUser, 5620, "2025-11-11", "Groceries", Some("Weekly essentials"), Expense, "2025-03-11T10:05:00Z"),
    PersonalExpense("exp_05", DemoUser, 499, "2025-11-09", "Entertainment", Some("App subscription"), Expense, "2025-03-09T07:30:00Z")
  ]

  /** `listPersonalExpensesMock(userId, filters)` */
  function ListPersonalExpensesMock(userId: string, filters: Option<Filters>): (r: seq<PersonalExpense>)
    ensures forall e :: e in r <==> e in MockExpenses && e.userId == userId && PassesFilters(e, filters)
  {
    ListPersonalExpenses(MockExpenses, userId, filters)
  }

  /** `b`'s text sorts before `a`'s: they share the first `k` characters and then `b` has the smaller one. */
  lemma LaterText(a: string, b: string, k: nat)
    requires k < |a| && k < |b| && a[..k] == b[..k] && b[k] < a[k]
    ensures LexLess(b, a)
  {
    assert a == a[..k] + a[k..] && b == b[..k] + b[k..];
    LexLessConcat(b[..k], b[k..], a[..k], a[k..]);
  }

  /** `a` may stay before `b` when `b`'s date, or on a shared date its creation time, sorts first at position `k`. */
  lemma NeighbourPrecedes(a: PersonalExpense, b: PersonalExpense, k: nat, sameDate: bool)
    requires !sameDate ==> k < |a.date| && k < |b.date| && a.date[..k] == b.date[..k] && b.date[k] < a.date[k]
    requires sameDate ==> a.date == b.date && k < |a.createdAt| && k < |b.createdAt|
                          && a.createdAt[..k] == b.createdAt[..k] && b.createdAt[k] < a.createdAt[k]
    ensures MockOrder(a, b)
  {
    if sameDate {
      LaterText(a.createdAt, b.createdAt, k);
    } else {
      LaterText(a.date, b.date, k);
    }
  }

  // Each neighbouring pair of the fixture, one lemma each to keep the literals apart.
  lemma FixturePair0() ensures MockOrder(MockExpenses[0], MockExpenses[1]) {
    NeighbourPrecedes(MockExpenses[0], MockExpenses[1], 9, false);
  }
  lemma FixturePair1() ensures MockOrder(MockExpenses[1], MockExpenses[2]) {
    NeighbourPrecedes(MockExpenses[1], MockExpenses[2], 9, false);
  }
  lemma FixturePair2() ensures MockOrder(MockExpenses[2], MockExpenses[3]) {
    NeighbourPrecedes(MockExpenses[2], MockExpenses[3], 12, true);
  }
  lemma FixturePair3() ensures MockOrder(MockExpenses[3], MockExpenses[4]) {
    NeighbourPrecedes(MockExpenses[3], MockExpenses[4], 8, false);
  }

  /** Five records whose neighbours are in listing order are sorted. */
  lemma FiveInOrder(s: seq<PersonalExpense>)
    requires |s| == 5
    requires MockOrder(s[0], s[1]) && MockOrder(s[1], s[2]) && MockOrder(s[2], s[3]) && MockOrder(s[3], s[4])
    ensures SortedBy(s, MockOrder)
  {
    MockOrderConsistent();
    SortedByNeighbours(s, MockOrder);
  }

  /** The mock's records are already newest first. */
  lemma MockExpensesInOrder()
    ensures SortedBy(MockExpenses, MockOrder)
  {
    FixturePair0();
    FixturePair1();
    FixturePair2();
    FixturePair3();
    FiveInOrder(MockExpenses);
  }

  /** Without filters, a table holding only the caller's records is selected whole, in order. */
  lemma {:induction false} SelectOwnUnfiltered(data: seq<PersonalExpense>, userId: string)
    requires forall e :: e in data ==> e.userId == userId
    ensures Select(data, userId, None) == data
  {
    if data != [] {
      var rest := data[1..];
      assert data == [data[0]] + rest;
      SelectOwnUnfiltered(rest, userId);
    }
  }

  /** Every fixture record belongs to the demo user. */
  lemma DemoOwnsFixture()
    ensures forall e :: e in MockExpenses ==> e.userId == DemoUser
  {
  }

  /** Unfiltered, the demo user gets the whole fixture back in fixture order. */
  lemma DemoUserUnfiltered()
    ensures ListPersonalExpensesMock(DemoUser, None) == MockExpenses
  {
    DemoOwnsFixture();
    SelectOwnUnfiltered(MockExpenses, DemoUser);
    MockExpensesInOrder();
    SortByOfSorted(MockExpenses, MockOrder);
  }

  /** The demo user, unfiltered, sees the five fixture records in fixture order. */
  lemma DemoUserListing()
    ensures var r := ListPersonalExpensesMock(DemoUser, None);
            |r| == 5 && r[0].id == "exp_01" && r[1].id == "exp_02" && r[2].id == "exp_03"
            && r[3].id == "exp_04" && r[4].id == "exp_05"
  {
    DemoUserUnfiltered();
    FixtureIds();
  }

  lemma FixtureIds()
    ensures |MockExpenses| == 5 && MockExpenses[0].id == "exp_01" && MockExpenses[1].id == "exp_02"
            && MockExpenses[2].id == "exp_03" && MockExpenses[3].id == "exp_04" && MockExpenses[4].id == "exp_05"
  {
  }
}
