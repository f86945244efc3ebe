/**
 * The category style registry: a constant table of eight categories, looked
 * up by name ignoring case, with income always styled as income and unknown
 * expense names styled like "Others".
 */
module Categories {
  import opened Text
  import opened Records
  import opened Wrappers

  /** The icon components the table refers to. */
  datatype Icon = Wallet | UtensilsCrossed | Shirt | ShoppingCart | Car | Music4 | CreditCard | Archive

  datatype CategoryItem = CategoryItem(name: string, icon: Icon, textColor: string, badgeColor: string)

  const IncomeTextColor := "text-emerald-700"
  const IncomeBadge := "border-emerald-200/60 bg-emerald-50 text-emerald-700"
  const FallbackTextColor := "text-slate-700"
  const FallbackBadge := "border-slate-200/60 bg-slate-50 text-slate-700"

  /** `COMMON_CATEGORIES`, in table order. */
  const CommonCategories: seq<CategoryItem> := [
    CategoryItem("Income", Wallet, IncomeTextColor, IncomeBadge),
    CategoryItem("Food & Dining", UtensilsCrossed, "text-orange-700", "border-orange-200/60 bg-orange-50 text-orange-700"),
    CategoryItem("Clothing", Shirt, "text-amber-700", "border-amber-200/60 bg-amber-50 text-amber-700"),
    CategoryItem("Groceries", ShoppingCart, "text-sky-700", "border-sky-200/60 bg-sky-50 text-sky-700"),
    CategoryItem("Transport", Car, "text-indigo-700", "border-indigo-200/60 bg-indigo-50 text-indigo-700"),
    CategoryItem("Entertainment", Music4, "text-violet-700", "border-violet-200/60 bg-violet-50 text-violet-700"),
    CategoryItem("Bills & Utilities", CreditCard, "text-rose-700", "border-rose-200/60 bg-rose-50 text-rose-700"),
    CategoryItem("Others", Archive, FallbackTextColor, FallbackBadge)
  ]

  /** `getAllCategoryNames()`: the names of the table, in table order. */
  function AllCategoryNames(): (names: seq<string>)
    ensures |names| == |CommonCategories|
    ensures forall i :: 0 <= i < |names| ==> names[i] == CommonCategories[i].name
  {
    seq(|CommonCategories|, i requires 0 <= i < |CommonCategories| => CommonCategories[i].name)
  }

  /** A row whose name equals `name` ignoring case. */
  predicate RowMatches(i: int, name: string) {
    0 <= i < |CommonCategories| && SameIgnoringCase(CommonCategories[i].name, name)
  }

  /** `rows.filter((c) => c.name.toLowerCase() === name.toLowerCase())`, keeping table order. */
  function MatchingRows(rows: seq<CategoryItem>, name: string): (fl: seq<CategoryItem>)
    ensures forall c :: c in fl ==> c in rows && SameIgnoringCase(c.name, name)
    ensures forall i :: 0 <= i < |rows| && SameIgnoringCase(rows[i].name, name) ==> fl != []
  {
    if rows == [] then []
    else if SameIgnoringCase(rows[0].name, name) then [rows[0]] + MatchingRows(rows[1..], name)
    else
      assert forall i :: 1 <= i < |rows| ==> rows[i] == rows[1..][i - 1];
      MatchingRows(rows[1..], name)
  }

  /** No two rows share a name ignoring case. */
  ghost predicate NamesDistinct(rows: seq<CategoryItem>) {
    forall i, j :: 0 <= i < j < |rows| ==> ToLower(rows[i].name) != ToLower(rows[j].name)
  }

  /** When names are distinct ignoring case, the first match of the filter is the one row that matches. */
  lemma {:induction false} FirstMatchUnique(rows: seq<CategoryItem>, name: string, i: int)
    requires NamesDistinct(rows)
    requires 0 <= i < |rows| && SameIgnoringCase(rows[i].name, name)
    ensures var fl := MatchingRows(rows, name); fl != [] && fl[0] == rows[i]
  {
    if i > 0 {
      assert !SameIgnoringCase(rows[0].name, name);
      assert NamesDistinct(rows[1..]) by {
        forall a, b | 0 <= a < b < |rows[1..]| ensures ToLower(rows[1..][a].name) != ToLower(rows[1..][b].name) {
          assert rows[1..][a] == rows[a + 1] && rows[1..][b] == rows[b + 1];
        }
      }
      FirstMatchUnique(rows[1..], name, i - 1);
    }
  }

  /** Rows whose names start with pairwise different letters, ignoring case, have distinct names. */
  lemma DistinctByFirstLetter(rows: seq<CategoryItem>, key: string)
    requires |key| == |rows|
    requires forall i :: 0 <= i < |rows| ==> rows[i].name != "" && LowerChar(rows[i].name[0]) == key[i]
    requires forall i, j :: 0 <= i < j < |key| ==> key[i] != key[j]
    ensures NamesDistinct(rows)
  {
    forall i, j | 0 <= i < j < |rows| ensures ToLower(rows[i].name) != ToLower(rows[j].name) {
      assert ToLower(rows[i].name)[0] == key[i] && ToLower(rows[j].name)[0] == key[j];
    }
  }

  /** The first letters of the table's names, lower-cased, are `i f c g t e b o`: all different. */
  lemma TableNamesDistinct()
    ensures NamesDistinct(CommonCategories)
  {
    var rows, key := CommonCategories, "ifcgtebo";
    TableFirstLetters(rows, key);
    LettersDistinct(key);
    DistinctByFirstLetter(rows, key);
  }

  lemma TableFirstLetters(rows: seq<CategoryItem>, key: string)
    requires rows == CommonCategories && key == "ifcgtebo"
    ensures |key| == |rows| && forall i :: 0 <= i < |rows| ==> rows[i].name != "" && LowerChar(rows[i].name[0]) == key[i]
  {
    assert rows[0].name[0] == 'I' && rows[1].name[0] == 'F' && rows[2].name[0] == 'C' && rows[3].name[0] == 'G';
    assert rows[4].name[0] == 'T' && rows[5].name[0] == 'E' && rows[6].name[0] == 'B' && rows[7].name[0] == 'O';
  }

  lemma LettersDistinct(key: string)
    requires key == "ifcgtebo"
    ensures forall i, j :: 0 <= i < j < |key| ==> key[i] != key[j]
  {
  }

  /** The first match of a filter over the table is the one row that matches. */
  lemma FirstMatchIsTheMatch(name: string, i: int)
    requires RowMatches(i, name)
    ensures var fl := MatchingRows(CommonCategories, name); fl != [] && fl[0] == CommonCategories[i]
  {
    TableNamesDistinct();
    FirstMatchUnique(CommonCategories, name, i);
  }

  /**
   * `filtered[0]` of the filter over the table: the one row matching `name`
   * ignoring case, or None when no row does.
   */
  function Lookup(name: string): (r: Option<CategoryItem>)
    ensures forall i :: RowMatches(i, name) ==> r == Some(CommonCategories[i])
    ensures (forall i :: !RowMatches(i, name)) ==> r == None
  {
    var fl := MatchingRows(CommonCategories, name);
    if |fl| > 0 then
      assert fl[0] in CommonCategories && SameIgnoringCase(fl[0].name, name) by { assert fl[0] in fl; }
      var k :| 0 <= k < |CommonCategories| && CommonCategories[k] == fl[0];
      assert RowMatches(k, name);
      FirstMatchIsTheMatch(name, k);
      assert forall i :: RowMatches(i, name) ==> fl[0] == CommonCategories[i] by {
        forall i | RowMatches(i, name) ensures fl[0] == CommonCategories[i] { FirstMatchIsTheMatch(name, i); }
      }
      Some(fl[0])
    else
      None
  }

  /** `getExpenseIconColor(name)`: the text colour of the matching row, or slate. */
  function ExpenseIconColor(name: string): (color: string)
    ensures forall i :: RowMatches(i, name) ==> color == CommonCategories[i].textColor
    ensures (forall i :: !RowMatches(i, name)) ==> color == FallbackTextColor
  {
    match Lookup(name)
    case Some(row) => row.textColor
    case None => FallbackTextColor
  }

  /** `getExpenseBadgeClasses(name)`: the badge classes of the matching row, or slate. */
  function ExpenseBadgeClasses(name: string): (classes: string)
    ensures forall i :: RowMatches(i, name) ==> classes == CommonCategories[i].badgeColor
    ensures (forall i :: !RowMatches(i, name)) ==> classes == FallbackBadge
  {
    match Lookup(name)
    case Some(row) => row.badgeColor
    case None => FallbackBadge
  }

  /** `getCategoryIconComponent(name, type)`: Wallet for income, else the matching row's icon or Archive. */
  function CategoryIconComponent(name: string, kind: ExpenseType): (icon: Icon)
    ensures kind == Income ==> icon == Wallet
    ensures kind == Expense ==> forall i :: RowMatches(i, name) ==> icon == CommonCategories[i].icon
    ensures kind == Expense && (forall i :: !RowMatches(i, name)) ==> icon == Archive
  {
    if kind == Income then Wallet
    else
      match Lookup(name)
      case Some(row) => row.icon
      case None => Archive
  }

  /** `getCategoryIconColor(name, type)` */
  function CategoryIconColor(name: string, kind: ExpenseType): (color: string)
    ensures kind == Income ==> color == IncomeTextColor
    ensures kind == Expense ==> color == ExpenseIconColor(name)
  {
    if kind == Income then IncomeTextColor else ExpenseIconColor(name)
  }

  /** `getCategoryBadgeClasses(name, type)` */
  function CategoryBadgeClasses(name: string, kind: ExpenseType): (classes: string)
    ensures kind == Income ==> classes == IncomeBadge
    ensures kind == Expense ==> classes == ExpenseBadgeClasses(name)
  {
    if kind == Income then IncomeBadge else ExpenseBadgeClasses(name)
  }

  /** The eight names in table order, "Income" first and "Others" last. */
  lemma AllCategoryNamesOrder()
    ensures var names := AllCategoryNames();
            && |names| == 8 && names[0] == "Income" && names[7] == "Others"
            && forall i, j :: 0 <= i < j < 8 ==> !SameIgnoringCase(names[i], names[j])
  {
    TableNamesDistinct();
  }

  /** The style of an entry: icon, icon colour and badge classes. */
  datatype Style = Style(icon: Icon, color: string, badge: string)

  function StyleOf(name: string, kind: ExpenseType): Style {
    Style(CategoryIconComponent(name, kind), CategoryIconColor(name, kind), CategoryBadgeClasses(name, kind))
  }

  /** Income is styled as income whatever its category name. */
  lemma IncomeStyle(name: string)
    ensures StyleOf(name, Income) == Style(Wallet, "text-emerald-700", "border-emerald-200/60 bg-emerald-50 text-emerald-700")
  {
  }

  /** Expense lookup ignores case: names that agree ignoring case are styled alike. */
  lemma LookupIgnoresCase(a: string, b: string, kind: ExpenseType)
    requires SameIgnoringCase(a, b)
    ensures StyleOf(a, kind) == StyleOf(b, kind)
  {
    if kind == Expense {
      if exists i :: RowMatches(i, a) {
        var i :| RowMatches(i, a);
        assert RowMatches(i, b);
      } else {
        forall i ensures !RowMatches(i, b) {
          assert RowMatches(i, b) ==> RowMatches(i, a);
        }
      }
    }
  }

  /** An expense name that matches no row is styled exactly like the "Others" row. */
  lemma UnknownIsOthers(name: string)
    requires forall i :: !RowMatches(i, name)
    ensures var others := CommonCategories[7];
            others.name == "Others" && StyleOf(name, Expense) == Style(others.icon, others.textColor, others.badgeColor)
            && StyleOf(name, Expense) == Style(Archive, "text-slate-700", "border-slate-200/60 bg-slate-50 text-slate-700")
  {
  }

  /** An expense named "income" in any case resolves through the Income row. */
  lemma ExpenseNamedIncome(name: string)
    requires SameIgnoringCase(name, "Income")
    ensures StyleOf(name, Expense) == Style(Wallet, "text-emerald-700", "border-emerald-200/60 bg-emerald-50 text-emerald-700")
  {
    assert RowMatches(0, name);
  }

  /** An expense name matching row `i` takes that row's style. */
  lemma MatchingRowStyle(name: string, i: int)
    requires RowMatches(i, name)
    ensures var row := CommonCategories[i];
            StyleOf(name, Expense) == Style(row.icon, row.textColor, row.badgeColor)
  {
  }

  /** Names differing only in the case of their first letter agree ignoring case. */
  lemma FirstLetterCase(a: string, b: string)
    requires a != "" && b != "" && LowerChar(a[0]) == LowerChar(b[0]) && a[1..] == b[1..]
    ensures SameIgnoringCase(a, b)
  {
    assert |a| == |b| && forall i :: 1 <= i < |a| ==> a[i] == a[1..][i - 1] == b[i];
  }

  /** `"groceries"` is styled like `"Groceries"`. */
  lemma GroceriesLowerCase(kind: ExpenseType)
    ensures StyleOf("groceries", kind) == StyleOf("Groceries", kind)
    ensures StyleOf("groceries", Expense) == Style(ShoppingCart, "text-sky-700", "border-sky-200/60 bg-sky-50 text-sky-700")
  {
    var row := CommonCategories[3];
    assert row.name == "Groceries";
    FirstLetterCase("groceries", row.name);
    LookupIgnoresCase("groceries", "Groceries", kind);
    MatchingRowStyle("groceries", 3);
  }
}
