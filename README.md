# callisto personal finances — a Dafny model of the core rules

callisto is a personal-expense tracker. This project models in Dafny the rules behind its personal expense screens, and proves properties of them:

- **Amount and date validation.** A decimal amount with at most two fractional digits, trimmed first. A date that must be present and valid.
- **The category style registry.** Eight categories in a constant table, looked up by name ignoring case. Income is always styled as income, and an unknown expense name falls back to the "Others" styling.
- **The record filter and ordering rule** of the mock data source:
  - records of one user;
  - an inclusive date range;
  - a case-insensitive category set that takes precedence over a single category;
  - newest date first, then newest creation first.
- **The expense list.** An empty list shows the empty state. Otherwise the records are grouped by ISO date: groups newest first, records within a group newest created first.
- **The filter drawer.** Its state: an optional from date, an optional to date, a set of categories. It also covers the active-filter count, category toggling, ISO date formatting, and the query rewrite on apply and on clear.
- **The add/edit expense sheet:**
  - form validity;
  - the submitted values (income forces category `Income`, fields trimmed);
  - the row inserted on the fallback path;
  - the reset rule;
  - the guard that ignores a second submit while one is in flight.
- **The app shell's tab rule.** A tab is active on its own path and on any path below it; the root tab is active only on `/`.
- **The profile initials.** They come from the trimmed first and last names, fall back to the email, and the placeholder shows `?` when there is nothing to show.

## Modules

| module | file | role |
|---|---|---|
| `Wrappers` | `wrappers.dfy` | `Option`, for JavaScript's `undefined` and `null` |
| `Text` | `text.dfy` | `trim`, ASCII `toLowerCase`/`toUpperCase`, `localeCompare` as code-point order |
| `Sorting` | `sorting.dfy` | `Array.prototype.sort` as a stable insertion sort on values |
| `Numerals` | `numerals.dfy` | `String(n)` and `padStart(2, "0")` |
| `Dates` | `dates.dfy` | a local date (or an invalid one) and its `YYYY-MM-DD` form |
| `QueryParams` | `query_params.dfy` | `URLSearchParams` as a list of pairs: `delete`, `set`, `getAll`, `toString` |
| `Records` | `records.dfy` | the `PersonalExpense` record |
| `Validation` | `validation.dfy` | `lib/validation.ts` |
| `Categories` | `categories.dfy` | `lib/categories.ts` |
| `ExpensesMock` | `expenses_mock.dfy` | `lib/mocks/personal-expenses.ts` |
| `ExpenseList` | `expense_list.dfy` | `groupByDate` and the empty state of the expense list |
| `FiltersDrawer` | `filters_drawer.dfy` | the filter drawer component, as a class `Drawer` |
| `ExpenseSheet` | `expense_sheet.dfy` | the expense sheet component, as a class `Sheet` |
| `AppShell` | `app_shell.dfy` | the tab table and `isActive` |
| `Profile` | `profile.dfy` | the profile initials and avatar placeholder |

The loop in `groupByDate` is a method with loop invariants. It fills a map, builds the entries, sorts the groups and sorts each group's items. The two components that keep state are classes. Each class's fields stand for the component's `useState` values, and its methods stand for the event handlers that call the setters. Everything else in the core is expressions over values, and is modelled as functions.

Design choices, with the source as the reference:

- The mock's category filter is case-insensitive (`lib/mocks/personal-expenses.ts:89`), and the model follows it. The page's optimistic insert and edit, `app/(protected)/personal/page.tsx:93` and `:155`, match categories case-sensitively with `includes`. That page is not part of this model.
- `onClear` pushes `${pathname}?${qs}` even when `qs` is empty, so a cleared URL can end in `?`. `onApply` drops the `?` in that case. Both are modelled as written.
- A `Date` object is truthy even when it is invalid. A from date that failed to parse therefore still counts towards the active-filter count, although `onApply` adds no `from` parameter for it (`FiltersDrawer.InvalidDateCountsButAddsNoPair`).
- `toIsoDate` does not pad the year, so a year below 1000 gives a date string shorter than ten characters (`Dates.UnpaddedYear`). The string order of ISO dates agrees with calendar order for four-digit years (`Dates.IsoDateOrder`).

## Model

| member | source | states |
|---|---|---|
| Validation.IsAmount2dp | lib/validation.ts:7-13 | an amount is accepted exactly when its trimmed text is one or more ASCII digits, optionally followed by `.` and one or two digits |
| Validation.MatchesTwoDpIsLanguage | lib/validation.ts:5 | the left-to-right scanner accepts exactly the strings of the regular expression's language |
| Validation.DecidedByScanner | lib/validation.ts:8-10 | acceptance is decided by running the scanner on the trimmed input |
| Validation.AmountRejectsBlank | lib/validation.ts:8-9 | empty and whitespace-only input is rejected |
| Validation.AmountIgnoresSurroundingWhitespace | lib/validation.ts:8 | whitespace around the amount does not change the verdict |
| Validation.AmountNeedsLeadingDigit | lib/validation.ts:5 | a trimmed amount that does not start with a digit is rejected, so a sign or a leading dot fails |
| Validation.AmountRejectsTrailingDot | lib/validation.ts:5 | a trimmed amount ending in `.` is rejected |
| Validation.AmountRejectsLongFraction | lib/validation.ts:5 | more than two digits after a dot are rejected |
| Validation.MatchShape | lib/validation.ts:5 | an accepted amount starts and ends with a digit, and a dot in it follows the whole digit run with at most two digits after it |
| Validation.MatchesDecimal | lib/validation.ts:5 | every digit run, with an optional fraction of at most two digits, is in the scanner's language |
| Validation.AcceptsDecimal | lib/validation.ts:5 | every such string is accepted as an amount |
| Validation.AcceptedExamples | lib/validation.ts:3-5 | `0.01`, `12`, `12.3`, `12.30` and ` 12.3 ` are accepted |
| Validation.RejectedExamples | lib/validation.ts:4-5 | `12.345`, `-1`, `+1`, `12.`, `.5`, the empty string and blanks are rejected |
| Validation.AmountCents | lib/validation.ts:15-19 | the value in cents of an accepted amount is positive exactly when the amount has a non-zero digit |
| Validation.To2dpCents | lib/validation.ts:15-19 | for an accepted input, the rounded amount is positive exactly when the trimmed input has a non-zero digit |
| Validation.AmountCentsExamples | lib/validation.ts:15-19 | `12.3` is 1230 cents, `0.01` is 1 cent and `0.00` is 0 |
| Validation.IsRequiredDate | lib/validation.ts:21-23 | a date is required-valid exactly when it is present and valid, which is when it has an ISO form |
| Text.TrimIgnoresSurroundingWhitespace | lib/validation.ts:8 | `trim` removes any whitespace added around a string |
| Text.TrimIdempotent | lib/validation.ts:8 | trimming twice is trimming once |
| Text.TrimEmptyIffBlank | lib/validation.ts:9 | a string trims to empty exactly when it is all whitespace |
| Text.TrimIsInfix | lib/validation.ts:8 | the trimmed string is a piece of the input with only whitespace before and after it |
| Text.LocaleCompare | lib/mocks/personal-expenses.ts:94-99 | the comparison is zero exactly for equal strings, negative exactly when the first sorts before the second, and positive exactly when it sorts after |
| Text.LexLessTransitive | lib/mocks/personal-expenses.ts:94-99 | string order is transitive |
| Text.LexLessTotal | lib/mocks/personal-expenses.ts:94-99 | any two different strings are ordered one way or the other |
| Sorting.SortBy | lib/mocks/personal-expenses.ts:94-99 | sorting returns a permutation of its input |
| Sorting.SortBySorted | lib/mocks/personal-expenses.ts:94-99 | for a total preorder, the result of sorting is sorted |
| Sorting.SortByOfSorted | lib/mocks/personal-expenses.ts:94-99 | sorting an already sorted sequence leaves it unchanged |
| Sorting.InsertTies | lib/mocks/personal-expenses.ts:94-99 | for a transitive comparator, inserting an element puts it ahead of every element already present that is ranked equal to it, and keeps those in their order |
| Sorting.SortByStable | lib/mocks/personal-expenses.ts:94-99 | the sort is stable: for a transitive comparator, the elements ranked equal to any given one come out in the order they had in the input |
| Sorting.PermutationKeepsKeysDistinct | components/personal/personal-expense-list.tsx:167 | reordering keeps keys that were pairwise different pairwise different |
| Numerals.Pad2IsDigits | components/personal/personal-filters-drawer.tsx:78-79 | `String(n).padStart(2, "0")` of a number below 100 is its two-digit form |
| Numerals.DigitsOrder | components/personal/personal-filters-drawer.tsx:78-79 | fixed-width digit strings are equal and ordered exactly as the numbers are |
| Dates.ToIsoDate | components/personal/personal-filters-drawer.tsx:75-81 | an absent or invalid date has no ISO form; otherwise the ISO form is the unpadded year, then month+1 and day, each padded to two digits, joined by `-` |
| Dates.IsoDateLayout | components/personal/personal-filters-drawer.tsx:77-80 | for a four-digit year the ISO form has ten characters, dashes at positions 4 and 7, and the padded fields between |
| Dates.IsoDateOrder | lib/mocks/personal-expenses.ts:85-86 | for four-digit years, ISO strings are equal exactly when the dates are, and compare as strings exactly as the dates compare on the calendar |
| Dates.UnpaddedYear | components/personal/personal-filters-drawer.tsx:77-80 | the year is not padded: year 999, January, day 5 gives `999-01-05` |
| Categories.AllCategoryNames | lib/categories.ts:71-73 | the names are the table's names, in table order |
| Categories.AllCategoryNamesOrder | lib/categories.ts:20-73 | there are eight names, `Income` first and `Others` last, no two equal ignoring case |
| Categories.TableNamesDistinct | lib/categories.ts:20-69 | no two table rows have names that are equal ignoring case |
| Categories.FirstMatchUnique | lib/categories.ts:87-91 | when names are distinct ignoring case, the first row the filter keeps is the one row that matches |
| Categories.Lookup | lib/categories.ts:87-91 | the lookup gives the row whose name matches ignoring case, and nothing when no row matches |
| Categories.ExpenseIconColor | lib/categories.ts:98-107 | the text colour of the matching row, and `text-slate-700` when no row matches |
| Categories.ExpenseBadgeClasses | lib/categories.ts:109-118 | the badge classes of the matching row, and the slate badge when no row matches |
| Categories.CategoryIconComponent | lib/categories.ts:75-96 | Wallet for income; for an expense, the icon of the matching row, or Archive when no row matches |
| Categories.CategoryIconColor | lib/categories.ts:121-124 | emerald for income; for an expense, exactly `getExpenseIconColor` |
| Categories.CategoryBadgeClasses | lib/categories.ts:126-133 | the emerald badge for income; for an expense, exactly `getExpenseBadgeClasses` |
| Categories.IncomeStyle | lib/categories.ts:79-80 | income gets Wallet, `text-emerald-700` and the emerald badge whatever its name |
| Categories.LookupIgnoresCase | lib/categories.ts:87-89 | names that are equal ignoring case get the same icon, colour and badge |
| Categories.GroceriesLowerCase | lib/categories.ts:87-91 | `groceries` is styled like `Groceries`: ShoppingCart, sky colour and sky badge |
| Categories.UnknownIsOthers | lib/categories.ts:92-93 | an expense name no row matches is styled exactly like the `Others` row |
| Categories.ExpenseNamedIncome | lib/categories.ts:21-26 | an expense named `income` in any case is styled through the Income row |
| ExpensesMock.Select | lib/mocks/personal-expenses.ts:81-93 | a record is kept exactly when it belongs to the user and passes the filters; the result is a sub-multiset of the data |
| ExpensesMock.CompareRecords | lib/mocks/personal-expenses.ts:94-99 | the comparator is negative exactly when the first record has the later date, or the same date and the later creation time; it is zero exactly when both keys are equal |
| ExpensesMock.MockOrderConsistent | lib/mocks/personal-expenses.ts:94-99 | the comparator induces a total preorder |
| ExpensesMock.SortedMeansNewestFirst | lib/mocks/personal-expenses.ts:94-99 | a sequence sorted by the comparator has dates non-increasing, and creation times non-increasing within a date |
| ExpensesMock.ListPersonalExpenses | lib/mocks/personal-expenses.ts:75-101 | the listing holds exactly the user's records that pass the filters, as a permutation of the filtered records, newest date first and newest creation first within a date |
| ExpensesMock.ListPersonalExpensesMock | lib/mocks/personal-expenses.ts:75-101 | over the fixture, the listing holds exactly the user's fixture records that pass the filters |
| ExpensesMock.DateRangeIsCalendarRange | lib/mocks/personal-expenses.ts:85-86 | with four-digit years, the from/to string bounds keep exactly the records whose dates lie in the inclusive calendar range |
| ExpensesMock.CategoriesTakePrecedence | lib/mocks/personal-expenses.ts:87 | a non-empty category list makes the single category irrelevant |
| ExpensesMock.SingleCategoryFilter | lib/mocks/personal-expenses.ts:87-91 | a single category keeps a record exactly when it is empty or equals the record's category ignoring case |
| ExpensesMock.BlankCategoriesRejectAll | lib/mocks/personal-expenses.ts:88-91 | a selection made only of empty names matches no record |
| ExpensesMock.EmptyFiltersKeepAll | lib/mocks/personal-expenses.ts:83-93 | filters with nothing set keep every record, as no filters do |
| ExpensesMock.MockExpensesInOrder | lib/mocks/personal-expenses.ts:15-66 | the fixture is already in listing order |
| ExpensesMock.SelectOwnUnfiltered | lib/mocks/personal-expenses.ts:81-83 | with no filters, a user's own records are all returned in input order |
| ExpensesMock.DemoUserListing | lib/mocks/personal-expenses.ts:15-66 | with no filters, `demo-user` gets exp_01 to exp_05 in that order |
| ExpenseList.OnDateMembers | components/personal/personal-expense-list.tsx:156-161 | a record is among a date's records exactly when it is in the input with that date |
| ExpenseList.CollectStep | components/personal/personal-expense-list.tsx:157-160 | one iteration keeps the map holding, for each date seen, that date's records in visiting order |
| ExpenseList.CollectByDate | components/personal/personal-expense-list.tsx:155-161 | after the loop, the map's keys are the input's dates, each once, each mapped to that date's records in input order |
| ExpenseList.Entries | components/personal/personal-expense-list.tsx:162-166 | one entry per key, in key order, with its records and their count |
| ExpenseList.EntriesAreRawGroups | components/personal/personal-expense-list.tsx:162-166 | the entries have pairwise different dates, cover every record's date, and count their records |
| ExpenseList.GroupOrderConsistent | components/personal/personal-expense-list.tsx:167 | the group comparator induces a total preorder |
| ExpenseList.CreatedOrderConsistent | components/personal/personal-expense-list.tsx:170 | the item comparator induces a total preorder |
| ExpenseList.SortedRawGroups | components/personal/personal-expense-list.tsx:167 | sorting the groups keeps their contents and makes the dates strictly descending |
| ExpenseList.SortEachGroup | components/personal/personal-expense-list.tsx:168-171 | each group's items are replaced by their stable sort, newest created first, and nothing else changes |
| ExpenseList.GroupByDate | components/personal/personal-expense-list.tsx:154-173 | one non-empty group per date, dates strictly descending, each group holding that date's records sorted newest created first, and counting them |
| ExpenseList.GroupMembers | components/personal/personal-expense-list.tsx:156-160 | a record is in a group exactly when it is in the input and has the group's date |
| ExpenseList.RecordInItsGroup | components/personal/personal-expense-list.tsx:156-160 | every record is in the group of its date and in no other |
| ExpenseList.GroupContents | components/personal/personal-expense-list.tsx:162-171 | a group's count is the number of records of its date, its items are those records, and they are newest created first |
| ExpenseList.CountsSum | components/personal/personal-expense-list.tsx:156-166 | the groups' counts add up to the number of input records |
| ExpenseList.RenderList | components/personal/personal-expense-list.tsx:50-64 | the empty state is shown exactly for an empty list; otherwise a non-empty date grouping is shown |
| QueryParams.Delete | components/personal/personal-filters-drawer.tsx:86-88 | deleting a name removes exactly the pairs with that name; every other name keeps its values, in order |
| QueryParams.Set | components/personal/personal-filters-drawer.tsx:91-92 | after setting, the name has exactly the one value; every other name keeps its pairs and its values, in order |
| QueryParams.DeleteOne | components/personal/personal-filters-drawer.tsx:86-88 | on a single pair, deleting drops it exactly when it has the name |
| QueryParams.DeleteAppend | components/personal/personal-filters-drawer.tsx:86-88 | deleting from two joined lists deletes from each, so the kept pairs stay in their order |
| QueryParams.DeleteLeavesNone | components/personal/personal-filters-drawer.tsx:86-88 | after deleting a name, it has no values |
| QueryParams.GetAllAppend | components/personal/personal-filters-drawer.tsx:94 | the values of a name in two joined lists are its values in the first, then in the second |
| QueryParams.SetWithoutName | components/personal/personal-filters-drawer.tsx:91-92 | setting an absent name appends the pair at the end |
| QueryParams.SetAfterDelete | components/personal/personal-filters-drawer.tsx:86-92 | setting a name just deleted appends the pair at the end |
| QueryParams.DeleteIdempotent | components/personal/personal-filters-drawer.tsx:65-67 | deleting a name twice is deleting it once |
| QueryParams.DeleteCommutes | components/personal/personal-filters-drawer.tsx:86-88 | the order of the deletes does not matter |
| QueryParams.Serialize | components/personal/personal-filters-drawer.tsx:96-97 | the query string is empty exactly when there are no pairs |
| FiltersDrawer.Dedup | components/personal/personal-filters-drawer.tsx:42 | the initial set has each selected category once, and exactly the selected ones |
| FiltersDrawer.Remove | components/personal/personal-filters-drawer.tsx:58 | removal drops exactly the value and keeps the rest distinct |
| FiltersDrawer.Toggled | components/personal/personal-filters-drawer.tsx:56-61 | toggling removes the value if present and adds it if absent; other members are unchanged and the set stays distinct |
| FiltersDrawer.ToggleTwiceSameMembers | components/personal/personal-filters-drawer.tsx:56-61 | toggling the same value twice restores membership |
| FiltersDrawer.ToggleTwiceMayReorder | components/personal/personal-filters-drawer.tsx:56-61 | but not order: toggling `Food` twice in `Food, Transport` gives `Transport, Food` |
| FiltersDrawer.CategoryParams | components/personal/personal-filters-drawer.tsx:93-95 | one `category` pair per selected category, in set order |
| FiltersDrawer.IsoTextTruthy | components/personal/personal-filters-drawer.tsx:91-92 | an ISO date string is never empty, so `if (fromIso)` only tests presence |
| FiltersDrawer.SetDates | components/personal/personal-filters-drawer.tsx:89-92 | after the deletes, setting `from` and `to` appends one pair for each date present |
| FiltersDrawer.AppendCategories | components/personal/personal-filters-drawer.tsx:93-95 | the loop appends one `category` pair per category, and the `category` values become the old ones followed by the categories |
| FiltersDrawer.AppliedFilterPairs | components/personal/personal-filters-drawer.tsx:84-95 | after apply, `from` and `to` each have the ISO date if it exists and nothing otherwise, and `category` has exactly the selected categories in order |
| FiltersDrawer.AppliedKeepsOtherPairs | components/personal/personal-filters-drawer.tsx:84-95 | every name other than `from`, `to` and `category` has the same values, in the same order, after Apply as before, and the same pairs |
| FiltersDrawer.BarePathIffNothingToSay | components/personal/personal-filters-drawer.tsx:96-97 | the pushed URL is the bare pathname exactly when no other pair remains, neither date has an ISO form, and no category is selected |
| FiltersDrawer.Drawer.constructor | components/personal/personal-filters-drawer.tsx:35-42 | the drawer starts closed, with a date parsed from each truthy bound and the selected categories as a set |
| FiltersDrawer.Drawer.ActiveCount | components/personal/personal-filters-drawer.tsx:48-54 | the count is at most 3; it is 0 exactly when nothing is set and 3 exactly when everything is |
| FiltersDrawer.Drawer.SetOpen | components/personal/personal-filters-drawer.tsx:103 | opening or closing changes only `open` |
| FiltersDrawer.Drawer.SelectFrom | components/personal/personal-filters-drawer.tsx:134 | picking a from date changes only the from date |
| FiltersDrawer.Drawer.SelectTo | components/personal/personal-filters-drawer.tsx:154 | picking a to date changes only the to date |
| FiltersDrawer.Drawer.ToggleCat | components/personal/personal-filters-drawer.tsx:56-61 | the category set becomes its toggle, and nothing else changes |
| FiltersDrawer.Drawer.OnClear | components/personal/personal-filters-drawer.tsx:63-73 | the URL is pathname, `?`, and the query without `from`/`to`/`category`; both dates and the set are reset, the drawer closes, and the count is 0 |
| FiltersDrawer.Drawer.OnApply | components/personal/personal-filters-drawer.tsx:83-100 | the URL is built from the rewritten query; the drawer closes and the filters are kept |
| FiltersDrawer.InvalidDateCountsButAddsNoPair | components/personal/personal-filters-drawer.tsx:50 | an invalid from date counts as active, yet apply adds no `from` pair |
| ExpenseSheet.FormIsValid | components/personal/personal-expense-sheet.tsx:80-85 | valid exactly when the amount is accepted and positive, a valid date is present, and the form is income or the trimmed category is non-empty |
| ExpenseSheet.SubmittedValues | components/personal/personal-expense-sheet.tsx:91-97 | the category becomes `Income` for income and the trimmed input otherwise; the note is trimmed; the rest is kept |
| ExpenseSheet.SubmittedStaysValid | components/personal/personal-expense-sheet.tsx:91-97 | the submitted values of a valid form are valid, with category and note already trimmed |
| ExpenseSheet.InsertRow | components/personal/personal-expense-sheet.tsx:111-126 | the inserted row has a positive amount, the ISO date, `is_income` exactly for income, the category, and no comment exactly when the note is empty |
| ExpenseSheet.InsertedRowFromForm | components/personal/personal-expense-sheet.tsx:119-126 | a valid form inserts a positive amount, a non-blank trimmed category (`Income` for income), and a trimmed comment that is absent exactly when the note is blank |
| ExpenseSheet.DoSubmit | components/personal/personal-expense-sheet.tsx:99-127 | with a handler the values go to it; otherwise a session error or a missing user fails (`Not signed in`), and a signed-in user gets `InsertRow` of the values inserted under their id |
| ExpenseSheet.SubmitFor | components/personal/personal-expense-sheet.tsx:87-97 | a submit does something exactly when the form is valid, and then runs `doSubmit` on the submitted values |
| ExpenseSheet.InitialForm | components/personal/personal-expense-sheet.tsx:51-60 | each field starts as the given initial value, or else as its default (an expense, empty texts); the date is the initial date if there is one, otherwise today in add mode and none in edit mode |
| ExpenseSheet.ResetValues | components/personal/personal-expense-sheet.tsx:64-78 | reset always sets a date; add mode restores an empty expense dated today; edit mode restores the initial values, with today as the date when none is given |
| ExpenseSheet.AddResetIsInitial | components/personal/personal-expense-sheet.tsx:65-70 | in add mode, reset gives the same form as the initial one |
| ExpenseSheet.EditResetFillsDate | components/personal/personal-expense-sheet.tsx:74 | in edit mode without an initial date, the form starts undated but reset dates it today |
| ExpenseSheet.Sheet.constructor | components/personal/personal-expense-sheet.tsx:51-61 | the sheet starts closed and idle, with the initial form |
| ExpenseSheet.Sheet.ResetForm | components/personal/personal-expense-sheet.tsx:64-78 | the form becomes the reset values, and nothing else changes |
| ExpenseSheet.Sheet.CanSubmit | components/personal/personal-expense-sheet.tsx:88 | the guard lets a submit through exactly when the form is valid and no submit is in flight |
| ExpenseSheet.Sheet.StartSubmit | components/personal/personal-expense-sheet.tsx:89-136 | past the guard, `doSubmit` starts on the submitted values of the unchanged form, the flag is raised and the sheet closes |
| ExpenseSheet.Sheet.BeginSubmit | components/personal/personal-expense-sheet.tsx:87-136 | an invalid form or a submit in flight changes nothing; otherwise the submit starts, the flag is raised and the sheet closes |
| ExpenseSheet.Sheet.SettleSubmit | components/personal/personal-expense-sheet.tsx:137-143 | the flag is lowered; the form is reset only when the submit succeeded |
| AppShell.IsActive | components/layout/app-shell.tsx:67-69 | a tab is active on its own path, and otherwise only on a longer path starting with its href followed by `/`, never for the root tab |
| AppShell.RootOnlyExact | components/layout/app-shell.tsx:68-69 | the root tab is active exactly on `/` |
| AppShell.DescendantActive | components/layout/app-shell.tsx:69 | any path below a non-root tab activates it |
| AppShell.SiblingNotActive | components/layout/app-shell.tsx:69 | a path extending the href without a `/` does not activate the tab |
| AppShell.PersonalExamples | components/layout/app-shell.tsx:69 | `/personalx` does not activate `/personal`, and `/personal/x` does |
| AppShell.TabTable | components/layout/app-shell.tsx:23-28 | the tabs are `/`, `/personal`, `/groups` and `/profile`, in that order |
| AppShell.ActiveTabKey | components/layout/app-shell.tsx:66-69 | which tab a path activates can be read off its first three characters |
| AppShell.AtMostOneActive | components/layout/app-shell.tsx:66-69 | for this table, at most one tab is active on any path |
| Profile.Initials | app/profile/page.tsx:57-64 | at most two characters; when either trimmed name is non-blank, the uppercased first letter of the first name (if any) followed by that of the last name (if any); otherwise the uppercased first character of the email; empty for a missing profile |
| Profile.EmailOnlyAsFallback | app/profile/page.tsx:60-63 | when either name is non-blank, the email does not matter |
| Profile.InitialsIgnoreSurroundingWhitespace | app/profile/page.tsx:58-59 | whitespace around the first name does not change the initials |
| Profile.AvatarFor | app/profile/page.tsx:84-95 | the image is shown exactly when there is an avatar URL; the placeholder is never empty and shows the initials when there are any |
| Profile.NullProfileShowsQuestionMark | app/profile/page.tsx:94 | before the profile loads, the initials are empty and the placeholder shows `?` |

## Left out

- Validation.IsAmount2dp: does not model `Number.isFinite` turning false for digit strings too large for a double (beyond about 1.8e308). The model accepts such a string; the source rejects it. Floating point is outside the model.
- Validation.To2dpCents: gives the exact amount in integer cents, not `Math.round(n * 100) / 100` on a binary double. For an accepted input only its sign is relied on.
- Records: the record's `amount` is a number in the source and integer cents here. Nothing modelled reads it beyond its sign.
- Text.ToLower and Text.ToUpper: map ASCII letters only. Full Unicode case mapping is out, including mappings that change length, such as `ß` to `SS`.
- Text.LocaleCompare: compares by character code, not by locale collation. The two agree on strings of the same layout that differ only in digits, such as two ISO dates `YYYY-MM-DD`. `createdAt` is an unnormalised timestamp string, and for two of different layouts (`.` against `+` or `Z`, say) locale collation can order them differently from character codes.
- Strings are sequences of characters, not of UTF-16 code units.
- Dates: a date is its local year, month index and day, or invalid. Time zones and the `getTime` clock value are out.
- The clock (`new Date()`) is a `today` parameter.
- FiltersDrawer.Drawer.constructor: `new Date(from)` string parsing is a `parseDate` parameter.
- QueryParams.Serialize: percent-encoding and query-string parsing are out. `toString` joins `name=value` pairs with `&` as given.
- FiltersDrawer.Drawer.OnApply and FiltersDrawer.Drawer.OnClear return the URL instead of calling the router's `push`. The `scroll: false` option is out.
- ExpenseSheet.DoSubmit: the session lookup is a `Session` parameter. The handler call and the insert are returned as actions, not performed.
- ExpenseSheet.Sheet.BeginSubmit and ExpenseSheet.Sheet.SettleSubmit split `handleSubmit` around its `await`. Whether the awaited promise succeeded is a parameter.
- Toast messages are out.
- The sheet's delete handler and its `deleting` flag are out: `components/personal/personal-expense-sheet.tsx:271-291` only forwards to a callback and shows toasts.
- The form's field setters are out: they only assign the typed text.
- The set built at `lib/categories.ts:83-85` is never used, and is not modelled.
- `lib/personal-expenses.ts` and `lib/supabase.ts` are not part of this model. They are thin wrappers over the hosted database client.
- The optimistic create/edit/delete coordinator in `app/(protected)/personal/page.tsx` is not part of this model. It keeps client state around remote calls: temporary ids (`:79`) and rollbacks on failure (`:126`, `:190`, `:203`).
- The profile page's load effect and sign-out handler are out: they are remote calls.
- JSX rendering, `formatCurrency` and `formatDate` are out: they are presentation only.
