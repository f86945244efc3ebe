/**
 * The expense list view: an empty list shows the empty state; otherwise the
 * records are grouped by their ISO date, groups newest first and records
 * within a group newest created first.
 */
module ExpenseList {
  import opened Text
  import opened Sorting
  import opened Records

  datatype DateGroup = DateGroup(date: string, items: seq<PersonalExpense>, count: nat)

  /** The records of `items` dated `date`, in input order. */
  function OnDate(items: seq<PersonalExpense>, date: string): (r: seq<PersonalExpense>)
    ensures |r| <= |items|
  {
    if items == [] then []
    else
      var last := items[|items| - 1];
      assert items == items[..|items| - 1] + [last];
      OnDate(items[..|items| - 1], date) + (if last.date == date then [last] else [])
  }

  /** A record is among the records of a date exactly when it is in the input and carries that date. */
  lemma {:induction false} OnDateMembers(items: seq<PersonalExpense>, date: string)
    ensures forall e :: e in OnDate(items, date) <==> e in items && e.date == date
  {
    if items != [] {
      var init := items[..|items| - 1];
      OnDateMembers(init, date);
      assert items == init + [items[|items| - 1]];
    }
  }

  lemma {:induction false} OnDateAbsent(items: seq<PersonalExpense>, date: string)
    requires forall e :: e in items ==> e.date != date
    ensures OnDate(items, date) == []
  {
    if items != [] {
      OnDateAbsent(items[..|items| - 1], date);
      assert items[|items| - 1] in items;
    }
  }

  /** `b.date.localeCompare(a.date) <= 0`: newest date first. */
  predicate GroupOrder(a: DateGroup, b: DateGroup) {
    LocaleCompare(b.date, a.date) <= 0
  }

  /** `b.createdAt.localeCompare(a.createdAt) <= 0`: newest creation first. */
  predicate CreatedOrder(a: PersonalExpense, b: PersonalExpense) {
    LocaleCompare(b.createdAt, a.createdAt) <= 0
  }

  lemma GroupOrderConsistent()
    ensures TotalPreorder(GroupOrder)
  {
    forall x, y, z | GroupOrder(x, y) && GroupOrder(y, z) ensures GroupOrder(x, z) {
      if LexLess(z.date, y.date) && LexLess(y.date, x.date) {
        LexLessTransitive(z.date, y.date, x.date);
      }
    }
  }

  lemma CreatedOrderConsistent()
    ensures TotalPreorder(CreatedOrder)
  {
    forall x, y, z | CreatedOrder(x, y) && CreatedOrder(y, z) ensures CreatedOrder(x, z) {
      if LexLess(z.createdAt, y.createdAt) && LexLess(y.createdAt, x.createdAt) {
        LexLessTransitive(z.createdAt, y.createdAt, x.createdAt);
      }
    }
  }

  function GroupDate(g: DateGroup): string { g.date }

  /** Groups straight out of the map: one per date, records in input order, dates pairwise different. */
  ghost predicate RawGroups(items: seq<PersonalExpense>, gs: seq<DateGroup>) {
    && (forall j :: 0 <= j < |gs| ==>
          gs[j].items == OnDate(items, gs[j].date) && gs[j].items != [] && gs[j].count == |gs[j].items|)
    && KeysDistinct(gs, GroupDate)
    && (forall e :: e in items ==> exists j :: 0 <= j < |gs| && gs[j].date == e.date)
  }

  /**
   * What `groupByDate(items)` returns: one group per date that occurs, dates
   * strictly newest first, each group holding exactly that date's records
   * (stably sorted newest created first) and counting them.
   */
  ghost predicate IsDateGrouping(items: seq<PersonalExpense>, groups: seq<DateGroup>) {
    && (forall j :: 0 <= j < |groups| ==>
          groups[j].items == SortBy(OnDate(items, groups[j].date), CreatedOrder)
          && groups[j].items != [] && groups[j].count == |groups[j].items|)
    && (forall a, b :: 0 <= a < b < |groups| ==> LexLess(groups[b].date, groups[a].date))
    && (forall e :: e in items ==> exists j :: 0 <= j < |groups| && groups[j].date == e.date)
  }

  /** Sorting the raw groups by date keeps them raw groups and makes the dates strictly descending. */
  lemma SortedRawGroups(items: seq<PersonalExpense>, gs: seq<DateGroup>)
    requires RawGroups(items, gs)
    ensures var s := SortBy(gs, GroupOrder);
            && RawGroups(items, s)
            && forall a, b :: 0 <= a < b < |s| ==> LexLess(s[b].date, s[a].date)
  {
    var s := SortBy(gs, GroupOrder);
    PermutationKeepsKeysDistinct(gs, s, GroupDate);
    GroupOrderConsistent();
    SortBySorted(gs, GroupOrder);
    forall j | 0 <= j < |s| ensures s[j].items == OnDate(items, s[j].date) && s[j].items != [] && s[j].count == |s[j].items| {
      assert s[j] in multiset(gs);
    }
    forall e | e in items ensures exists j :: 0 <= j < |s| && s[j].date == e.date {
      var k :| 0 <= k < |gs| && gs[k].date == e.date;
      assert gs[k] in multiset(s);
    }
    forall a, b | 0 <= a < b < |s| ensures LexLess(s[b].date, s[a].date) {
      assert GroupOrder(s[a], s[b]);
      assert GroupDate(s[a]) != GroupDate(s[b]);
    }
  }

  /**
   * The map after the loop has visited `seen`: its keys are the dates seen, in
   * first-seen order, each mapped to that date's records in visiting order.
   */
  ghost predicate Collected(seen: seq<PersonalExpense>, keys: seq<string>, m: map<string, seq<PersonalExpense>>) {
    && (forall k :: k in m <==> k in keys)
    && (forall a, b :: 0 <= a < b < |keys| ==> keys[a] != keys[b])
    && (forall k :: k in m ==> m[k] == OnDate(seen, k) && m[k] != [])
    && (forall e :: e in seen ==> e.date in m)
  }

  /** One iteration: `arr = map.get(key) ?? []; arr.push(e); map.set(key, arr)` for `e = items[i]`. */
  lemma CollectStep(items: seq<PersonalExpense>, i: int,
                    keys: seq<string>, m: map<string, seq<PersonalExpense>>,
                    keys': seq<string>, m': map<string, seq<PersonalExpense>>)
    requires 0 <= i < |items| && Collected(items[..i], keys, m)
    requires keys' == if items[i].date in m then keys else keys + [items[i].date]
    requires m' == m[items[i].date := (if items[i].date in m then m[items[i].date] else []) + [items[i]]]
    ensures Collected(items[..i + 1], keys', m')
  {
    var seen, e := items[..i], items[i];
    forall k ensures OnDate(items[..i + 1], k) == OnDate(seen, k) + (if e.date == k then [e] else []) {
      OnDateStep(items, i, k);
    }
    if e.date !in m {
      OnDateAbsent(seen, e.date);
    }
    KeysStep(keys, m, e.date, keys', m');
    ValuesStep(seen, items[..i + 1], e, m, m');
    CoverStep(items, i, m, m');
    CollectedIntro(items[..i + 1], keys', m');
  }

  lemma CollectedIntro(seen: seq<PersonalExpense>, keys: seq<string>, m: map<string, seq<PersonalExpense>>)
    requires forall k :: k in m <==> k in keys
    requires forall a, b :: 0 <= a < b < |keys| ==> keys[a] != keys[b]
    requires forall k :: k in m ==> m[k] == OnDate(seen, k) && m[k] != []
    requires forall e :: e in seen ==> e.date in m
    ensures Collected(seen, keys, m)
  {
  }

  /** Every record visited so far, `items[i]` included, has its date in the map. */
  lemma CoverStep(items: seq<PersonalExpense>, i: int, m: map<string, seq<PersonalExpense>>, m': map<string, seq<PersonalExpense>>)
    requires 0 <= i < |items| && items[i].date in m'
    requires forall x :: x in items[..i] ==> x.date in m
    requires forall k :: k in m ==> k in m'
    ensures forall x :: x in items[..i + 1] ==> x.date in m'
  {
    forall x | x in items[..i + 1] ensures x.date in m' {
      var j :| 0 <= j <= i && items[..i + 1][j] == x;
      if j < i {
        assert items[..i][j] == x;
      }
    }
  }

  /** The keys stay the map's domain, without repeats, when a key is set and appended if new. */
  lemma KeysStep(keys: seq<string>, m: map<string, seq<PersonalExpense>>, d: string,
                 keys': seq<string>, m': map<string, seq<PersonalExpense>>)
    requires (forall k :: k in m <==> k in keys) && (forall a, b :: 0 <= a < b < |keys| ==> keys[a] != keys[b])
    requires keys' == if d in m then keys else keys + [d]
    requires d in m' && forall k :: k != d ==> (k in m' <==> k in m)
    ensures forall k :: k in m' <==> k in keys'
    ensures forall a, b :: 0 <= a < b < |keys'| ==> keys'[a] != keys'[b]
  {
  }

  /** Appending `e` to its date's list keeps every list equal to that date's records. */
  lemma ValuesStep(seen: seq<PersonalExpense>, seen': seq<PersonalExpense>, e: PersonalExpense,
                   m: map<string, seq<PersonalExpense>>, m': map<string, seq<PersonalExpense>>)
    requires forall k :: k in m ==> m[k] == OnDate(seen, k) && m[k] != []
    requires forall k :: OnDate(seen', k) == OnDate(seen, k) + (if e.date == k then [e] else [])
    requires e.date !in m ==> OnDate(seen, e.date) == []
    requires m' == m[e.date := (if e.date in m then m[e.date] else []) + [e]]
    ensures forall k :: k in m' ==> m'[k] == OnDate(seen', k) && m'[k] != []
  {
  }

  /** The records of a date among the first `i + 1` are those among the first `i`, then `items[i]` if it has that date. */
  lemma OnDateStep(items: seq<PersonalExpense>, i: int, date: string)
    requires 0 <= i < |items|
    ensures OnDate(items[..i + 1], date) == OnDate(items[..i], date) + (if items[i].date == date then [items[i]] else [])
  {
    var s := items[..i + 1];
    assert s[..|s| - 1] == items[..i];
    assert s[|s| - 1] == items[i];
  }

  /** The `for` loop filling the map. */
  method CollectByDate(items: seq<PersonalExpense>) returns (keys: seq<string>, m: map<string, seq<PersonalExpense>>)
    ensures Collected(items, keys, m)
  {
    keys, m := [], map[];
    var i := 0;
    while i < |items|
      invariant 0 <= i <= |items|
      invariant Collected(items[..i], keys, m)
    {
      var e := items[i];
      ghost var keys0, m0 := keys, m;
      var arr := if e.date in m then m[e.date] else [];
      arr := arr + [e];
      if e.date !in m {
        keys := keys + [e.date];
      }
      m := m[e.date := arr];
      CollectStep(items, i, keys0, m0, keys, m);
      i := i + 1;
    }
    assert items[..i] == items;
  }

  /** `Array.from(map.entries()).map(([date, items]) => ({ date, items, count: items.length }))` */
  method Entries(keys: seq<string>, m: map<string, seq<PersonalExpense>>) returns (raw: seq<DateGroup>)
    requires forall k :: k in keys ==> k in m
    ensures |raw| == |keys|
    ensures forall j :: 0 <= j < |keys| ==> raw[j] == DateGroup(keys[j], m[keys[j]], |m[keys[j]]|)
  {
    raw := [];
    var n := 0;
    while n < |keys|
      invariant 0 <= n <= |keys| && |raw| == n
      invariant forall j :: 0 <= j < n ==> raw[j] == DateGroup(keys[j], m[keys[j]], |m[keys[j]]|)
    {
      raw := raw + [DateGroup(keys[n], m[keys[n]], |m[keys[n]]|)];
      n := n + 1;
    }
  }

  /** One group with its items sorted newest created first. */
  function WithItemsSorted(g: DateGroup): DateGroup {
    g.(items := SortBy(g.items, CreatedOrder))
  }

  /** `for (const g of groups) g.items.sort((a, b) => b.createdAt.localeCompare(a.createdAt))` */
  method SortEachGroup(sorted: seq<DateGroup>) returns (groups: seq<DateGroup>)
    ensures |groups| == |sorted|
    ensures forall j :: 0 <= j < |sorted| ==> groups[j] == sorted[j].(items := SortBy(sorted[j].items, CreatedOrder))
  {
    groups := [];
    var g := 0;
    while g < |sorted|
      invariant 0 <= g <= |sorted| && |groups| == g
      invariant forall j :: 0 <= j < g ==> groups[j] == WithItemsSorted(sorted[j])
    {
      groups := groups + [WithItemsSorted(sorted[g])];
      g := g + 1;
    }
  }

  lemma EntriesAreRawGroups(items: seq<PersonalExpense>, keys: seq<string>, m: map<string, seq<PersonalExpense>>, raw: seq<DateGroup>)
    requires Collected(items, keys, m)
    requires |raw| == |keys| && forall j :: 0 <= j < |keys| ==> raw[j] == DateGroup(keys[j], m[keys[j]], |m[keys[j]]|)
    ensures RawGroups(items, raw)
  {
    forall e | e in items ensures exists j :: 0 <= j < |raw| && raw[j].date == e.date {
      var j :| 0 <= j < |keys| && keys[j] == e.date;
      assert raw[j].date == e.date;
    }
    forall a, b | 0 <= a < b < |raw| ensures GroupDate(raw[a]) != GroupDate(raw[b]) {
    }
  }

  /** `groupByDate(items)` */
  method GroupByDate(items: seq<PersonalExpense>) returns (groups: seq<DateGroup>)
    ensures IsDateGrouping(items, groups)
  {
    var keys, m := CollectByDate(items);
    var raw := Entries(keys, m);
    EntriesAreRawGroups(items, keys, m, raw);
    // `groups.sort((a, b) => b.date.localeCompare(a.date))`
    var sorted := SortBy(raw, GroupOrder);
    SortedRawGroups(items, raw);
    groups := SortEachGroup(sorted);
  }

  /** A group holds exactly the records of its date. */
  lemma GroupMembers(items: seq<PersonalExpense>, groups: seq<DateGroup>, k: int, e: PersonalExpense)
    requires IsDateGrouping(items, groups) && 0 <= k < |groups|
    ensures e in groups[k].items <==> e in items && e.date == groups[k].date
  {
    var on := OnDate(items, groups[k].date);
    assert groups[k].items == SortBy(on, CreatedOrder);
    assert e in groups[k].items <==> e in multiset(on);
    OnDateMembers(items, groups[k].date);
  }

  /** Every record lands in the group of its own date and in no other group. */
  lemma RecordInItsGroup(items: seq<PersonalExpense>, groups: seq<DateGroup>, e: PersonalExpense)
    requires IsDateGrouping(items, groups) && e in items
    ensures exists j :: 0 <= j < |groups| && groups[j].date == e.date && e in groups[j].items
    ensures forall j :: 0 <= j < |groups| && e in groups[j].items ==> groups[j].date == e.date
  {
    var j :| 0 <= j < |groups| && groups[j].date == e.date;
    GroupMembers(items, groups, j, e);
    forall k | 0 <= k < |groups| && e in groups[k].items ensures groups[k].date == e.date {
      GroupMembers(items, groups, k, e);
    }
  }

  /** A group counts exactly the records of its date, and lists them newest created first. */
  lemma GroupContents(items: seq<PersonalExpense>, groups: seq<DateGroup>, j: int)
    requires IsDateGrouping(items, groups) && 0 <= j < |groups|
    ensures groups[j].count == |OnDate(items, groups[j].date)| > 0
    ensures multiset(groups[j].items) == multiset(OnDate(items, groups[j].date))
    ensures forall a, b :: 0 <= a < b < |groups[j].items| ==>
              !LexLess(groups[j].items[a].createdAt, groups[j].items[b].createdAt)
  {
    var g := groups[j].items;
    CreatedOrderConsistent();
    SortBySorted(OnDate(items, groups[j].date), CreatedOrder);
    forall a, b | 0 <= a < b < |g| ensures !LexLess(g[a].createdAt, g[b].createdAt) {
      assert CreatedOrder(g[a], g[b]);
      LexLessAsymmetric(g[a].createdAt, g[b].createdAt);
    }
  }

  /** The sum of the groups' `count` fields. */
  function TotalCount(groups: seq<DateGroup>): nat {
    if groups == [] then 0 else groups[0].count + TotalCount(groups[1..])
  }

  /** The number of records of `items` whose date is one of the groups' dates, counted per group. */
  function SumOn(items: seq<PersonalExpense>, groups: seq<DateGroup>): nat {
    if groups == [] then 0 else |OnDate(items, groups[0].date)| + SumOn(items, groups[1..])
  }

  /** How many groups carry `date`. */
  function Hits(groups: seq<DateGroup>, date: string): nat {
    if groups == [] then 0 else (if groups[0].date == date then 1 else 0) + Hits(groups[1..], date)
  }

  ghost predicate DatesDistinct(groups: seq<DateGroup>) {
    forall a, b :: 0 <= a < b < |groups| ==> groups[a].date != groups[b].date
  }

  lemma {:induction false} CountsAreSizes(items: seq<PersonalExpense>, groups: seq<DateGroup>)
    requires forall j :: 0 <= j < |groups| ==> groups[j].count == |OnDate(items, groups[j].date)|
    ensures TotalCount(groups) == SumOn(items, groups)
  {
    if groups != [] {
      CountsAreSizes(items, groups[1..]);
    }
  }

  lemma {:induction false} SumOnNothing(groups: seq<DateGroup>)
    ensures SumOn([], groups) == 0
  {
    if groups != [] {
      SumOnNothing(groups[1..]);
    }
  }

  /** One more record adds one to the sum for every group of its date. */
  lemma {:induction false} SumOnSnoc(init: seq<PersonalExpense>, last: PersonalExpense, groups: seq<DateGroup>)
    ensures SumOn(init + [last], groups) == SumOn(init, groups) + Hits(groups, last.date)
  {
    if groups != [] {
      assert (init + [last])[..|init|] == init;
      SumOnSnoc(init, last, groups[1..]);
    }
  }

  lemma {:induction false} HitsNone(groups: seq<DateGroup>, date: string)
    requires forall j :: 0 <= j < |groups| ==> groups[j].date != date
    ensures Hits(groups, date) == 0
  {
    if groups != [] {
      HitsNone(groups[1..], date);
    }
  }

  /** With pairwise different dates, a date that occurs is carried by exactly one group. */
  lemma {:induction false} HitsOnce(groups: seq<DateGroup>, date: string, k: int)
    requires DatesDistinct(groups) && 0 <= k < |groups| && groups[k].date == date
    ensures Hits(groups, date) == 1
  {
    if k == 0 {
      HitsNone(groups[1..], date);
    } else {
      HitsOnce(groups[1..], date, k - 1);
    }
  }

  /** Groups with pairwise different dates that cover every record's date account for every record once. */
  lemma {:induction false} SumOnCovers(items: seq<PersonalExpense>, groups: seq<DateGroup>)
    requires DatesDistinct(groups)
    requires forall e :: e in items ==> exists j :: 0 <= j < |groups| && groups[j].date == e.date
    ensures SumOn(items, groups) == |items|
  {
    if items == [] {
      SumOnNothing(groups);
    } else {
      var init, last := items[..|items| - 1], items[|items| - 1];
      assert items == init + [last];
      assert forall e :: e in init ==> e in items;
      SumOnCovers(init, groups);
      SumOnSnoc(init, last, groups);
      assert last in items;
      var k :| 0 <= k < |groups| && groups[k].date == last.date;
      HitsOnce(groups, last.date, k);
    }
  }

  /** The counts of the groups add up to the number of records: nothing is lost or counted twice. */
  lemma CountsSum(items: seq<PersonalExpense>, groups: seq<DateGroup>)
    requires IsDateGrouping(items, groups)
    ensures TotalCount(groups) == |items|
  {
    forall a, b | 0 <= a < b < |groups| ensures groups[a].date != groups[b].date {
      LexLessIrreflexive(groups[a].date);
    }
    forall j | 0 <= j < |groups| ensures groups[j].count == |OnDate(items, groups[j].date)| {
      assert groups[j].items == SortBy(OnDate(items, groups[j].date), CreatedOrder);
    }
    CountsAreSizes(items, groups);
    SumOnCovers(items, groups);
  }

  /** What the list shows: the empty state, or the date groups. */
  datatype ListView = EmptyState | Grouped(groups: seq<DateGroup>)

  /** `PersonalExpenseList`: `if (!items.length)` shows the empty state, otherwise `groupByDate(items)`. */
  method RenderList(items: seq<PersonalExpense>) returns (view: ListView)
    ensures view.EmptyState? <==> items == []
    ensures view.Grouped? ==> IsDateGrouping(items, view.groups) && view.groups != []
  {
    if |items| == 0 {
      return EmptyState;
    }
    var groups := GroupByDate(items);
    assert items[0] in items;
    return Grouped(groups);
  }
}
