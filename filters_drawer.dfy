/**
 * The filters drawer of the personal page: a chosen date range and a set of
 * categories, counted as active filters, and turned into the page's query
 * string on Apply or removed from it on Clear.
 */
module FiltersDrawer {
  import opened Wrappers
  import opened Dates
  import opened QueryParams
  import Numerals

  /** JavaScript truthiness of an optional string: present and not empty. */
  predicate Truthy(o: Option<string>) {
    o.Some? && o.value != ""
  }

  predicate Distinct(s: seq<string>) {
    forall i, j :: 0 <= i < j < |s| ==> s[i] != s[j]
  }

  /** `new Set(values)`: each value once, at its first occurrence. */
  function Dedup(s: seq<string>): (r: seq<string>)
    ensures Distinct(r)
    ensures forall x :: x in r <==> x in s
  {
    if s == [] then []
    else
      var init := Dedup(s[..|s| - 1]);
      assert s == s[..|s| - 1] + [s[|s| - 1]];
      if s[|s| - 1] in init then init else init + [s[|s| - 1]]
  }

  /** `set.delete(value)`: the set without `value`, the others keeping their order. */
  function Remove(s: seq<string>, value: string): (r: seq<string>)
    ensures forall x :: x in r <==> x in s && x != value
    ensures Distinct(s) ==> Distinct(r)
  {
    if s == [] then []
    else
      var rest := Remove(s[1..], value);
      assert s == [s[0]] + s[1..];
      assert Distinct(s) ==> Distinct(s[1..]) && s[0] !in s[1..];
      if s[0] == value then rest else [s[0]] + rest
  }

  /** `toggleCat(value)`: removes a selected value, or adds an unselected one at the end. */
  function Toggled(cats: seq<string>, value: string): (r: seq<string>)
    requires Distinct(cats)
    ensures Distinct(r)
    ensures forall x :: x in r <==> (x in cats <==> x != value)
  {
    if value in cats then Remove(cats, value) else cats + [value]
  }

  /** Toggling a category twice restores the selection as a set. */
  lemma ToggleTwiceSameMembers(cats: seq<string>, value: string)
    requires Distinct(cats)
    ensures forall x :: x in Toggled(Toggled(cats, value), value) <==> x in cats
  {
    var once := Toggled(cats, value);
    var twice := Toggled(once, value);
    forall x ensures x in twice <==> x in cats {
      assert x in twice <==> (x in once <==> x != value);
    }
  }

  /** ... but not its order: a removed and re-added category moves to the end. */
  lemma ToggleTwiceMayReorder(cats: seq<string>)
    requires cats == ["Food", "Transport"]
    ensures Toggled(Toggled(cats, "Food"), "Food") == ["Transport", "Food"]
  {
    assert cats[1..] == ["Transport"] && cats[1..][1..] == [];
    assert Remove(["Transport"], "Food") == ["Transport"] + Remove([], "Food");
    assert Remove(cats, "Food") == ["Transport"];
    assert "Food" !in ["Transport"];
  }

  /** The filter names the drawer owns in the query string. */
  function Cleared(q: seq<Param>): seq<Param> {
    Delete(Delete(Delete(q, "from"), "to"), "category")
  }

  /** `if (iso) params.set(name, iso)` after the name was deleted: a pair only for a truthy text. */
  function DateParam(name: string, iso: Option<string>): seq<Param> {
    if Truthy(iso) then [Param(name, iso.value)] else []
  }

  function CategoryParams(cats: seq<string>): (r: seq<Param>)
    ensures |r| == |cats|
    ensures forall i :: 0 <= i < |cats| ==> r[i] == Param("category", cats[i])
  {
    seq(|cats|, i requires 0 <= i < |cats| => Param("category", cats[i]))
  }

  lemma CategoryParamsSnoc(s: seq<string>, x: string)
    ensures CategoryParams(s + [x]) == CategoryParams(s) + [Param("category", x)]
  {
    assert forall i :: 0 <= i < |s| ==> (s + [x])[i] == s[i];
  }

  /** The query Apply builds: the other pairs, then `from`, `to` and one `category` per selected value. */
  function AppliedQuery(q: seq<Param>, fromDate: Option<JsDate>, toDate: Option<JsDate>, cats: seq<string>): seq<Param> {
    Cleared(q) + DateParam("from", ToIsoDate(fromDate)) + DateParam("to", ToIsoDate(toDate)) + CategoryParams(cats)
  }

  /** `qs ? `${pathname}?${qs}` : pathname` */
  function TargetUrl(pathname: string, qs: string): string {
    if qs != "" then pathname + "?" + qs else pathname
  }

  lemma {:induction false} GetAllAbsent(q: seq<Param>, name: string)
    requires forall p :: p in q ==> p.name != name
    ensures GetAll(q, name) == []
  {
    if q != [] {
      assert q[0] in q;
      GetAllAbsent(q[1..], name);
    }
  }

  lemma {:induction false} GetAllOnly(q: seq<Param>, name: string)
    requires forall p :: p in q ==> p.name == name
    ensures |GetAll(q, name)| == |q| && forall i :: 0 <= i < |q| ==> GetAll(q, name)[i] == q[i].value
  {
    if q != [] {
      assert q[0] in q;
      GetAllOnly(q[1..], name);
    }
  }

  lemma IsoTextTruthy(d: Option<JsDate>)
    ensures ToIsoDate(d).Some? ==> Truthy(ToIsoDate(d))
  {
    if ToIsoDate(d).Some? {
      var s := ToIsoDate(d).value;
      var y := Numerals.IntToString(d.value.year);
      assert s[|y|] == '-';
    }
  }

  /**
   * The filter pairs of the applied query say exactly what is selected: a
   * `from` or `to` for each valid date, and the selected categories in order.
   */
  lemma AppliedFilterPairs(q: seq<Param>, fromDate: Option<JsDate>, toDate: Option<JsDate>, cats: seq<string>)
    ensures var a := AppliedQuery(q, fromDate, toDate, cats);
            && GetAll(a, "from") == (if ToIsoDate(fromDate).Some? then [ToIsoDate(fromDate).value] else [])
            && GetAll(a, "to") == (if ToIsoDate(toDate).Some? then [ToIsoDate(toDate).value] else [])
            && GetAll(a, "category") == cats
  {
    IsoTextTruthy(fromDate);
    IsoTextTruthy(toDate);
    ClearedHasNoFilters(q);
    PairsOfApplied(Cleared(q), ToIsoDate(fromDate), ToIsoDate(toDate), cats);
  }

  lemma ClearedHasNoFilters(q: seq<Param>)
    ensures forall p :: p in Cleared(q) ==> p.name != "from" && p.name != "to" && p.name != "category"
  {
  }

  /** `AppliedFilterPairs` over the cleared pairs and the two date texts. */
  lemma PairsOfApplied(c: seq<Param>, isoFrom: Option<string>, isoTo: Option<string>, cats: seq<string>)
    requires forall p :: p in c ==> p.name != "from" && p.name != "to" && p.name != "category"
    requires isoFrom.Some? ==> Truthy(isoFrom)
    requires isoTo.Some? ==> Truthy(isoTo)
    ensures var a := c + DateParam("from", isoFrom) + DateParam("to", isoTo) + CategoryParams(cats);
            && GetAll(a, "from") == (if isoFrom.Some? then [isoFrom.value] else [])
            && GetAll(a, "to") == (if isoTo.Some? then [isoTo.value] else [])
            && GetAll(a, "category") == cats
  {
    var f, t, k := DateParam("from", isoFrom), DateParam("to", isoTo), CategoryParams(cats);
    GetAllAbsent(c, "from");
    GetAllAbsent(c, "to");
    GetAllAbsent(c, "category");
    GetAllAbsent(k, "from");
    GetAllAbsent(k, "to");
    GetAllOnly(k, "category");
    assert GetAll(k, "category") == cats;
    NameOfFour(c, f, t, k, "from", [], GetAll(f, "from"), [], []);
    NameOfFour(c, f, t, k, "to", [], [], GetAll(t, "to"), []);
    NameOfFour(c, f, t, k, "category", [], [], [], cats);
  }

  /** The values of a name in four joined lists, given its values in each. */
  lemma NameOfFour(c: seq<Param>, f: seq<Param>, t: seq<Param>, k: seq<Param>, name: string,
                   vc: seq<string>, vf: seq<string>, vt: seq<string>, vk: seq<string>)
    requires GetAll(c, name) == vc && GetAll(f, name) == vf && GetAll(t, name) == vt && GetAll(k, name) == vk
    ensures GetAll(c + f + t + k, name) == vc + vf + vt + vk
  {
    GetAllOfFour(c, f, t, k, name);
  }

  lemma GetAllOfFour(c: seq<Param>, f: seq<Param>, t: seq<Param>, k: seq<Param>, name: string)
    ensures GetAll(c + f + t + k, name) == GetAll(c, name) + GetAll(f, name) + GetAll(t, name) + GetAll(k, name)
  {
    GetAllAppend(c + f + t, k, name);
    GetAllAppend(c + f, t, name);
    GetAllAppend(c, f, name);
  }

  /** Pairs with any other name are kept as they were. */
  lemma AppliedKeepsOtherPairs(q: seq<Param>, fromDate: Option<JsDate>, toDate: Option<JsDate>, cats: seq<string>, name: string)
    requires name != "from" && name != "to" && name != "category"
    ensures GetAll(AppliedQuery(q, fromDate, toDate, cats), name) == GetAll(q, name)
    ensures forall p: Param :: p.name == name ==> (p in AppliedQuery(q, fromDate, toDate, cats) <==> p in q)
  {
    var c := Cleared(q);
    var d := DateParam("from", ToIsoDate(fromDate)) + DateParam("to", ToIsoDate(toDate)) + CategoryParams(cats);
    assert AppliedQuery(q, fromDate, toDate, cats) == c + d;
    AddedPairsHaveOtherNames(d, ToIsoDate(fromDate), ToIsoDate(toDate), cats, name);
    ClearedKeepsOtherValues(q, name);
    AppendingOtherNames(q, c, d, name);
  }

  /** Appending pairs of other names to a query that agrees with `q` on `name` keeps it agreeing. */
  lemma AppendingOtherNames(q: seq<Param>, c: seq<Param>, d: seq<Param>, name: string)
    requires GetAll(c, name) == GetAll(q, name)
    requires forall p :: p in c && p.name == name <==> p in q && p.name == name
    requires forall p :: p in d ==> p.name != name
    ensures GetAll(c + d, name) == GetAll(q, name)
    ensures forall p: Param :: p.name == name ==> (p in c + d <==> p in q)
  {
    GetAllAppend(c, d, name);
    GetAllAbsent(d, name);
  }

  lemma ClearedKeepsOtherValues(q: seq<Param>, name: string)
    requires name != "from" && name != "to" && name != "category"
    ensures GetAll(Cleared(q), name) == GetAll(q, name)
  {
    var a := Delete(q, "from");
    var b := Delete(a, "to");
    assert GetAll(a, name) == GetAll(q, name);
    assert GetAll(b, name) == GetAll(a, name);
    assert GetAll(Delete(b, "category"), name) == GetAll(b, name);
  }

  lemma AddedPairsHaveOtherNames(d: seq<Param>, fromIso: Option<string>, toIso: Option<string>, cats: seq<string>, name: string)
    requires name != "from" && name != "to" && name != "category"
    requires d == DateParam("from", fromIso) + DateParam("to", toIso) + CategoryParams(cats)
    ensures forall p :: p in d ==> p.name != name
  {
  }

  /** Apply goes to the bare path exactly when nothing else is in the query and nothing is selected. */
  lemma BarePathIffNothingToSay(pathname: string, q: seq<Param>, fromDate: Option<JsDate>, toDate: Option<JsDate>, cats: seq<string>)
    ensures TargetUrl(pathname, Serialize(AppliedQuery(q, fromDate, toDate, cats))) == pathname
            <==> Cleared(q) == [] && ToIsoDate(fromDate).None? && ToIsoDate(toDate).None? && cats == []
  {
    IsoTextTruthy(fromDate);
    IsoTextTruthy(toDate);
    var url := TargetUrl(pathname, Serialize(AppliedQuery(q, fromDate, toDate, cats)));
    if Serialize(AppliedQuery(q, fromDate, toDate, cats)) != "" {
      assert |url| > |pathname|;
    }
  }

  /** On a query without `from` and `to`, the two `set` calls append the date pairs. */
  lemma SetDates(c: seq<Param>, fromIso: Option<string>, toIso: Option<string>)
    requires forall p :: p in c ==> p.name != "from" && p.name != "to"
    ensures var a := if Truthy(fromIso) then Set(c, "from", fromIso.value) else c;
            (if Truthy(toIso) then Set(a, "to", toIso.value) else a)
            == c + DateParam("from", fromIso) + DateParam("to", toIso)
  {
    GetAllAbsent(c, "from");
    var a := if Truthy(fromIso) then Set(c, "from", fromIso.value) else c;
    if Truthy(fromIso) {
      SetWithoutName(c, "from", fromIso.value);
    }
    assert a == c + DateParam("from", fromIso);
    assert forall p :: p in a ==> p.name != "to";
    GetAllAbsent(a, "to");
    if Truthy(toIso) {
      SetWithoutName(a, "to", toIso.value);
    }
  }

  /** `for (const c of cats) params.append("category", c)` */
  method AppendCategories(params: seq<Param>, cats: seq<string>) returns (r: seq<Param>)
    ensures r == params + CategoryParams(cats)
    ensures GetAll(r, "category") == GetAll(params, "category") + cats
  {
    r := params;
    for i := 0 to |cats|
      invariant r == params + CategoryParams(cats[..i])
    {
      assert cats[..i + 1] == cats[..i] + [cats[i]];
      CategoryParamsSnoc(cats[..i], cats[i]);
      r := r + [Param("category", cats[i])];
    }
    assert cats[..|cats|] == cats;
    GetAllAppend(params, CategoryParams(cats), "category");
    GetAllOnly(CategoryParams(cats), "category");
  }

  /** The drawer's state (`useState` hooks) and its handlers. */
  class Drawer {
    var open: bool
    var fromDate: Option<JsDate>
    var toDate: Option<JsDate>
    /** A `Set<string>`: distinct, in insertion order. */
    var cats: seq<string>

    ghost predicate Valid()
      reads this
    {
      Distinct(cats)
    }

    /** Initial state: closed, dates parsed from the given texts when truthy, categories deduplicated. */
    constructor (from: Option<string>, to: Option<string>, selected: seq<string>, parseDate: string -> JsDate)
      ensures Valid() && !open
      ensures fromDate == (if Truthy(from) then Some(parseDate(from.value)) else None)
      ensures toDate == (if Truthy(to) then Some(parseDate(to.value)) else None)
      ensures cats == Dedup(selected)
    {
      open := false;
      fromDate := if Truthy(from) then Some(parseDate(from.value)) else None;
      toDate := if Truthy(to) then Some(parseDate(to.value)) else None;
      cats := Dedup(selected);
    }

    /**
     * `activeCount`: one for each date that is set (a `Date` object is truthy
     * even when invalid) and one for a non-empty category set.
     */
    function ActiveCount(): (c: nat)
      reads this
      ensures c <= 3
      ensures c == 0 <==> fromDate.None? && toDate.None? && cats == []
      ensures c == 3 <==> fromDate.Some? && toDate.Some? && cats != []
    {
      (if fromDate.Some? then 1 else 0) + (if toDate.Some? then 1 else 0) + (if |cats| > 0 then 1 else 0)
    }

    /** `onOpenChange` */
    method SetOpen(value: bool)
      modifies this
      ensures open == value
      ensures fromDate == old(fromDate) && toDate == old(toDate) && cats == old(cats)
    {
      open := value;
    }

    /** The `from` calendar's `onSelect`. */
    method SelectFrom(d: Option<JsDate>)
      modifies this
      ensures fromDate == d
      ensures open == old(open) && toDate == old(toDate) && cats == old(cats)
    {
      fromDate := d;
    }

    /** The `to` calendar's `onSelect`. */
    method SelectTo(d: Option<JsDate>)
      modifies this
      ensures toDate == d
      ensures open == old(open) && fromDate == old(fromDate) && cats == old(cats)
    {
      toDate := d;
    }

    /** `toggleCat(value)` */
    method ToggleCat(value: string)
      requires Valid()
      modifies this
      ensures Valid() && cats == Toggled(old(cats), value)
      ensures open == old(open) && fromDate == old(fromDate) && toDate == old(toDate)
    {
      cats := Toggled(cats, value);
    }

    /**
     * `onClear()`: removes the filter pairs from `query`, resets the state,
     * closes the drawer and returns the pushed URL, which keeps its `?` even
     * when the query ends up empty.
     */
    method OnClear(query: seq<Param>, pathname: string) returns (url: string)
      modifies this
      ensures url == pathname + "?" + Serialize(Cleared(query))
      ensures Valid() && fromDate.None? && toDate.None? && cats == [] && !open
      ensures ActiveCount() == 0
    {
      var params := Delete(query, "from");
      params := Delete(params, "to");
      params := Delete(params, "category");
      fromDate := None;
      toDate := None;
      cats := [];
      url := pathname + "?" + Serialize(params);
      open := false;
    }

    /** `onApply()`: builds the query from the current selection, closes the drawer and returns the pushed URL. */
    method OnApply(query: seq<Param>, pathname: string) returns (url: string)
      requires Valid()
      modifies this
      ensures url == TargetUrl(pathname, Serialize(AppliedQuery(query, fromDate, toDate, cats)))
      ensures !open && fromDate == old(fromDate) && toDate == old(toDate) && cats == old(cats)
    {
      var params := Delete(query, "from");
      params := Delete(params, "to");
      params := Delete(params, "category");
      var fromIso := ToIsoDate(fromDate);
      var toIso := ToIsoDate(toDate);
      SetDates(params, fromIso, toIso);
      ghost var cleared := params;
      if Truthy(fromIso) {
        params := Set(params, "from", fromIso.value);
      }
      if Truthy(toIso) {
        params := Set(params, "to", toIso.value);
      }
      assert params == cleared + DateParam("from", fromIso) + DateParam("to", toIso);
      if |cats| > 0 {
        params := AppendCategories(params, cats);
      } else {
        assert CategoryParams(cats) == [];
      }
      assert params == AppliedQuery(query, fromDate, toDate, cats);
      var qs := Serialize(params);
      url := if qs != "" then pathname + "?" + qs else pathname;
      open := false;
    }
  }

  /** A selected but invalid date counts as an active filter, yet Apply writes no pair for it. */
  lemma InvalidDateCountsButAddsNoPair(d: Drawer, q: seq<Param>)
    requires d.fromDate == Some(InvalidDate)
    ensures d.ActiveCount() >= 1
    ensures GetAll(AppliedQuery(q, d.fromDate, d.toDate, d.cats), "from") == []
  {
    AppliedFilterPairs(q, d.fromDate, d.toDate, d.cats);
  }
}
