/** `app/explore/page.tsx`: the category chips, the search and category filter, and the chip toggle.
    Lower-casing is the ASCII `ToLower` of `JsStrings`. */
module Explore {
  import opened Options
  import opened ContentModel
  import opened JsStrings

  // ---------------------------------------------------------------------------------------------
  // Categories

  /** `content.map((c) => c.category).filter(Boolean)` */
  function TruthyCategories(content: seq<Content>): (cats: seq<string>)
    ensures forall x :: x in cats <==> exists i :: 0 <= i < |content| && Truthy(content[i].category) && content[i].category.value == x
  {
    if |content| == 0 then []
    else
      var rest := TruthyCategories(content[..|content| - 1]);
      var last := content[|content| - 1];
      assert forall i :: 0 <= i < |content| - 1 ==> content[..|content| - 1][i] == content[i];
      if Truthy(last.category) then rest + [last.category.value] else rest
  }

  /** `Array.from(new Set(xs))`: each value once, in the order of its first occurrence. */
  function Distinct(xs: seq<string>): seq<string> {
    if |xs| == 0 then []
    else
      var d := Distinct(xs[..|xs| - 1]);
      if xs[|xs| - 1] in d then d else d + [xs[|xs| - 1]]
  }

  /** The values are the values of the list, none of them twice. */
  lemma {:induction false} DistinctElements(xs: seq<string>)
    ensures forall x :: x in Distinct(xs) <==> x in xs
    ensures forall i, j :: 0 <= i < j < |Distinct(xs)| ==> Distinct(xs)[i] != Distinct(xs)[j]
  {
    if |xs| > 0 {
      var init := xs[..|xs| - 1];
      DistinctElements(init);
      assert xs == init + [xs[|xs| - 1]];
    }
  }

  /** The index of the first occurrence of `x`. */
  function FirstIndex(xs: seq<string>, x: string): (i: nat)
    requires x in xs
    ensures i < |xs| && xs[i] == x && forall j :: 0 <= j < i ==> xs[j] != x
  {
    if xs[0] == x then 0 else 1 + FirstIndex(xs[1..], x)
  }

  /** The values come in the order in which they first occur. */
  lemma {:induction false} DistinctOrder(xs: seq<string>)
    ensures forall i, j :: 0 <= i < j < |Distinct(xs)| ==>
      Distinct(xs)[i] in xs && Distinct(xs)[j] in xs &&
      FirstIndex(xs, Distinct(xs)[i]) < FirstIndex(xs, Distinct(xs)[j])
  {
    DistinctElements(xs);
    if |xs| > 0 {
      var init := xs[..|xs| - 1];
      var last := xs[|xs| - 1];
      DistinctOrder(init);
      DistinctElements(init);
      var d := Distinct(xs);
      forall y | y in init ensures FirstIndex(xs, y) == FirstIndex(init, y) {
        FirstIndexOfPrefix(init, last, y);
      }
      if last !in init {
        FirstIndexOfLast(init, last);
      }
    }
  }

  /** A value of a list has the same first index once something is appended. */
  lemma FirstIndexOfPrefix(init: seq<string>, last: string, y: string)
    requires y in init
    ensures FirstIndex(init + [last], y) == FirstIndex(init, y)
  {
    var xs := init + [last];
    var i := FirstIndex(init, y);
    assert xs[i] == y;
    assert forall j :: 0 <= j < |init| ==> xs[j] == init[j];
  }

  /** A value new at the end of a list is first found there. */
  lemma FirstIndexOfLast(init: seq<string>, last: string)
    requires last !in init
    ensures FirstIndex(init + [last], last) == |init|
  {
    var xs := init + [last];
    assert xs[|init|] == last;
    assert forall j :: 0 <= j < |init| ==> xs[j] == init[j];
  }

  /** `categories`: each truthy category of the content exactly once, in order of first appearance. */
  function Categories(content: seq<Content>): (cats: seq<string>)
    ensures forall x :: x in cats <==> exists i :: 0 <= i < |content| && content[i].category == Some(x) && x != ""
    ensures forall i, j :: 0 <= i < j < |cats| ==> cats[i] != cats[j]
  {
    DistinctElements(TruthyCategories(content));
    Distinct(TruthyCategories(content))
  }

  // ---------------------------------------------------------------------------------------------
  // The filter

  /** `matchesSearch`: an empty search matches everything; otherwise the lower-cased title,
      description or creator name must contain the lower-cased search. */
  predicate MatchesSearch(item: Content, search: string) {
    search == ""
    || Contains(ToLower(item.title), ToLower(search))
    || Contains(ToLower(item.description), ToLower(search))
    || Contains(ToLower(item.creatorName), ToLower(search))
  }

  /** `matchesCategory`: no selection matches everything; otherwise the category must be the selected one. */
  predicate MatchesCategory(item: Content, selected: Option<string>) {
    !Truthy(selected) || item.category == selected
  }

  predicate Keep(item: Content, search: string, selected: Option<string>) {
    MatchesSearch(item, search) && MatchesCategory(item, selected)
  }

  /** `filtered` */
  function Filtered(content: seq<Content>, search: string, selected: Option<string>): seq<Content> {
    if |content| == 0 then []
    else
      var rest := Filtered(content[..|content| - 1], search, selected);
      var last := content[|content| - 1];
      if Keep(last, search, selected) then rest + [last] else rest
  }

  /** The positions of the items the filter keeps, in increasing order: the reference the filter
      is compared with. */
  function KeptPositions(content: seq<Content>, search: string, selected: Option<string>): (ks: seq<nat>)
    ensures forall k :: 0 <= k < |ks| ==> ks[k] < |content| && Keep(content[ks[k]], search, selected)
    ensures forall k, l :: 0 <= k < l < |ks| ==> ks[k] < ks[l]
    ensures forall i :: 0 <= i < |content| && Keep(content[i], search, selected) ==> i in ks
  {
    if |content| == 0 then []
    else
      var init := content[..|content| - 1];
      var ks := KeptPositions(init, search, selected);
      assert forall k :: 0 <= k < |ks| ==> content[ks[k]] == init[ks[k]];
      assert forall i :: 0 <= i < |content| - 1 ==> content[i] == init[i];
      if Keep(content[|content| - 1], search, selected) then ks + [|content| - 1] else ks
  }

  /** The filter is an order-preserving selection: it holds exactly the items at the kept positions, in order. */
  lemma {:induction false} FilteredIsSelection(content: seq<Content>, search: string, selected: Option<string>)
    ensures var r := Filtered(content, search, selected);
      var ks := KeptPositions(content, search, selected);
      |r| == |ks| && forall k :: 0 <= k < |ks| ==> r[k] == content[ks[k]]
  {
    if |content| > 0 {
      var init := content[..|content| - 1];
      var last := content[|content| - 1];
      FilteredIsSelection(init, search, selected);
      var r0 := Filtered(init, search, selected);
      var ks0 := KeptPositions(init, search, selected);
      var r := Filtered(content, search, selected);
      var ks := KeptPositions(content, search, selected);
      forall k | 0 <= k < |ks0| ensures r[k] == content[ks[k]] {
        assert r[k] == r0[k] && ks[k] == ks0[k];
        assert init[ks0[k]] == content[ks0[k]];
      }
      if Keep(last, search, selected) {
        assert r[|r0|] == last && ks[|ks0|] == |content| - 1;
      }
    }
  }

  /** Membership: an item is in the result exactly when it is in the content and passes both tests. */
  lemma FilteredMembers(content: seq<Content>, search: string, selected: Option<string>)
    ensures forall x :: x in Filtered(content, search, selected) <==> x in content && Keep(x, search, selected)
  {
    var r := Filtered(content, search, selected);
    var ks := KeptPositions(content, search, selected);
    FilteredIsSelection(content, search, selected);
    forall x | x in content && Keep(x, search, selected) ensures x in r {
      var i :| 0 <= i < |content| && content[i] == x;
      var k :| 0 <= k < |ks| && ks[k] == i;
      assert r[k] == x;
    }
  }

  /** With an empty search and no selected category, everything is shown, in order. */
  lemma {:induction false} NoFilterKeepsAll(content: seq<Content>)
    ensures Filtered(content, "", None) == content
  {
    if |content| > 0 {
      NoFilterKeepsAll(content[..|content| - 1]);
    }
  }

  /** Filtering what was filtered with the same search and category changes nothing. */
  lemma {:induction false} FilteredIdempotent(content: seq<Content>, search: string, selected: Option<string>)
    ensures Filtered(Filtered(content, search, selected), search, selected) == Filtered(content, search, selected)
  {
    if |content| > 0 {
      var init := content[..|content| - 1];
      var last := content[|content| - 1];
      FilteredIdempotent(init, search, selected);
      var r := Filtered(init, search, selected);
      if Keep(last, search, selected) {
        assert (r + [last])[..|r|] == r;
      }
    }
  }

  /** The search ignores the case of ASCII letters in the search text. */
  lemma SearchIgnoresCase(item: Content, search: string)
    ensures MatchesSearch(item, ToLower(search)) == MatchesSearch(item, search)
  {
    ToLowerIdempotent(search);
  }

  /** Two search texts that differ only in the ASCII case of their letters select the same items. */
  lemma SearchCaseInsensitive(item: Content, a: string, b: string)
    requires |a| == |b| && forall k :: 0 <= k < |a| ==> SameUpToCase(a[k], b[k])
    ensures MatchesSearch(item, a) == MatchesSearch(item, b)
  {
    ToLowerIgnoresCase(a, b);
  }

  /** Every category chip shown selects at least one item. */
  lemma CategoryChipSelects(content: seq<Content>, cat: string)
    requires cat in Categories(content)
    ensures exists x :: x in Filtered(content, "", Some(cat)) && x.category == Some(cat)
  {
    var i :| 0 <= i < |content| && content[i].category == Some(cat) && cat != "";
    FilteredMembers(content, "", Some(cat));
    assert content[i] in Filtered(content, "", Some(cat));
  }

  // ---------------------------------------------------------------------------------------------
  // Selecting a category

  /** The "All" chip. */
  const AllCategories: Option<string> := None

  /** A category chip: clicking the selected category clears the selection, any other one selects it. */
  function Toggle(selected: Option<string>, cat: string): (r: Option<string>)
    ensures r.None? <==> selected == Some(cat)
    ensures r.Some? ==> r == Some(cat)
  {
    if selected == Some(cat) then None else Some(cat)
  }

  /** Clicking the same chip twice, from no selection or from that chip, comes back to where it started. */
  lemma ToggleTwice(selected: Option<string>, cat: string)
    requires selected.None? || selected == Some(cat)
    ensures Toggle(Toggle(selected, cat), cat) == selected
  {
  }
}
