/** The history page: two lists of past checks filtered by one query, the
    empty-list messages, and the click that hands a claim to the chat page. */
module History {

  import opened Text
  import opened Store
  import ResultView

  datatype HistoryItem = HistoryItem(claim: string, assessment: string)

  /** The filter condition: the lower-case claim contains the lower-case
      query. */
  predicate Matches(item: HistoryItem, query: string)
  {
    Contains(Lower(item.claim), Lower(query))
  }

  /** `items.filter(...)`: the matching items, in their original order. */
  function Filter(items: seq<HistoryItem>, query: string): (r: seq<HistoryItem>)
    ensures |r| <= |items|
    ensures forall k :: 0 <= k < |r| ==> r[k] in items && Matches(r[k], query)
    ensures forall x :: x in items && Matches(x, query) ==> x in r
  {
    if items == [] then []
    else
      var rest := Filter(items[1..], query);
      assert forall x :: x in items[1..] ==> x in items;
      assert forall x :: x in items && x != items[0] ==> x in items[1..];
      (if Matches(items[0], query) then [items[0]] else []) + rest
  }

  /** The filtered list keeps the original order: it is a subsequence of
      the list it filters. */
  lemma {:induction false} FilterIsSubsequence(items: seq<HistoryItem>, query: string)
    ensures Subsequence(Filter(items, query), items)
  {
    if items != [] {
      FilterIsSubsequence(items[1..], query);
      var rest := Filter(items[1..], query);
      if Matches(items[0], query) {
        assert Filter(items, query) == [items[0]] + rest;
        assert ([items[0]] + rest)[1..] == rest;
      } else {
        assert Filter(items, query) == rest;
        SubsequenceCons(rest, items[0], items[1..]);
        assert [items[0]] + items[1..] == items;
      }
    }
  }

  /** The filter works item by item: a concatenation is filtered part by
      part, so every matching occurrence is kept, in order. */
  lemma {:induction false} FilterAppend(a: seq<HistoryItem>, b: seq<HistoryItem>, query: string)
    ensures Filter(a + b, query) == Filter(a, query) + Filter(b, query)
  {
    if a != [] {
      assert (a + b)[0] == a[0];
      assert (a + b)[1..] == a[1..] + b;
      FilterAppend(a[1..], b, query);
    } else {
      assert a + b == b;
    }
  }

  /** A single item is kept exactly when it matches. */
  lemma FilterOne(item: HistoryItem, query: string)
    ensures Filter([item], query) == if Matches(item, query) then [item] else []
  {
    assert [item][1..] == [];
  }

  /** An empty query keeps every item. */
  lemma {:induction false} EmptyQueryKeepsAll(items: seq<HistoryItem>)
    ensures Filter(items, "") == items
  {
    if items != [] {
      ContainsEmpty(Lower(items[0].claim));
      assert Lower("") == "";
      EmptyQueryKeepsAll(items[1..]);
    }
  }

  /** The query is matched without regard to case. */
  lemma QueryIgnoresCase(items: seq<HistoryItem>, query: string)
    ensures Filter(items, Lower(query)) == Filter(items, query)
  {
    LowerIdempotent(query);
  }

  /** What a tab shows: the empty-list card with its message, or the items. */
  datatype TabView = NoResults(heading: string, message: string) | ItemList(items: seq<HistoryItem>)

  /** The texts of a tab's empty card: its heading, the start of the
      message that names the query, and the message when there is none. */
  datatype EmptyTexts = EmptyTexts(heading: string, matching: string, noneYet: string)

  const RecentTexts: EmptyTexts :=
    EmptyTexts("No results found", "No history items matching \"", "You haven't checked any facts recently")
  const SavedTexts: EmptyTexts :=
    EmptyTexts("No saved items found", "No saved items matching \"", "You haven't saved any fact checks yet")

  /** A tab (recent or saved, each filtered with the same query): the
      empty card exactly when nothing matches, its message naming the query
      when there is one; otherwise the matching items. */
  function Tab(items: seq<HistoryItem>, query: string, texts: EmptyTexts): (v: TabView)
    ensures v.NoResults? <==> Filter(items, query) == []
    ensures v.ItemList? ==> v.items == Filter(items, query)
    ensures v.NoResults? ==> v.heading == texts.heading
    ensures v.NoResults? ==> v.message == if query != "" then texts.matching + query + "\"" else texts.noneYet
    ensures v.NoResults? ==> (v.message == texts.noneYet <==> query == "" || texts.matching + query + "\"" == texts.noneYet)
  {
    var shown := Filter(items, query);
    if shown == [] then
      NoResults(texts.heading, if query != "" then texts.matching + query + "\"" else texts.noneYet)
    else ItemList(shown)
  }

  /** With no query a tab lists every item, and shows its empty card with
      the no-query message only when there are no items at all. */
  lemma NoQueryShowsAll(items: seq<HistoryItem>, texts: EmptyTexts)
    ensures Tab(items, "", texts) == if items == [] then NoResults(texts.heading, texts.noneYet) else ItemList(items)
  {
    EmptyQueryKeepsAll(items);
  }

  /** The badge class of an item, the same four arms as the result view. */
  function ItemBadge(item: HistoryItem): (cls: string)
    ensures cls == ResultView.BadgeOf(ResultView.CategoryOf(item.assessment))
  {
    ResultView.AssessmentColor(item.assessment)
  }

  /** handleHistoryItemClick: the store gets the item's claim with
      auto-submit on, and the app navigates to the chat page. */
  method HandleHistoryItemClick(store: FactCheckStore, claim: string) returns (navigateTo: string)
    modifies store
    ensures store.claim == claim && store.autoSubmit
    ensures navigateTo == "/"
  {
    store.SetClaim(claim);
    store.SetAutoSubmit(true);
    navigateTo := "/";
  }
}
