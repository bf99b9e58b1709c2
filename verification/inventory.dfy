/**
 The inventory listing of the dashboard: a free-text, category and status
 filter over a list of item records, the sorted list of all categories, and
 four aggregates over the items that pass the filter.
 */
module Inventory {
  import opened Text
  import opened Ordering
  import opened Subsequence

  /** One inventory record, with the keys of the view's item dictionaries. */
  datatype Item = Item(
    name: string,
    sku: string,
    category: string,
    stock: nat,
    minStock: nat,
    unit: string,
    buyPrice: nat,
    sellPrice: nat,
    status: string)

  /** A query-string parameter: missing from the request, or given (possibly empty). */
  datatype Param = Absent | Given(value: string)

  /** The criteria after normalisation; the empty string means "no constraint". */
  datatype Criteria = Criteria(q: string, category: string, status: string)

  datatype Summary = Summary(totalItems: nat, totalStock: nat, lowStock: nat, totalValue: nat)

  /** The criteria that constrain nothing. */
  const NoCriteria := Criteria("", "", "")

  /** The value of a query parameter, where a missing parameter reads as the empty string. */
  function OrEmpty(p: Param): string {
    if p.Given? then p.value else ""
  }

  /** The criteria as the view prepares them: the free text lower-cased once,
      category and status taken verbatim. */
  function Normalize(q: Param, category: Param, status: Param): (c: Criteria)
    ensures NoUpper(c.q) && |c.q| == |OrEmpty(q)|
    ensures Lower(c.q) == Lower(OrEmpty(q))
    ensures c.q == "" <==> OrEmpty(q) == ""
    ensures c.category == "" <==> (category.Absent? || category.value == "")
    ensures c.status == "" <==> (status.Absent? || status.value == "")
    ensures category.Given? ==> c.category == category.value
    ensures status.Given? ==> c.status == status.value
  {
    LowerIdempotent(OrEmpty(q));
    Criteria(Lower(OrEmpty(q)), OrEmpty(category), OrEmpty(status))
  }

  /** The text the free-text criterion is searched in: name and SKU joined by a space, lower-cased. */
  function SearchText(it: Item): (t: string)
    ensures t == Lower(it.name) + " " + Lower(it.sku)
    ensures |t| == |it.name| + 1 + |it.sku|
  {
    LowerConcat(it.name + " ", it.sku);
    LowerConcat(it.name, " ");
    Lower(it.name + " " + it.sku)
  }

  /** Whether an item passes all three criteria: the lower-cased query, when set,
      occurs in the search text, and category and status, when set, are equal to
      the item's (case-sensitively). */
  function Matches(it: Item, c: Criteria): (m: bool)
    ensures m <==>
      && (c.q == "" || IsSubstring(c.q, SearchText(it)))
      && (c.category == "" || it.category == c.category)
      && (c.status == "" || it.status == c.status)
  {
    && (c.q == "" || Contains(SearchText(it), c.q))
    && (c.category == "" || it.category == c.category)
    && (c.status == "" || it.status == c.status)
  }

  /** The items that pass the criteria, in their original order. */
  function Filter(items: seq<Item>, c: Criteria): (r: seq<Item>)
    ensures |r| <= |items|
    decreases |items|
  {
    if |items| == 0 then []
    else
      var rest := Filter(items[1..], c);
      if Matches(items[0], c) then [items[0]] + rest else rest
  }

  /** The filter result is an order-preserving subsequence of the items; an item
      occurs in it exactly when it occurs in the items and passes the criteria,
      and then as often as it occurs in the items. */
  lemma {:induction false} FilterSpec(items: seq<Item>, c: Criteria)
    ensures Subseq(Filter(items, c), items)
    ensures forall x :: x in Filter(items, c) <==> x in items && Matches(x, c)
    ensures forall x :: multiset(Filter(items, c))[x] == if Matches(x, c) then multiset(items)[x] else 0
    decreases |items|
  {
    if |items| != 0 {
      FilterSpec(items[1..], c);
      var rest := Filter(items[1..], c);
      assert items == [items[0]] + items[1..];
      if Matches(items[0], c) {
        assert ([items[0]] + rest)[1..] == rest;
      }
    }
  }

  /** Filtering a concatenation filters each part. */
  lemma {:induction false} FilterAppend(a: seq<Item>, b: seq<Item>, c: Criteria)
    ensures Filter(a + b, c) == Filter(a, c) + Filter(b, c)
    decreases |a|
  {
    if |a| == 0 {
      assert a + b == b;
    } else {
      var ab := a + b;
      assert ab[0] == a[0] && ab[1..] == a[1..] + b;
      FilterAppend(a[1..], b, c);
    }
  }

  /** Filtering a sequence with a given first item. */
  lemma FilterCons(it: Item, rest: seq<Item>, c: Criteria)
    ensures Filter([it] + rest, c) == (if Matches(it, c) then [it] else []) + Filter(rest, c)
  {
    assert ([it] + rest)[1..] == rest;
  }

  /** Filtering one more item at the end appends it when it matches. */
  lemma FilterSnoc(items: seq<Item>, it: Item, c: Criteria)
    ensures Filter(items + [it], c) == Filter(items, c) + if Matches(it, c) then [it] else []
  {
    FilterAppend(items, [it], c);
    assert [it][1..] == [];
  }

  /** With no criteria every item is kept: the result is the input itself. */
  lemma {:induction false} FilterNoCriteria(items: seq<Item>)
    ensures Filter(items, NoCriteria) == items
    decreases |items|
  {
    if |items| != 0 {
      FilterNoCriteria(items[1..]);
      assert items == [items[0]] + items[1..];
    }
  }

  /** `strong` constrains at least what `weak` constrains: every criterion `weak`
      sets is set to the same value in `strong`. */
  predicate Refines(strong: Criteria, weak: Criteria) {
    && (weak.q == "" || weak.q == strong.q)
    && (weak.category == "" || weak.category == strong.category)
    && (weak.status == "" || weak.status == strong.status)
  }

  /** Adding criteria never enlarges the result: the more constrained result is
      a subsequence of the less constrained one, so it is no longer and holds no
      item the other lacks. */
  lemma FilterMonotone(items: seq<Item>, strong: Criteria, weak: Criteria)
    requires Refines(strong, weak)
    ensures Subseq(Filter(items, strong), Filter(items, weak))
    ensures |Filter(items, strong)| <= |Filter(items, weak)|
    ensures forall x :: x in Filter(items, strong) ==> x in Filter(items, weak)
  {
    FilterSubseq(items, strong, weak);
    SubseqLength(Filter(items, strong), Filter(items, weak));
    SubseqMembers(Filter(items, strong), Filter(items, weak));
  }

  lemma {:induction false} FilterSubseq(items: seq<Item>, strong: Criteria, weak: Criteria)
    requires Refines(strong, weak)
    ensures Subseq(Filter(items, strong), Filter(items, weak))
    decreases |items|
  {
    if |items| != 0 {
      FilterSubseq(items[1..], strong, weak);
      var s, w := Filter(items[1..], strong), Filter(items[1..], weak);
      if Matches(items[0], strong) {
        assert Matches(items[0], weak);
        assert ([items[0]] + s)[1..] == s && ([items[0]] + w)[1..] == w;
      } else if Matches(items[0], weak) {
        if |s| != 0 {
          assert ([items[0]] + w)[1..] == w;
        }
      }
    }
  }

  /** Filtering twice with criteria where the second refines the first is filtering once with the second. */
  lemma {:induction false} FilterRefined(items: seq<Item>, strong: Criteria, weak: Criteria)
    requires Refines(strong, weak)
    ensures Filter(Filter(items, weak), strong) == Filter(items, strong)
    decreases |items|
  {
    if |items| != 0 {
      FilterRefined(items[1..], strong, weak);
      if Matches(items[0], weak) {
        var w := Filter(items[1..], weak);
        assert ([items[0]] + w)[1..] == w;
      }
    }
  }

  /** The query text is lower-cased before matching, so queries that differ only in
      the case of ASCII letters select the same items. */
  lemma QueryCaseInsensitive(items: seq<Item>, q1: Param, q2: Param, category: Param, status: Param)
    requires Lower(OrEmpty(q1)) == Lower(OrEmpty(q2))
    ensures Filter(items, Normalize(q1, category, status)) == Filter(items, Normalize(q2, category, status))
  {
  }

  /** The category of every item, in item order. */
  function CategoryColumn(items: seq<Item>): (cs: seq<string>)
    ensures |cs| == |items|
    ensures forall i :: 0 <= i < |items| ==> cs[i] == items[i].category
  {
    seq(|items|, i requires 0 <= i < |items| => items[i].category)
  }

  /** The distinct categories of all the items, sorted ascending; the criteria play no part. */
  function Categories(items: seq<Item>): (cats: seq<string>)
    ensures StrictlyAscending(cats)
    ensures forall k :: k in cats <==> exists it :: it in items && it.category == k
    ensures |cats| <= |items|
  {
    var column := CategoryColumn(items);
    assert forall k :: k in column <==> exists it :: it in items && it.category == k by {
      forall k
        ensures k in column <==> exists it :: it in items && it.category == k
      {
        if k in column {
          var i :| 0 <= i < |column| && column[i] == k;
          assert items[i] in items;
        }
        if exists it :: it in items && it.category == k {
          var it :| it in items && it.category == k;
          var i :| 0 <= i < |items| && items[i] == it;
          assert column[i] == k;
        }
      }
    }
    SortedDistinct(column)
  }

  /** A listing of the categories is the category list as soon as it is strictly
      ascending and names exactly the categories of the items. */
  lemma CategoriesUnique(items: seq<Item>, cats: seq<string>)
    requires StrictlyAscending(cats)
    requires forall k :: k in cats <==> exists it :: it in items && it.category == k
    ensures cats == Categories(items)
  {
    var r := Categories(items);
    AscendingListingUnique(cats, r);
  }

  /** An item at or below its reorder threshold. */
  predicate IsLow(it: Item) {
    it.stock <= it.minStock
  }

  /** The stock of all the items added up; no single item's stock exceeds it. */
  function TotalStock(items: seq<Item>): (n: nat)
    ensures forall i :: 0 <= i < |items| ==> items[i].stock <= n
    decreases |items|
  {
    if |items| == 0 then 0
    else
      assert forall i :: 1 <= i < |items| ==> items[i] == items[1..][i - 1];
      items[0].stock + TotalStock(items[1..])
  }

  /** The number of items at or below their reorder threshold. */
  function LowStockCount(items: seq<Item>): (n: nat)
    ensures n <= |items|
    decreases |items|
  {
    if |items| == 0 then 0
    else (if IsLow(items[0]) then 1 else 0) + LowStockCount(items[1..])
  }

  /** The stock of each item valued at its purchase price, added up; no single
      item's value exceeds it. */
  function TotalValue(items: seq<Item>): (v: nat)
    ensures forall i :: 0 <= i < |items| ==> items[i].stock * items[i].buyPrice <= v
    decreases |items|
  {
    if |items| == 0 then 0
    else
      assert forall i :: 1 <= i < |items| ==> items[i] == items[1..][i - 1];
      items[0].stock * items[0].buyPrice + TotalValue(items[1..])
  }

  /** The four aggregates of the listing over the given (already filtered) items. */
  function Summarize(items: seq<Item>): (s: Summary)
    ensures s.totalItems == |items|
    ensures s.lowStock <= s.totalItems
    ensures |items| == 0 ==> s == Summary(0, 0, 0, 0)
  {
    Summary(|items|, TotalStock(items), LowStockCount(items), TotalValue(items))
  }

  /** Each aggregate of a concatenation is the sum of the aggregates of its parts. */
  lemma {:induction false} SummarizeAppend(a: seq<Item>, b: seq<Item>)
    ensures TotalStock(a + b) == TotalStock(a) + TotalStock(b)
    ensures LowStockCount(a + b) == LowStockCount(a) + LowStockCount(b)
    ensures TotalValue(a + b) == TotalValue(a) + TotalValue(b)
    decreases |a|
  {
    if |a| == 0 {
      assert a + b == b;
    } else {
      var ab := a + b;
      assert ab[0] == a[0] && ab[1..] == a[1..] + b;
      SummarizeAppend(a[1..], b);
    }
  }

  /** The low-stock count reaches its bounds exactly when all, or none, of the items are low. */
  lemma {:induction false} LowStockExtremes(items: seq<Item>)
    ensures LowStockCount(items) == |items| <==> forall it :: it in items ==> IsLow(it)
    ensures LowStockCount(items) == 0 <==> forall it :: it in items ==> !IsLow(it)
    decreases |items|
  {
    if |items| != 0 {
      LowStockExtremes(items[1..]);
      assert items == [items[0]] + items[1..];
    }
  }

  /** The stock total is zero exactly when every item is out of stock, and the value
      total is zero exactly when every item has no stock or no purchase price. */
  lemma TotalsZero(items: seq<Item>)
    ensures TotalStock(items) == 0 <==> forall it :: it in items ==> it.stock == 0
    ensures TotalValue(items) == 0 <==> forall it :: it in items ==> it.stock == 0 || it.buyPrice == 0
  {
    StockZero(items);
    ValueZero(items);
  }

  lemma {:induction false} StockZero(items: seq<Item>)
    ensures TotalStock(items) == 0 <==> forall it :: it in items ==> it.stock == 0
    decreases |items|
  {
    if |items| != 0 {
      StockZero(items[1..]);
      assert items == [items[0]] + items[1..];
    }
  }

  lemma {:induction false} ValueZero(items: seq<Item>)
    ensures TotalValue(items) == 0 <==> forall it :: it in items ==> it.stock == 0 || it.buyPrice == 0
    decreases |items|
  {
    if |items| != 0 {
      ValueZero(items[1..]);
      assert items == [items[0]] + items[1..];
    }
  }

  /** The match loop of the view: each item in turn, kept when no criterion rules it out. */
  method SelectMatching(items: seq<Item>, c: Criteria) returns (filtered: seq<Item>)
    ensures filtered == Filter(items, c)
  {
    filtered := [];
    for i := 0 to |items|
      invariant filtered == Filter(items[..i], c)
    {
      var it := items[i];
      var text := Lower(it.name + " " + it.sku);
      var keep := true;
      if c.q != "" && !Contains(text, c.q) {
        keep := false;
      }
      if c.category != "" && it.category != c.category {
        keep := false;
      }
      if c.status != "" && it.status != c.status {
        keep := false;
      }
      assert keep == Matches(it, c);
      if keep {
        filtered := filtered + [it];
      }
      assert items[..i + 1] == items[..i] + [it];
      FilterSnoc(items[..i], it, c);
    }
    assert items[..|items|] == items;
  }

  /** The four `len`/`sum` expressions of the view, accumulated in one pass. */
  method Totals(filtered: seq<Item>) returns (summary: Summary)
    ensures summary == Summarize(filtered)
  {
    var totalStock, lowStock, totalValue := 0, 0, 0;
    for j := 0 to |filtered|
      invariant totalStock == TotalStock(filtered[..j])
      invariant lowStock == LowStockCount(filtered[..j])
      invariant totalValue == TotalValue(filtered[..j])
    {
      var it := filtered[j];
      assert [it][1..] == [];
      assert filtered[..j + 1] == filtered[..j] + [it];
      SummarizeAppend(filtered[..j], [it]);
      totalStock := totalStock + it.stock;
      if it.stock <= it.minStock {
        lowStock := lowStock + 1;
      }
      totalValue := totalValue + it.stock * it.buyPrice;
    }
    assert filtered[..|filtered|] == filtered;
    summary := Summary(|filtered|, totalStock, lowStock, totalValue);
  }

  /** The inventory view (lines 62-85 of the dashboard views): normalise the
      criteria, keep the matching items in order, list the categories of all
      items, and total the kept items. */
  method RunInventory(items: seq<Item>, q: Param, category: Param, status: Param)
    returns (filtered: seq<Item>, categories: seq<string>, summary: Summary)
    ensures filtered == Filter(items, Normalize(q, category, status))
    ensures categories == Categories(items)
    ensures summary == Summarize(filtered)
  {
    var c := Normalize(q, category, status);
    filtered := SelectMatching(items, c);
    categories := Categories(items);
    summary := Totals(filtered);
  }
}
