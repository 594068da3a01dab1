/**
 * Product popularity (generate_external_api.py), its integer and structural
 * part.
 *
 * `load_metadata` reads review rows (reviewer, product id, rating, ...) and
 * groups the ratings per product: a row is used only when it has at least
 * three columns and its rating parses; the product's entry is created on its
 * first used row, which fixes the product's place in the dictionary's order.
 * `calculate_popularity_score` then emits one record per product, in
 * dictionary order, and sorts them by score, highest first.
 *
 * The rating parser (`float`) and the score formula are inputs; the score is
 * an integer key.
 */
module Popularity {
  import opened Wrappers
  import Lists

  /** The per-product entry: the ratings collected and how many there are. */
  datatype ProductData = ProductData(ratings: seq<real>, reviewCount: nat)

  /** A Python dict from product id to entry: its keys in insertion order, and the entries. */
  datatype ProductTable = ProductTable(order: seq<string>, data: map<string, ProductData>)

  predicate Distinct(xs: seq<string>) {
    forall i, j :: 0 <= i < j < |xs| ==> xs[i] != xs[j]
  }

  /** The keys are listed once each, in some order. */
  predicate Represents(table: ProductTable) {
    && Distinct(table.order)
    && (forall p :: p in table.data ==> p in table.order)
    && (forall k :: 0 <= k < |table.order| ==> table.order[k] in table.data)
  }

  /** What `load_metadata` keeps true of its dictionary. */
  predicate WellFormed(table: ProductTable) {
    && Represents(table)
    && (forall p :: p in table.data ==>
          table.data[p].reviewCount == |table.data[p].ratings| && table.data[p].reviewCount >= 1)
  }

  // ---------------------------------------------------------------------------
  // load_metadata
  // ---------------------------------------------------------------------------

  /** A row that is used: at least three columns and a rating that parses. */
  predicate Accepted(row: seq<string>, parse: string -> Option<real>) {
    |row| >= 3 && parse(row[2]).Some?
  }

  /** One step of the loop: append the rating to the product's entry, creating
      the entry first when the product is new. Unused rows change nothing. */
  function AddRow(table: ProductTable, row: seq<string>, parse: string -> Option<real>): ProductTable {
    if !Accepted(row, parse) then table
    else
      var p := row[1];
      var rating := parse(row[2]).value;
      if p in table.data then
        var old_ := table.data[p];
        table.(data := table.data[p := ProductData(old_.ratings + [rating], old_.reviewCount + 1)])
      else
        ProductTable(table.order + [p], table.data[p := ProductData([rating], 1)])
  }

  /** The dictionary after the loop has read `rows`. */
  function Group(rows: seq<seq<string>>, parse: string -> Option<real>): ProductTable
    decreases |rows|
  {
    if rows == [] then ProductTable([], map[])
    else AddRow(Group(rows[..|rows| - 1], parse), rows[|rows| - 1], parse)
  }

  /** The reading loop of `load_metadata`. */
  method LoadMetadata(rows: seq<seq<string>>, parse: string -> Option<real>) returns (table: ProductTable)
    ensures table == Group(rows, parse)
    ensures WellFormed(table)
  {
    var order: seq<string> := [];
    var data: map<string, ProductData> := map[];
    var i := 0;
    while i < |rows|
      invariant 0 <= i <= |rows|
      invariant ProductTable(order, data) == Group(rows[..i], parse)
    {
      assert rows[..i + 1][..i] == rows[..i];
      ghost var prev := ProductTable(order, data);
      var row := rows[i];
      if |row| >= 3 {
        var productId := row[1];
        var rating := parse(row[2]);
        if rating.Some? {
          if productId !in data {
            order := order + [productId];
            data := data[productId := ProductData([], 0)];
          }
          var entry := data[productId];
          data := data[productId := ProductData(entry.ratings + [rating.value], entry.reviewCount + 1)];
          assert [] + [rating.value] == [rating.value];
        }
      }
      assert ProductTable(order, data) == AddRow(prev, row, parse);
      i := i + 1;
    }
    assert rows[..|rows|] == rows;
    table := ProductTable(order, data);
    GroupWellFormed(rows, parse);
  }

  /** Every entry holds as many ratings as its count says, at least one. */
  lemma {:induction false} GroupWellFormed(rows: seq<seq<string>>, parse: string -> Option<real>)
    ensures WellFormed(Group(rows, parse))
    decreases |rows|
  {
    if rows != [] {
      var prev := Group(rows[..|rows| - 1], parse);
      GroupWellFormed(rows[..|rows| - 1], parse);
      var row := rows[|rows| - 1];
      if Accepted(row, parse) && row[1] !in prev.data {
        var order := prev.order + [row[1]];
        forall i, j | 0 <= i < j < |order| ensures order[i] != order[j] {
          if j == |order| - 1 {
            assert order[i] == prev.order[i];
          } else {
            assert order[i] == prev.order[i] && order[j] == prev.order[j];
          }
        }
      }
    }
  }

  /** The ratings of `p` read from `rows`, defined by filtering rather than by grouping. */
  function RatingsFor(rows: seq<seq<string>>, parse: string -> Option<real>, p: string): seq<real>
    decreases |rows|
  {
    if rows == [] then []
    else
      var row := rows[|rows| - 1];
      RatingsFor(rows[..|rows| - 1], parse, p)
        + (if Accepted(row, parse) && row[1] == p then [parse(row[2]).value] else [])
  }

  /** The grouping agrees with the filter: a product has an entry exactly when
      some used row names it, and its entry holds the ratings of those rows in
      file order. A row whose rating does not parse creates no entry. */
  lemma {:induction false} GroupRatings(rows: seq<seq<string>>, parse: string -> Option<real>, p: string)
    ensures p in Group(rows, parse).data <==> |RatingsFor(rows, parse, p)| > 0
    ensures p in Group(rows, parse).data ==> Group(rows, parse).data[p].ratings == RatingsFor(rows, parse, p)
    decreases |rows|
  {
    if rows != [] {
      GroupRatings(rows[..|rows| - 1], parse, p);
    }
  }

  /** The sum of the counts of the products in `order`. */
  function SumCounts(order: seq<string>, data: map<string, ProductData>): nat
    requires forall k :: 0 <= k < |order| ==> order[k] in data
    decreases |order|
  {
    if order == [] then 0
    else SumCounts(order[..|order| - 1], data) + data[order[|order| - 1]].reviewCount
  }

  lemma {:induction false} SumCountsFrame(order: seq<string>, d1: map<string, ProductData>, d2: map<string, ProductData>)
    requires forall k :: 0 <= k < |order| ==> order[k] in d1 && order[k] in d2
    requires forall k :: 0 <= k < |order| ==> d1[order[k]].reviewCount == d2[order[k]].reviewCount
    ensures SumCounts(order, d1) == SumCounts(order, d2)
    decreases |order|
  {
    if order != [] {
      SumCountsFrame(order[..|order| - 1], d1, d2);
    }
  }

  /** Raising one listed product's count by one raises the sum by one. */
  lemma {:induction false} SumCountsBump(order: seq<string>, data: map<string, ProductData>, p: string, e: ProductData)
    requires Distinct(order)
    requires forall k :: 0 <= k < |order| ==> order[k] in data
    requires p in data && e.reviewCount == data[p].reviewCount + 1
    ensures SumCounts(order, data[p := e]) == SumCounts(order, data) + (if p in order then 1 else 0)
    decreases |order|
  {
    if order != [] {
      var front := order[..|order| - 1];
      var last := order[|order| - 1];
      if last == p {
        assert p !in front;
        SumCountsFrame(front, data, data[p := e]);
      } else {
        SumCountsBump(front, data, p, e);
        assert p in order <==> p in front;
      }
    }
  }

  /** Every used row is counted exactly once: the counts add up to the number of used rows. */
  lemma {:induction false} GroupTotal(rows: seq<seq<string>>, parse: string -> Option<real>)
    ensures var g := Group(rows, parse);
      WellFormed(g) && SumCounts(g.order, g.data) == Lists.Count(rows, (row: seq<string>) => Accepted(row, parse))
    decreases |rows|
  {
    GroupWellFormed(rows, parse);
    if rows != [] {
      var prev := Group(rows[..|rows| - 1], parse);
      var row := rows[|rows| - 1];
      GroupTotal(rows[..|rows| - 1], parse);
      if Accepted(row, parse) {
        var p := row[1];
        var rating := parse(row[2]).value;
        if p in prev.data {
          BumpTotal(prev, p, ProductData(prev.data[p].ratings + [rating], prev.data[p].reviewCount + 1));
        } else {
          NewEntryTotal(prev, p, ProductData([rating], 1));
        }
      }
    }
  }

  /** One more review for a listed product adds one to the total count. */
  lemma BumpTotal(prev: ProductTable, p: string, e: ProductData)
    requires Represents(prev) && p in prev.data && e.reviewCount == prev.data[p].reviewCount + 1
    ensures SumCounts(prev.order, prev.data[p := e]) == SumCounts(prev.order, prev.data) + 1
  {
    SumCountsBump(prev.order, prev.data, p, e);
  }

  /** A new product adds its own count to the total count. */
  lemma NewEntryTotal(prev: ProductTable, p: string, e: ProductData)
    requires Represents(prev) && p !in prev.data
    ensures SumCounts(prev.order + [p], prev.data[p := e]) == SumCounts(prev.order, prev.data) + e.reviewCount
  {
    SumCountsFrame(prev.order, prev.data, prev.data[p := e]);
    assert (prev.order + [p])[..|prev.order|] == prev.order;
  }

  // ---------------------------------------------------------------------------
  // calculate_popularity_score
  // ---------------------------------------------------------------------------

  /** One output record; the average rating and the timestamp are not modelled. */
  datatype PopularityRecord = PopularityRecord(productId: string, popularityScore: int, reviewCount: nat)

  /** The largest count among the products of `order`. */
  function MaxOf(order: seq<string>, data: map<string, ProductData>): (m: nat)
    requires |order| > 0 && forall k :: 0 <= k < |order| ==> order[k] in data
    ensures forall k :: 0 <= k < |order| ==> data[order[k]].reviewCount <= m
    ensures exists k :: 0 <= k < |order| && data[order[k]].reviewCount == m
    decreases |order|
  {
    var c := data[order[|order| - 1]].reviewCount;
    if |order| == 1 then c
    else
      var m := MaxOf(order[..|order| - 1], data);
      if c > m then c else m
  }

  /** `max(review_count for each product)`; Python raises on an empty dictionary. */
  function MaxReviews(table: ProductTable): (m: nat)
    requires Represents(table) && |table.order| > 0
    ensures forall p :: p in table.data ==> table.data[p].reviewCount <= m
    ensures exists p :: p in table.data && table.data[p].reviewCount == m
  {
    var m := MaxOf(table.order, table.data);
    assert forall p :: p in table.data ==> table.data[p].reviewCount <= m by {
      forall p | p in table.data ensures table.data[p].reviewCount <= m {
        var k :| 0 <= k < |table.order| && table.order[k] == p;
      }
    }
    m
  }

  /** Under `load_metadata`'s dictionary the maximum is at least 1, so the
      log-scaled review score never divides by `log10(1) = 0`. */
  lemma MaxReviewsPositive(table: ProductTable)
    requires WellFormed(table) && |table.order| > 0
    ensures MaxReviews(table) >= 1
  {
    assert table.order[0] in table.data;
  }

  /** The records in dictionary order, before sorting. */
  function Unsorted(table: ProductTable, formula: (ProductData, nat) -> int, maxReviews: nat): (r: seq<PopularityRecord>)
    requires forall k :: 0 <= k < |table.order| ==> table.order[k] in table.data
    ensures |r| == |table.order|
  {
    seq(|table.order|, k requires 0 <= k < |table.order| =>
      var p := table.order[k];
      PopularityRecord(p, formula(table.data[p], maxReviews), table.data[p].reviewCount))
  }

  function NegScore(r: PopularityRecord): int {
    -r.popularityScore
  }

  /** The message of the `ValueError` that `max()` raises on an empty list, as
      CPython 3.11 words it (3.12 says "max() iterable argument is empty"). */
  const EmptyMaxError := "max() arg is an empty sequence"

  /** The message of the `ZeroDivisionError` that `log10(c + 1) / log10(0 + 1)`
      raises when every review count is 0. */
  const ZeroDivisionMessage := "float division by zero"

  /** `calculate_popularity_score`: raises on an empty dictionary, and raises
      `ZeroDivisionError` at the first product when the largest review count is
      0; otherwise one record per product in dictionary order, then sorted by
      score, highest first (`reverse=True` is the stable sort on the negated
      key). */
  method CalculatePopularityScore(table: ProductTable, formula: (ProductData, nat) -> int)
    returns (r: Result<seq<PopularityRecord>, string>)
    requires Represents(table)
    ensures r.Failure? <==> |table.order| == 0 || MaxReviews(table) == 0
    ensures r.Failure? ==>
      r.error == (if |table.order| == 0 then EmptyMaxError else ZeroDivisionMessage)
    ensures r.Success? ==>
      r.value == Lists.SortBy(Unsorted(table, formula, MaxReviews(table)), NegScore)
  {
    if |table.order| == 0 {
      return Failure(EmptyMaxError);
    }
    var maxReviews := MaxReviews(table);
    if maxReviews == 0 {
      return Failure(ZeroDivisionMessage);
    }
    var records: seq<PopularityRecord> := [];
    var i := 0;
    while i < |table.order|
      invariant 0 <= i <= |table.order|
      invariant records == Unsorted(table, formula, maxReviews)[..i]
    {
      var productId := table.order[i];
      var data := table.data[productId];
      records := records + [PopularityRecord(productId, formula(data, maxReviews), data.reviewCount)];
      i := i + 1;
    }
    assert records == Unsorted(table, formula, maxReviews);
    r := Success(Lists.SortBy(records, NegScore));
  }

  /** A product's place in the dictionary order (its rank among records). */
  function Position(order: seq<string>, p: string): int {
    if p in order then PositionIn(order, p) else -1
  }

  function PositionIn(order: seq<string>, p: string): (k: nat)
    requires p in order
    ensures k < |order| && order[k] == p
    decreases |order|
  {
    if order[|order| - 1] == p then |order| - 1 else PositionIn(order[..|order| - 1], p)
  }

  lemma PositionOf(order: seq<string>, k: nat)
    requires Distinct(order) && k < |order|
    ensures Position(order, order[k]) == k
  {
    var j := PositionIn(order, order[k]);
    assert order[j] == order[k];
  }

  /** Scoring emits one record per product, in dictionary order, each with the
      product's unchanged count and its formula score. */
  lemma UnsortedRecords(table: ProductTable, formula: (ProductData, nat) -> int)
    requires Represents(table) && |table.order| > 0
    ensures var m := MaxReviews(table); var u := Unsorted(table, formula, m);
      && (forall k :: 0 <= k < |u| ==> u[k].productId == table.order[k])
      && Lists.All(u, (rec: PopularityRecord) => Faithful(table, formula, m, rec))
      && Lists.Increasing(u, (rec: PopularityRecord) => Position(table.order, rec.productId))
  {
    var u := Unsorted(table, formula, MaxReviews(table));
    forall k | 0 <= k < |u| ensures Position(table.order, u[k].productId) == k {
      PositionOf(table.order, k);
    }
  }

  /** A record that carries its product's count and formula score. */
  predicate Faithful(table: ProductTable, formula: (ProductData, nat) -> int, maxReviews: nat, rec: PopularityRecord) {
    && rec.productId in table.data
    && rec.reviewCount == table.data[rec.productId].reviewCount
    && rec.popularityScore == formula(table.data[rec.productId], maxReviews)
  }

  /** The sorted records: a permutation of one record per product, each with the
      product's unchanged count and its formula score; ordered by score, highest
      first, with products of equal score in dictionary order. */
  lemma ScoredRecords(table: ProductTable, formula: (ProductData, nat) -> int)
    requires Represents(table) && |table.order| > 0
    ensures var u := Unsorted(table, formula, MaxReviews(table));
      var s := Lists.SortBy(u, NegScore);
      && multiset(s) == multiset(u)
      && |s| == |table.order|
      && (forall k :: 0 <= k < |s| ==> Faithful(table, formula, MaxReviews(table), s[k]))
      && (forall i, j :: 0 <= i < j < |s| ==> s[i].popularityScore >= s[j].popularityScore)
      && (forall i, j :: 0 <= i < j < |s| && s[i].popularityScore == s[j].popularityScore ==>
            Position(table.order, s[i].productId) < Position(table.order, s[j].productId))
  {
    var m := MaxReviews(table);
    var u := Unsorted(table, formula, m);
    var rank := (rec: PopularityRecord) => Position(table.order, rec.productId);
    UnsortedRecords(table, formula);
    Lists.SortByPermutes(u, NegScore);
    Lists.SortBySorted(u, NegScore);
    Lists.SortByStable(u, NegScore, rank);
    Lists.SortByAll(u, NegScore, (rec: PopularityRecord) => Faithful(table, formula, m, rec));
  }

  /** No product has two records. */
  lemma ScoredRecordsDistinct(table: ProductTable, formula: (ProductData, nat) -> int)
    requires Represents(table) && |table.order| > 0
    ensures var s := Lists.SortBy(Unsorted(table, formula, MaxReviews(table)), NegScore);
      forall i, j :: 0 <= i < j < |s| ==> s[i].productId != s[j].productId
  {
    var m := MaxReviews(table);
    var u := Unsorted(table, formula, m);
    var s := Lists.SortBy(u, NegScore);
    var rank := (rec: PopularityRecord) => Position(table.order, rec.productId);
    UnsortedRecords(table, formula);
    Lists.SortByStable(u, NegScore, rank);
    Lists.SortByAll(u, NegScore, (rec: PopularityRecord) => Faithful(table, formula, m, rec));
    forall i, j | 0 <= i < j < |s| ensures s[i].productId != s[j].productId {
      assert Faithful(table, formula, m, s[i]) && Faithful(table, formula, m, s[j]);
      assert NegScore(s[i]) < NegScore(s[j]) || rank(s[i]) < rank(s[j]);
    }
  }

  /** Every product of the dictionary has a record. */
  lemma EveryProductScored(table: ProductTable, formula: (ProductData, nat) -> int, p: string)
    requires Represents(table) && |table.order| > 0 && p in table.data
    ensures exists k :: (0 <= k < |table.order|
      && Lists.SortBy(Unsorted(table, formula, MaxReviews(table)), NegScore)[k].productId == p)
  {
    var u := Unsorted(table, formula, MaxReviews(table));
    var s := Lists.SortBy(u, NegScore);
    var j := PositionIn(table.order, p);
    Lists.SortByPermutes(u, NegScore);
    assert u[j] in multiset(s);
    var k :| 0 <= k < |s| && s[k] == u[j];
  }
}
