/**
 * Purchase history derived from reviews (generate_purchase_history.py).
 *
 * `load_reviews` decodes every line of a JSON-lines file after trimming it and
 * silently skips the lines that do not decode. `generate_purchase_history`
 * then maps the decoded reviews, in order, to transaction records numbered
 * from 1 (`TXN` plus eight zero-padded digits), taking missing fields from
 * fixed defaults and adding a quantity and a price drawn at random.
 *
 * The JSON decoder is an input (`decode`), and so are the random draws.
 */
module PurchaseHistory {
  import opened Wrappers
  import Text
  import Decimal
  import Lists

  /** A decoded JSON value. */
  datatype Json =
    | JNull
    | JBool(b: bool)
    | JInt(i: int)
    | JNum(r: real)
    | JStr(s: string)
    | JArray(items: seq<Json>)
    | JObject(fields: map<string, Json>)

  // ---------------------------------------------------------------------------
  // load_reviews
  // ---------------------------------------------------------------------------

  /** Whether a line of the file decodes once trimmed. */
  function Decodes(decode: string -> Option<Json>): string -> bool {
    (line: string) => decode(Text.Strip(line)).Some?
  }

  /** The reviews kept from `lines`: the decoded value of each line that decodes, in file order. */
  function Decoded(lines: seq<string>, decode: string -> Option<Json>): seq<Json>
    decreases |lines|
  {
    if lines == [] then []
    else
      var prev := Decoded(lines[..|lines| - 1], decode);
      match decode(Text.Strip(lines[|lines| - 1]))
      case Some(review) => prev + [review]
      case None => prev
  }

  /** The reading loop of `load_reviews`. */
  method LoadReviews(lines: seq<string>, decode: string -> Option<Json>) returns (reviews: seq<Json>)
    ensures reviews == Decoded(lines, decode)
    ensures |reviews| == Lists.Count(lines, Decodes(decode))
  {
    reviews := [];
    var i := 0;
    while i < |lines|
      invariant 0 <= i <= |lines|
      invariant reviews == Decoded(lines[..i], decode)
    {
      DecodedStep(lines, decode, i);
      var decoded := decode(Text.Strip(lines[i]));
      if decoded.Some? {
        reviews := reviews + [decoded.value];
      }
      i := i + 1;
    }
    assert lines[..|lines|] == lines;
    DecodedCount(lines, decode);
  }

  /** One more line: its value is kept exactly when it decodes. */
  lemma DecodedStep(lines: seq<string>, decode: string -> Option<Json>, i: nat)
    requires i < |lines|
    ensures Decoded(lines[..i + 1], decode) == Decoded(lines[..i], decode)
      + (if decode(Text.Strip(lines[i])).Some? then [decode(Text.Strip(lines[i])).value] else [])
  {
    assert lines[..i + 1][..i] == lines[..i];
  }

  /** One line on its own: kept exactly when it decodes. */
  lemma DecodedSingle(line: string, decode: string -> Option<Json>)
    ensures Decoded([line], decode) ==
      if decode(Text.Strip(line)).Some? then [decode(Text.Strip(line)).value] else []
  {
    assert [line][..0] == [];
  }

  /** Decoding goes line by line: the reviews of a file are those of its first
      part followed by those of the rest. */
  lemma {:induction false} DecodedAppend(a: seq<string>, b: seq<string>, decode: string -> Option<Json>)
    ensures Decoded(a + b, decode) == Decoded(a, decode) + Decoded(b, decode)
    decreases |b|
  {
    if b == [] {
      assert a + b == a;
    } else {
      assert (a + b)[..|a + b| - 1] == a + b[..|b| - 1];
      assert (a + b)[|a + b| - 1] == b[|b| - 1];
      DecodedAppend(a, b[..|b| - 1], decode);
    }
  }

  /** One review per line that decodes; none for a line that does not. */
  lemma {:induction false} DecodedCount(lines: seq<string>, decode: string -> Option<Json>)
    ensures |Decoded(lines, decode)| == Lists.Count(lines, Decodes(decode))
    decreases |lines|
  {
    if lines != [] {
      DecodedCount(lines[..|lines| - 1], decode);
    }
  }

  // ---------------------------------------------------------------------------
  // generate_purchase_history
  // ---------------------------------------------------------------------------

  /** `f"TXN{idx:08d}"` */
  function TransactionId(idx: nat): string {
    "TXN" + Decimal.ZeroPad(idx, 8)
  }

  /** The number a transaction id carries, or -1 when it carries none. */
  function TransactionNumber(id: string): int {
    if |id| >= 3 && id[..3] == "TXN" && Decimal.AllDigits(id[3..]) then Decimal.Parse(id[3..]) else -1
  }

  /** Ids carry their index back, so ids of distinct indices differ; padding is a
      minimum width, so an index needing more than eight digits is kept whole. */
  lemma TransactionIdRoundTrip(idx: nat)
    ensures TransactionNumber(TransactionId(idx)) == idx
    ensures |TransactionId(idx)| >= 11
    ensures idx < Decimal.Pow10(8) ==> |TransactionId(idx)| == 11
  {
    var id := TransactionId(idx);
    Decimal.ZeroPadRoundTrip(idx, 8);
    Decimal.ZeroPadShape(idx, 8);
    assert id[..3] == "TXN";
    assert id[3..] == Decimal.ZeroPad(idx, 8);
    if idx < Decimal.Pow10(8) {
      Decimal.ZeroPadFixedWidth(idx, 8);
    }
  }

  /** A transaction row before it is written out. Review fields are copied as
      decoded values, which need not be strings. */
  datatype PurchaseRecord = PurchaseRecord(
    transactionId: string,
    userId: Json,
    productId: Json,
    transactionDate: Json,
    transactionTime: Json,
    quantity: int,
    price: real,
    rating: Json)

  /** `review.get(key, default)` on a decoded object. */
  function GetOr(fields: map<string, Json>, key: string, default: Json): Json {
    if key in fields then fields[key] else default
  }

  /** The record for the review at 1-based position `idx`; only an object has `.get`. */
  function ToTransaction(idx: nat, review: Json, quantity: int, price: real): PurchaseRecord
    requires review.JObject?
  {
    var f := review.fields;
    PurchaseRecord(
      TransactionId(idx),
      GetOr(f, "reviewerID", JStr("UNKNOWN")),
      GetOr(f, "asin", JStr("UNKNOWN")),
      GetOr(f, "reviewTime", JStr("Unknown")),
      GetOr(f, "unixReviewTime", JInt(0)),
      quantity,
      price,
      GetOr(f, "overall", JNum(0.0)))
  }

  /** The random draws in their ranges: `randint(1, 3)` and `uniform(10.0, 500.0)`. */
  predicate ValidDraws(quantities: seq<int>, prices: seq<real>) {
    && (forall i :: 0 <= i < |quantities| ==> 1 <= quantities[i] <= 3)
    && (forall i :: 0 <= i < |prices| ==> 10.0 <= prices[i] <= 500.0)
  }

  /** The generation loop. A decoded review that is not an object stops it with
      an error at that position (its `.get` raises); otherwise there is one
      record per review, in review order, the record at position i built from
      review i with index i + 1. */
  method GeneratePurchaseHistory(reviews: seq<Json>, quantities: seq<int>, prices: seq<real>)
    returns (r: Result<seq<PurchaseRecord>, nat>)
    requires |quantities| == |reviews| && |prices| == |reviews|
    ensures r.Success? <==> forall i :: 0 <= i < |reviews| ==> reviews[i].JObject?
    ensures r.Failure? ==>
      && r.error < |reviews|
      && !reviews[r.error].JObject?
      && (forall j :: 0 <= j < r.error ==> reviews[j].JObject?)
    ensures r.Success? ==>
      && |r.value| == |reviews|
      && (forall i :: 0 <= i < |reviews| ==>
            r.value[i] == ToTransaction(i + 1, reviews[i], quantities[i], prices[i]))
  {
    var transactions: seq<PurchaseRecord> := [];
    var i := 0;
    while i < |reviews|
      invariant 0 <= i <= |reviews|
      invariant |transactions| == i
      invariant forall j :: 0 <= j < i ==> reviews[j].JObject?
      invariant forall j :: 0 <= j < i ==>
        transactions[j] == ToTransaction(j + 1, reviews[j], quantities[j], prices[j])
    {
      var review := reviews[i];
      if !review.JObject? {
        return Failure(i);
      }
      transactions := transactions + [ToTransaction(i + 1, review, quantities[i], prices[i])];
      i := i + 1;
    }
    r := Success(transactions);
  }

  /** Record ids are distinct and carry their 1-based position, so they
      increase with position; quantities and prices stay in their draw ranges. */
  lemma RecordIds(records: seq<PurchaseRecord>, reviews: seq<Json>, quantities: seq<int>, prices: seq<real>)
    requires |quantities| == |reviews| && |prices| == |reviews| && |records| == |reviews|
    requires forall i :: 0 <= i < |reviews| ==> reviews[i].JObject?
    requires forall i :: 0 <= i < |reviews| ==>
      records[i] == ToTransaction(i + 1, reviews[i], quantities[i], prices[i])
    ensures forall i :: 0 <= i < |records| ==> TransactionNumber(records[i].transactionId) == i + 1
    ensures forall i, j :: 0 <= i < j < |records| ==> records[i].transactionId != records[j].transactionId
    ensures ValidDraws(quantities, prices) ==>
      forall i :: 0 <= i < |records| ==> 1 <= records[i].quantity <= 3 && 10.0 <= records[i].price <= 500.0
  {
    forall i | 0 <= i < |records| ensures TransactionNumber(records[i].transactionId) == i + 1 {
      TransactionIdRoundTrip(i + 1);
    }
  }

  /** Each field is the review's value when the key is present and the fixed
      default when it is absent. */
  lemma RecordFields(idx: nat, fields: map<string, Json>, quantity: int, price: real)
    ensures var t := ToTransaction(idx, JObject(fields), quantity, price);
      && ("reviewerID" in fields ==> t.userId == fields["reviewerID"])
      && ("reviewerID" !in fields ==> t.userId == JStr("UNKNOWN"))
      && ("asin" in fields ==> t.productId == fields["asin"])
      && ("asin" !in fields ==> t.productId == JStr("UNKNOWN"))
      && ("reviewTime" in fields ==> t.transactionDate == fields["reviewTime"])
      && ("reviewTime" !in fields ==> t.transactionDate == JStr("Unknown"))
      && ("unixReviewTime" in fields ==> t.transactionTime == fields["unixReviewTime"])
      && ("unixReviewTime" !in fields ==> t.transactionTime == JInt(0))
      && ("overall" in fields ==> t.rating == fields["overall"])
      && ("overall" !in fields ==> t.rating == JNum(0.0))
  {
  }

  /** The review a record would have been made from. */
  function ReviewOf(t: PurchaseRecord): Json {
    JObject(map[
      "reviewerID" := t.userId,
      "asin" := t.productId,
      "reviewTime" := t.transactionDate,
      "unixReviewTime" := t.transactionTime,
      "overall" := t.rating])
  }

  /** Nothing of a review's five fields is lost: a review holding a record's
      values maps back to exactly that record. */
  lemma ReviewRoundTrip(idx: nat, t: PurchaseRecord)
    requires t.transactionId == TransactionId(idx)
    ensures ToTransaction(idx, ReviewOf(t), t.quantity, t.price) == t
  {
  }

  // ---------------------------------------------------------------------------
  // The CSV table
  // ---------------------------------------------------------------------------

  const Header: seq<string> := [
    "transaction_id", "user_id", "product_id", "transaction_date",
    "transaction_time", "quantity", "price", "rating"]

  /** A record's value under a column name, `None` for an unknown name. */
  function Field(t: PurchaseRecord, name: string): Option<Json> {
    if name == "transaction_id" then Some(JStr(t.transactionId))
    else if name == "user_id" then Some(t.userId)
    else if name == "product_id" then Some(t.productId)
    else if name == "transaction_date" then Some(t.transactionDate)
    else if name == "transaction_time" then Some(t.transactionTime)
    else if name == "quantity" then Some(JInt(t.quantity))
    else if name == "price" then Some(JNum(t.price))
    else if name == "rating" then Some(t.rating)
    else None
  }

  /** `DictWriter.writerow`: the record's values in header order. */
  function Row(t: PurchaseRecord): seq<Json> {
    [JStr(t.transactionId), t.userId, t.productId, t.transactionDate,
     t.transactionTime, JInt(t.quantity), JNum(t.price), t.rating]
  }

  /** The header row followed by one row per record. */
  datatype Table = Table(header: seq<string>, rows: seq<seq<Json>>)

  function CsvTable(records: seq<PurchaseRecord>): Table {
    Table(Header, seq(|records|, i requires 0 <= i < |records| => Row(records[i])))
  }

  /** Eight distinct columns; every row has a cell per column, the cell under a
      column is the record's field of that name, and there is one row per
      record, in record order. */
  lemma TableShape(records: seq<PurchaseRecord>)
    ensures var table := CsvTable(records);
      && |table.header| == 8
      && (forall a, b :: 0 <= a < b < 8 ==> table.header[a] != table.header[b])
      && |table.rows| == |records|
      && (forall i :: 0 <= i < |records| ==> |table.rows[i]| == |table.header|)
      && (forall i, k :: 0 <= i < |records| && 0 <= k < 8 ==>
            Field(records[i], table.header[k]) == Some(table.rows[i][k]))
  {
    var table := CsvTable(records);
    HeaderDistinct();
    forall i, k | 0 <= i < |records| && 0 <= k < 8
      ensures Field(records[i], table.header[k]) == Some(table.rows[i][k])
    {
      HeaderField(records[i], k);
    }
  }

  /** Only "transaction_date" and "transaction_time" share a length, and they
      differ at position 12. */
  lemma HeaderDistinct()
    ensures forall a, b :: 0 <= a < b < 8 ==> Header[a] != Header[b]
  {
    var lengths := [14, 7, 10, 16, 16, 8, 5, 6];
    forall k | 0 <= k < 8 ensures |Header[k]| == lengths[k] {
    }
    assert Header[3][12] == 'd' && Header[4][12] == 't';
  }

  lemma HeaderField(t: PurchaseRecord, k: nat)
    requires k < 8
    ensures Field(t, Header[k]) == Some(Row(t)[k])
  {
    if k == 0 {
      assert Header[0] == "transaction_id";
    } else if k == 1 {
      assert Header[1] == "user_id";
    } else if k == 2 {
      assert Header[2] == "product_id";
    } else if k == 3 {
      assert Header[3] == "transaction_date";
    } else if k == 4 {
      assert Header[4] == "transaction_time";
    } else if k == 5 {
      assert Header[5] == "quantity";
    } else if k == 6 {
      assert Header[6] == "price";
    } else {
      assert Header[7] == "rating";
    }
  }
}
