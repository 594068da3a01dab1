/**
 * Synthetic clickstream events (generate_clickstream.py).
 *
 * For every purchase transaction the generator appends a fixed-shape run of
 * events (a product view, two to five browsing views, an add-to-cart, an
 * optional wishlist and the purchase click), numbering them with one global
 * counter that starts at 1 and formatting each number as `EVT` plus ten
 * zero-padded digits. Each event's timestamp is the purchase time moved back
 * by a drawn offset. The whole list is then sorted by timestamp and counted
 * per event type and per device.
 *
 * The random draws are inputs (`TxnDraws`, one per transaction, and the
 * sample positions); timestamps are integer seconds.
 */
module Clickstream {
  import opened Wrappers
  import Decimal
  import Lists

  datatype Device = Web | Mobile
  datatype EventKind = ProductView | AddToCart | Wishlist | PurchaseClick

  /** One row of the purchase history, as the generator reads it. */
  datatype Transaction = Transaction(userId: string, productId: string, transactionTime: int)

  datatype Event = Event(
    eventId: string,
    userId: string,
    productId: string,
    kind: EventKind,
    timestamp: int,
    device: Device)

  /** The product a browsing view looks at: the purchased one, or `BROWSE<n>`. */
  datatype BrowsedProduct = SameProduct | OtherProduct(n: nat)

  datatype BrowseDraw = BrowseDraw(minutesBefore: int, product: BrowsedProduct)

  /** The random draws made for one transaction. */
  datatype TxnDraws = TxnDraws(
    device: Device,
    viewHoursBefore: int,
    browses: seq<BrowseDraw>,
    cartMinutesBefore: int,
    wishlistMinutesBefore: Option<int>)

  predicate ValidBrowse(b: BrowseDraw) {
    10 <= b.minutesBefore <= 300 && (b.product.OtherProduct? ==> 1000 <= b.product.n <= 9999)
  }

  /** The ranges of `random.randint` in the generator. */
  predicate ValidDraws(d: TxnDraws) {
    && 1 <= d.viewHoursBefore <= 24
    && 2 <= |d.browses| <= 5
    && (forall k :: 0 <= k < |d.browses| ==> ValidBrowse(d.browses[k]))
    && 5 <= d.cartMinutesBefore <= 60
    && (d.wishlistMinutesBefore.Some? ==> 10 <= d.wishlistMinutesBefore.value <= 120)
  }

  // ---------------------------------------------------------------------------
  // Event ids
  // ---------------------------------------------------------------------------

  /** `f"EVT{n:010d}"` */
  function EventId(n: nat): string {
    "EVT" + Decimal.ZeroPad(n, 10)
  }

  /** The counter value an event id carries, or -1 when it carries none. */
  function EventNumber(e: Event): int {
    var id := e.eventId;
    if |id| >= 3 && id[..3] == "EVT" && Decimal.AllDigits(id[3..]) then Decimal.Parse(id[3..]) else -1
  }

  /** The counter is recovered from the id, so distinct counters give distinct ids. */
  lemma EventIdRoundTrip(n: nat, e: Event)
    requires e.eventId == EventId(n)
    ensures EventNumber(e) == n
    ensures |e.eventId| >= 13
  {
    Decimal.ZeroPadRoundTrip(n, 10);
    Decimal.ZeroPadShape(n, 10);
    assert e.eventId[..3] == "EVT";
    assert e.eventId[3..] == Decimal.ZeroPad(n, 10);
  }

  lemma EventIdInjective(n: nat, m: nat)
    ensures EventId(n) == EventId(m) <==> n == m
  {
    if EventId(n) == EventId(m) {
      assert EventId(n)[3..] == Decimal.ZeroPad(n, 10);
      assert EventId(m)[3..] == Decimal.ZeroPad(m, 10);
      Decimal.ZeroPadInjective(n, m, 10, 10);
    }
  }

  // ---------------------------------------------------------------------------
  // The events of one transaction
  // ---------------------------------------------------------------------------

  function Ev(n: nat, t: Transaction, product: string, kind: EventKind, time: int, device: Device): Event {
    Event(EventId(n), t.userId, product, kind, time, device)
  }

  function BrowsedProductId(t: Transaction, p: BrowsedProduct): string {
    match p
    case SameProduct => t.productId
    case OtherProduct(n) => "BROWSE" + Decimal.Digits(n)
  }

  function CartTime(t: Transaction, d: TxnDraws): int {
    t.transactionTime - 60 * d.cartMinutesBefore
  }

  function WishlistCount(d: TxnDraws): nat {
    if d.wishlistMinutesBefore.Some? then 1 else 0
  }

  /** The event at position `k` of the run appended for transaction `t`, whose
      first event carries counter value `first`: the initial view (1), the
      browsing views (2), the add-to-cart (3), the wishlist when one was drawn
      (4), and the purchase click (5). */
  function SlotEvent(t: Transaction, d: TxnDraws, first: nat, k: nat): Event {
    var b := |d.browses|;
    var n := first + k;
    if k == 0 then
      Ev(n, t, t.productId, ProductView, t.transactionTime - 3600 * d.viewHoursBefore, d.device)
    else if k <= b then
      var draw := d.browses[k - 1];
      Ev(n, t, BrowsedProductId(t, draw.product), ProductView, t.transactionTime - 60 * draw.minutesBefore, d.device)
    else if k == b + 1 then
      Ev(n, t, t.productId, AddToCart, CartTime(t, d), d.device)
    else if k == b + 2 && d.wishlistMinutesBefore.Some? then
      Ev(n, t, t.productId, Wishlist, CartTime(t, d) - 60 * d.wishlistMinutesBefore.value, d.device)
    else
      Ev(n, t, t.productId, PurchaseClick, t.transactionTime, d.device)
  }

  /** The events appended for transaction `t`, numbered from `first`. */
  function TransactionEvents(t: Transaction, d: TxnDraws, first: nat): (r: seq<Event>)
    ensures |r| == 3 + |d.browses| + WishlistCount(d)
  {
    seq(3 + |d.browses| + WishlistCount(d), k requires 0 <= k => SlotEvent(t, d, first, k))
  }

  /** The events appended for all of `txns`, numbered from `first`, before sorting. */
  function GeneratedEvents(txns: seq<Transaction>, draws: seq<TxnDraws>, first: nat): (r: seq<Event>)
    requires |draws| == |txns|
    decreases |txns|
  {
    if txns == [] then []
    else
      var prev := GeneratedEvents(txns[..|txns| - 1], draws[..|draws| - 1], first);
      prev + TransactionEvents(txns[|txns| - 1], draws[|draws| - 1], first + |prev|)
  }

  /** The generation loop for one transaction: appends its events to `events`
      and advances the counter by one per event. */
  method AppendTransactionEvents(events: seq<Event>, eventId: nat, t: Transaction, d: TxnDraws)
    returns (out: seq<Event>, next: nat)
    ensures out == events + TransactionEvents(t, d, eventId)
    ensures next == eventId + |TransactionEvents(t, d, eventId)|
  {
    ghost var run := TransactionEvents(t, d, eventId);
    var b := |d.browses|;
    var purchaseTime := t.transactionTime;
    var view := Ev(eventId, t, t.productId, ProductView, purchaseTime - 3600 * d.viewHoursBefore, d.device);
    var browsing := BrowseViews(eventId, t, d);
    assert [view] + browsing == run[..1 + b];
    out := events + ([view] + browsing);
    next := eventId + 1 + b;
    var cartTime := purchaseTime - 60 * d.cartMinutesBefore;
    var cart := Ev(next, t, t.productId, AddToCart, cartTime, d.device);
    assert cart == run[1 + b];
    Extend(events, run, 1 + b);
    out := out + [cart];
    next := next + 1;
    if d.wishlistMinutesBefore.Some? {
      var wish := Ev(next, t, t.productId, Wishlist, cartTime - 60 * d.wishlistMinutesBefore.value, d.device);
      assert wish == run[2 + b];
      Extend(events, run, 2 + b);
      out := out + [wish];
      next := next + 1;
    }
    var purchase := Ev(next, t, t.productId, PurchaseClick, purchaseTime, d.device);
    assert purchase == run[|run| - 1];
    Extend(events, run, |run| - 1);
    out := out + [purchase];
    next := next + 1;
    assert run[..|run|] == run;
  }

  /** The browsing loop: one product view per browse draw, numbered on from the
      initial view `eventId`. */
  method BrowseViews(eventId: nat, t: Transaction, d: TxnDraws) returns (views: seq<Event>)
    ensures views == TransactionEvents(t, d, eventId)[1..1 + |d.browses|]
  {
    ghost var run := TransactionEvents(t, d, eventId);
    var purchaseTime := t.transactionTime;
    var next := eventId + 1;
    views := [];
    var j := 0;
    while j < |d.browses|
      invariant 0 <= j <= |d.browses|
      invariant next == eventId + 1 + j
      invariant views == run[1..1 + j]
    {
      var draw := d.browses[j];
      var browsed := if draw.product.SameProduct? then t.productId else "BROWSE" + Decimal.Digits(draw.product.n);
      var browse := Ev(next, t, browsed, ProductView, purchaseTime - 60 * draw.minutesBefore, d.device);
      assert browse == run[1 + j];
      assert run[1..2 + j] == run[1..1 + j] + [run[1 + j]];
      views := views + [browse];
      next := next + 1;
      j := j + 1;
    }
  }

  lemma Extend<T>(events: seq<T>, run: seq<T>, m: nat)
    requires m < |run|
    ensures events + run[..m] + [run[m]] == events + run[..m + 1]
  {
    assert run[..m + 1] == run[..m] + [run[m]];
  }

  /** The generation loop over all transactions, with the counter starting at 1. */
  method BuildEvents(txns: seq<Transaction>, draws: seq<TxnDraws>) returns (events: seq<Event>)
    requires |draws| == |txns|
    ensures events == GeneratedEvents(txns, draws, 1)
  {
    events := [];
    var eventId: nat := 1;
    var i := 0;
    while i < |txns|
      invariant 0 <= i <= |txns|
      invariant events == GeneratedEvents(txns[..i], draws[..i], 1)
      invariant eventId == 1 + |events|
    {
      assert txns[..i + 1][..i] == txns[..i];
      assert draws[..i + 1][..i] == draws[..i];
      assert GeneratedEvents(txns[..i + 1], draws[..i + 1], 1)
        == events + TransactionEvents(txns[i], draws[i], 1 + |events|);
      events, eventId := AppendTransactionEvents(events, eventId, txns[i], draws[i]);
      i := i + 1;
    }
    assert txns[..|txns|] == txns;
    assert draws[..|draws|] == draws;
  }

  // ---------------------------------------------------------------------------
  // Shape and timing of one transaction's events
  // ---------------------------------------------------------------------------

  /** The events of a transaction, in order: a product view, one product view per
      browse draw, an add-to-cart, a wishlist exactly when one was drawn, and the
      purchase click; five to nine events, all of the transaction's user and of
      the one device drawn for it. */
  lemma TransactionShape(t: Transaction, d: TxnDraws, first: nat)
    requires ValidDraws(d)
    ensures var r := TransactionEvents(t, d, first); var b := |d.browses|;
      && 5 <= |r| <= 9
      && (forall k :: 0 <= k < |r| ==> r[k].userId == t.userId && r[k].device == d.device)
      && (forall k :: 0 <= k <= b ==> r[k].kind == ProductView)
      && r[b + 1].kind == AddToCart
      && (d.wishlistMinutesBefore.Some? <==> |r| == b + 4)
      && (d.wishlistMinutesBefore.Some? ==> r[b + 2].kind == Wishlist)
      && r[|r| - 1].kind == PurchaseClick
  {
  }

  /** A product id a browsing view may carry for transaction `t`. */
  predicate BrowsableId(t: Transaction, id: string) {
    id == t.productId || exists n :: 1000 <= n <= 9999 && id == "BROWSE" + Decimal.Digits(n)
  }

  /** Browsing views carry the purchased product or `BROWSE<n>` with n in
      [1000, 9999]; every other event carries the purchased product. */
  lemma TransactionProducts(t: Transaction, d: TxnDraws, first: nat)
    requires ValidDraws(d)
    ensures var r := TransactionEvents(t, d, first); var b := |d.browses|;
      && (forall k :: 0 <= k < |r| && !(1 <= k <= b) ==> r[k].productId == t.productId)
      && (forall k :: 1 <= k <= b ==> BrowsableId(t, r[k].productId))
  {
    var r := TransactionEvents(t, d, first);
    forall k | 1 <= k <= |d.browses| ensures BrowsableId(t, r[k].productId) {
      var draw := d.browses[k - 1];
      assert ValidBrowse(draw);
      if draw.product.OtherProduct? {
        assert r[k].productId == "BROWSE" + Decimal.Digits(draw.product.n);
      }
    }
  }

  /** Timestamps: the first view 1 to 24 hours before the purchase, each browse
      10 to 300 minutes before, the cart 5 to 60 minutes before, a wishlist 10 to
      120 minutes before the cart, and the purchase click exactly at the
      transaction time. Hence every other event is strictly earlier than the
      purchase click, and a wishlist strictly earlier than the add-to-cart. */
  lemma TransactionTiming(t: Transaction, d: TxnDraws, first: nat)
    requires ValidDraws(d)
    ensures var r := TransactionEvents(t, d, first); var b := |d.browses|; var p := t.transactionTime;
      && p - 24 * 3600 <= r[0].timestamp <= p - 3600
      && (forall k :: 1 <= k <= b ==> p - 300 * 60 <= r[k].timestamp <= p - 10 * 60)
      && p - 60 * 60 <= r[b + 1].timestamp <= p - 5 * 60
      && (d.wishlistMinutesBefore.Some? ==>
            r[b + 1].timestamp - 120 * 60 <= r[b + 2].timestamp <= r[b + 1].timestamp - 10 * 60)
      && r[|r| - 1].timestamp == p
      && (forall k :: 0 <= k < |r| - 1 ==> r[k].timestamp < p)
  {
    var r := TransactionEvents(t, d, first);
    var p := t.transactionTime;
    forall k | 0 <= k < |r|
      ensures 1 <= k <= |d.browses| ==> p - 300 * 60 <= r[k].timestamp <= p - 10 * 60
      ensures k < |r| - 1 ==> r[k].timestamp < p
    {
      if 1 <= k <= |d.browses| {
        assert ValidBrowse(d.browses[k - 1]);
      }
    }
  }

  /** Every id of a run of events, numbered from `first`. */
  predicate IdsFrom(xs: seq<Event>, first: nat) {
    forall k :: 0 <= k < |xs| ==> xs[k].eventId == EventId(first + k)
  }

  lemma IdsFromAppend(a: seq<Event>, b: seq<Event>, first: nat)
    requires IdsFrom(a, first) && IdsFrom(b, first + |a|)
    ensures IdsFrom(a + b, first)
  {
    forall k | 0 <= k < |a + b| ensures (a + b)[k].eventId == EventId(first + k) {
      if k >= |a| {
        assert (a + b)[k] == b[k - |a|];
      }
    }
  }

  // ---------------------------------------------------------------------------
  // The whole generated list
  // ---------------------------------------------------------------------------

  /** Event k of the generated list carries counter value `first + k`: the
      counter advances by one per appended event, across transactions. */
  lemma {:induction false} GeneratedIds(txns: seq<Transaction>, draws: seq<TxnDraws>, first: nat)
    requires |draws| == |txns|
    ensures IdsFrom(GeneratedEvents(txns, draws, first), first)
    decreases |txns|
  {
    if txns != [] {
      var prev := GeneratedEvents(txns[..|txns| - 1], draws[..|draws| - 1], first);
      var last := TransactionEvents(txns[|txns| - 1], draws[|draws| - 1], first + |prev|);
      GeneratedIds(txns[..|txns| - 1], draws[..|draws| - 1], first);
      assert IdsFrom(last, first + |prev|);
      IdsFromAppend(prev, last, first);
    }
  }

  /** All generated ids are distinct. */
  lemma GeneratedIdsDistinct(txns: seq<Transaction>, draws: seq<TxnDraws>)
    requires |draws| == |txns|
    ensures var g := GeneratedEvents(txns, draws, 1);
      forall i, j :: 0 <= i < j < |g| ==> g[i].eventId != g[j].eventId
  {
    var g := GeneratedEvents(txns, draws, 1);
    GeneratedIds(txns, draws, 1);
    forall i, j | 0 <= i < j < |g| ensures g[i].eventId != g[j].eventId {
      EventIdInjective(1 + i, 1 + j);
    }
  }

  /** The counter carried by the ids numbers the generation order from 1, so it
      strictly increases along the generated list. */
  lemma GeneratedNumbers(txns: seq<Transaction>, draws: seq<TxnDraws>)
    requires |draws| == |txns|
    ensures var g := GeneratedEvents(txns, draws, 1);
      && (forall k :: 0 <= k < |g| ==> EventNumber(g[k]) == k + 1)
      && Lists.Increasing(g, EventNumber)
  {
    var g := GeneratedEvents(txns, draws, 1);
    GeneratedIds(txns, draws, 1);
    forall k | 0 <= k < |g| ensures EventNumber(g[k]) == k + 1 {
      EventIdRoundTrip(1 + k, g[k]);
    }
  }

  /** Five to nine events per transaction. */
  lemma {:induction false} GeneratedLength(txns: seq<Transaction>, draws: seq<TxnDraws>, first: nat)
    requires |draws| == |txns|
    requires forall k :: 0 <= k < |draws| ==> ValidDraws(draws[k])
    ensures 5 * |txns| <= |GeneratedEvents(txns, draws, first)| <= 9 * |txns|
    decreases |txns|
  {
    if txns != [] {
      GeneratedLength(txns[..|txns| - 1], draws[..|draws| - 1], first);
      assert ValidDraws(draws[|draws| - 1]);
    }
  }

  function OfKind(kind: EventKind): Event -> bool {
    (e: Event) => e.kind == kind
  }

  function OnDevice(device: Device): Event -> bool {
    (e: Event) => e.device == device
  }

  function KindCount(events: seq<Event>, kind: EventKind): nat {
    Lists.Count(events, OfKind(kind))
  }

  function DeviceCount(events: seq<Event>, device: Device): nat {
    Lists.Count(events, OnDevice(device))
  }

  /** Exactly one add-to-cart and one purchase click per transaction. */
  lemma TransactionKindCount(t: Transaction, d: TxnDraws, first: nat, kind: EventKind)
    requires kind == AddToCart || kind == PurchaseClick
    ensures KindCount(TransactionEvents(t, d, first), kind) == 1
  {
    var r := TransactionEvents(t, d, first);
    Lists.CountOne(r, OfKind(kind), if kind == AddToCart then |d.browses| + 1 else |r| - 1);
  }

  /** The add-to-cart count, and likewise the purchase-click count, equals the
      number of transactions. */
  lemma {:induction false} GeneratedKindCount(txns: seq<Transaction>, draws: seq<TxnDraws>, first: nat, kind: EventKind)
    requires |draws| == |txns|
    requires kind == AddToCart || kind == PurchaseClick
    ensures KindCount(GeneratedEvents(txns, draws, first), kind) == |txns|
    decreases |txns|
  {
    if txns != [] {
      var prev := GeneratedEvents(txns[..|txns| - 1], draws[..|draws| - 1], first);
      var last := TransactionEvents(txns[|txns| - 1], draws[|draws| - 1], first + |prev|);
      GeneratedKindCount(txns[..|txns| - 1], draws[..|draws| - 1], first, kind);
      TransactionKindCount(txns[|txns| - 1], draws[|draws| - 1], first + |prev|, kind);
      Lists.CountAppend(prev, last, OfKind(kind));
    }
  }

  /** Every event has exactly one type and one device, so the per-type counts
      and the per-device counts each add up to the number of events. */
  lemma {:induction false} CountsAddUp(events: seq<Event>)
    ensures KindCount(events, ProductView) + KindCount(events, AddToCart)
      + KindCount(events, Wishlist) + KindCount(events, PurchaseClick) == |events|
    ensures DeviceCount(events, Web) + DeviceCount(events, Mobile) == |events|
  {
    if events != [] {
      CountsAddUp(events[..|events| - 1]);
    }
  }

  // ---------------------------------------------------------------------------
  // Sampling, sorting and statistics
  // ---------------------------------------------------------------------------

  function Min(a: int, b: int): int {
    if a <= b then a else b
  }

  /** `if sample_size:` — sampling happens when a size is given and is not zero. */
  predicate Sampling(sampleSize: Option<int>) {
    sampleSize.Some? && sampleSize.value != 0
  }

  /** The positions `random.sample` draws: `min(sample_size, len)` distinct positions. */
  predicate ValidPicks(picks: seq<nat>, n: nat, sampleSize: Option<int>) {
    Sampling(sampleSize) && sampleSize.value > 0 ==>
      && |picks| == Min(sampleSize.value, n)
      && (forall i :: 0 <= i < |picks| ==> picks[i] < n)
      && (forall i, j :: 0 <= i < j < |picks| ==> picks[i] != picks[j])
  }

  const SampleError := "Sample larger than population or is negative"

  /** The transactions at the drawn positions, in draw order. */
  function Picked(txns: seq<Transaction>, picks: seq<nat>): (r: seq<Transaction>)
    requires forall i :: 0 <= i < |picks| ==> picks[i] < |txns|
    ensures |r| == |picks|
  {
    seq(|picks|, i requires 0 <= i < |picks| => txns[picks[i]])
  }

  /** Distinct positions pick each transaction at most as often as it occurs:
      a sample never repeats a row. */
  lemma {:induction false} PickedSubMultiset(txns: seq<Transaction>, picks: seq<nat>)
    requires forall i :: 0 <= i < |picks| ==> picks[i] < |txns|
    requires forall i, j :: 0 <= i < j < |picks| ==> picks[i] != picks[j]
    ensures multiset(Picked(txns, picks)) <= multiset(txns)
    decreases |txns|
  {
    if |picks| == 0 {
      assert Picked(txns, picks) == [];
    } else {
      assert picks[0] < |txns|;
      var n := |txns| - 1;
      var init := txns[..n];
      assert txns == init + [txns[n]];
      if k :| 0 <= k < |picks| && picks[k] == n {
        var rest := picks[..k] + picks[k + 1..];
        DropPick(picks, k, n);
        PickedSubMultiset(init, rest);
        PickedDrop(txns, picks, k);
        PickedInit(txns, rest);
      } else {
        PickedSubMultiset(init, picks);
        PickedInit(txns, picks);
      }
    }
  }

  /** Dropping the one pick of position `n` leaves distinct picks below `n`. */
  lemma DropPick(picks: seq<nat>, k: nat, n: nat)
    requires k < |picks| && picks[k] == n
    requires forall i :: 0 <= i < |picks| ==> picks[i] <= n
    requires forall i, j :: 0 <= i < j < |picks| ==> picks[i] != picks[j]
    ensures var rest := picks[..k] + picks[k + 1..];
      && (forall i :: 0 <= i < |rest| ==> rest[i] < n)
      && (forall i, j :: 0 <= i < j < |rest| ==> rest[i] != rest[j])
  {
    var rest := picks[..k] + picks[k + 1..];
    forall i | 0 <= i < |rest| ensures rest[i] < n {
      var i' := if i < k then i else i + 1;
      assert rest[i] == picks[i'];
    }
    forall i, j | 0 <= i < j < |rest| ensures rest[i] != rest[j] {
      var i', j' := if i < k then i else i + 1, if j < k then j else j + 1;
      assert rest[i] == picks[i'] && rest[j] == picks[j'];
    }
  }

  /** Picking at all positions but the `k`-th misses exactly one copy of the
      `k`-th pick. */
  lemma PickedDrop(txns: seq<Transaction>, picks: seq<nat>, k: nat)
    requires forall i :: 0 <= i < |picks| ==> picks[i] < |txns|
    requires k < |picks|
    ensures multiset(Picked(txns, picks))
      == multiset(Picked(txns, picks[..k] + picks[k + 1..])) + multiset{txns[picks[k]]}
  {
    var rest := picks[..k] + picks[k + 1..];
    assert Picked(txns, picks) == Picked(txns, picks[..k]) + [txns[picks[k]]] + Picked(txns, picks[k + 1..]);
    assert Picked(txns, rest) == Picked(txns, picks[..k]) + Picked(txns, picks[k + 1..]);
  }

  /** Picks below the last position pick the same rows from the rest. */
  lemma PickedInit(txns: seq<Transaction>, picks: seq<nat>)
    requires |txns| > 0
    requires forall i :: 0 <= i < |picks| ==> picks[i] < |txns| - 1
    ensures Picked(txns, picks) == Picked(txns[..|txns| - 1], picks)
  {
  }

  /** The transactions the generator works on: all of them, or a sample of
      `min(sample_size, len)` distinct rows; a negative size makes
      `random.sample` raise. */
  function UsedTransactions(txns: seq<Transaction>, sampleSize: Option<int>, picks: seq<nat>)
    : (r: Result<seq<Transaction>, string>)
    requires ValidPicks(picks, |txns|, sampleSize)
    ensures r.Failure? <==> Sampling(sampleSize) && sampleSize.value < 0
    ensures r.Success? ==> |r.value| == if Sampling(sampleSize) then Min(sampleSize.value, |txns|) else |txns|
    ensures r.Success? ==> multiset(r.value) <= multiset(txns)
    ensures !Sampling(sampleSize) ==> r == Success(txns)
  {
    if !Sampling(sampleSize) then Success(txns)
    else if sampleSize.value < 0 then Failure(SampleError)
    else
      PickedSubMultiset(txns, picks);
      Success(Picked(txns, picks))
  }

  function Timestamp(e: Event): int {
    e.timestamp
  }

  /** `events.sort(key=lambda x: x['event_timestamp'])` */
  function SortedEvents(events: seq<Event>): seq<Event> {
    Lists.SortBy(events, Timestamp)
  }

  /** The sorted list is a permutation of the generated one, non-decreasing by
      timestamp, with events of equal timestamp left in generation order (by the
      counter in their ids); sorting changes no count. */
  lemma SortedGeneratedEvents(txns: seq<Transaction>, draws: seq<TxnDraws>)
    requires |draws| == |txns|
    ensures var g := GeneratedEvents(txns, draws, 1); var s := SortedEvents(g);
      && multiset(s) == multiset(g)
      && Lists.SortedBy(s, Timestamp)
      && Lists.OrderedBy(s, Timestamp, EventNumber)
      && (forall kind :: KindCount(s, kind) == KindCount(g, kind))
      && (forall device :: DeviceCount(s, device) == DeviceCount(g, device))
  {
    var g := GeneratedEvents(txns, draws, 1);
    Lists.SortByPermutes(g, Timestamp);
    Lists.SortBySorted(g, Timestamp);
    GeneratedNumbers(txns, draws);
    Lists.SortByStable(g, Timestamp, EventNumber);
    forall kind ensures KindCount(SortedEvents(g), kind) == KindCount(g, kind) {
      Lists.SortByCount(g, Timestamp, OfKind(kind));
    }
    forall device ensures DeviceCount(SortedEvents(g), device) == DeviceCount(g, device) {
      Lists.SortByCount(g, Timestamp, OnDevice(device));
    }
  }

  /** A count map's entry, zero when the key is absent (`dict.get(k, 0)`). */
  function Get<K>(m: map<K, nat>, k: K): nat {
    if k in m then m[k] else 0
  }

  /** The statistics loop: one entry per event type and per device that occurs,
      holding the number of events of that type or device. */
  method CountStatistics(events: seq<Event>)
    returns (eventCounts: map<EventKind, nat>, deviceCounts: map<Device, nat>)
    ensures forall kind :: kind in eventCounts <==> KindCount(events, kind) > 0
    ensures forall kind :: Get(eventCounts, kind) == KindCount(events, kind)
    ensures forall device :: device in deviceCounts <==> DeviceCount(events, device) > 0
    ensures forall device :: Get(deviceCounts, device) == DeviceCount(events, device)
  {
    eventCounts := map[];
    deviceCounts := map[];
    var i := 0;
    while i < |events|
      invariant 0 <= i <= |events|
      invariant forall kind :: kind in eventCounts <==> KindCount(events[..i], kind) > 0
      invariant forall kind :: Get(eventCounts, kind) == KindCount(events[..i], kind)
      invariant forall device :: device in deviceCounts <==> DeviceCount(events[..i], device) > 0
      invariant forall device :: Get(deviceCounts, device) == DeviceCount(events[..i], device)
    {
      var event := events[i];
      assert events[..i + 1][..i] == events[..i];
      assert events[..i + 1][i] == event;
      eventCounts := eventCounts[event.kind := Get(eventCounts, event.kind) + 1];
      deviceCounts := deviceCounts[event.device := Get(deviceCounts, event.device) + 1];
      i := i + 1;
    }
    assert events[..|events|] == events;
  }

  /** What one run of the generator produces: the sorted events and both count tables. */
  datatype ClickstreamRun = ClickstreamRun(
    events: seq<Event>,
    eventCounts: map<EventKind, nat>,
    deviceCounts: map<Device, nat>)

  /** `generate_clickstream_events` without its file output and printing. */
  method GenerateClickstreamEvents(
    txns: seq<Transaction>, sampleSize: Option<int>, picks: seq<nat>, draws: seq<TxnDraws>)
    returns (r: Result<ClickstreamRun, string>)
    requires ValidPicks(picks, |txns|, sampleSize)
    requires UsedTransactions(txns, sampleSize, picks).Success? ==>
      |draws| == |UsedTransactions(txns, sampleSize, picks).value|
    ensures r.Failure? <==> UsedTransactions(txns, sampleSize, picks).Failure?
    ensures r.Success? ==>
      var used := UsedTransactions(txns, sampleSize, picks).value;
      && r.value.events == SortedEvents(GeneratedEvents(used, draws, 1))
      && (forall kind :: kind in r.value.eventCounts <==> KindCount(r.value.events, kind) > 0)
      && (forall kind :: Get(r.value.eventCounts, kind) == KindCount(r.value.events, kind))
      && (forall device :: device in r.value.deviceCounts <==> DeviceCount(r.value.events, device) > 0)
      && (forall device :: Get(r.value.deviceCounts, device) == DeviceCount(r.value.events, device))
  {
    var used := UsedTransactions(txns, sampleSize, picks);
    if used.Failure? {
      return Failure(used.error);
    }
    var events := BuildEvents(used.value, draws);
    events := SortedEvents(events);
    var eventCounts, deviceCounts := CountStatistics(events);
    r := Success(ClickstreamRun(events, eventCounts, deviceCounts));
  }

  /** The add-to-cart and purchase-click counts of a run each equal the number
      of transactions used: `min(sample_size, len)` when sampling, all otherwise. */
  lemma RunCounts(txns: seq<Transaction>, sampleSize: Option<int>, picks: seq<nat>, draws: seq<TxnDraws>)
    requires ValidPicks(picks, |txns|, sampleSize)
    requires UsedTransactions(txns, sampleSize, picks).Success?
    requires |draws| == |UsedTransactions(txns, sampleSize, picks).value|
    ensures var used := UsedTransactions(txns, sampleSize, picks).value;
      var s := SortedEvents(GeneratedEvents(used, draws, 1));
      var n := if Sampling(sampleSize) then Min(sampleSize.value, |txns|) else |txns|;
      KindCount(s, AddToCart) == n && KindCount(s, PurchaseClick) == n
  {
    var used := UsedTransactions(txns, sampleSize, picks).value;
    GeneratedKindCount(used, draws, 1, AddToCart);
    GeneratedKindCount(used, draws, 1, PurchaseClick);
    SortedGeneratedEvents(used, draws);
  }
}
