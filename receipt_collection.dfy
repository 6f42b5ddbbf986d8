/** A model of the App Store receipt collection: the receipts of one
    verification response, kept in ascending order of purchase date, with the
    subscription facts derived from the most recent of them and from the
    pending-renewal list that came with the response. */
module AppStore {

  datatype Option<+T> = None | Some(value: T)

  /** One decoded purchase or renewal period. Timestamps are whole seconds
      since the Unix epoch, in UTC. */
  datatype Receipt = Receipt(purchaseDate: int, expiresDate: int, isTrialPeriod: bool)

  /** One entry of the pending-renewal list, a string-keyed record as the
      verification service sends it. */
  type PendingRenewalInfo = map<string, string>

  /** The collection as built by New: receipts sorted by purchase date and the
      pending-renewal list as given. Nothing changes it after construction. */
  datatype ReceiptCollection = ReceiptCollection(
    receipts: seq<Receipt>,
    pendingRenewalInfo: seq<PendingRenewalInfo>)

  const SecondsPerDay: int := 86400
  const AutoRenewStatusKey: string := "auto_renew_status"
  const AutoRenewProductIdKey: string := "auto_renew_product_id"

  // ---------------------------------------------------------------------------
  // Ordering by purchase date

  /** The comparison block of the sort: its sign says whether `a` was bought
      before, together with, or after `b`. */
  function ComparePurchase(a: Receipt, b: Receipt): (d: int)
    ensures d < 0 <==> a.purchaseDate < b.purchaseDate
    ensures d == 0 <==> a.purchaseDate == b.purchaseDate
  {
    a.purchaseDate - b.purchaseDate
  }

  predicate Sorted(s: seq<Receipt>) {
    forall i, j :: 0 <= i < j < |s| ==> s[i].purchaseDate <= s[j].purchaseDate
  }

  /** A receipt bought no later than the head of a sorted sequence can be
      put in front of it. */
  lemma SortedCons(y: Receipt, t: seq<Receipt>)
    requires Sorted(t)
    requires t != [] ==> y.purchaseDate <= t[0].purchaseDate
    ensures Sorted([y] + t)
  {
  }

  /** Places `x` in the sorted sequence `s`, in front of the first receipt that
      was not bought before it. */
  function Insert(x: Receipt, s: seq<Receipt>): (r: seq<Receipt>)
    requires Sorted(s)
    ensures Sorted(r)
    ensures multiset(r) == multiset(s) + multiset{x}
    ensures r[0] == x || r[0] == s[0]
  {
    if s == [] then [x]
    else if ComparePurchase(x, s[0]) <= 0 then
      SortedCons(x, s);
      [x] + s
    else
      var rest := Insert(x, s[1..]);
      assert s == [s[0]] + s[1..];
      assert multiset(s) == multiset{s[0]} + multiset(s[1..]);
      assert s[0].purchaseDate <= rest[0].purchaseDate;
      SortedCons(s[0], rest);
      [s[0]] + rest
  }

  /** Sorts receipts ascending by purchase date. Receipts bought at the same
      instant may come out in either order, and no contract or lemma here
      states which. */
  function SortByPurchase(s: seq<Receipt>): (r: seq<Receipt>)
    ensures Sorted(r)
    ensures multiset(r) == multiset(s)
  {
    if s == [] then []
    else
      assert s == [s[0]] + s[1..];
      Insert(s[0], SortByPurchase(s[1..]))
  }

  /** The purchase dates of `s`, in order. */
  function PurchaseDates(s: seq<Receipt>): seq<int> {
    seq(|s|, i requires 0 <= i < |s| => s[i].purchaseDate)
  }

  /** The dates of a non-empty sequence are its head's date followed by the
      dates of its tail. */
  lemma PurchaseDatesCons(s: seq<Receipt>)
    requires s != []
    ensures PurchaseDates(s) == [s[0].purchaseDate] + PurchaseDates(s[1..])
  {
  }

  /** Two sorted arrangements of the same receipts begin with the same
      purchase date. */
  lemma SortedPermutationsShareFirstDate(a: seq<Receipt>, b: seq<Receipt>)
    requires Sorted(a) && Sorted(b) && a != []
    requires multiset(a) == multiset(b)
    ensures b != [] && a[0].purchaseDate == b[0].purchaseDate
  {
    assert a[0] in multiset(b);
    var j :| 0 <= j < |b| && b[j] == a[0];
    assert b[0] in multiset(a);
    var k :| 0 <= k < |a| && a[k] == b[0];
    assert a[0].purchaseDate <= a[k].purchaseDate;
    assert b[0].purchaseDate <= b[j].purchaseDate;
  }

  /** Dropping the head of a non-empty sequence drops one copy of it. */
  lemma TailMultiset(s: seq<Receipt>)
    requires s != []
    ensures multiset(s[1..]) == multiset(s) - multiset{s[0]}
  {
    assert s == [s[0]] + s[1..];
  }

  /** `b` with its head and its `j`-th receipt exchanged. */
  function SwapToFront(b: seq<Receipt>, j: nat): (c: seq<Receipt>)
    requires j < |b|
    ensures |c| == |b| && c[0] == b[j]
    ensures multiset(c) == multiset(b)
  {
    b[j := b[0]][0 := b[j]]
  }

  /** Exchanging the head with a receipt bought at the same instant keeps the
      dates at every position and hence the order. */
  lemma SwapWithHead(b: seq<Receipt>, j: nat)
    requires Sorted(b) && j < |b| && b[j].purchaseDate == b[0].purchaseDate
    ensures PurchaseDates(SwapToFront(b, j)) == PurchaseDates(b)
    ensures Sorted(SwapToFront(b, j))
  {
    var c := SwapToFront(b, j);
    assert forall i :: 0 <= i < |c| ==> c[i].purchaseDate == b[i].purchaseDate;
  }

  /** Any two sorted arrangements of the same receipts carry the same purchase
      dates at every position, so the outcome of a sort by purchase date is
      fixed up to the order among receipts bought at the same instant. */
  lemma {:induction false} SortedPermutationsShareDates(a: seq<Receipt>, b: seq<Receipt>)
    requires Sorted(a) && Sorted(b)
    requires multiset(a) == multiset(b)
    ensures PurchaseDates(a) == PurchaseDates(b)
    decreases |a|
  {
    assert |a| == |multiset(a)| == |multiset(b)| == |b|;
    if a != [] {
      SortedPermutationsShareFirstDate(a, b);
      assert a[0] in multiset(b);
      var j :| 0 <= j < |b| && b[j] == a[0];
      SwapWithHead(b, j);
      var c := SwapToFront(b, j);
      TailMultiset(a);
      TailMultiset(c);
      SortedPermutationsShareDates(a[1..], c[1..]);
      PurchaseDatesCons(a);
      PurchaseDatesCons(c);
    }
  }

  /** Sorting the same receipts given in any two orders yields the same
      purchase dates at every position. */
  lemma SortDatesIgnoreInputOrder(s: seq<Receipt>, t: seq<Receipt>)
    requires multiset(s) == multiset(t)
    ensures PurchaseDates(SortByPurchase(s)) == PurchaseDates(SortByPurchase(t))
  {
    SortedPermutationsShareDates(SortByPurchase(s), SortByPurchase(t));
  }

  /** Re-sorting a sorted result leaves its purchase dates where they are. */
  lemma SortIsIdempotent(s: seq<Receipt>)
    ensures PurchaseDates(SortByPurchase(SortByPurchase(s))) == PurchaseDates(SortByPurchase(s))
  {
    SortedPermutationsShareDates(SortByPurchase(SortByPurchase(s)), SortByPurchase(s));
  }

  /** No two receipts of `s` share a purchase date, and they are in order. */
  predicate StrictlySorted(s: seq<Receipt>) {
    forall i, j :: 0 <= i < j < |s| ==> s[i].purchaseDate < s[j].purchaseDate
  }

  /** Sorting receipts that are already in strictly ascending order gives
      them back unchanged; with no ties there is only one sorted order. */
  lemma {:induction false} SortSortedIsIdentity(s: seq<Receipt>)
    requires StrictlySorted(s)
    ensures SortByPurchase(s) == s
  {
    if s != [] {
      SortSortedIsIdentity(s[1..]);
      assert s == [s[0]] + s[1..];
    }
  }

  // ---------------------------------------------------------------------------
  // Construction

  /** The class invariant: receipts are in ascending order of purchase date. */
  predicate Valid(c: ReceiptCollection) {
    Sorted(c.receipts)
  }

  /** Builds the collection from decoded receipts, in any order, and the
      pending-renewal list, which defaults to the empty list. */
  function New(attributes: seq<Receipt>, pendingRenewalInfo: seq<PendingRenewalInfo> := []): (c: ReceiptCollection)
    ensures Valid(c)
    ensures multiset(c.receipts) == multiset(attributes)
    ensures |c.receipts| == |attributes|
    ensures c.pendingRenewalInfo == pendingRenewalInfo
  {
    var receipts := SortByPurchase(attributes);
    assert |receipts| == |multiset(receipts)| == |multiset(attributes)| == |attributes|;
    ReceiptCollection(receipts, pendingRenewalInfo)
  }

  /** Every input receipt is in the collection, and nothing else is. */
  lemma NewKeepsExactlyTheInput(attributes: seq<Receipt>, pendingRenewalInfo: seq<PendingRenewalInfo>)
    ensures forall x :: x in New(attributes, pendingRenewalInfo).receipts <==> x in attributes
  {
    var c := New(attributes, pendingRenewalInfo);
    forall x
      ensures x in c.receipts <==> x in attributes
    {
      calc {
        x in c.receipts;
        x in multiset(c.receipts);
        x in multiset(attributes);
        x in attributes;
      }
    }
  }

  // ---------------------------------------------------------------------------
  // Queries on the most recent receipt

  /** `x` is one of `s` and no receipt of `s` was bought after it. */
  predicate IsLatest(x: Receipt, s: seq<Receipt>) {
    x in s && forall y :: y in s ==> y.purchaseDate <= x.purchaseDate
  }

  /** The most recent receipt: the last one in purchase-date order. */
  function Latest(c: ReceiptCollection): (r: Receipt)
    requires Valid(c) && |c.receipts| > 0
    ensures IsLatest(r, c.receipts)
  {
    var n := |c.receipts|;
    assert forall k :: 0 <= k < n ==> c.receipts[k].purchaseDate <= c.receipts[n - 1].purchaseDate;
    c.receipts[n - 1]
  }

  /** The expiry of the collection: that of its most recent receipt. */
  function ExpiresAt(c: ReceiptCollection): (t: int)
    requires Valid(c) && |c.receipts| > 0
    ensures exists x :: IsLatest(x, c.receipts) && t == x.expiresDate
  {
    Latest(c).expiresDate
  }

  /** Whether the most recent period was a free trial. The flag comes from the
      same receipt whose expiry ExpiresAt reports. */
  function IsTrial(c: ReceiptCollection): (b: bool)
    requires Valid(c) && |c.receipts| > 0
    ensures exists x :: IsLatest(x, c.receipts) && b == x.isTrialPeriod && ExpiresAt(c) == x.expiresDate
  {
    Latest(c).isTrialPeriod
  }

  /** Whether the subscription has expired at the instant `now`; a receipt
      that expires exactly at `now` counts as expired. */
  function IsExpired(c: ReceiptCollection, now: int): (b: bool)
    requires Valid(c) && |c.receipts| > 0
    ensures b <==> ExpiresAt(c) <= now
  {
    ExpiresAt(c) <= now
  }

  /** The UTC calendar day (days since the epoch) that contains instant `t`. */
  function DayOf(t: int): (d: int)
    ensures d * SecondsPerDay <= t < (d + 1) * SecondsPerDay
  {
    t / SecondsPerDay
  }

  /** Whole calendar days from the expiry day to `today` (a day number);
      negative when the expiry day is still ahead, which means not overdue. */
  function OverdueDays(c: ReceiptCollection, today: int): (n: int)
    requires Valid(c) && |c.receipts| > 0
    ensures (today - n) * SecondsPerDay <= ExpiresAt(c) < (today - n + 1) * SecondsPerDay
  {
    today - DayOf(ExpiresAt(c))
  }

  // ---------------------------------------------------------------------------
  // Queries on the pending-renewal list

  /** Reads a key of an entry; a missing key gives None. */
  function Lookup(entry: PendingRenewalInfo, key: string): (v: Option<string>)
    ensures v.Some? <==> key in entry
    ensures v.Some? ==> v.value == entry[key]
  {
    if key in entry then Some(entry[key]) else None
  }

  /** Whether some flag of `bs` is set; false for the empty sequence. */
  function AnyTrue(bs: seq<bool>): (b: bool)
    ensures b <==> exists i :: 0 <= i < |bs| && bs[i]
  {
    if bs == [] then false
    else
      assert forall i :: 1 <= i < |bs| ==> bs[i] == bs[1..][i - 1];
      assert forall i :: 0 <= i < |bs| - 1 ==> bs[1..][i] == bs[i + 1];
      bs[0] || AnyTrue(bs[1..])
  }

  /** For each entry, whether it asks for auto-renewal. */
  function RenewalFlags(p: seq<PendingRenewalInfo>): (r: seq<bool>)
    ensures |r| == |p|
    ensures forall i :: 0 <= i < |p| ==> (r[i] <==> Lookup(p[i], AutoRenewStatusKey) == Some("1"))
  {
    seq(|p|, i requires 0 <= i < |p| => Lookup(p[i], AutoRenewStatusKey) == Some("1"))
  }

  /** Whether any entry, not only the latest, has auto-renewal switched on. */
  function AutoRenewalStatus(c: ReceiptCollection): (b: bool)
    ensures b <==> exists i :: 0 <= i < |c.pendingRenewalInfo| &&
                              Lookup(c.pendingRenewalInfo[i], AutoRenewStatusKey) == Some("1")
  {
    AnyTrue(RenewalFlags(c.pendingRenewalInfo))
  }

  /** The product that will be billed on renewal, read from the first entry
      only; None when the list is empty or that entry has no such key. */
  function AutoRenewProductId(c: ReceiptCollection): (id: Option<string>)
    ensures id.Some? <==> |c.pendingRenewalInfo| > 0 && AutoRenewProductIdKey in c.pendingRenewalInfo[0]
    ensures id.Some? ==> id.value == c.pendingRenewalInfo[0][AutoRenewProductIdKey]
  {
    if |c.pendingRenewalInfo| == 0 then None
    else Lookup(c.pendingRenewalInfo[0], AutoRenewProductIdKey)
  }

  // ---------------------------------------------------------------------------
  // The most recent receipt, stated against the unsorted input

  /** The greatest purchase date among `s`, computed without sorting. */
  function MaxPurchaseDate(s: seq<Receipt>): (m: int)
    requires |s| > 0
    ensures forall k :: 0 <= k < |s| ==> s[k].purchaseDate <= m
    ensures exists k :: 0 <= k < |s| && s[k].purchaseDate == m
  {
    if |s| == 1 then s[0].purchaseDate
    else
      var m' := MaxPurchaseDate(s[1..]);
      assert forall k :: 1 <= k < |s| ==> s[k] == s[1..][k - 1];
      if s[0].purchaseDate >= m' then s[0].purchaseDate else m'
  }

  /** The receipt the queries read is one of the input receipts and carries
      the greatest purchase date of the input, whatever order it came in. */
  lemma LatestOfNew(attributes: seq<Receipt>, pendingRenewalInfo: seq<PendingRenewalInfo>)
    requires |attributes| > 0
    ensures Latest(New(attributes, pendingRenewalInfo)) in attributes
    ensures Latest(New(attributes, pendingRenewalInfo)).purchaseDate == MaxPurchaseDate(attributes)
  {
    var c := New(attributes, pendingRenewalInfo);
    var x := Latest(c);
    assert x in multiset(c.receipts);
    assert x in attributes;
    var k :| 0 <= k < |attributes| && attributes[k].purchaseDate == MaxPurchaseDate(attributes);
    assert attributes[k] in multiset(attributes);
    assert attributes[k] in c.receipts;
    assert MaxPurchaseDate(attributes) <= x.purchaseDate;
  }

  /** ExpiresAt and IsTrial of a new collection both read one input receipt
      whose purchase date is the greatest of the input. */
  lemma ExpiryAndTrialOfNew(attributes: seq<Receipt>, pendingRenewalInfo: seq<PendingRenewalInfo>)
    requires |attributes| > 0
    ensures exists k :: (0 <= k < |attributes| &&
                         attributes[k].purchaseDate == MaxPurchaseDate(attributes) &&
                         ExpiresAt(New(attributes, pendingRenewalInfo)) == attributes[k].expiresDate &&
                         IsTrial(New(attributes, pendingRenewalInfo)) == attributes[k].isTrialPeriod)
  {
    LatestOfNew(attributes, pendingRenewalInfo);
    var x := Latest(New(attributes, pendingRenewalInfo));
    var k :| 0 <= k < |attributes| && attributes[k] == x;
  }

  /** When one receipt was bought strictly after all others, the expiry and
      the trial flag are its own, even if another receipt expires later. */
  lemma UniqueLatestDecides(attributes: seq<Receipt>, pendingRenewalInfo: seq<PendingRenewalInfo>, k: nat)
    requires k < |attributes|
    requires forall j :: 0 <= j < |attributes| && j != k ==> attributes[j].purchaseDate < attributes[k].purchaseDate
    ensures ExpiresAt(New(attributes, pendingRenewalInfo)) == attributes[k].expiresDate
    ensures IsTrial(New(attributes, pendingRenewalInfo)) == attributes[k].isTrialPeriod
  {
    LatestOfNew(attributes, pendingRenewalInfo);
    var x := Latest(New(attributes, pendingRenewalInfo));
    var j :| 0 <= j < |attributes| && attributes[j] == x;
    assert attributes[j].purchaseDate >= attributes[k].purchaseDate;
  }

  /** Two receipts given newest first: the older one is sorted to the front,
      and the queries read the 2024 receipt, which is not a trial. Dates are
      2023-01-01, 2023-02-01, 2024-01-01 and 2024-02-01 at midnight UTC. */
  lemma TwoReceiptsScenario()
    ensures var c := New([Receipt(1704067200, 1706745600, false), Receipt(1672531200, 1675209600, true)]);
      c.receipts == [Receipt(1672531200, 1675209600, true), Receipt(1704067200, 1706745600, false)] &&
      ExpiresAt(c) == 1706745600 && !IsTrial(c) && c.pendingRenewalInfo == []
  {
  }

  // ---------------------------------------------------------------------------
  // Expiry and overdue days

  /** The boundary of IsExpired: expired at the expiry instant itself and not
      one second before it. */
  lemma ExpiredBoundary(c: ReceiptCollection)
    requires Valid(c) && |c.receipts| > 0
    ensures IsExpired(c, ExpiresAt(c))
    ensures !IsExpired(c, ExpiresAt(c) - 1)
  {
  }

  /** A later instant never makes the calendar day earlier. */
  lemma DayOfIsMonotonic(a: int, b: int)
    requires a <= b
    ensures DayOf(a) <= DayOf(b)
  {
  }

  /** The sign of OverdueDays: zero when the expiry falls on `today`, positive
      when it lies that many days back, negative when it is still ahead. */
  lemma OverdueDaysSign(c: ReceiptCollection, today: int)
    requires Valid(c) && |c.receipts| > 0
    ensures OverdueDays(c, today) == 0 <==> DayOf(ExpiresAt(c)) == today
    ensures OverdueDays(c, today) > 0 <==> DayOf(ExpiresAt(c)) < today
    ensures OverdueDays(c, today) < 0 <==> DayOf(ExpiresAt(c)) > today
  {
  }

  /** Counted on the day of `now`, a subscription that is overdue is expired,
      and one that is expired is not a day ahead. */
  lemma OverdueAgreesWithExpired(c: ReceiptCollection, now: int)
    requires Valid(c) && |c.receipts| > 0
    ensures OverdueDays(c, DayOf(now)) > 0 ==> IsExpired(c, now)
    ensures IsExpired(c, now) ==> OverdueDays(c, DayOf(now)) >= 0
  {
  }

  /** Expiry on 2024-02-01 (day 19754) counted on 2024-02-10 (day 19763) is
      nine days overdue. */
  lemma OverdueScenario()
    ensures OverdueDays(New([Receipt(1704067200, 1706745600, false)]), 19763) == 9
  {
  }

  // ---------------------------------------------------------------------------
  // The pending-renewal list

  /** Auto-renewal is on for a list made of two parts exactly when it is on for
      one of the parts: every entry counts, in any position. */
  lemma AutoRenewalStatusOfConcat(receipts: seq<Receipt>, p1: seq<PendingRenewalInfo>, p2: seq<PendingRenewalInfo>)
    ensures AutoRenewalStatus(ReceiptCollection(receipts, p1 + p2)) ==
            (AutoRenewalStatus(ReceiptCollection(receipts, p1)) || AutoRenewalStatus(ReceiptCollection(receipts, p2)))
  {
    var p := p1 + p2;
    if AutoRenewalStatus(ReceiptCollection(receipts, p)) {
      var i :| 0 <= i < |p| && Lookup(p[i], AutoRenewStatusKey) == Some("1");
      if i >= |p1| {
        assert p2[i - |p1|] == p[i];
      }
    }
    if AutoRenewalStatus(ReceiptCollection(receipts, p1)) {
      var i :| 0 <= i < |p1| && Lookup(p1[i], AutoRenewStatusKey) == Some("1");
      assert p[i] == p1[i];
    }
    if AutoRenewalStatus(ReceiptCollection(receipts, p2)) {
      var i :| 0 <= i < |p2| && Lookup(p2[i], AutoRenewStatusKey) == Some("1");
      assert p[|p1| + i] == p2[i];
    }
  }

  /** An empty list: auto-renewal is off and there is no product id. */
  lemma EmptyPendingRenewalInfo(receipts: seq<Receipt>)
    ensures !AutoRenewalStatus(New(receipts))
    ensures AutoRenewProductId(New(receipts)) == None
  {
  }

  /** Only the first entry names the renewal product, whatever follows it. */
  lemma ProductIdComesFromFirstEntry(receipts: seq<Receipt>, first: PendingRenewalInfo, rest: seq<PendingRenewalInfo>)
    ensures AutoRenewProductId(New(receipts, [first] + rest)) == Lookup(first, AutoRenewProductIdKey)
  {
  }

  /** Two entries naming products "A" and "B": the result is "A". */
  lemma ProductIdScenario()
    ensures AutoRenewProductId(New([], [map[AutoRenewProductIdKey := "A"], map[AutoRenewProductIdKey := "B"]])) == Some("A")
  {
  }
}
