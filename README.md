# App Store receipt collection

A Dafny model of `CandyCheck::AppStore::ReceiptCollection` from the candy_check
gem. The collection takes the receipts of one App Store verification
response and the pending-renewal list that came with it. It derives these
subscription facts from them:

- the expiry of the subscription;
- whether the most recent period was a free trial;
- whether the subscription has expired;
- how many days it is overdue;
- whether auto-renewal is pending, and for which product.

Everything lives in module `AppStore` in `receipt_collection.dfy`. The Ruby
class builds its state once in `initialize` and never changes it, so the
model is an immutable datatype `ReceiptCollection`. A function `New` plays the
part of `initialize`, and one function stands for each query.

- A `Receipt` is a value with `purchaseDate` and `expiresDate`, both whole
  seconds since the Unix epoch, and `isTrialPeriod`.
- A pending-renewal entry is a `map<string, string>`. A missing key reads as
  `None`, the way a missing Hash key reads as `nil` in Ruby.
- The sort is an insertion sort driven by the source's comparison block,
  `a.purchase_date - b.purchase_date`, of which only the sign matters
  (`ComparePurchase`). Its contract is sortedness plus permutation
  (multiset equality).
- `Valid` states the class invariant: receipts are sorted by purchase date.
  `New` establishes it, and the queries on the latest receipt require it.
- The "latest" receipt is the last one after the sort (`Latest`).
  `IsLatest(x, s)` says that `x` belongs to `s` and that no receipt of `s`
  was bought after it.
- `ExpiresAt` and `IsTrial` are stated through `IsLatest`. Lemmas relate them
  to the unsorted input by way of `MaxPurchaseDate`, a reference definition
  that finds the greatest purchase date without sorting.
- The clock is a parameter. `IsExpired` takes the instant `now` in seconds.
  `OverdueDays` takes `today` as a day number, meaning days since the epoch.
  `DayOf` maps an instant to its UTC calendar day by floor division by 86400.
- The latest-receipt queries require at least one receipt. In the source,
  `@receipts.last` is `nil` on an empty list and the query raises.

When several receipts share the greatest purchase date, the source fixes no
order among them, because Ruby's `sort` is not stable. The contracts of
`ExpiresAt` and `IsTrial` therefore only say that the receipt they read has
the greatest purchase date. They do not say which one of the tied receipts
it is. `IsTrial` also says that this is the receipt whose expiry `ExpiresAt`
reports. Two points stay open in the code, and the model leaves them open
too. First, an empty receipt list gets no defined error, so the queries on the
latest receipt simply require a receipt. Second, no tie-break is chosen among
equal purchase dates. Instead, `SortedPermutationsShareDates` proves that every
sorted arrangement of the same receipts has the same purchase date at each
position, so only the order among tied receipts is left unfixed.

## Model

| member | source | states |
|---|---|---|
| `AppStore.ComparePurchase` | lib/candy_check/app_store/receipt_collection.rb:13-15 | the sign of the sort block is the order of the two purchase dates |
| `AppStore.Insert` | lib/candy_check/app_store/receipt_collection.rb:13-15 | inserting into a sorted list keeps it sorted and adds exactly the one receipt |
| `AppStore.SortByPurchase` | lib/candy_check/app_store/receipt_collection.rb:13-15 | the result is sorted ascending by purchase date and is a permutation of the input |
| `AppStore.SortedPermutationsShareDates` | lib/candy_check/app_store/receipt_collection.rb:13-15 | any two sorted arrangements of the same receipts have equal purchase dates at every position, whatever the tie order |
| `AppStore.SortDatesIgnoreInputOrder` | lib/candy_check/app_store/receipt_collection.rb:13-15 | the same receipts given in any two orders sort to the same purchase dates at every position |
| `AppStore.SortIsIdempotent` | lib/candy_check/app_store/receipt_collection.rb:13-15 | sorting a sorted result again leaves its purchase dates where they are |
| `AppStore.SortSortedIsIdentity` | lib/candy_check/app_store/receipt_collection.rb:13-15 | receipts already in strictly ascending purchase-date order (no ties, so one sorted order) come back unchanged |
| `AppStore.New` | lib/candy_check/app_store/receipt_collection.rb:12-17 | receipts are sorted, have the same length and multiset as the input, and the pending-renewal list is stored as given, empty by default |
| `AppStore.NewKeepsExactlyTheInput` | lib/candy_check/app_store/receipt_collection.rb:13 | a receipt is in the collection exactly when it is in the input |
| `AppStore.Latest` | lib/candy_check/app_store/receipt_collection.rb:28 | the last receipt of a sorted, non-empty collection belongs to it and has the greatest purchase date |
| `AppStore.ExpiresAt` | lib/candy_check/app_store/receipt_collection.rb:33-35 | the expiry is that of a receipt with the greatest purchase date |
| `AppStore.IsTrial` | lib/candy_check/app_store/receipt_collection.rb:27-29 | the trial flag is that of a receipt with the greatest purchase date, the same receipt whose expiry ExpiresAt reports |
| `AppStore.IsExpired` | lib/candy_check/app_store/receipt_collection.rb:21-23 | expired exactly when the expiry is at or before now (inclusive boundary) |
| `AppStore.ExpiredBoundary` | lib/candy_check/app_store/receipt_collection.rb:21-23 | expired at the expiry instant itself and not one second earlier |
| `AppStore.DayOf` | lib/candy_check/app_store/receipt_collection.rb:40 | the day number returned is the calendar day whose 86400 seconds contain the instant |
| `AppStore.DayOfIsMonotonic` | lib/candy_check/app_store/receipt_collection.rb:40 | a later instant never falls on an earlier day |
| `AppStore.OverdueDays` | lib/candy_check/app_store/receipt_collection.rb:37-41 | the expiry lies within the calendar day `today - result` |
| `AppStore.OverdueDaysSign` | lib/candy_check/app_store/receipt_collection.rb:37-41 | the result is zero when the expiry falls on today, positive when the expiry day has passed and negative when it is still ahead |
| `AppStore.OverdueAgreesWithExpired` | lib/candy_check/app_store/receipt_collection.rb:21-41 | counted on the day of now, overdue implies expired, and expired implies a count that is not negative |
| `AppStore.OverdueScenario` | lib/candy_check/app_store/receipt_collection.rb:39-41 | an expiry on 2024-02-01 counted on 2024-02-10 is 9 days overdue |
| `AppStore.MaxPurchaseDate` | lib/candy_check/app_store/receipt_collection.rb:13-15 | the greatest purchase date of a non-empty list, found without sorting: no receipt exceeds it and some receipt has it |
| `AppStore.LatestOfNew` | lib/candy_check/app_store/receipt_collection.rb:12-35 | the receipt the queries read is an input receipt whose purchase date is the greatest of the input, whatever the input order |
| `AppStore.ExpiryAndTrialOfNew` | lib/candy_check/app_store/receipt_collection.rb:27-35 | expiry and trial flag of a new collection come from one input receipt with the greatest purchase date |
| `AppStore.UniqueLatestDecides` | lib/candy_check/app_store/receipt_collection.rb:27-35 | when one receipt was bought strictly last, the expiry and trial flag are its own, even if another receipt expires later |
| `AppStore.TwoReceiptsScenario` | lib/candy_check/app_store/receipt_collection.rb:12-35 | a 2024 receipt given before a 2023 trial receipt is sorted after it, and the collection expires 2024-02-01 and is not a trial |
| `AppStore.Lookup` | lib/candy_check/app_store/receipt_collection.rb:45 | a key that is present gives its value and a missing key gives none |
| `AppStore.RenewalFlags` | lib/candy_check/app_store/receipt_collection.rb:44-46 | one flag per entry, set exactly when that entry's `auto_renew_status` is "1" (a missing key gives an unset flag) |
| `AppStore.AnyTrue` | lib/candy_check/app_store/receipt_collection.rb:44-46 | true exactly when some flag is set, and false for the empty list |
| `AppStore.AutoRenewalStatus` | lib/candy_check/app_store/receipt_collection.rb:43-47 | true exactly when some entry has `auto_renew_status` equal to "1" |
| `AppStore.AutoRenewalStatusOfConcat` | lib/candy_check/app_store/receipt_collection.rb:43-47 | the status of a concatenated list is the OR of the statuses of its parts, so every entry counts, not only the latest |
| `AppStore.AutoRenewProductId` | lib/candy_check/app_store/receipt_collection.rb:49-51 | present exactly when the list is non-empty and its first entry has `auto_renew_product_id`, and then equal to that value |
| `AppStore.EmptyPendingRenewalInfo` | lib/candy_check/app_store/receipt_collection.rb:12-51 | with the default empty list, auto-renewal is off and there is no product id |
| `AppStore.ProductIdComesFromFirstEntry` | lib/candy_check/app_store/receipt_collection.rb:49-51 | the product id depends on the first entry alone, whatever entries follow |
| `AppStore.ProductIdScenario` | lib/candy_check/app_store/receipt_collection.rb:49-51 | entries naming "A" then "B" give "A" |

## Left out

- Decoding raw records into receipts (`Receipt.new`, line 13). The `Receipt` class and its date parsing are not part of this model. The input to `New` is a sequence of already-decoded receipts, so the decoding error is not modelled.
- Reading the clock (`Time.now.utc`, line 22, and `Date.today`, line 40). These readings are the parameters `now` and `today`.
- Time zones and Ruby's `DateTime`/`Date` conversions (`to_time`, `to_date`). Timestamps are whole UTC seconds and calendar days are UTC days. The source's `Date.today` uses the local zone while `expires_at` keeps its own offset, and that mismatch is not modelled. Fractions of a second are not modelled either.
- The sorting algorithm Ruby uses and its order among receipts with equal purchase dates. The model sorts by insertion. Its lemmas claim sortedness, permutation and the purchase dates at each position, and never the order of tied receipts.
- Queries on an empty receipt list. The source raises there, and the model requires at least one receipt.
- `pending_renewal_info` being `nil` (the `&.` at line 50). The list is always a sequence. Entry values are strings, whereas the source's `dig` may return any JSON value.
