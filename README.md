# Bean bag store, modelled in Dafny

This project models the bean bag store: an in-memory inventory of bean bags,
each identified by an eight-digit hexadecimal ID. The store keeps two lists of
bean bag objects. The stock list holds what is on sale, and the sales ledger
holds what has been sold. Every operation works the same way:

1. it validates its arguments;
2. it looks an ID up by a linear scan;
3. it either throws or updates one bean bag, or one list, in place.

The project has five modules:

- `BeanBags` (BeanBag.dfy) models the bean bag. `Rec` is a snapshot of its
  fields, and `BeanBag` is the mutable object with its constructors, setters
  and the description check `IsMismatched`.
- `StoreModel` (StoreModel.dfy) defines each store operation as a function.
  Each function maps the store's contents (`Inventory`: the stock records and
  the ledger records, in insertion order) to either the exception the
  operation throws or the new contents. These functions follow the
  implementation as written, including where it departs from the interface.
- `StoreProperties` (StoreProperties.dfy) proves properties of those
  functions:
  - which failure each operation raises, and exactly when;
  - that a failing call changes nothing;
  - what a successful call does to the stock and sales queries;
  - that the operations keep IDs well formed and counts non-negative;
  - facts about whole runs of calls on a new store.
- `Contract` (CutDownStore.dfy) gives `sellBeanBags` and `replace` as the store
  interface describes them and proves the promised properties of them. It also
  exhibits, for the implementation as written, the inputs on which the two
  differ (see Findings).
- `Store` (CDStore.dfy) models the class `CDStore`: it has two fields of type
  `seq<BeanBag>`, and its methods update bean bags in place.
  - Each mutating method ensures that the exception it throws, and the new
    contents `Model()`, are exactly what the `StoreModel` function gives. A
    throwing call leaves the contents as they were.
  - Each query method with a loop is proved against the accumulation it
    computes.
  - `Valid()` says that no bean bag object appears twice in the lists, so
    updating one record never changes another.

## Model

| member | source | states |
|---|---|---|
| BeanBags.BeanBag.Default | src/beanbags/BeanBag.java:13-15 | the default bean bag has count 0, price unset (-1), manufacturer and name "Default", ID "00000000" and no free text |
| BeanBags.BeanBag.constructor | src/beanbags/BeanBag.java:25-32 | the four-argument bean bag holds the given count, manufacturer, name and ID, empty free text and an unset price |
| BeanBags.BeanBag.WithInformation | src/beanbags/BeanBag.java:44-51 | the five-argument bean bag holds the given fields, including the free text, with an unset price |
| BeanBags.BeanBag.SetPrice | src/beanbags/BeanBag.java:63-65 | only the price changes; every other field keeps its value |
| BeanBags.BeanBag.SetNum | src/beanbags/BeanBag.java:79-81 | only the count changes; every other field keeps its value |
| BeanBags.BeanBag.SetID | src/beanbags/BeanBag.java:95-97 | only the ID changes; every other field keeps its value |
| BeanBags.BeanBag.IsMismatched | src/beanbags/BeanBag.java:131-134 | two bean bags are mismatched exactly when their free text, manufacturer or name differ |
| BeanBags.MismatchedIrreflexive | src/beanbags/BeanBag.java:131-134 | no bean bag is mismatched with itself |
| BeanBags.MismatchedSymmetric | src/beanbags/BeanBag.java:131-134 | the mismatch check gives the same answer either way round |
| BeanBags.MismatchIgnoresStockFields | src/beanbags/BeanBag.java:131-134 | records that differ only in count, price or ID are not mismatched |
| StoreModel.MatchesHexRun | src/beanbags/CDStore.java:39-41 | a string fully matches n repetitions of [0-9a-fA-F] exactly when it has length n and every character is a hexadecimal digit |
| StoreModel.IdPatternIsIdIsValid | src/beanbags/CDStore.java:39-41 | the ID pattern ^[0-9a-fA-F]{8}$ accepts exactly the strings of eight hexadecimal digits of either case |
| StoreModel.IndexOf | src/beanbags/CDStore.java:24-32 | the lookup finds the first record carrying the ID, and finds none exactly when no record carries it |
| StoreModel.IndexOfAppend | src/beanbags/CDStore.java:24-32 | appending a record leaves every earlier lookup alone and makes a lookup of the new ID find the appended record when nothing earlier carries it |
| StoreModel.IndexOfSameIds | src/beanbags/CDStore.java:24-32 | lookup depends only on the IDs, so changing counts or prices never changes what a lookup finds |
| StoreModel.TotalNumUpdate | src/beanbags/CDStore.java:142-149 | replacing one record changes the total count by exactly the difference of the two records' counts |
| StoreModel.TotalNumNonNegative | src/beanbags/CDStore.java:142-149 | a list with no negative count has a non-negative total |
| StoreModel.CountInStockIsDistinctIds | src/beanbags/CutDownStore.java:142-150 | when IDs are unique, the number of stocked records is the number of distinct IDs that have stock |
| StoreProperties.AddFailures | src/beanbags/CDStore.java:47-63 | addBeanBags checks count, then month, then ID, then description, and throws each exception exactly in its own case |
| StoreProperties.AddEffect | src/beanbags/CDStore.java:56-65 | a successful add leaves the ledger alone and raises the total stock by num; an unseen ID is appended with its price unset; a known ID keeps its place |
| StoreProperties.AddStockEffect | src/beanbags/CDStore.java:56-65 | a successful add raises the stock of the ID by num (from nothing for a new ID) and leaves the stock of every other ID as it was |
| StoreProperties.AddPreserves | src/beanbags/CDStore.java:56-65 | adding keeps stock IDs unique, IDs well formed and counts non-negative |
| StoreProperties.SetPriceFailures | src/beanbags/CDStore.java:96-105 | setBeanBagPrice checks price, then ID format, then presence, and throws each exception exactly in its own case |
| StoreProperties.SetPriceEffect | src/beanbags/CDStore.java:102-106 | a successful repricing sets the found record's price, changes no other record, no count and no ledger entry |
| StoreProperties.SetPricePreserves | src/beanbags/CDStore.java:93-107 | repricing keeps stock IDs unique, IDs well formed and counts non-negative |
| StoreProperties.SellFailures | src/beanbags/CDStore.java:113-132 | sellBeanBags throws each reachable exception exactly in its own case, and never throws out-of-stock or price-not-set |
| StoreProperties.SellEffect | src/beanbags/CDStore.java:119-133 | a successful sale finds enough stock, lowers the stock of the ID by num (never below zero), touches no other ID and lowers the total by num |
| StoreProperties.SellLedgerEffect | src/beanbags/CDStore.java:134-139 | a successful sale raises the ledger count of the ID by num when the ledger already holds it, and otherwise leaves the ledger unchanged |
| StoreProperties.SellPreserves | src/beanbags/CDStore.java:109-140 | selling keeps IDs unique in both lists, IDs well formed and counts non-negative |
| StoreProperties.QueryFailures | src/beanbags/CDStore.java:151-193 | the single-ID queries throw illegal-ID for a malformed ID and not-recognised for an absent one, and otherwise report a record that carries the ID; the sold value is the sold count times that ledger record's price |
| StoreProperties.DetailsShape | src/beanbags/CDStore.java:215-222 | the details of a held ID are its free text, or "" when that text is blank; they are never a non-empty blank string |
| StoreProperties.EmptyStoreQueries | src/beanbags/CDStore.java:224-228 | after emptying, every total is zero and every well-formed ID is reported as unknown |
| StoreProperties.ResetSalesEffect | src/beanbags/CDStore.java:230-233 | resetting sales tracking keeps every stock level, forgets every sale and zeroes both sales totals |
| StoreProperties.ReplaceFailures | src/beanbags/CDStore.java:235-243 | replace throws illegal-ID exactly for a malformed replacement ID and not-recognised exactly for an old ID that is not in stock |
| StoreProperties.ReplaceEffect | src/beanbags/CDStore.java:244-248 | a successful replace renames the found stock record and the first ledger record with the old ID (the ledger is unchanged when it has none), changes no other record and no count, and keeps IDs well formed |
| StoreProperties.ReplacePurgesOldId | src/beanbags/CDStore.java:244-248 | with unique IDs and distinct arguments, no stock or ledger record keeps the old ID after replace |
| StoreProperties.Reachable | src/beanbags/CDStore.java:134-139 | in every store reached by a run of calls, IDs are well formed, counts are non-negative and the ledger is empty, so sold totals are always zero |
| Contract.SellCheckedFailures | src/beanbags/CutDownStore.java:99-107 | the interface's sale raises out-of-stock for no stock, insufficient for short stock and price-not-set for an unpriced record, and succeeds otherwise |
| Contract.SellCheckedConservesUnits | src/beanbags/CutDownStore.java:90-92 | the interface's sale removes num units from stock and adds them to the ledger, keeping ledger IDs unique |
| Contract.SellCheckedRecordsSale | src/beanbags/CutDownStore.java:159-174 | after the interface's sale, the ledger count of the ID is its old count plus num, or num for a first sale |
| Contract.RecordSaleEffect | src/beanbags/CutDownStore.java:152-157 | entering a sale adds exactly num units to the ledger, under the sold ID, keeping ledger IDs unique |
| Contract.UnpricedSaleEntryValue | src/beanbags/CDStore.java:136 | a ledger record built as the sale builds it (five-argument constructor, price unset) would value the sale at -num pence |
| Contract.RecordSaleValue | src/beanbags/CutDownStore.java:184-199 | the interface's first sale is valued at num times the stock record's price |
| Contract.RecordSaleKeepsPrice | src/beanbags/CutDownStore.java:184-199 | a later sale of an ID already in the ledger raises its count and keeps the ledger record's price, so the sold value rises by num times that price |
| Contract.SellZeroStockIsInsufficient | src/beanbags/CDStore.java:123-129 | as written, selling from a record with zero stock throws insufficient-stock, where the interface asks for out-of-stock |
| Contract.SellUnsetPriceSucceeds | src/beanbags/CDStore.java:130-133 | as written, a record whose price was never set can be sold, where the interface asks for price-not-set |
| Contract.FirstSaleIsLost | src/beanbags/CDStore.java:134-139 | as written, the first sale of an ID leaves the ledger unchanged, so the units sold vanish from the store's totals |
| Contract.SaleExample | src/beanbags/CDStore.java:134-139 | adding five, pricing at 999 and selling two leaves three in stock with no sale recorded; the interface's sale records two sold, worth 1998 pence |
| Contract.ReplaceCheckedRenames | src/beanbags/CutDownStore.java:234-253 | the interface's replace keeps IDs unique, purges the old ID and carries its stock level and sales count over to the replacement ID |
| Contract.ReplaceCanDuplicateIds | src/beanbags/CDStore.java:235-249 | as written, replace can rename a record to an ID that another stock record already carries, which the interface rejects |
| Contract.ReplaceSkipsOldIdCheck | src/beanbags/CDStore.java:237-243 | as written, a malformed old ID is reported as not recognised, where the interface asks for illegal-ID |
| Store.CDStore.constructor | src/beanbags/CDStore.java:15-16 | a new store holds no stock and no sales |
| Store.CDStore.GetBeanBagByID | src/beanbags/CDStore.java:24-32 | returns the first bean bag in the list carrying the ID, or null exactly when none does |
| Store.CDStore.AddBeanBags | src/beanbags/CDStore.java:43-66 | throws what Add gives, and otherwise makes the contents Add's result; a new bean bag is a fresh object appended at the end |
| Store.CDStore.AddBeanBagsWithInformation | src/beanbags/CDStore.java:68-91 | as AddBeanBags, with the given free text |
| Store.CDStore.AddToStock | src/beanbags/CDStore.java:56-65 | appends the new bean bag for an unseen ID; otherwise throws mismatch, or raises the found bean bag's count, as AddRecord gives |
| Store.CDStore.SetBeanBagPrice | src/beanbags/CDStore.java:93-107 | throws what SetPrice gives, and otherwise makes the contents SetPrice's result |
| Store.CDStore.SellBeanBags | src/beanbags/CDStore.java:109-140 | throws what Sell gives, and otherwise makes the contents Sell's result |
| Store.CDStore.CompleteSale | src/beanbags/CDStore.java:133-139 | lowers the found stock bean bag by num and makes the ledger what RaiseSold gives |
| Store.CDStore.EnterSale | src/beanbags/CDStore.java:134-139 | raises the ledger bean bag carrying the ID by num, and leaves the ledger unchanged when there is none |
| Store.CDStore.BeanBagsInStock | src/beanbags/CDStore.java:142-149 | returns the sum of the stock counts |
| Store.CDStore.BeanBagsInStockOf | src/beanbags/CDStore.java:151-161 | returns what StockOf gives: illegal-ID, not-recognised, or the count of the first stock record carrying the ID |
| Store.CDStore.GetNumberOfDifferentBeanBagsInStock | src/beanbags/CDStore.java:163-172 | returns the number of stock records with a positive count, which with unique IDs is the number of distinct IDs in stock |
| Store.CDStore.GetNumberOfSoldBeanBags | src/beanbags/CDStore.java:174-181 | returns the sum of the ledger counts |
| Store.CDStore.GetNumberOfSoldBeanBagsOf | src/beanbags/CDStore.java:183-193 | returns what SoldOf gives for the ledger |
| Store.CDStore.GetTotalPriceOfSoldBeanBags | src/beanbags/CDStore.java:195-202 | returns the sum of count times price over the ledger |
| Store.CDStore.GetTotalPriceOfSoldBeanBagsOf | src/beanbags/CDStore.java:204-213 | returns what SoldValueOf gives: count times the ledger record's own price |
| Store.CDStore.GetBeanBagDetails | src/beanbags/CDStore.java:215-222 | returns the held bean bag's free text, or "" when it is blank |
| Store.CDStore.Empty | src/beanbags/CDStore.java:224-228 | both lists become empty |
| Store.CDStore.ResetSaleAndCostTracking | src/beanbags/CDStore.java:230-233 | the ledger becomes empty and the stock list is kept |
| Store.CDStore.Replace | src/beanbags/CDStore.java:235-249 | throws what StoreModel.Replace gives, and otherwise makes the contents its result |
| Store.CDStore.RenameSold | src/beanbags/CDStore.java:245-248 | gives the first ledger bean bag carrying the old ID the replacement ID, if there is one |

## Left out

- `ObjectArrayList` is not part of this model. Its lists are modelled as `seq<BeanBag>` fields that the methods reassign.
- The exception classes are not part of this model. Each exception is a constructor of `StoreError`. A method that throws returns `Threw(e)`, and a query that throws returns `Err(e)`.
- String comparison: the source compares IDs, manufacturers, names and free text with reference equality (`==` on `String`). The model uses value equality, because interning has no counterpart in Dafny.
- Java `int` overflow in `num + b.getNum()`, in the running sums and in `num * price` is not modelled. Integers are unbounded.
- Null string arguments are not modelled. In the source:
  - a null ID passed to `addBeanBags`, `setBeanBagPrice`, `sellBeanBags` or a single-ID query, or a null replacement ID passed to `replace`, fails with a `NullPointerException` inside `idIsValid`;
  - a null old ID passed to `replace` is never validated: the lookup finds nothing and the call throws the not-recognised exception;
  - a null manufacturer, name or free text is stored without any exception; a null free text fails later, at `i.isEmpty()` in `getBeanBagDetails` (src/beanbags/CDStore.java:217).
- The `year` argument of `addBeanBags` is never read by the source, so it is dropped. The `byte` month is an `int`.
- The getters of `BeanBag` are not separate members. The store reads the fields directly.
- `isBlank` in `getBeanBagDetails` is modelled as: every character is one of space, tab, line feed, carriage return, form feed or vertical tab. Java also counts U+001C to U+001F and the Unicode space separators as white space; those are not modelled. The `i == null` test is dropped, because free text is never null here.
- Store.CDStore.GetBeanBagDetails: requires the ID to be in stock, because the source dereferences the null result of the lookup for any other ID (src/beanbags/CDStore.java:216). The same applies to StoreModel.Details.
- The interface asks for a mismatch error also against bean bags that were stocked previously. The implementation checks only the current stock list, and the model follows the implementation.
- Contract.RecordSale: the corrected ledger keeps one price per ledger record, the stock price at the first sale, and a later sale only raises the count (Contract.RecordSaleKeepsPrice). Units sold after a repricing are therefore valued at the first sale's price; the interface does not say how a ledger should value sales at several prices.
- The sold value of a ledger record is its count times the record's own price, as the source computes it. No ledger record is ever added (StoreProperties.Reachable), so both sold totals are always zero. The record the sale builds has the unset price, so this valuation is itself a departure from the interface (see Findings).
- The interface describes a valid ID as a "positive" eight-digit hexadecimal number, but the source's pattern also accepts "00000000", which is the default bean bag's ID. The model follows the pattern (StoreModel.IdIsValid).
- Some source method bodies are split into helper methods so that the proofs stay small, with the effects in the source's order:
  - `AddToStock` is the shared tail of both `addBeanBags`;
  - `CompleteSale` and `EnterSale` are the tail of `sellBeanBags`;
  - `RenameSold` is the ledger half of `replace`;
  - `SetStockNum`, `SetSoldNum`, `SetStockPrice`, `SetStockId` and `SetSoldId` are one setter call each.

## Findings

| source | as written | input that shows it | evidently intended | confidence | as-written member | corrected member |
|---|---|---|---|---|---|---|
| src/beanbags/CDStore.java:123-132 | the stock test comes before the out-of-stock test, and the price-not-set test checks `n < 0` on the count, so neither of those exceptions is ever thrown | selling 1 of a held ID whose count is 0 throws insufficient-stock; selling 1 of an ID held with count 1 and price -1 succeeds | out-of-stock for an empty record and price-not-set for an unpriced one (src/beanbags/CutDownStore.java:99-107) | not executed | Contract.SellZeroStockIsInsufficient | Contract.SellCheckedFailures |
| src/beanbags/CDStore.java:134-139 | the ledger bean bag built for a first sale is never added to `soldList`, so no sale is ever recorded | add 5 of 0000000A, price it at 999, sell 2: the sold count of 0000000A is not recognised and the sold value is 0 | the sale is entered in the ledger: 2 sold; the ledger record takes the stock record's price, which the next row needs for the value of 1998 pence | not executed | Contract.FirstSaleIsLost | Contract.SellCheckedRecordsSale |
| src/beanbags/CDStore.java:235-249 | replace validates only the replacement ID and does not check that it is free | stock 0000000A and 0000000B, replace 0000000A by 0000000B: both stock records carry 0000000B, so getNumberOfDifferentBeanBagsInStock reports 2 while only one distinct ID is in stock | illegal-ID for a malformed old ID or a replacement ID already in use (src/beanbags/CutDownStore.java:243-253) | not executed | Contract.ReplaceCanDuplicateIds | Contract.ReplaceCheckedRenames |
| src/beanbags/CDStore.java:136 | the ledger record for a sale is built with the five-argument constructor, so its price is unset (-1), and the sold value is count times that price (src/beanbags/CDStore.java:199, 212) | with the missing append added, add 5 of 0000000A, price it at 999, sell 2: the sold value of 0000000A would be -2 | a first sale is valued at the price it was made at: 1998 pence, as the income the interface asks for (src/beanbags/CutDownStore.java:177-199) | not executed | Contract.UnpricedSaleEntryValue | Contract.RecordSaleValue |
