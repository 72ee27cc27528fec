/** Properties of the store operations of module StoreModel: which failure
    each operation raises and when, what a successful call does to the
    observable stock and sales queries, and which invariants the operations
    keep. */
module StoreProperties {
  import opened BeanBags
  import opened StoreModel

  /** The value of a successful call, or the old contents when the call failed:
      a failing operation leaves the store as it was. */
  function Next(r: Result<Inventory>, inv: Inventory): Inventory
  {
    if r.Ok? then r.value else inv
  }

  // ---------------------------------------------------------------------------
  // addBeanBags

  /** The checks come in the order count, month, ID, description. */
  lemma AddFailures(inv: Inventory, num: int, manufacturer: string, name: string, id: string,
                    month: int, information: string)
    ensures var r := Add(inv, num, manufacturer, name, id, month, information);
      && (r == Err(IllegalNumberOfBeanBagsAdded) <==> num < 1)
      && (r == Err(InvalidMonth) <==> num >= 1 && (month < 1 || month > 12))
      && (r == Err(IllegalID) <==> num >= 1 && 1 <= month <= 12 && !IdIsValid(id))
      && (r == Err(BeanBagMismatch) <==>
            num >= 1 && 1 <= month <= 12 && IdIsValid(id) && IndexOf(inv.stock, id).Some? &&
            var b := inv.stock[IndexOf(inv.stock, id).value];
            !(b.manufacturer == manufacturer && b.name == name && b.information == information))
      && (r.Err? ==> r.error in {IllegalNumberOfBeanBagsAdded, InvalidMonth, IllegalID, BeanBagMismatch})
  {
  }

  /** A successful add changes only the stock: a new ID is appended with
      price unset, a known one keeps its place, and the total count rises by
      `num`. */
  lemma AddEffect(inv: Inventory, num: int, manufacturer: string, name: string, id: string,
                  month: int, information: string)
    requires Add(inv, num, manufacturer, name, id, month, information).Ok?
    ensures var inv' := Add(inv, num, manufacturer, name, id, month, information).value;
      && inv'.sold == inv.sold
      && TotalNum(inv'.stock) == TotalNum(inv.stock) + num
      && (IndexOf(inv.stock, id).None? ==>
            inv'.stock == inv.stock + [Rec(num, UnsetPrice, manufacturer, name, id, information)])
      && (IndexOf(inv.stock, id).Some? ==> |inv'.stock| == |inv.stock|)
  {
    var added := Rec(num, UnsetPrice, manufacturer, name, id, information);
    var inv' := Add(inv, num, manufacturer, name, id, month, information).value;
    assert inv' == AddRecord(inv, added).value;
    match IndexOf(inv.stock, id)
    case None =>
      TotalNumAppend(inv.stock, added);
    case Some(k) =>
      AddRecordFound(inv, added, k, inv.stock[k].num + added.num);
      var b := inv.stock[k];
      TotalNumUpdate(inv.stock, k, b.(num := b.num + num));
  }

  /** A successful add raises the stock of `id` by `num` (from nothing for a
      new ID) and leaves the stock of every other ID as it was. */
  lemma AddStockEffect(inv: Inventory, num: int, manufacturer: string, name: string, id: string,
                       month: int, information: string)
    requires Add(inv, num, manufacturer, name, id, month, information).Ok?
    ensures var inv' := Add(inv, num, manufacturer, name, id, month, information).value;
      && StockOf(inv', id) == Ok(num + (if StockOf(inv, id).Ok? then StockOf(inv, id).value else 0))
      && (forall other :: other != id ==> StockOf(inv', other) == StockOf(inv, other))
  {
    var added := Rec(num, UnsetPrice, manufacturer, name, id, information);
    var inv' := Add(inv, num, manufacturer, name, id, month, information).value;
    assert IdIsValid(id) && inv' == AddRecord(inv, added).value;
    match IndexOf(inv.stock, id)
    case None =>
      assert inv'.stock == inv.stock + [added];
      forall other | other != id ensures IndexOf(inv'.stock, other) == IndexOf(inv.stock, other) {
        IndexOfAppend(inv.stock, added, other);
      }
      IndexOfAppend(inv.stock, added, id);
      StockOfAt(inv', id, |inv.stock|);
    case Some(k) =>
      AddRecordFound(inv, added, k, inv.stock[k].num + added.num);
      forall other ensures IndexOf(inv'.stock, other) == IndexOf(inv.stock, other) {
        IndexOfSameIds(inv'.stock, inv.stock, other);
      }
      StockOfAt(inv, id, k);
      StockOfAt(inv', id, k);
  }

  /** beanBagsInStock(id) for an ID found in stock at index `k`. */
  lemma StockOfAt(inv: Inventory, id: string, k: nat)
    requires IdIsValid(id) && IndexOf(inv.stock, id) == Some(k)
    ensures StockOf(inv, id) == Ok(inv.stock[k].num)
  {
  }

  /** AddRecord when the ID is already in stock at index `k`. */
  lemma AddRecordFound(inv: Inventory, added: Rec, k: nat, m: int)
    requires IndexOf(inv.stock, added.id) == Some(k) && m == inv.stock[k].num + added.num
    ensures AddRecord(inv, added) ==
      if Mismatched(inv.stock[k], added) then Err(BeanBagMismatch)
      else Ok(Inventory(inv.stock[k := inv.stock[k].(num := m)], inv.sold))
  {
  }

  /** Adding never gives two stock records the same ID, and keeps IDs well formed
      and counts non-negative. */
  lemma AddPreserves(inv: Inventory, num: int, manufacturer: string, name: string, id: string,
                     month: int, information: string)
    ensures var inv' := Next(Add(inv, num, manufacturer, name, id, month, information), inv);
      && (UniqueIds(inv.stock) ==> UniqueIds(inv'.stock))
      && (Consistent(inv) ==> Consistent(inv'))
  {
  }

  // ---------------------------------------------------------------------------
  // setBeanBagPrice

  lemma SetPriceFailures(inv: Inventory, id: string, priceInPence: int)
    ensures var r := SetPrice(inv, id, priceInPence);
      && (r == Err(InvalidPrice) <==> priceInPence < 1)
      && (r == Err(IllegalID) <==> priceInPence >= 1 && !IdIsValid(id))
      && (r == Err(BeanBagIDNotRecognised) <==>
            priceInPence >= 1 && IdIsValid(id) && IndexOf(inv.stock, id).None?)
      && (r.Err? ==> r.error in {InvalidPrice, IllegalID, BeanBagIDNotRecognised})
  {
  }

  /** A successful repricing sets the price of the record for `id` and nothing else. */
  lemma SetPriceEffect(inv: Inventory, id: string, priceInPence: int)
    requires SetPrice(inv, id, priceInPence).Ok?
    ensures var inv' := SetPrice(inv, id, priceInPence).value;
      && inv'.sold == inv.sold
      && |inv'.stock| == |inv.stock|
      && IndexOf(inv'.stock, id).Some?
      && inv'.stock[IndexOf(inv'.stock, id).value].price == priceInPence
      && (forall i :: 0 <= i < |inv.stock| && i != IndexOf(inv.stock, id).value ==> inv'.stock[i] == inv.stock[i])
      && (forall other :: StockOf(inv', other) == StockOf(inv, other))
      && TotalNum(inv'.stock) == TotalNum(inv.stock)
  {
    var inv' := SetPrice(inv, id, priceInPence).value;
    var k := IndexOf(inv.stock, id).value;
    TotalNumSameCounts(inv.stock, k, inv.stock[k].(price := priceInPence));
    forall other ensures IndexOf(inv'.stock, other) == IndexOf(inv.stock, other) {
      IndexOfSameIds(inv'.stock, inv.stock, other);
    }
  }

  lemma SetPricePreserves(inv: Inventory, id: string, priceInPence: int)
    ensures var inv' := Next(SetPrice(inv, id, priceInPence), inv);
      && (UniqueIds(inv.stock) ==> UniqueIds(inv'.stock))
      && (Consistent(inv) ==> Consistent(inv'))
  {
  }

  // ---------------------------------------------------------------------------
  // sellBeanBags

  /** The failures sellBeanBags can raise, in the order it checks them. The
      out-of-stock and price-not-set failures are never raised. */
  lemma SellFailures(inv: Inventory, num: int, id: string)
    ensures var r := Sell(inv, num, id);
      && (r == Err(IllegalNumberOfBeanBagsSold) <==> num < 1)
      && (r == Err(IllegalID) <==> num >= 1 && !IdIsValid(id))
      && (r == Err(BeanBagIDNotRecognised) <==> num >= 1 && IdIsValid(id) && IndexOf(inv.stock, id).None?)
      && (r == Err(InsufficientStock) <==>
            num >= 1 && IdIsValid(id) && IndexOf(inv.stock, id).Some? &&
            inv.stock[IndexOf(inv.stock, id).value].num < num)
      && r != Err(BeanBagNotInStock)
      && r != Err(PriceNotSet)
  {
  }

  /** A successful sale is ApplySale at the stock record found for `id`. */
  lemma SellIsApplySale(inv: Inventory, num: int, id: string)
    requires Sell(inv, num, id).Ok?
    ensures IdIsValid(id) && IndexOf(inv.stock, id).Some?
    ensures Sell(inv, num, id) == Ok(ApplySale(inv, num, id, IndexOf(inv.stock, id).value))
  {
  }

  /** A successful sale lowers the stock of `id` by `num`, never below zero,
      and touches no other stock record. */
  lemma SellEffect(inv: Inventory, num: int, id: string)
    requires Sell(inv, num, id).Ok?
    ensures var inv' := Sell(inv, num, id).value;
      && StockOf(inv, id).Ok? && StockOf(inv, id).value >= num
      && StockOf(inv', id) == Ok(StockOf(inv, id).value - num)
      && StockOf(inv', id).value >= 0
      && (forall other :: other != id ==> StockOf(inv', other) == StockOf(inv, other))
      && |inv'.stock| == |inv.stock|
      && TotalNum(inv'.stock) == TotalNum(inv.stock) - num
  {
    SellIsApplySale(inv, num, id);
    var k := IndexOf(inv.stock, id).value;
    var inv' := ApplySale(inv, num, id, k);
    var b := inv.stock[k];
    assert inv'.stock == inv.stock[k := b.(num := b.num - num)];
    TotalNumUpdate(inv.stock, k, b.(num := b.num - num));
    forall other ensures IndexOf(inv'.stock, other) == IndexOf(inv.stock, other) {
      IndexOfSameIds(inv'.stock, inv.stock, other);
    }
    StockOfAt(inv, id, k);
    StockOfAt(inv', id, k);
  }

  /** A successful sale raises the ledger count for `id` by `num` when the
      ledger already holds `id`, and otherwise leaves the ledger as it was. */
  lemma SellLedgerEffect(inv: Inventory, num: int, id: string)
    requires Sell(inv, num, id).Ok?
    ensures |Sell(inv, num, id).value.sold| == |inv.sold|
    ensures SoldOf(inv, id).Ok? ==> SoldOf(Sell(inv, num, id).value, id) == Ok(SoldOf(inv, id).value + num)
    ensures SoldOf(inv, id).Err? ==> SoldOf(Sell(inv, num, id).value, id) == SoldOf(inv, id)
    ensures TotalNum(Sell(inv, num, id).value.sold) == TotalNum(inv.sold) + (if SoldOf(inv, id).Ok? then num else 0)
  {
    SellIsApplySale(inv, num, id);
    var k := IndexOf(inv.stock, id).value;
    var inv' := ApplySale(inv, num, id, k);
    match IndexOf(inv.sold, id)
    case None =>
      ApplySaleUnrecorded(inv, num, id, k);
      assert inv'.sold == inv.sold;
      assert SoldOf(inv, id) == Err(BeanBagIDNotRecognised);
    case Some(j) =>
      ApplySaleRecorded(inv, num, id, k, j);
      var c := inv.sold[j];
      assert inv'.sold == inv.sold[j := c.(num := c.num + num)];
      TotalNumUpdate(inv.sold, j, c.(num := c.num + num));
      IndexOfSameIds(inv'.sold, inv.sold, id);
      SoldOfAt(inv, id, j);
      SoldOfAt(inv', id, j);
  }

  /** getNumberOfSoldBeanBags(id) for an ID found in the ledger at index `j`. */
  lemma SoldOfAt(inv: Inventory, id: string, j: nat)
    requires IdIsValid(id) && IndexOf(inv.sold, id) == Some(j)
    ensures SoldOf(inv, id) == Ok(inv.sold[j].num)
  {
  }

  /** RaiseSold without a ledger record for `id`. */
  lemma RaiseSoldNone(sold: seq<Rec>, id: string, num: int)
    requires IndexOf(sold, id).None?
    ensures RaiseSold(sold, id, num) == sold
  {
  }

  /** RaiseSold with the ledger record for `id` at index `j`. */
  lemma RaiseSoldAt(sold: seq<Rec>, id: string, num: int, j: nat, m: int)
    requires IndexOf(sold, id) == Some(j) && m == sold[j].num + num
    ensures RaiseSold(sold, id, num) == sold[j := sold[j].(num := m)]
  {
  }

  /** Rename without a record for `oldId`. */
  lemma RenameNone(s: seq<Rec>, oldId: string, newId: string)
    requires IndexOf(s, oldId).None?
    ensures Rename(s, oldId, newId) == s
  {
  }

  /** Rename with the first record for `oldId` at index `j`. */
  lemma RenameAt(s: seq<Rec>, oldId: string, newId: string, j: nat)
    requires IndexOf(s, oldId) == Some(j)
    ensures Rename(s, oldId, newId) == s[j := s[j].(id := newId)]
  {
  }

  /** replace when both checks pass. */
  lemma ReplaceFound(inv: Inventory, oldId: string, replacementId: string)
    requires IdIsValid(replacementId) && IndexOf(inv.stock, oldId).Some?
    ensures Replace(inv, oldId, replacementId) ==
      Ok(Inventory(Rename(inv.stock, oldId, replacementId), Rename(inv.sold, oldId, replacementId)))
  {
  }

  /** ApplySale as its stock half and its ledger half. */
  lemma ApplySaleParts(inv: Inventory, num: int, id: string, k: nat, n: int)
    requires k < |inv.stock| && n == inv.stock[k].num - num
    ensures ApplySale(inv, num, id, k) == Inventory(inv.stock[k := inv.stock[k].(num := n)], RaiseSold(inv.sold, id, num))
  {
  }

  /** ApplySale with no ledger record for `id`: only the stock changes. */
  lemma ApplySaleUnrecorded(inv: Inventory, num: int, id: string, k: nat)
    requires k < |inv.stock| && IndexOf(inv.sold, id).None?
    ensures ApplySale(inv, num, id, k) == inv.(stock := inv.stock[k := inv.stock[k].(num := inv.stock[k].num - num)])
  {
  }

  /** ApplySale with the ledger record for `id` at index `j`. */
  lemma ApplySaleRecorded(inv: Inventory, num: int, id: string, k: nat, j: nat)
    requires k < |inv.stock| && IndexOf(inv.sold, id) == Some(j)
    ensures ApplySale(inv, num, id, k) ==
      Inventory(inv.stock[k := inv.stock[k].(num := inv.stock[k].num - num)],
                inv.sold[j := inv.sold[j].(num := inv.sold[j].num + num)])
  {
  }

  lemma SellPreserves(inv: Inventory, num: int, id: string)
    ensures var inv' := Next(Sell(inv, num, id), inv);
      && (UniqueIds(inv.stock) ==> UniqueIds(inv'.stock))
      && (UniqueIds(inv.sold) ==> UniqueIds(inv'.sold))
      && (Consistent(inv) ==> Consistent(inv'))
  {
  }

  // ---------------------------------------------------------------------------
  // Queries

  /** The single-ID queries fail on a malformed ID first and on an absent one
      second; otherwise they report the first matching record. */
  lemma QueryFailures(inv: Inventory, id: string)
    ensures StockOf(inv, id).Err? <==> !IdIsValid(id) || IndexOf(inv.stock, id).None?
    ensures SoldOf(inv, id).Err? <==> !IdIsValid(id) || IndexOf(inv.sold, id).None?
    ensures SoldValueOf(inv, id).Err? <==> SoldOf(inv, id).Err?
    ensures SoldOf(inv, id).Ok? ==>
      SoldValueOf(inv, id) == Ok(SoldOf(inv, id).value * inv.sold[IndexOf(inv.sold, id).value].price)
    ensures StockOf(inv, id).Err? ==>
      StockOf(inv, id).error == if IdIsValid(id) then BeanBagIDNotRecognised else IllegalID
    ensures SoldOf(inv, id).Err? ==>
      SoldOf(inv, id).error == if IdIsValid(id) then BeanBagIDNotRecognised else IllegalID
    ensures StockOf(inv, id).Ok? ==> exists i :: 0 <= i < |inv.stock| && inv.stock[i].id == id && inv.stock[i].num == StockOf(inv, id).value
  {
  }

  /** The details of a held ID are never a non-empty blank string, and are the
      record's free text whenever they are not empty. */
  lemma DetailsShape(inv: Inventory, id: string)
    requires IndexOf(inv.stock, id).Some?
    ensures var d := Details(inv, id);
      && (d == "" || !IsBlank(d))
      && (d != "" ==> d == inv.stock[IndexOf(inv.stock, id).value].information)
      && (!IsBlank(inv.stock[IndexOf(inv.stock, id).value].information) ==>
            d == inv.stock[IndexOf(inv.stock, id).value].information)
  {
  }

  /** An emptied store reports nothing: every total is zero and every
      well-formed ID is unknown. */
  lemma EmptyStoreQueries(id: string)
    ensures TotalNum(EmptyStore.stock) == 0 && CountInStock(EmptyStore.stock) == 0
    ensures TotalNum(EmptyStore.sold) == 0 && TotalValue(EmptyStore.sold) == 0
    ensures StockOf(EmptyStore, id) == Err(if IdIsValid(id) then BeanBagIDNotRecognised else IllegalID)
    ensures SoldOf(EmptyStore, id) == Err(if IdIsValid(id) then BeanBagIDNotRecognised else IllegalID)
  {
  }

  /** Resetting the sales tracking leaves every stock level as it was and
      forgets every sale. */
  lemma ResetSalesEffect(inv: Inventory, id: string)
    ensures ResetSales(inv).stock == inv.stock
    ensures StockOf(ResetSales(inv), id) == StockOf(inv, id)
    ensures SoldOf(ResetSales(inv), id).Err?
    ensures TotalNum(ResetSales(inv).sold) == 0 && TotalValue(ResetSales(inv).sold) == 0
    ensures Consistent(inv) ==> Consistent(ResetSales(inv))
  {
  }

  // ---------------------------------------------------------------------------
  // replace

  /** replace validates the replacement ID and then looks the old one up; it
      raises nothing else. */
  lemma ReplaceFailures(inv: Inventory, oldId: string, replacementId: string)
    ensures var r := Replace(inv, oldId, replacementId);
      && (r == Err(IllegalID) <==> !IdIsValid(replacementId))
      && (r == Err(BeanBagIDNotRecognised) <==> IdIsValid(replacementId) && IndexOf(inv.stock, oldId).None?)
      && (r.Err? ==> r.error in {IllegalID, BeanBagIDNotRecognised})
  {
  }

  /** A successful replace renames the first stock record with the old ID and
      the first ledger record with it, if any, and changes no other record and
      no count. */
  lemma ReplaceEffect(inv: Inventory, oldId: string, replacementId: string)
    requires Replace(inv, oldId, replacementId).Ok?
    ensures var inv' := Replace(inv, oldId, replacementId).value;
      var k := IndexOf(inv.stock, oldId).value;
      && |inv'.stock| == |inv.stock| && |inv'.sold| == |inv.sold|
      && inv'.stock[k] == inv.stock[k].(id := replacementId)
      && (forall i :: 0 <= i < |inv.stock| && i != k ==> inv'.stock[i] == inv.stock[i])
      && TotalNum(inv'.stock) == TotalNum(inv.stock)
      && TotalNum(inv'.sold) == TotalNum(inv.sold)
      && (Consistent(inv) ==> Consistent(inv'))
    ensures var inv' := Replace(inv, oldId, replacementId).value;
      IndexOf(inv.sold, oldId).None? ==> inv'.sold == inv.sold
    ensures var inv' := Replace(inv, oldId, replacementId).value;
      var j := IndexOf(inv.sold, oldId);
      j.Some? ==> inv'.sold == inv.sold[j.value := inv.sold[j.value].(id := replacementId)]
  {
    var inv' := Replace(inv, oldId, replacementId).value;
    var k := IndexOf(inv.stock, oldId).value;
    assert inv'.stock == inv.stock[k := inv.stock[k].(id := replacementId)];
    TotalNumSameCounts(inv.stock, k, inv.stock[k].(id := replacementId));
    match IndexOf(inv.sold, oldId)
    case None =>
    case Some(j) =>
      assert inv'.sold == inv.sold[j := inv.sold[j].(id := replacementId)];
      TotalNumSameCounts(inv.sold, j, inv.sold[j].(id := replacementId));
  }

  /** When the IDs were unique and the two IDs differ, no stock or ledger record
      keeps the old ID after a successful replace. */
  lemma ReplacePurgesOldId(inv: Inventory, oldId: string, replacementId: string)
    requires Replace(inv, oldId, replacementId).Ok?
    requires UniqueIds(inv.stock) && UniqueIds(inv.sold) && oldId != replacementId
    ensures IndexOf(Replace(inv, oldId, replacementId).value.stock, oldId).None?
    ensures IndexOf(Replace(inv, oldId, replacementId).value.sold, oldId).None?
  {
  }

  // ---------------------------------------------------------------------------
  // Whole runs

  /** A mutating call on the store. Queries change nothing and are left out. */
  datatype Op =
    | AddBags(num: int, manufacturer: string, name: string, id: string, month: int, information: string)
    | SetBagPrice(id: string, priceInPence: int)
    | SellBags(num: int, id: string)
    | EmptyAll
    | ResetSaleTracking
    | ReplaceId(oldId: string, replacementId: string)

  /** One call: a failing call leaves the contents as they were. */
  function Step(inv: Inventory, op: Op): Inventory
  {
    match op
    case AddBags(n, m, nm, id, mo, info) => Next(Add(inv, n, m, nm, id, mo, info), inv)
    case SetBagPrice(id, p) => Next(SetPrice(inv, id, p), inv)
    case SellBags(n, id) => Next(Sell(inv, n, id), inv)
    case EmptyAll => EmptyStore
    case ResetSaleTracking => ResetSales(inv)
    case ReplaceId(o, r) => Next(Replace(inv, o, r), inv)
  }

  /** The contents after a sequence of calls on a new store. */
  function Run(ops: seq<Op>): Inventory
  {
    if ops == [] then EmptyStore else Step(Run(ops[..|ops| - 1]), ops[|ops| - 1])
  }

  /** In every reachable store all IDs are well formed, no count is negative,
      and the sales ledger is empty: no sale is ever recorded, so the number
      and value of sold bean bags are always zero. */
  lemma {:induction false} Reachable(ops: seq<Op>)
    ensures Consistent(Run(ops))
    ensures Run(ops).sold == []
    ensures TotalNum(Run(ops).sold) == 0 && TotalValue(Run(ops).sold) == 0
  {
    if ops != [] {
      var inv := Run(ops[..|ops| - 1]);
      Reachable(ops[..|ops| - 1]);
      match ops[|ops| - 1]
      case AddBags(n, m, nm, id, mo, info) => AddPreserves(inv, n, m, nm, id, mo, info);
      case SetBagPrice(id, p) => SetPricePreserves(inv, id, p);
      case SellBags(n, id) => SellPreserves(inv, n, id);
      case EmptyAll =>
      case ResetSaleTracking =>
      case ReplaceId(o, r) =>
        if Replace(inv, o, r).Ok? { ReplaceEffect(inv, o, r); }
    }
  }
}
