/** The store interface's promises where the implementation departs from them.
    For sellBeanBags and replace this module gives the behaviour the interface
    describes, proves the promised properties of it, and proves, about the
    implementation as written (module StoreModel), the inputs on which the two
    differ. */
module Contract {
  import opened BeanBags
  import opened StoreModel
  import opened StoreProperties

  // ---------------------------------------------------------------------------
  // sellBeanBags

  /** Enter a sale of `num` units of stock record `b` in the ledger: raise the
      ledger record for its ID, or add one carrying the record's description
      and the stock record's price, so that a first sale is valued at the price
      it was made at. A later sale keeps the ledger record's price. */
  function RecordSale(sold: seq<Rec>, b: Rec, num: int): seq<Rec>
  {
    match IndexOf(sold, b.id)
    case None => sold + [b.(num := num)]
    case Some(j) => sold[j := sold[j].(num := sold[j].num + num)]
  }

  /** sellBeanBags as the interface describes it: an empty stock record is out
      of stock, a short one is insufficient, an unpriced one cannot be sold,
      and every sale is entered in the ledger. */
  function SellChecked(inv: Inventory, num: int, id: string): Result<Inventory>
  {
    if num < 1 then Err(IllegalNumberOfBeanBagsSold)
    else if !IdIsValid(id) then Err(IllegalID)
    else match IndexOf(inv.stock, id)
      case None => Err(BeanBagIDNotRecognised)
      case Some(k) =>
        var b := inv.stock[k];
        if b.num < 1 then Err(BeanBagNotInStock)
        else if b.num < num then Err(InsufficientStock)
        else if b.price == UnsetPrice then Err(PriceNotSet)
        else Ok(Inventory(inv.stock[k := b.(num := b.num - num)], RecordSale(inv.sold, b, num)))
  }

  /** Each failure of the interface is raised exactly in its own case. */
  lemma SellCheckedFailures(inv: Inventory, num: int, id: string)
    requires num >= 1 && IdIsValid(id) && IndexOf(inv.stock, id).Some?
    ensures var b := inv.stock[IndexOf(inv.stock, id).value];
      var r := SellChecked(inv, num, id);
      && (r == Err(BeanBagNotInStock) <==> b.num < 1)
      && (r == Err(InsufficientStock) <==> 1 <= b.num < num)
      && (r == Err(PriceNotSet) <==> b.num >= num && b.price == UnsetPrice)
      && (r.Ok? <==> b.num >= num && b.price != UnsetPrice)
  {
  }

  /** A successful checked sale, stated for the stock record found for `id`. */
  lemma SellCheckedSucceeds(inv: Inventory, num: int, id: string)
    requires SellChecked(inv, num, id).Ok?
    ensures IdIsValid(id) && IndexOf(inv.stock, id).Some?
    ensures var k := IndexOf(inv.stock, id).value;
      var b := inv.stock[k];
      b.id == id &&
      SellChecked(inv, num, id) == Ok(Inventory(inv.stock[k := b.(num := b.num - num)], RecordSale(inv.sold, b, num)))
  {
  }

  /** Every unit that leaves the stock arrives in the ledger. */
  lemma SellCheckedConservesUnits(inv: Inventory, num: int, id: string)
    requires SellChecked(inv, num, id).Ok?
    ensures var inv' := SellChecked(inv, num, id).value;
      && TotalNum(inv'.stock) + TotalNum(inv'.sold) == TotalNum(inv.stock) + TotalNum(inv.sold)
      && TotalNum(inv'.stock) == TotalNum(inv.stock) - num
      && (UniqueIds(inv.sold) ==> UniqueIds(inv'.sold))
  {
    SellCheckedSucceeds(inv, num, id);
    var k := IndexOf(inv.stock, id).value;
    var b := inv.stock[k];
    var stock', sold' := inv.stock[k := b.(num := b.num - num)], RecordSale(inv.sold, b, num);
    assert SellChecked(inv, num, id).value == Inventory(stock', sold');
    TotalNumUpdate(inv.stock, k, b.(num := b.num - num));
    RecordSaleEffect(inv.sold, b, num);
    assert TotalNum(stock') == TotalNum(inv.stock) - num;
    assert TotalNum(sold') == TotalNum(inv.sold) + num;
  }

  /** The units sold are entered under the sold ID: its ledger count rises by
      `num`, starting from zero when the ID had no ledger record. */
  lemma SellCheckedRecordsSale(inv: Inventory, num: int, id: string)
    requires SellChecked(inv, num, id).Ok?
    ensures SoldOf(inv, id).Ok? ==> SoldOf(SellChecked(inv, num, id).value, id) == Ok(SoldOf(inv, id).value + num)
    ensures SoldOf(inv, id).Err? ==> SoldOf(SellChecked(inv, num, id).value, id) == Ok(num)
  {
    SellCheckedSucceeds(inv, num, id);
    var k := IndexOf(inv.stock, id).value;
    var b := inv.stock[k];
    var inv' := Inventory(inv.stock[k := b.(num := b.num - num)], RecordSale(inv.sold, b, num));
    assert SellChecked(inv, num, id).value == inv';
    RecordSaleEffect(inv.sold, b, num);
    var j' := IndexOf(inv'.sold, id).value;
    SoldOfAt(inv', id, j');
    if IndexOf(inv.sold, id).Some? {
      var j := IndexOf(inv.sold, id).value;
      SoldOfAt(inv, id, j);
      assert inv'.sold[j'].num == num + inv.sold[j].num;
    } else {
      assert SoldOf(inv, id).Err?;
      assert inv'.sold[j'].num == num;
    }
  }

  /** Entering a sale adds exactly `num` units to the ledger, all under the
      record's ID, and gives no two ledger records the same ID. */
  lemma RecordSaleEffect(sold: seq<Rec>, b: Rec, num: int)
    ensures TotalNum(RecordSale(sold, b, num)) == TotalNum(sold) + num
    ensures IndexOf(RecordSale(sold, b, num), b.id).Some?
    ensures var s' := RecordSale(sold, b, num);
      s'[IndexOf(s', b.id).value].num == num + if IndexOf(sold, b.id).Some? then sold[IndexOf(sold, b.id).value].num else 0
    ensures UniqueIds(sold) ==> UniqueIds(RecordSale(sold, b, num))
  {
    var s' := RecordSale(sold, b, num);
    match IndexOf(sold, b.id)
    case None =>
      TotalNumAppend(sold, b.(num := num));
      IndexOfAppend(sold, b.(num := num), b.id);
    case Some(j) =>
      var c := sold[j].(num := sold[j].num + num);
      assert s' == sold[j := c];
      TotalNumUpdate(sold, j, c);
      IndexOfSameIds(s', sold, b.id);
  }

  /** As written, the ledger record built for a first sale takes the unset
      price: were it stored, the sale would be valued at minus one penny per
      bean bag. */
  lemma UnpricedSaleEntryValue(inv: Inventory, b: Rec, num: int, id: string)
    requires IdIsValid(id) && IndexOf(inv.sold, id).None?
    ensures var entry := Rec(num, UnsetPrice, b.manufacturer, b.name, id, b.information);
      SoldValueOf(Inventory(inv.stock, inv.sold + [entry]), id) == Ok(-num)
  {
    var entry := Rec(num, UnsetPrice, b.manufacturer, b.name, id, b.information);
    IndexOfAppend(inv.sold, entry, id);
  }

  /** The interface's first sale is valued at the stock record's price. */
  lemma RecordSaleValue(inv: Inventory, b: Rec, num: int)
    requires IdIsValid(b.id) && IndexOf(inv.sold, b.id).None?
    ensures SoldValueOf(Inventory(inv.stock, RecordSale(inv.sold, b, num)), b.id) == Ok(num * b.price)
  {
    IndexOfAppend(inv.sold, b.(num := num), b.id);
  }

  /** A sale of an ID already in the ledger keeps that record's price, so the
      sold value grows by `num` times the price of the first sale. */
  lemma RecordSaleKeepsPrice(inv: Inventory, b: Rec, num: int)
    requires IdIsValid(b.id) && IndexOf(inv.sold, b.id).Some?
    ensures var j := IndexOf(inv.sold, b.id).value;
      SoldValueOf(Inventory(inv.stock, RecordSale(inv.sold, b, num)), b.id) ==
        Ok((inv.sold[j].num + num) * inv.sold[j].price)
  {
    var j := IndexOf(inv.sold, b.id).value;
    var s' := RecordSale(inv.sold, b, num);
    assert s' == inv.sold[j := inv.sold[j].(num := inv.sold[j].num + num)];
    IndexOfSameIds(s', inv.sold, b.id);
  }

  /** As written, selling from a record with no stock reports insufficient
      stock, where the interface asks for out of stock. */
  lemma SellZeroStockIsInsufficient(inv: Inventory, num: int, id: string)
    requires num >= 1 && IdIsValid(id) && IndexOf(inv.stock, id).Some?
    requires inv.stock[IndexOf(inv.stock, id).value].num == 0
    ensures Sell(inv, num, id) == Err(InsufficientStock)
    ensures SellChecked(inv, num, id) == Err(BeanBagNotInStock)
  {
  }

  /** As written, a record whose price was never set can be sold. */
  lemma SellUnsetPriceSucceeds(inv: Inventory, num: int, id: string)
    requires num >= 1 && IdIsValid(id) && IndexOf(inv.stock, id).Some?
    requires inv.stock[IndexOf(inv.stock, id).value].num >= num
    requires inv.stock[IndexOf(inv.stock, id).value].price == UnsetPrice
    ensures Sell(inv, num, id).Ok?
    ensures SellChecked(inv, num, id) == Err(PriceNotSet)
  {
  }

  /** As written, the first sale of an ID is lost: the ledger does not change,
      so the units sold vanish from the store's totals. */
  lemma FirstSaleIsLost(inv: Inventory, num: int, id: string)
    requires Sell(inv, num, id).Ok? && IndexOf(inv.sold, id).None?
    ensures Sell(inv, num, id).value.sold == inv.sold
    ensures SoldOf(Sell(inv, num, id).value, id) == Err(BeanBagIDNotRecognised)
    ensures TotalNum(Sell(inv, num, id).value.stock) + TotalNum(inv.sold) ==
            TotalNum(inv.stock) + TotalNum(inv.sold) - num
  {
    SellEffect(inv, num, id);
  }

  /** The worked example: add five, price them at 999 pence, sell two. The
      implementation keeps three in stock but records no sale; the interface's
      behaviour records two sold, worth 1998 pence. */
  lemma SaleExample()
    ensures var ops := [AddBags(5, "Acme", "Puff", "0000000A", 1, ""),
                        SetBagPrice("0000000A", 999), SellBags(2, "0000000A")];
      && StockOf(Run(ops), "0000000A") == Ok(3)
      && SoldOf(Run(ops), "0000000A") == Err(BeanBagIDNotRecognised)
      && TotalValue(Run(ops).sold) == 0
    ensures var inv := SetPrice(Add(EmptyStore, 5, "Acme", "Puff", "0000000A", 1, "").value, "0000000A", 999).value;
      && SellChecked(inv, 2, "0000000A").Ok?
      && StockOf(SellChecked(inv, 2, "0000000A").value, "0000000A") == Ok(3)
      && SoldOf(SellChecked(inv, 2, "0000000A").value, "0000000A") == Ok(2)
      && TotalValue(SellChecked(inv, 2, "0000000A").value.sold) == 1998
  {
    var id := "0000000A";
    assert IdIsValid(id) by {
      assert forall i :: 0 <= i < 8 ==> id[i] == '0' || id[i] == 'A';
    }
    var ops := [AddBags(5, "Acme", "Puff", id, 1, ""), SetBagPrice(id, 999), SellBags(2, id)];
    assert ops[..2][..1] == ops[..1] && ops[..1][..0] == [];
    var inv1 := Add(EmptyStore, 5, "Acme", "Puff", id, 1, "").value;
    var inv2 := SetPrice(inv1, id, 999).value;
    assert Run(ops[..1]) == inv1;
    assert Run(ops[..2]) == inv2;
    var inv3 := SellChecked(inv2, 2, id).value;
    assert inv3.sold == [Rec(2, 999, "Acme", "Puff", id, "")];
    assert inv3.sold[..0] == [];
  }

  // ---------------------------------------------------------------------------
  // replace

  /** replace as the interface describes it: both IDs must be well formed, the
      old one must be held, and the replacement must not be in use. */
  function ReplaceChecked(inv: Inventory, oldId: string, replacementId: string): Result<Inventory>
  {
    if !IdIsValid(oldId) || !IdIsValid(replacementId) then Err(IllegalID)
    else match IndexOf(inv.stock, oldId)
      case None => Err(BeanBagIDNotRecognised)
      case Some(k) =>
        if IndexOf(inv.stock, replacementId).Some? || IndexOf(inv.sold, replacementId).Some? then Err(IllegalID)
        else
          var stock := inv.stock[k := inv.stock[k].(id := replacementId)];
          match IndexOf(inv.sold, oldId)
          case None => Ok(inv.(stock := stock))
          case Some(j) => Ok(Inventory(stock, inv.sold[j := inv.sold[j].(id := replacementId)]))
  }

  /** The checked replace keeps IDs unique, purges the old ID and carries the
      stock level and the sales count over to the replacement ID. */
  lemma ReplaceCheckedRenames(inv: Inventory, oldId: string, replacementId: string)
    requires UniqueIds(inv.stock) && UniqueIds(inv.sold)
    requires ReplaceChecked(inv, oldId, replacementId).Ok?
    ensures var inv' := ReplaceChecked(inv, oldId, replacementId).value;
      && UniqueIds(inv'.stock) && UniqueIds(inv'.sold)
      && IndexOf(inv'.stock, oldId).None? && IndexOf(inv'.sold, oldId).None?
      && StockOf(inv', replacementId) == StockOf(inv, oldId)
      && SoldOf(inv', replacementId) == SoldOf(inv, oldId)
      && StockOf(inv', oldId) == Err(BeanBagIDNotRecognised)
      && SoldOf(inv', oldId) == Err(BeanBagIDNotRecognised)
  {
    var inv' := ReplaceChecked(inv, oldId, replacementId).value;
    var k := IndexOf(inv.stock, oldId).value;
    IndexOfUnique(inv'.stock, k, replacementId);
    match IndexOf(inv.sold, oldId)
    case None =>
    case Some(j) =>
      IndexOfUnique(inv'.sold, j, replacementId);
  }

  /** As written, replace gives a second stock record an ID already in use. */
  lemma ReplaceCanDuplicateIds()
    ensures var inv := Inventory([Rec(1, UnsetPrice, "M", "N", "0000000A", ""),
                                  Rec(1, UnsetPrice, "M", "N", "0000000B", "")], []);
      && UniqueIds(inv.stock)
      && Replace(inv, "0000000A", "0000000B").Ok?
      && !UniqueIds(Replace(inv, "0000000A", "0000000B").value.stock)
      && ReplaceChecked(inv, "0000000A", "0000000B") == Err(IllegalID)
  {
    var a, b := "0000000A", "0000000B";
    assert IdIsValid(a) by { assert forall i :: 0 <= i < 8 ==> a[i] == '0' || a[i] == 'A'; }
    assert IdIsValid(b) by { assert forall i :: 0 <= i < 8 ==> b[i] == '0' || b[i] == 'B'; }
    assert a != b by { assert a[7] != b[7]; }
    var inv := Inventory([Rec(1, UnsetPrice, "M", "N", a, ""), Rec(1, UnsetPrice, "M", "N", b, "")], []);
    assert IndexOf(inv.stock, a) == Some(0);
    IndexOfIs(inv.stock, 1, b);
    var after := Replace(inv, a, b).value;
    assert after.stock[0].id == after.stock[1].id;
  }

  /** As written, a malformed old ID is reported as unknown rather than as
      illegal. */
  lemma ReplaceSkipsOldIdCheck(inv: Inventory, oldId: string, replacementId: string)
    requires AllIdsValid(inv.stock) && !IdIsValid(oldId) && IdIsValid(replacementId)
    ensures Replace(inv, oldId, replacementId) == Err(BeanBagIDNotRecognised)
    ensures ReplaceChecked(inv, oldId, replacementId) == Err(IllegalID)
  {
  }
}
