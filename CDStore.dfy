/** The store implementation: two lists of bean bag objects, one for the
    current stock and one for the sales ledger. Every method validates, looks
    IDs up by a linear scan and then updates a bean bag in place or a list.
    Each method is proved to do to Model() what module StoreModel says. */
module Store {
  import opened BeanBags
  import opened StoreModel
  import opened StoreProperties

  /** How a call that returns nothing ends: normally, or by throwing. */
  datatype Outcome = Completed | Threw(error: StoreError)

  function OutcomeOf(r: Result<Inventory>): Outcome
  {
    if r.Ok? then Completed else Threw(r.error)
  }

  class CDStore {
    var storeList: seq<BeanBag>
    var soldList: seq<BeanBag>

    /** No bean bag object appears twice in the lists, so updating one record
        never changes another. */
    ghost predicate Valid()
      reads this
    {
      && (forall i, j :: 0 <= i < j < |storeList| ==> storeList[i] != storeList[j])
      && (forall i, j :: 0 <= i < j < |soldList| ==> soldList[i] != soldList[j])
      && (forall i, j :: 0 <= i < |storeList| && 0 <= j < |soldList| ==> storeList[i] != soldList[j])
    }

    /** The records the store currently holds. */
    function Model(): Inventory
      reads this, storeList, soldList
    {
      Inventory(Values(storeList), Values(soldList))
    }

    /** A new store holds no bean bags and no sales. */
    constructor ()
      ensures Valid() && Model() == EmptyStore
    {
      storeList := [];
      soldList := [];
    }

    /** getBeanBagByID: the first bean bag in `list` with ID `id`, or null.
        The source compares IDs with reference equality; this model uses value
        equality. */
    static method GetBeanBagByID(id: string, list: seq<BeanBag>) returns (b: BeanBag?)
      ensures match IndexOf(Values(list), id)
        case None => b == null
        case Some(k) => b == list[k]
    {
      var i := 0;
      while i < |list|
        invariant 0 <= i <= |list|
        invariant forall j :: 0 <= j < i ==> list[j].id != id
      {
        var candidate := list[i];
        if candidate.id == id {
          IndexOfIs(Values(list), i, id);
          return candidate;
        }
        i := i + 1;
      }
      return null;
    }

    /** The six-argument addBeanBags: the new bean bag has no free text. */
    method AddBeanBags(num: int, manufacturer: string, name: string, id: string, month: int)
      returns (outcome: Outcome)
      requires Valid()
      modifies this, storeList
      ensures Valid() && soldList == old(soldList)
      ensures var r := Add(old(Model()), num, manufacturer, name, id, month, "");
        outcome == OutcomeOf(r) && Model() == Next(r, old(Model()))
      ensures storeList == old(storeList) ||
        (storeList[..|old(storeList)|] == old(storeList) && |storeList| == |old(storeList)| + 1 &&
         fresh(storeList[|old(storeList)|]))
    {
      if num < 1 { return Threw(IllegalNumberOfBeanBagsAdded); }
      if month < 1 || month > 12 { return Threw(InvalidMonth); }
      if !IdIsValid(id) { return Threw(IllegalID); }
      var b := GetBeanBagByID(id, storeList);
      var newBeanBag := new BeanBag(num, manufacturer, name, id);
      outcome := AddToStock(b, newBeanBag);
    }

    /** The seven-argument addBeanBags. */
    method AddBeanBagsWithInformation(num: int, manufacturer: string, name: string, id: string, month: int,
                                      information: string)
      returns (outcome: Outcome)
      requires Valid()
      modifies this, storeList
      ensures Valid() && soldList == old(soldList)
      ensures var r := Add(old(Model()), num, manufacturer, name, id, month, information);
        outcome == OutcomeOf(r) && Model() == Next(r, old(Model()))
      ensures storeList == old(storeList) ||
        (storeList[..|old(storeList)|] == old(storeList) && |storeList| == |old(storeList)| + 1 &&
         fresh(storeList[|old(storeList)|]))
    {
      if num < 1 { return Threw(IllegalNumberOfBeanBagsAdded); }
      if month < 1 || month > 12 { return Threw(InvalidMonth); }
      if !IdIsValid(id) { return Threw(IllegalID); }
      var b := GetBeanBagByID(id, storeList);
      var newBeanBag := new BeanBag.WithInformation(num, manufacturer, name, id, information);
      outcome := AddToStock(b, newBeanBag);
    }

    /** The part both addBeanBags share once the arguments are valid: append the
        new bean bag if its ID was not found, else check the description and
        raise the found bean bag's count. */
    method AddToStock(b: BeanBag?, newBeanBag: BeanBag) returns (outcome: Outcome)
      requires Valid()
      requires newBeanBag !in storeList && newBeanBag !in soldList
      requires match IndexOf(Values(storeList), newBeanBag.id)
        case None => b == null
        case Some(k) => b == storeList[k]
      modifies this, storeList
      ensures Valid() && soldList == old(soldList)
      ensures var r := AddRecord(old(Model()), old(newBeanBag.Value()));
        outcome == OutcomeOf(r) && Model() == Next(r, old(Model()))
      ensures storeList == old(storeList) || storeList == old(storeList) + [newBeanBag]
    {
      ghost var inv := Model();
      ghost var added := newBeanBag.Value();
      if b == null {
        storeList := storeList + [newBeanBag];
        assert Values(storeList) == inv.stock + [added];
        assert AddRecord(inv, added) == Ok(Model());
        return Completed;
      }
      ghost var k := IndexOf(inv.stock, added.id).value;
      assert b == storeList[k] && b.Value() == inv.stock[k];
      var m := b.num + newBeanBag.num;
      AddRecordFound(inv, added, k, m);
      if b.IsMismatched(newBeanBag) {
        return Threw(BeanBagMismatch);
      }
      assert !Mismatched(inv.stock[k], added);
      SetStockNum(b, k, m);
      assert Model() == Inventory(inv.stock[k := inv.stock[k].(num := m)], inv.sold);
      return Completed;
    }

    /** After the stock bean bag at index `k` changed, the stock view changed
        at `k` only and the ledger view not at all. */
    twostate lemma StockUpdatedAt(k: nat)
      requires old(Valid()) && unchanged(this)
      requires k < |storeList|
      requires forall i :: 0 <= i < |storeList| && i != k ==> unchanged(storeList[i])
      requires forall i :: 0 <= i < |soldList| ==> unchanged(soldList[i])
      ensures Valid()
      ensures Model() == old(Model()).(stock := old(Model()).stock[k := storeList[k].Value()])
    {
      forall i | 0 <= i < |storeList| && i != k
        ensures Values(storeList)[i] == old(Values(storeList))[i]
      {
        assert unchanged(storeList[i]);
      }
      assert Values(storeList) == old(Values(storeList))[k := storeList[k].Value()];
      forall i | 0 <= i < |soldList|
        ensures Values(soldList)[i] == old(Values(soldList))[i]
      {
        assert unchanged(soldList[i]);
      }
    }

    /** setBeanBagPrice. */
    method SetBeanBagPrice(id: string, priceInPence: int) returns (outcome: Outcome)
      requires Valid()
      modifies storeList
      ensures Valid()
      ensures var r := SetPrice(old(Model()), id, priceInPence);
        outcome == OutcomeOf(r) && Model() == Next(r, old(Model()))
    {
      if priceInPence < 1 { return Threw(InvalidPrice); }
      if !IdIsValid(id) { return Threw(IllegalID); }
      var b := GetBeanBagByID(id, storeList);
      if b == null { return Threw(BeanBagIDNotRecognised); }
      ghost var k := IndexOf(Values(storeList), id).value;
      SetStockPrice(b, k, priceInPence);
      return Completed;
    }

    /** sellBeanBags, as written: the out-of-stock and price-not-set branches
        cannot be reached, and the ledger bean bag made for a first sale is
        dropped. */
    method SellBeanBags(num: int, id: string) returns (outcome: Outcome)
      requires Valid()
      modifies storeList, soldList
      ensures Valid()
      ensures var r := Sell(old(Model()), num, id);
        outcome == OutcomeOf(r) && Model() == Next(r, old(Model()))
    {
      if num < 1 { return Threw(IllegalNumberOfBeanBagsSold); }
      if !IdIsValid(id) { return Threw(IllegalID); }
      var b := GetBeanBagByID(id, storeList);
      if b == null { return Threw(BeanBagIDNotRecognised); }
      if b.num < num { return Threw(InsufficientStock); }
      var n := b.num;
      if n < 1 { return Threw(BeanBagNotInStock); }
      if n < 0 { return Threw(PriceNotSet); }
      ghost var k := IndexOf(Values(storeList), id).value;
      CompleteSale(b, num, id, k);
      return Completed;
    }

    /** The successful part of sellBeanBags: take `num` off the stock bean bag
        `b`, then raise the ledger bean bag with the same ID if there is one. A
        bean bag built for a first sale is never added to the ledger. */
    method CompleteSale(b: BeanBag, num: int, id: string, ghost k: nat)
      requires Valid()
      requires IndexOf(Values(storeList), id) == Some(k) && b == storeList[k]
      modifies storeList, soldList
      ensures Valid()
      ensures Model() == ApplySale(old(Model()), num, id, k)
    {
      ghost var inv := Model();
      var n := b.num - num;
      ghost var stock := inv.stock[k := inv.stock[k].(num := n)];
      SetStockNum(b, k, n);
      assert Values(storeList) == stock && Values(soldList) == inv.sold;
      EnterSale(b, num, id);
      assert Values(soldList) == RaiseSold(inv.sold, id, num);
      ApplySaleParts(inv, num, id, k, n);
    }

    /** The ledger half of sellBeanBags: raise the ledger bean bag carrying
        `id` by `num`. When there is none, a bean bag is built for the sale
        but never added, so the ledger is left as it was. */
    method EnterSale(b: BeanBag, num: int, id: string)
      requires Valid()
      modifies soldList
      ensures Valid() && Values(storeList) == old(Values(storeList))
      ensures Values(soldList) == RaiseSold(old(Values(soldList)), id, num)
    {
      ghost var sold := Values(soldList);
      var soldBeanBag := GetBeanBagByID(id, soldList);
      if soldBeanBag == null {
        soldBeanBag := new BeanBag.WithInformation(num, b.manufacturer, b.name, id, b.information);
        RaiseSoldNone(sold, id, num);
        assert Values(soldList) == sold == RaiseSold(sold, id, num);
      } else {
        ghost var j := IndexOf(sold, id).value;
        var m := soldBeanBag.num + num;
        assert m == sold[j].num + num;
        SetSoldNum(soldBeanBag, j, m);
        RaiseSoldAt(sold, id, num, j, m);
        assert Values(soldList) == sold[j := sold[j].(num := m)];
        assert Values(soldList) == RaiseSold(sold, id, num);
      }
    }

    /** The ledger half of replace: give the first ledger bean bag with ID
        `oldId` the ID `replacementId`, if there is one. */
    method RenameSold(oldId: string, replacementId: string)
      requires Valid()
      modifies soldList
      ensures Valid() && Values(storeList) == old(Values(storeList))
      ensures Values(soldList) == Rename(old(Values(soldList)), oldId, replacementId)
    {
      ghost var sold := Values(soldList);
      var soldBeanBag := GetBeanBagByID(oldId, soldList);
      if soldBeanBag != null {
        ghost var j := IndexOf(sold, oldId).value;
        SetSoldId(soldBeanBag, j, replacementId);
        RenameAt(sold, oldId, replacementId, j);
        assert Values(soldList) == Rename(sold, oldId, replacementId);
      } else {
        RenameNone(sold, oldId, replacementId);
      }
    }

    /** b.setNum on the stock bean bag at index `k`: only that record's count changes. */
    method SetStockNum(b: BeanBag, ghost k: nat, n: int)
      requires Valid() && k < |storeList| && storeList[k] == b
      modifies b
      ensures Valid()
      ensures Values(storeList) == old(Values(storeList))[k := old(Values(storeList))[k].(num := n)]
      ensures Values(soldList) == old(Values(soldList))
    {
      b.SetNum(n);
      StockUpdatedAt(k);
    }

    /** b.setPrice on the stock bean bag at index `k`. */
    method SetStockPrice(b: BeanBag, ghost k: nat, p: int)
      requires Valid() && k < |storeList| && storeList[k] == b
      modifies b
      ensures Valid()
      ensures Values(storeList) == old(Values(storeList))[k := old(Values(storeList))[k].(price := p)]
      ensures Values(soldList) == old(Values(soldList))
    {
      b.SetPrice(p);
      StockUpdatedAt(k);
    }

    /** b.setID on the stock bean bag at index `k`. */
    method SetStockId(b: BeanBag, ghost k: nat, id: string)
      requires Valid() && k < |storeList| && storeList[k] == b
      modifies b
      ensures Valid()
      ensures Values(storeList) == old(Values(storeList))[k := old(Values(storeList))[k].(id := id)]
      ensures Values(soldList) == old(Values(soldList))
    {
      b.SetID(id);
      StockUpdatedAt(k);
    }

    /** b.setNum on the ledger bean bag at index `j`. */
    method SetSoldNum(b: BeanBag, ghost j: nat, n: int)
      requires Valid() && j < |soldList| && soldList[j] == b
      modifies b
      ensures Valid()
      ensures Values(soldList) == old(Values(soldList))[j := old(Values(soldList))[j].(num := n)]
      ensures Values(storeList) == old(Values(storeList))
    {
      b.SetNum(n);
      SoldUpdatedAt(j);
    }

    /** b.setID on the ledger bean bag at index `j`. */
    method SetSoldId(b: BeanBag, ghost j: nat, id: string)
      requires Valid() && j < |soldList| && soldList[j] == b
      modifies b
      ensures Valid()
      ensures Values(soldList) == old(Values(soldList))[j := old(Values(soldList))[j].(id := id)]
      ensures Values(storeList) == old(Values(storeList))
    {
      b.SetID(id);
      SoldUpdatedAt(j);
    }

    /** After the ledger bean bag at index `k` changed, the ledger view changed
        at `k` only and the stock view not at all. */
    twostate lemma SoldUpdatedAt(k: nat)
      requires old(Valid()) && unchanged(this)
      requires k < |soldList|
      requires forall i :: 0 <= i < |soldList| && i != k ==> unchanged(soldList[i])
      requires forall i :: 0 <= i < |storeList| ==> unchanged(storeList[i])
      ensures Valid()
      ensures Model() == old(Model()).(sold := old(Model()).sold[k := soldList[k].Value()])
    {
      forall i | 0 <= i < |soldList| && i != k
        ensures Values(soldList)[i] == old(Values(soldList))[i]
      {
        assert unchanged(soldList[i]);
      }
      assert Values(soldList) == old(Values(soldList))[k := soldList[k].Value()];
      forall i | 0 <= i < |storeList|
        ensures Values(storeList)[i] == old(Values(storeList))[i]
      {
        assert unchanged(storeList[i]);
      }
    }

    /** beanBagsInStock(): the total count over the stock list. */
    method BeanBagsInStock() returns (total: int)
      ensures total == TotalNum(Model().stock)
    {
      total := 0;
      var i := 0;
      while i < |storeList|
        invariant 0 <= i <= |storeList|
        invariant total == TotalNum(Values(storeList)[..i])
      {
        var b := storeList[i];
        assert Values(storeList)[..i + 1][..i] == Values(storeList)[..i];
        total := total + b.num;
        i := i + 1;
      }
      assert Values(storeList)[..i] == Values(storeList);
    }

    /** beanBagsInStock(id). */
    method BeanBagsInStockOf(id: string) returns (r: Result<int>)
      ensures r == StockOf(Model(), id)
    {
      if !IdIsValid(id) { return Err(IllegalID); }
      var b := GetBeanBagByID(id, storeList);
      if b == null { return Err(BeanBagIDNotRecognised); }
      return Ok(b.num);
    }

    /** getNumberOfDifferentBeanBagsInStock: the stock records with a positive
        count; while IDs are unique, the number of distinct IDs in stock. */
    method GetNumberOfDifferentBeanBagsInStock() returns (total: int)
      ensures total == CountInStock(Model().stock)
      ensures UniqueIds(Model().stock) ==> total == |InStockIds(Model().stock)|
    {
      total := 0;
      var i := 0;
      while i < |storeList|
        invariant 0 <= i <= |storeList|
        invariant total == CountInStock(Values(storeList)[..i])
      {
        var b := storeList[i];
        assert Values(storeList)[..i + 1][..i] == Values(storeList)[..i];
        if b.num > 0 {
          total := total + 1;
        }
        i := i + 1;
      }
      assert Values(storeList)[..i] == Values(storeList);
      if UniqueIds(Model().stock) {
        CountInStockIsDistinctIds(Model().stock);
      }
    }

    /** getNumberOfSoldBeanBags(): the total count over the ledger. */
    method GetNumberOfSoldBeanBags() returns (total: int)
      ensures total == TotalNum(Model().sold)
    {
      total := 0;
      var i := 0;
      while i < |soldList|
        invariant 0 <= i <= |soldList|
        invariant total == TotalNum(Values(soldList)[..i])
      {
        var b := soldList[i];
        assert Values(soldList)[..i + 1][..i] == Values(soldList)[..i];
        total := total + b.num;
        i := i + 1;
      }
      assert Values(soldList)[..i] == Values(soldList);
    }

    /** getNumberOfSoldBeanBags(id). */
    method GetNumberOfSoldBeanBagsOf(id: string) returns (r: Result<int>)
      ensures r == SoldOf(Model(), id)
    {
      if !IdIsValid(id) { return Err(IllegalID); }
      var b := GetBeanBagByID(id, soldList);
      if b == null { return Err(BeanBagIDNotRecognised); }
      return Ok(b.num);
    }

    /** getTotalPriceOfSoldBeanBags(): count times price, summed over the ledger. */
    method GetTotalPriceOfSoldBeanBags() returns (total: int)
      ensures total == TotalValue(Model().sold)
    {
      total := 0;
      var i := 0;
      while i < |soldList|
        invariant 0 <= i <= |soldList|
        invariant total == TotalValue(Values(soldList)[..i])
      {
        var b := soldList[i];
        assert Values(soldList)[..i + 1][..i] == Values(soldList)[..i];
        total := total + b.num * b.price;
        i := i + 1;
      }
      assert Values(soldList)[..i] == Values(soldList);
    }

    /** getTotalPriceOfSoldBeanBags(id). */
    method GetTotalPriceOfSoldBeanBagsOf(id: string) returns (r: Result<int>)
      ensures r == SoldValueOf(Model(), id)
    {
      if !IdIsValid(id) { return Err(IllegalID); }
      var b := GetBeanBagByID(id, soldList);
      if b == null { return Err(BeanBagIDNotRecognised); }
      return Ok(b.num * b.price);
    }

    /** getBeanBagDetails: defined only for an ID the stock list holds. */
    method GetBeanBagDetails(id: string) returns (info: string)
      requires IndexOf(Model().stock, id).Some?
      ensures info == Details(Model(), id)
    {
      var b := GetBeanBagByID(id, storeList);
      var i := b.information;
      if |i| == 0 || IsBlank(i) {
        return "";
      }
      return i;
    }

    /** empty: both lists start afresh. */
    method Empty()
      modifies this
      ensures Valid() && Model() == EmptyStore
    {
      storeList := [];
      soldList := [];
    }

    /** resetSaleAndCostTracking: the ledger starts afresh, the stock list is kept. */
    method ResetSaleAndCostTracking()
      requires Valid()
      modifies this
      ensures Valid() && storeList == old(storeList)
      ensures Model() == ResetSales(old(Model()))
    {
      soldList := [];
    }

    /** replace, as written: renames the first stock bean bag with the old ID,
        then the first ledger bean bag with it, if any. */
    method Replace(oldId: string, replacementId: string) returns (outcome: Outcome)
      requires Valid()
      modifies storeList, soldList
      ensures Valid()
      ensures var r := StoreModel.Replace(old(Model()), oldId, replacementId);
        outcome == OutcomeOf(r) && Model() == Next(r, old(Model()))
    {
      if !IdIsValid(replacementId) { return Threw(IllegalID); }
      var stockBeanBag := GetBeanBagByID(oldId, storeList);
      if stockBeanBag == null { return Threw(BeanBagIDNotRecognised); }
      ghost var inv := Model();
      ghost var k := IndexOf(inv.stock, oldId).value;
      SetStockId(stockBeanBag, k, replacementId);
      RenameAt(inv.stock, oldId, replacementId, k);
      assert Values(storeList) == Rename(inv.stock, oldId, replacementId) && Values(soldList) == inv.sold;
      RenameSold(oldId, replacementId);
      assert Values(soldList) == Rename(inv.sold, oldId, replacementId);
      ReplaceFound(inv, oldId, replacementId);
      return Completed;
    }
  }
}
