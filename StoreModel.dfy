/** What every operation of the bean bag store does to the store's contents,
    as values: the stock list and the sales ledger are sequences of records,
    and each operation is a function from the old contents to either a failure
    or the new contents. These functions follow the implementation as written,
    including where it departs from its interface (see module Contract). */
module StoreModel {
  import opened BeanBags

  datatype Option<T> = None | Some(value: T)

  /** One constructor per exception class the store throws. */
  datatype StoreError =
    | IllegalNumberOfBeanBagsAdded
    | IllegalNumberOfBeanBagsSold
    | InvalidMonth
    | IllegalID
    | BeanBagMismatch
    | InvalidPrice
    | BeanBagIDNotRecognised
    | BeanBagNotInStock
    | InsufficientStock
    | PriceNotSet

  datatype Result<T> = Ok(value: T) | Err(error: StoreError)

  /** The store's contents: current stock and the sales ledger, in insertion order. */
  datatype Inventory = Inventory(stock: seq<Rec>, sold: seq<Rec>)

  /** A freshly constructed store holds nothing. */
  const EmptyStore: Inventory := Inventory([], [])

  // ---------------------------------------------------------------------------
  // IDs and lookup

  predicate IsHexDigit(c: char)
  {
    '0' <= c <= '9' || 'a' <= c <= 'f' || 'A' <= c <= 'F'
  }

  /** `s` matches the pattern [0-9a-fA-F]{n} from start to end. */
  predicate MatchesHexRun(s: string, n: nat)
    ensures MatchesHexRun(s, n) <==> |s| == n && forall i :: 0 <= i < |s| ==> IsHexDigit(s[i])
  {
    if n == 0 then s == []
    else s != [] && IsHexDigit(s[0]) && MatchesHexRun(s[1..], n - 1)
  }

  /** idIsValid: the ID is exactly eight hexadecimal digits of either case. */
  predicate IdIsValid(id: string)
  {
    |id| == 8 && forall i :: 0 <= i < |id| ==> IsHexDigit(id[i])
  }

  /** idIsValid's test, a full match of ^[0-9a-fA-F]{8}$, accepts exactly the
      IDs IdIsValid describes. */
  lemma {:induction false} IdPatternIsIdIsValid(id: string)
    ensures MatchesHexRun(id, 8) <==> IdIsValid(id)
  {
  }

  /** Index of the first record carrying `id`, if any: getBeanBagByID's scan.
      The source compares IDs with reference equality; this model uses value
      equality. */
  function IndexOf(s: seq<Rec>, id: string): (r: Option<nat>)
    ensures r.Some? ==> r.value < |s| && s[r.value].id == id
    ensures r.Some? ==> forall j :: 0 <= j < r.value ==> s[j].id != id
    ensures r.None? <==> forall j :: 0 <= j < |s| ==> s[j].id != id
  {
    IndexFrom(s, id, 0)
  }

  /** The scan from position `i` on. */
  function IndexFrom(s: seq<Rec>, id: string, i: nat): (r: Option<nat>)
    requires i <= |s|
    ensures r.Some? ==> i <= r.value < |s| && s[r.value].id == id
    ensures r.Some? ==> forall j :: i <= j < r.value ==> s[j].id != id
    ensures r.None? <==> forall j :: i <= j < |s| ==> s[j].id != id
    decreases |s| - i
  {
    if i == |s| then None
    else if s[i].id == id then Some(i)
    else IndexFrom(s, id, i + 1)
  }

  predicate UniqueIds(s: seq<Rec>)
  {
    forall i, j :: 0 <= i < j < |s| ==> s[i].id != s[j].id
  }

  predicate AllIdsValid(s: seq<Rec>)
  {
    forall i :: 0 <= i < |s| ==> IdIsValid(s[i].id)
  }

  predicate NonNegative(s: seq<Rec>)
  {
    forall i :: 0 <= i < |s| ==> s[i].num >= 0
  }

  /** What every reachable store satisfies: every ID is well formed and no count is negative. */
  predicate Consistent(inv: Inventory)
  {
    AllIdsValid(inv.stock) && AllIdsValid(inv.sold) && NonNegative(inv.stock) && NonNegative(inv.sold)
  }

  /** The first record carrying `id` is what lookup finds. */
  lemma IndexOfIs(s: seq<Rec>, k: nat, id: string)
    requires k < |s| && s[k].id == id
    requires forall j :: 0 <= j < k ==> s[j].id != id
    ensures IndexOf(s, id) == Some(k)
  {
  }

  /** With unique IDs, the record carrying `id` is found at its own index. */
  lemma IndexOfUnique(s: seq<Rec>, k: nat, id: string)
    requires UniqueIds(s) && k < |s| && s[k].id == id
    ensures IndexOf(s, id) == Some(k)
  {
    IndexOfIs(s, k, id);
  }

  /** Lookup depends only on the IDs of the records. */
  lemma IndexOfSameIds(s: seq<Rec>, t: seq<Rec>, id: string)
    requires |s| == |t| && forall i :: 0 <= i < |s| ==> s[i].id == t[i].id
    ensures IndexOf(s, id) == IndexOf(t, id)
  {
    var a := IndexOf(s, id);
    if a.Some? {
      IndexOfIs(t, a.value, id);
    }
  }

  /** Appending a record leaves the lookup of every earlier ID alone. */
  lemma IndexOfAppend(s: seq<Rec>, r: Rec, id: string)
    ensures IndexOf(s + [r], id) ==
      if IndexOf(s, id).Some? then IndexOf(s, id)
      else if r.id == id then Some(|s|)
      else None
  {
    var t := s + [r];
    var a := IndexOf(s, id);
    if a.Some? {
      IndexOfIs(t, a.value, id);
    } else if r.id == id {
      IndexOfIs(t, |s|, id);
    } else {
      assert forall j :: 0 <= j < |t| ==> t[j].id != id by {
        forall j | 0 <= j < |t| ensures t[j].id != id {
          if j < |s| { assert t[j] == s[j]; }
        }
      }
    }
  }

  // ---------------------------------------------------------------------------
  // Accumulations over a list (the store's loops)

  /** Sum of the counts. */
  function TotalNum(s: seq<Rec>): int
  {
    if s == [] then 0 else TotalNum(s[..|s| - 1]) + s[|s| - 1].num
  }

  /** Number of records with a positive count. */
  function CountInStock(s: seq<Rec>): nat
  {
    if s == [] then 0 else CountInStock(s[..|s| - 1]) + (if s[|s| - 1].num > 0 then 1 else 0)
  }

  /** Sum of count times price. */
  function TotalValue(s: seq<Rec>): int
  {
    if s == [] then 0 else TotalValue(s[..|s| - 1]) + s[|s| - 1].num * s[|s| - 1].price
  }

  /** The IDs of the records that have stock. */
  function InStockIds(s: seq<Rec>): set<string>
  {
    set i | 0 <= i < |s| && s[i].num > 0 :: s[i].id
  }

  lemma {:induction false} TotalNumAppend(s: seq<Rec>, r: Rec)
    ensures TotalNum(s + [r]) == TotalNum(s) + r.num
  {
    assert (s + [r])[..|s|] == s;
  }

  /** Replacing one record changes the sum by the difference of their counts. */
  lemma {:induction false} TotalNumUpdate(s: seq<Rec>, k: nat, r: Rec)
    requires k < |s|
    ensures TotalNum(s[k := r]) == TotalNum(s) - s[k].num + r.num
  {
    var t := s[k := r];
    var n := |s| - 1;
    if k == n {
      assert t[..n] == s[..n];
    } else {
      assert t[..n] == s[..n][k := r];
      TotalNumUpdate(s[..n], k, r);
    }
  }

  /** Replacing one record by one with the same count leaves the sum alone. */
  lemma TotalNumSameCounts(s: seq<Rec>, k: nat, r: Rec)
    requires k < |s| && r.num == s[k].num
    ensures TotalNum(s[k := r]) == TotalNum(s)
  {
    TotalNumUpdate(s, k, r);
  }

  lemma {:induction false} TotalNumNonNegative(s: seq<Rec>)
    requires NonNegative(s)
    ensures TotalNum(s) >= 0
  {
    if s != [] {
      TotalNumNonNegative(s[..|s| - 1]);
    }
  }

  /** With unique IDs, the count of stocked records is the number of distinct stocked IDs. */
  lemma {:induction false} CountInStockIsDistinctIds(s: seq<Rec>)
    requires UniqueIds(s)
    ensures CountInStock(s) == |InStockIds(s)|
  {
    if s != [] {
      var n := |s| - 1;
      var p, x := s[..n], s[n];
      CountInStockIsDistinctIds(p);
      assert x.id !in InStockIds(p) by {
        forall i | 0 <= i < |p| ensures p[i].id != x.id {
          assert p[i] == s[i];
        }
      }
      InStockIdsSnoc(s);
    }
  }

  /** The stocked IDs of a list are those of all but its last record, plus the
      last record's ID when that record is in stock. */
  lemma InStockIdsSnoc(s: seq<Rec>)
    requires s != []
    ensures var n := |s| - 1;
      InStockIds(s) == InStockIds(s[..n]) + if s[n].num > 0 then {s[n].id} else {}
  {
    var n := |s| - 1;
    var p := s[..n];
    forall v | v in InStockIds(s) ensures v in InStockIds(p) + if s[n].num > 0 then {s[n].id} else {} {
      var i :| 0 <= i < |s| && s[i].num > 0 && s[i].id == v;
      if i < n { assert p[i] == s[i]; }
    }
    forall v | v in InStockIds(p) ensures v in InStockIds(s) {
      var i :| 0 <= i < |p| && p[i].num > 0 && p[i].id == v;
      assert s[i] == p[i];
    }
    if s[n].num > 0 {
      assert s[n].id in InStockIds(s);
    }
  }

  // ---------------------------------------------------------------------------
  // Operations, as implemented

  /** addBeanBags: count, then month, then ID, then (for a known ID) the
      description. A new ID is appended with price unset; a known one has its
      count raised. The six-argument form is this with empty free text. */
  function Add(inv: Inventory, num: int, manufacturer: string, name: string, id: string,
               month: int, information: string): Result<Inventory>
  {
    if num < 1 then Err(IllegalNumberOfBeanBagsAdded)
    else if month < 1 || month > 12 then Err(InvalidMonth)
    else if !IdIsValid(id) then Err(IllegalID)
    else AddRecord(inv, Rec(num, UnsetPrice, manufacturer, name, id, information))
  }

  /** The part of addBeanBags after validation: append the new record if its
      ID is not in stock, else check the description and raise the found
      record's count. */
  function AddRecord(inv: Inventory, added: Rec): Result<Inventory>
  {
    match IndexOf(inv.stock, added.id)
    case None => Ok(inv.(stock := inv.stock + [added]))
    case Some(k) =>
      var b := inv.stock[k];
      if Mismatched(b, added) then Err(BeanBagMismatch)
      else Ok(inv.(stock := inv.stock[k := b.(num := b.num + added.num)]))
  }

  /** setBeanBagPrice: price, then ID format, then presence in stock. */
  function SetPrice(inv: Inventory, id: string, priceInPence: int): Result<Inventory>
  {
    if priceInPence < 1 then Err(InvalidPrice)
    else if !IdIsValid(id) then Err(IllegalID)
    else match IndexOf(inv.stock, id)
      case None => Err(BeanBagIDNotRecognised)
      case Some(k) => Ok(inv.(stock := inv.stock[k := inv.stock[k].(price := priceInPence)]))
  }

  /** sellBeanBags as written: the sufficiency test comes before the
      out-of-stock test, the price-not-set test looks at the count, and the
      ledger record built for a first sale is never stored. */
  function Sell(inv: Inventory, num: int, id: string): Result<Inventory>
  {
    if num < 1 then Err(IllegalNumberOfBeanBagsSold)
    else if !IdIsValid(id) then Err(IllegalID)
    else match IndexOf(inv.stock, id)
      case None => Err(BeanBagIDNotRecognised)
      case Some(k) =>
        var n := inv.stock[k].num;
        if n < num then Err(InsufficientStock)
        else if n < 1 then Err(BeanBagNotInStock)
        else if n < 0 then Err(PriceNotSet)
        else Ok(ApplySale(inv, num, id, k))
  }

  /** The part of sellBeanBags after the checks, for the stock record at `k`:
      take `num` units off it, then raise the ledger record with that ID if
      there is one. Without one, the ledger is left as it was. */
  function ApplySale(inv: Inventory, num: int, id: string, k: nat): Inventory
    requires k < |inv.stock|
  {
    Inventory(inv.stock[k := inv.stock[k].(num := inv.stock[k].num - num)], RaiseSold(inv.sold, id, num))
  }

  /** The ledger half of a sale: raise the first ledger record with that ID
      by `num`; without one, the ledger is left as it was. */
  function RaiseSold(sold: seq<Rec>, id: string, num: int): seq<Rec>
  {
    match IndexOf(sold, id)
    case None => sold
    case Some(j) => sold[j := sold[j].(num := sold[j].num + num)]
  }

  /** beanBagsInStock(id): the count of the first stock record with that ID. */
  function StockOf(inv: Inventory, id: string): Result<int>
  {
    if !IdIsValid(id) then Err(IllegalID)
    else match IndexOf(inv.stock, id)
      case None => Err(BeanBagIDNotRecognised)
      case Some(k) => Ok(inv.stock[k].num)
  }

  /** getNumberOfSoldBeanBags(id): the count of the first ledger record with that ID. */
  function SoldOf(inv: Inventory, id: string): Result<int>
  {
    if !IdIsValid(id) then Err(IllegalID)
    else match IndexOf(inv.sold, id)
      case None => Err(BeanBagIDNotRecognised)
      case Some(k) => Ok(inv.sold[k].num)
  }

  /** getTotalPriceOfSoldBeanBags(id): count times the ledger record's own price. */
  function SoldValueOf(inv: Inventory, id: string): Result<int>
  {
    if !IdIsValid(id) then Err(IllegalID)
    else match IndexOf(inv.sold, id)
      case None => Err(BeanBagIDNotRecognised)
      case Some(k) => Ok(inv.sold[k].num * inv.sold[k].price)
  }

  /** A simple notion of Java's isBlank: nothing but white space. */
  predicate IsBlank(s: string)
  {
    forall i :: 0 <= i < |s| ==> s[i] in {' ', '\t', '\n', '\r', '\U{C}', '\U{B}'}
  }

  /** getBeanBagDetails: the free text, or "" when it is blank. The source does
      not check the ID and fails on an ID it does not hold. */
  function Details(inv: Inventory, id: string): string
    requires IndexOf(inv.stock, id).Some?
  {
    var info := inv.stock[IndexOf(inv.stock, id).value].information;
    if |info| == 0 || IsBlank(info) then "" else info
  }

  /** resetSaleAndCostTracking. */
  function ResetSales(inv: Inventory): Inventory
  {
    inv.(sold := [])
  }

  /** replace as written: only the replacement ID is validated, and it is not
      checked against the IDs already in use. */
  function Replace(inv: Inventory, oldId: string, replacementId: string): Result<Inventory>
  {
    if !IdIsValid(replacementId) then Err(IllegalID)
    else if IndexOf(inv.stock, oldId).None? then Err(BeanBagIDNotRecognised)
    else Ok(Inventory(Rename(inv.stock, oldId, replacementId), Rename(inv.sold, oldId, replacementId)))
  }

  /** Give the first record with ID `oldId` the ID `newId`; without one, the
      list is left as it was. */
  function Rename(s: seq<Rec>, oldId: string, newId: string): seq<Rec>
  {
    match IndexOf(s, oldId)
    case None => s
    case Some(j) => s[j := s[j].(id := newId)]
  }
}
