/** The bean bag record: one stock-keeping unit's attributes.
    `Rec` is the value a record holds at one moment; `BeanBag` is the mutable
    object the store keeps in its lists and updates in place. */
module BeanBags {

  /** Price of a record whose price has not been set yet. */
  const UnsetPrice: int := -1

  /** A snapshot of a bean bag's fields. */
  datatype Rec = Rec(num: int, price: int, manufacturer: string, name: string, id: string, information: string)

  /** Two records disagree on at least one of manufacturer, name and free text.
      The source compares the strings with reference equality; this model uses
      value equality. */
  predicate Mismatched(a: Rec, b: Rec)
  {
    !(a.information == b.information && a.manufacturer == b.manufacturer && a.name == b.name)
  }

  lemma MismatchedIrreflexive(a: Rec)
    ensures !Mismatched(a, a)
  {
  }

  lemma MismatchedSymmetric(a: Rec, b: Rec)
    ensures Mismatched(a, b) <==> Mismatched(b, a)
  {
  }

  /** Count and price are not compared: records that differ only there match. */
  lemma MismatchIgnoresStockFields(a: Rec, n: int, p: int, id: string)
    ensures !Mismatched(a, a.(num := n, price := p, id := id))
  {
  }

  /** The records a list of bean bags currently holds. */
  function Values(list: seq<BeanBag>): (s: seq<Rec>)
    reads list
    ensures |s| == |list| && forall i :: 0 <= i < |list| ==> s[i] == list[i].Value()
  {
    seq(|list|, i reads list requires 0 <= i < |list| => list[i].Value())
  }

  class BeanBag {
    var num: int
    var price: int
    var id: string
    // No setters exist for these three, so they are fixed at construction.
    const manufacturer: string
    const name: string
    const information: string

    /** The record's current field values. */
    function Value(): (r: Rec)
      reads this
      ensures r.num == num && r.price == price && r.id == id
      ensures r.manufacturer == manufacturer && r.name == name && r.information == information
    {
      Rec(num, price, manufacturer, name, id, information)
    }

    /** The no-argument constructor. */
    constructor Default()
      ensures Value() == Rec(0, UnsetPrice, "Default", "Default", "00000000", "")
    {
      num := 0;
      price := UnsetPrice;
      manufacturer := "Default";
      name := "Default";
      id := "00000000";
      information := "";
    }

    /** The four-argument constructor: no free text, price unset. */
    constructor (num: int, manufacturer: string, name: string, id: string)
      ensures Value() == Rec(num, UnsetPrice, manufacturer, name, id, "")
    {
      this.num := num;
      this.manufacturer := manufacturer;
      this.name := name;
      this.id := id;
      this.information := "";
      this.price := UnsetPrice;
    }

    /** The five-argument constructor: given free text, price unset. */
    constructor WithInformation(num: int, manufacturer: string, name: string, id: string, information: string)
      ensures Value() == Rec(num, UnsetPrice, manufacturer, name, id, information)
    {
      this.num := num;
      this.manufacturer := manufacturer;
      this.name := name;
      this.id := id;
      this.information := information;
      this.price := UnsetPrice;
    }

    method SetPrice(p: int)
      modifies this
      ensures Value() == old(Value()).(price := p)
    {
      price := p;
    }

    method SetNum(n: int)
      modifies this
      ensures Value() == old(Value()).(num := n)
    {
      num := n;
    }

    method SetID(newId: string)
      modifies this
      ensures Value() == old(Value()).(id := newId)
    {
      id := newId;
    }

    /** True unless manufacturer, name and free text all agree with `b`'s. */
    predicate IsMismatched(b: BeanBag)
      reads this, b
      ensures IsMismatched(b) <==> Mismatched(Value(), b.Value())
    {
      !(information == b.information && manufacturer == b.manufacturer && name == b.name)
    }
  }
}
