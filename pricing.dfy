/** Price selection (getPrice) and the choice of price slot made by the two
    item renderers. */
module Pricing {
  import opened MenuData

  /** What getPrice hands back: a {small, large} object or a single number. */
  datatype Price = Pair(small: nat, large: nat) | Amount(value: nat)

  /** The price slot of a standard menu item as rendered. */
  datatype Slot = TwoPrices(small: nat, large: nat) | OnePrice(amount: nat) | PriceNotAvailable

  /** getPrice: the small/large pair when both are truthy, otherwise the
      large price, otherwise the price, otherwise the fallback 0. A price of 0
      counts as missing. */
  function GetPrice(r: Record): (p: Price)
    ensures p.Pair? <==> r.smallPrice > 0 && r.largePrice > 0
    ensures p.Pair? ==> p.small == r.smallPrice && p.large == r.largePrice
    ensures p.Pair? ==> p.small > 0 && p.large > 0
    ensures p.Amount? && r.largePrice > 0 ==> p.value == r.largePrice
    ensures p.Amount? && r.largePrice == 0 && r.price > 0 ==> p.value == r.price
    ensures p.Amount? && r.largePrice == 0 && r.price == 0 ==> p.value == 0
  {
    if r.smallPrice > 0 && r.largePrice > 0 then Pair(r.smallPrice, r.largePrice)
    else if r.largePrice > 0 then Amount(r.largePrice)
    else if r.price > 0 then Amount(r.price)
    else Amount(0)
  }

  /** The price branch of createMenuItem, for an argument that may be null or
      undefined (None). The pair branch needs an object whose two members are
      both truthy. Any other non-null argument goes to the single-price branch,
      which formats it as a number: an object there has no number formatting
      and the call throws, which is the None result. */
  function ItemPriceSlot(price: Option<Price>): (r: Option<Slot>)
    ensures r.Some? && r.value.TwoPrices? <==>
              price.Some? && price.value.Pair? && price.value.small > 0 && price.value.large > 0
    ensures r.Some? && r.value.PriceNotAvailable? <==> price.None?
    ensures r.None? <==> price.Some? && price.value.Pair? && (price.value.small == 0 || price.value.large == 0)
    ensures r.Some? && r.value.OnePrice? ==> price == Some(Amount(r.value.amount))
    ensures r.Some? && r.value.TwoPrices? ==> price == Some(Pair(r.value.small, r.value.large))
  {
    match price
    case None => Some(PriceNotAvailable)
    case Some(Pair(small, large)) =>
      if small > 0 && large > 0 then Some(TwoPrices(small, large)) else None
    case Some(Amount(v)) => Some(OnePrice(v))
  }

  /** The number the chef's specialties populator passes to
      createSpecialtyItem: for a pair, its large member if truthy, else its
      small member if truthy, else the object itself, whose number formatting
      then throws (None); a single price is passed through. */
  function SpecialtyPriceValue(p: Price): (r: Option<nat>)
    ensures p.Amount? ==> r == Some(p.value)
    ensures p.Pair? && p.large > 0 ==> r == Some(p.large)
    ensures p.Pair? && p.large == 0 && p.small > 0 ==> r == Some(p.small)
    ensures r.None? <==> p.Pair? && p.large == 0 && p.small == 0
  {
    match p
    case Pair(small, large) =>
      if large > 0 then Some(large) else if small > 0 then Some(small) else None
    case Amount(v) => Some(v)
  }

  /** Feeding getPrice into createMenuItem never throws and never reaches the
      "Price not available" branch; the pair branch is taken exactly when
      getPrice chose the pair, and the 0 fallback renders as a single price. */
  lemma ItemSlotOfGetPrice(r: Record)
    ensures ItemPriceSlot(Some(GetPrice(r))).Some?
    ensures !ItemPriceSlot(Some(GetPrice(r))).value.PriceNotAvailable?
    ensures ItemPriceSlot(Some(GetPrice(r))).value.TwoPrices? <==> GetPrice(r).Pair?
    ensures ItemPriceSlot(Some(GetPrice(r))).value.TwoPrices? <==> r.smallPrice > 0 && r.largePrice > 0
    ensures r.smallPrice == 0 && r.largePrice == 0 && r.price == 0 ==>
              ItemPriceSlot(Some(GetPrice(r))).value == OnePrice(0)
  {
  }

  /** A specialty's price is large_price if truthy, else price if truthy,
      else 0. It is never a pair and never the pair object that formatting
      throws on. */
  lemma SpecialtyPriceOfGetPrice(r: Record)
    ensures SpecialtyPriceValue(GetPrice(r)) ==
              Some(if r.largePrice > 0 then r.largePrice else if r.price > 0 then r.price else 0)
  {
  }
}
