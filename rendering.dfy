/** The item renderers (createMenuItem, createSpecialtyItem) and the
    filter-then-map step every populator performs on a record list. */
module Rendering {
  import opened MenuData
  import opened Pricing
  import opened Spice

  /** One child element of a menu container. Strings that are "" are not
      shown (a falsy description or note is omitted). */
  datatype Element =
    | MenuItem(name: string, description: string, price: Slot, note: string, hot: bool, glutenFree: bool)
    | SpecialtyItem(name: string, description: string, amount: nat, hot: bool)
    | SubsectionHeader(title: string)
    | LoadingMessage
    | ErrorMessage

  /** How a populator renders each record: createMenuItem with or without the
      record's description, a fixed note, and either isHotDish(name) or
      false as the hot flag; or createSpecialtyItem. */
  datatype Renderer =
    | StandardItem(showDescription: bool, note: string, spicy: bool)
    | SpecialtyCard

  /** One record through getPrice and the renderer. */
  function Render(rd: Renderer, r: Record): (e: Element)
    ensures (e.MenuItem? || e.SpecialtyItem?) && e.name == r.name
    ensures e.MenuItem? <==> rd.StandardItem?
    ensures e.MenuItem? ==> (e.price.TwoPrices? <==> r.smallPrice > 0 && r.largePrice > 0)
    ensures e.MenuItem? ==> !e.price.PriceNotAvailable?
    ensures e.MenuItem? ==>
              e.price == if r.smallPrice > 0 && r.largePrice > 0 then TwoPrices(r.smallPrice, r.largePrice)
                         else OnePrice(if r.largePrice > 0 then r.largePrice else if r.price > 0 then r.price else 0)
    ensures e.MenuItem? ==> e.note == rd.note && e.glutenFree == r.gf
    ensures e.MenuItem? ==> (e.hot <==> rd.spicy && IsHotDish(r.name))
    ensures e.MenuItem? ==> e.description == if rd.showDescription then r.description else ""
    ensures e.SpecialtyItem? ==>
              e.amount == (if r.largePrice > 0 then r.largePrice else if r.price > 0 then r.price else 0)
    ensures e.SpecialtyItem? ==> e.hot == IsHotDish(r.name) && e.description == r.description
  {
    match rd
    case StandardItem(showDescription, note, spicy) =>
      MenuItem(r.name, if showDescription then r.description else "",
               ItemPriceSlot(Some(GetPrice(r))).value, note, spicy && IsHotDish(r.name), r.gf)
    case SpecialtyCard =>
      SpecialtyItem(r.name, r.description, SpecialtyPriceValue(GetPrice(r)).value, IsHotDish(r.name))
  }

  /** The array filter keeping the records with a truthy name, in order. */
  function Named(rs: seq<Record>): (r: seq<Record>)
    ensures |r| <= |rs|
    ensures forall x :: x in r <==> x in rs && x.name != ""
  {
    if rs == [] then []
    else if rs[0].name != "" then [rs[0]] + Named(rs[1..])
    else Named(rs[1..])
  }

  /** Every element is an item rendered from the record at its index. */
  predicate ItemsOf(es: seq<Element>, items: seq<Record>)
  {
    |es| == |items| &&
    forall i :: 0 <= i < |es| ==> (es[i].MenuItem? || es[i].SpecialtyItem?) && es[i].name == items[i].name
  }

  /** The forEach over the filtered records: one element per record, in order. */
  function RenderAll(rd: Renderer, items: seq<Record>): (es: seq<Element>)
    ensures ItemsOf(es, items)
  {
    seq(|items|, i requires 0 <= i < |items| => Render(rd, items[i]))
  }

  /** Every element is a menu item or a specialty card with a name. */
  predicate NamedItems(es: seq<Element>)
  {
    forall i :: 0 <= i < |es| ==> (es[i].MenuItem? || es[i].SpecialtyItem?) && es[i].name != ""
  }

  /** What a populator appends for one record list. */
  function Rendered(rd: Renderer, rs: seq<Record>): (es: seq<Element>)
    ensures |es| <= |rs|
    ensures NamedItems(es)
  {
    var items := Named(rs);
    assert forall i :: 0 <= i < |items| ==> items[i] in items;
    RenderAll(rd, items)
  }

  /** Array.find(item => item.note)?.note: the first truthy note among all
      records of the list, named or not; "" when there is none. */
  function FirstNote(rs: seq<Record>): (n: string)
    ensures n == "" <==> forall i :: 0 <= i < |rs| ==> rs[i].note == ""
    ensures n != "" ==> exists i :: 0 <= i < |rs| && rs[i].note == n &&
                                   forall j :: 0 <= j < i ==> rs[j].note == ""
  {
    if rs == [] then ""
    else if rs[0].note != "" then rs[0].note
    else
      var n := FirstNote(rs[1..]);
      assert forall i :: 1 <= i < |rs| ==> rs[i] == rs[1..][i - 1];
      n
  }

  /** The number of records without a name. */
  function Nameless(rs: seq<Record>): (k: nat)
  {
    if rs == [] then 0 else (if rs[0].name == "" then 1 else 0) + Nameless(rs[1..])
  }

  /** The filter distributes over concatenation, so the named records keep
      their source order. */
  lemma {:induction false} NamedAppend(a: seq<Record>, b: seq<Record>)
    ensures Named(a + b) == Named(a) + Named(b)
  {
    if a == [] {
      assert a + b == b;
    } else {
      assert (a + b)[1..] == a[1..] + b;
      NamedAppend(a[1..], b);
    }
  }

  /** The filter on one record: kept exactly when it has a name. */
  lemma NamedSingle(r: Record)
    ensures Named([r]) == if r.name != "" then [r] else []
  {
    assert [r][1..] == [];
  }

  /** Nameless records are excluded from the count of appended elements. */
  lemma {:induction false} RenderedCount(rd: Renderer, rs: seq<Record>)
    ensures |Rendered(rd, rs)| == |rs| - Nameless(rs)
  {
    if rs != [] {
      RenderedCount(rd, rs[1..]);
    }
  }

  /** Rendering one list after another appends their elements in turn. */
  lemma RenderedAppend(rd: Renderer, a: seq<Record>, b: seq<Record>)
    ensures Rendered(rd, a + b) == Rendered(rd, a) + Rendered(rd, b)
  {
    NamedAppend(a, b);
    RenderAllAppend(rd, Named(a), Named(b));
  }

  lemma RenderAllAppend(rd: Renderer, x: seq<Record>, y: seq<Record>)
    ensures RenderAll(rd, x + y) == RenderAll(rd, x) + RenderAll(rd, y)
  {
    var l, r := RenderAll(rd, x + y), RenderAll(rd, x) + RenderAll(rd, y);
    assert |l| == |r|;
    forall i | 0 <= i < |l| ensures l[i] == r[i] {
      if i < |x| { assert (x + y)[i] == x[i]; } else { assert (x + y)[i] == y[i - |x|]; }
    }
  }

  /** The i-th element rendered is the i-th named record, rendered: exactly
      one element per named record, in source order. */
  lemma RenderedAt(rd: Renderer, rs: seq<Record>, i: nat)
    requires i < |Named(rs)|
    ensures |Rendered(rd, rs)| == |Named(rs)|
    ensures Rendered(rd, rs)[i] == Render(rd, Named(rs)[i])
    ensures Rendered(rd, rs)[i].name == Named(rs)[i].name != ""
  {
    assert Named(rs)[i] in Named(rs);
  }

  /** A list of note-only records renders nothing. */
  lemma {:induction false} NamedOfNameless(rs: seq<Record>)
    requires forall i :: 0 <= i < |rs| ==> rs[i].name == ""
    ensures Named(rs) == [] && Nameless(rs) == |rs|
  {
    if rs != [] {
      assert forall i :: 0 <= i < |rs[1..]| ==> rs[1..][i] == rs[i + 1];
      NamedOfNameless(rs[1..]);
    }
  }

  /** The subsection headers among the elements, in their order. */
  function Headers(es: seq<Element>): (hs: seq<Element>)
    ensures |hs| <= |es|
    ensures forall i :: 0 <= i < |hs| ==> hs[i].SubsectionHeader? && hs[i] in es
  {
    if es == [] then []
    else
      var rest := Headers(es[1..]);
      assert forall i :: 0 <= i < |rest| ==> rest[i] in es[1..] && rest[i] in es;
      (if es[0].SubsectionHeader? then [es[0]] else []) + rest
  }

  lemma {:induction false} HeadersAppend(a: seq<Element>, b: seq<Element>)
    ensures Headers(a + b) == Headers(a) + Headers(b)
  {
    if a == [] {
      assert a + b == b;
    } else {
      assert (a + b)[1..] == a[1..] + b;
      HeadersAppend(a[1..], b);
    }
  }

  /** Elements with no header among them, such as rendered records,
      contribute no header. */
  lemma {:induction false} NoHeaders(es: seq<Element>)
    requires forall i :: 0 <= i < |es| ==> !es[i].SubsectionHeader?
    ensures Headers(es) == []
  {
    if es != [] {
      NoHeaders(es[1..]);
    }
  }
}
