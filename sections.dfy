/** What each populator, the loading placeholder and the error fill leave in
    the page's menu containers, as functions of the containers before and the
    data document. The page's markup is a map from element id to the
    container's children; an id absent from the map has no element. */
module Sections {
  import opened MenuData
  import opened Rendering

  type Containers = map<string, seq<Element>>

  /** A section filled from one data key into one container. */
  datatype Section = Section(id: string, key: string, renderer: Renderer)

  /** No description, no note, never hot. */
  const Plain := StandardItem(false, "", false)
  /** Description shown, hot when isHotDish(name). */
  const Described := StandardItem(true, "", true)

  const LunchMenu := Section("lunchItems", "lunch_menu", StandardItem(false, "", true))
  /** The later declaration of populateAppetizers, the one in effect. */
  const Appetizers := Section("appetizerItems", "appetizers", StandardItem(true, "", false))
  const Soups := Section("soupItems", "soups", Described)
  const ChefsSpecialties := Section("specialtiesItems", "chef_s_specialties", SpecialtyCard)
  const Chicken := Section("chickenItems", "chicken", Described)
  const Pork := Section("porkItems", "pork", Described)
  const Beef := Section("beefItems", "beef", Described)
  const Seafood := Section("seafoodItems", "seafood", Described)
  const Vegetables := Section("vegetableItems", "vegetables", Described)
  const WeightWatchers := Section("weightWatchersItems", "weight_watchers_menu", Plain)

  /** The single-key populators populateMenuItems runs, in its order. */
  const MenuSections: seq<Section> :=
    [LunchMenu, Appetizers, Soups, ChefsSpecialties, Chicken, Pork, Beef, Seafood, Vegetables]

  const NoodleId := "noodleItems"
  const RiceId := "riceItems"
  const SideId := "sideItems"

  /** The containers showMenuLoading and showMenuError write. */
  const MenuContainerIds: seq<string> :=
    ["lunchItems", "appetizerItems", "soupItems", "specialtiesItems",
     "chickenItems", "porkItems", "beefItems", "seafoodItems",
     "vegetableItems", "noodleItems", "riceItems"]

  /** A single-key populator: a no-op unless both the container and the key
      exist; otherwise the container is cleared and refilled. */
  function FillSection(c: Containers, data: MenuDocument, s: Section): (r: Containers)
    ensures r.Keys == c.Keys
    ensures forall id :: id in c && id != s.id ==> r[id] == c[id]
  {
    if s.id in c && s.key in data then c[s.id := Rendered(s.renderer, data[s.key])] else c
  }

  /** The elements one group of a composite section contributes. */
  function Group(data: MenuDocument, key: string, rd: Renderer): (es: seq<Element>)
    ensures key !in data ==> es == []
    ensures key in data ==> |es| <= |data[key]|
    ensures NamedItems(es)
  {
    if key in data then Rendered(rd, data[key]) else []
  }

  /** Named plain items, each showing the note and no description. */
  predicate NoteItems(es: seq<Element>, note: string)
  {
    NamedItems(es) &&
    forall i :: 0 <= i < |es| ==>
      es[i].MenuItem? && !es[i].hot && es[i].description == "" && es[i].note == note
  }

  /** A noodle group whose first truthy note is shown on each of its items. */
  function NoteGroup(data: MenuDocument, key: string): (es: seq<Element>)
    ensures key !in data ==> es == []
    ensures key in data ==> |es| <= |data[key]|
    ensures key in data ==> NoteItems(es, FirstNote(data[key]))
  {
    if key in data then Rendered(StandardItem(false, FirstNote(data[key]), false), data[key]) else []
  }

  function NoodleElements(data: MenuDocument): seq<Element>
  {
    NoteGroup(data, "lo_mein_noodles") + NoteGroup(data, "chow_mein_chop_suey") +
    Group(data, "eastern_popular_noodles_dishes", Described)
  }

  function RiceElements(data: MenuDocument): seq<Element>
  {
    Group(data, "fried_rice", Plain) + Group(data, "egg_foo_young", Plain)
  }

  /** populateNoodlesAndRice: nothing unless both containers exist. */
  function FillNoodlesAndRice(c: Containers, data: MenuDocument): (r: Containers)
    ensures r.Keys == c.Keys
    ensures forall id :: id in c && id != NoodleId && id != RiceId ==> r[id] == c[id]
  {
    if NoodleId in c && RiceId in c then c[NoodleId := NoodleElements(data)][RiceId := RiceElements(data)]
    else c
  }

  /** populateRiceDishes (declared, never called). */
  function FillRiceDishes(c: Containers, data: MenuDocument): (r: Containers)
    ensures r.Keys == c.Keys
    ensures forall id :: id in c && id != RiceId ==> r[id] == c[id]
  {
    if RiceId in c then c[RiceId := RiceElements(data)] else c
  }

  /** A header with the given title, then named items. */
  predicate HeadedItems(es: seq<Element>, title: string)
  {
    |es| >= 1 && es[0] == SubsectionHeader(title) && NamedItems(es[1..])
  }

  /** A subsection of the sides container: its header whenever the key is
      present, then its named records. */
  function Subsection(data: MenuDocument, key: string, title: string): (es: seq<Element>)
    ensures key !in data ==> es == []
    ensures key in data ==> HeadedItems(es, title)
  {
    if key in data then [SubsectionHeader(title)] + Rendered(Plain, data[key]) else []
  }

  function SideElements(data: MenuDocument): seq<Element>
  {
    Subsection(data, "side_orders", "Side Orders") + Subsection(data, "drinks", "Beverages") +
    Subsection(data, "extra", "Extra Portions")
  }

  /** populateSides: nothing unless its container exists. */
  function FillSides(c: Containers, data: MenuDocument): (r: Containers)
    ensures r.Keys == c.Keys
    ensures forall id :: id in c && id != SideId ==> r[id] == c[id]
  {
    if SideId in c then c[SideId := SideElements(data)] else c
  }

  /** The single-key populators run one after the other. */
  function FillSections(c: Containers, data: MenuDocument, ss: seq<Section>): (r: Containers)
    ensures r.Keys == c.Keys
  {
    if ss == [] then c else FillSections(FillSection(c, data, ss[0]), data, ss[1..])
  }

  /** populateMenuItems with a loaded document. */
  function FillMenu(c: Containers, data: MenuDocument): (r: Containers)
    ensures r.Keys == c.Keys
  {
    FillSides(FillNoodlesAndRice(FillSections(c, data, MenuSections), data), data)
  }

  /** Every listed container that exists holds just e; the others keep their
      children. */
  function Overwrite(c: Containers, ids: seq<string>, e: Element): (r: Containers)
    ensures r.Keys == c.Keys
    ensures forall id :: id in c && id in ids ==> r[id] == [e]
    ensures forall id :: id in c && id !in ids ==> r[id] == c[id]
  {
    map id | id in c :: if id in ids then [e] else c[id]
  }

  function ShowLoading(c: Containers): (r: Containers)
    ensures r.Keys == c.Keys
    ensures forall id :: id in c && id in MenuContainerIds ==> r[id] == [LoadingMessage]
    ensures forall id :: id in c && id !in MenuContainerIds ==> r[id] == c[id]
    ensures SideId in c ==> r[SideId] == c[SideId]
  {
    Overwrite(c, MenuContainerIds, LoadingMessage)
  }

  function ShowError(c: Containers): (r: Containers)
    ensures r.Keys == c.Keys
    ensures forall id :: id in c && id in MenuContainerIds ==> r[id] == [ErrorMessage]
    ensures forall id :: id in c && id !in MenuContainerIds ==> r[id] == c[id]
    ensures SideId in c ==> r[SideId] == c[SideId]
  {
    Overwrite(c, MenuContainerIds, ErrorMessage)
  }
}
