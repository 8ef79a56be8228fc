/** Properties of the populators' specifications: what a container holds
    after its populator, idempotence, the frames of the composite populators,
    and the loading and error fills. */
module SectionProperties {
  import opened MenuData
  import opened Pricing
  import opened Spice
  import opened Rendering
  import opened Sections

  /** A single-key populator leaves every container unchanged when its
      container or its data key is missing; otherwise its container holds
      exactly one element per named record, in source order. */
  lemma FillSectionContents(c: Containers, data: MenuDocument, s: Section)
    ensures !(s.id in c && s.key in data) ==> FillSection(c, data, s) == c
    ensures s.id in c && s.key in data ==>
              var es := FillSection(c, data, s)[s.id];
              |es| == |data[s.key]| - Nameless(data[s.key]) &&
              forall i :: 0 <= i < |es| ==> es[i] == Render(s.renderer, Named(data[s.key])[i])
  {
    if s.id in c && s.key in data {
      RenderedCount(s.renderer, data[s.key]);
    }
  }

  /** Running a single-key populator twice is the same as running it once:
      it clears its container before appending. */
  lemma FillSectionIdempotent(c: Containers, data: MenuDocument, s: Section)
    ensures FillSection(FillSection(c, data, s), data, s) == FillSection(c, data, s)
  {
  }

  lemma FillNoodlesAndRiceIdempotent(c: Containers, data: MenuDocument)
    ensures FillNoodlesAndRice(FillNoodlesAndRice(c, data), data) == FillNoodlesAndRice(c, data)
  {
  }

  lemma FillSidesIdempotent(c: Containers, data: MenuDocument)
    ensures FillSides(FillSides(c, data), data) == FillSides(c, data)
  {
  }

  /** No two sections of the list write the same container. */
  predicate DistinctIds(ss: seq<Section>)
  {
    forall i, j :: 0 <= i < j < |ss| ==> ss[i].id != ss[j].id
  }

  /** Populators for other containers leave a container alone. */
  lemma {:induction false} FillSectionsFrame(c: Containers, data: MenuDocument, ss: seq<Section>, id: string)
    requires id in c && forall s :: s in ss ==> s.id != id
    ensures FillSections(c, data, ss)[id] == c[id]
    decreases |ss|
  {
    if ss != [] {
      assert ss[0] in ss;
      FillSectionsFrame(FillSection(c, data, ss[0]), data, ss[1..], id);
    }
  }

  /** When no two sections share a container, the k-th section's container
      ends up holding what that section's populator wrote. */
  lemma {:induction false} FillSectionsAt(c: Containers, data: MenuDocument, ss: seq<Section>, k: nat)
    requires DistinctIds(ss) && k < |ss| && ss[k].id in c
    ensures FillSections(c, data, ss)[ss[k].id] ==
              if ss[k].key in data then Rendered(ss[k].renderer, data[ss[k].key]) else c[ss[k].id]
    decreases |ss|
  {
    var c1 := FillSection(c, data, ss[0]);
    if k == 0 {
      forall s | s in ss[1..] ensures s.id != ss[0].id {
        var j :| 0 <= j < |ss[1..]| && ss[1..][j] == s;
        assert ss[j + 1] == s;
      }
      FillSectionsFrame(c1, data, ss[1..], ss[0].id);
    } else {
      assert ss[1..][k - 1] == ss[k];
      assert DistinctIds(ss[1..]) by {
        forall i, j | 0 <= i < j < |ss[1..]| ensures ss[1..][i].id != ss[1..][j].id {
          assert ss[1..][i] == ss[i + 1] && ss[1..][j] == ss[j + 1];
        }
      }
      FillSectionsAt(c1, data, ss[1..], k - 1);
    }
  }

  lemma MenuSectionsDistinct()
    ensures DistinctIds(MenuSections)
    ensures forall s :: s in MenuSections ==> s.id != NoodleId && s.id != RiceId && s.id != SideId
  {
  }

  /** After populateMenuItems, the container of each single-key section holds
      exactly that section's rendered records when its key is present, and
      its previous children when the key is missing: no other populator
      touches it. */
  lemma FillMenuSection(c: Containers, data: MenuDocument, k: nat)
    requires k < |MenuSections| && MenuSections[k].id in c
    ensures var s := MenuSections[k];
            FillMenu(c, data)[s.id] ==
              if s.key in data then Rendered(s.renderer, data[s.key]) else c[s.id]
  {
    MenuSectionsDistinct();
    FillSectionsAt(c, data, MenuSections, k);
    assert MenuSections[k] in MenuSections;
  }

  /** The containers a single-key populator writes, given which containers
      exist: at most its own. */
  function SectionWrites(ids: set<string>, data: MenuDocument, s: Section): Containers
  {
    if s.id in ids && s.key in data then map[s.id := Rendered(s.renderer, data[s.key])] else map[]
  }

  function SectionsWrites(ids: set<string>, data: MenuDocument, ss: seq<Section>): Containers
  {
    if ss == [] then map[] else SectionWrites(ids, data, ss[0]) + SectionsWrites(ids, data, ss[1..])
  }

  function NoodleRiceWrites(ids: set<string>, data: MenuDocument): Containers
  {
    if NoodleId in ids && RiceId in ids
    then map[NoodleId := NoodleElements(data), RiceId := RiceElements(data)] else map[]
  }

  function SideWrites(ids: set<string>, data: MenuDocument): Containers
  {
    if SideId in ids then map[SideId := SideElements(data)] else map[]
  }

  /** Everything populateMenuItems writes, given which containers exist. */
  function MenuWrites(ids: set<string>, data: MenuDocument): Containers
  {
    SectionsWrites(ids, data, MenuSections) + NoodleRiceWrites(ids, data) + SideWrites(ids, data)
  }

  /** A map identity, stated only as a hint to the verifier. */
  lemma MapUnionAssoc(c: Containers, a: Containers, b: Containers)
    ensures (c + a) + b == c + (a + b)
  {
  }

  /** A map identity (writing the same containers a second time), stated
      only as a hint to the verifier. */
  lemma UnionAgain(c: Containers, w: Containers)
    ensures (c + w) + w == c + w
  {
  }

  lemma {:induction false} FillSectionsWrites(c: Containers, data: MenuDocument, ss: seq<Section>)
    ensures FillSections(c, data, ss) == c + SectionsWrites(c.Keys, data, ss)
    decreases |ss|
  {
    if ss == [] {
      assert c + map[] == c;
    } else {
      var c1 := FillSection(c, data, ss[0]);
      assert c1 == c + SectionWrites(c.Keys, data, ss[0]);
      FillSectionsWrites(c1, data, ss[1..]);
      MapUnionAssoc(c, SectionWrites(c.Keys, data, ss[0]), SectionsWrites(c.Keys, data, ss[1..]));
    }
  }

  lemma FillNoodlesAndRiceWrites(c: Containers, data: MenuDocument)
    ensures FillNoodlesAndRice(c, data) == c + NoodleRiceWrites(c.Keys, data)
  {
  }

  lemma FillSidesWrites(c: Containers, data: MenuDocument)
    ensures FillSides(c, data) == c + SideWrites(c.Keys, data)
  {
  }

  /** What populateMenuItems leaves depends on the containers before only
      through which of them exist and through the containers it does not
      write. */
  lemma FillMenuWrites(c: Containers, data: MenuDocument)
    ensures FillMenu(c, data) == c + MenuWrites(c.Keys, data)
  {
    var c1 := FillSections(c, data, MenuSections);
    var sw := SectionsWrites(c.Keys, data, MenuSections);
    var nw := NoodleRiceWrites(c.Keys, data);
    var dw := SideWrites(c.Keys, data);
    FillSectionsWrites(c, data, MenuSections);
    var c2 := FillNoodlesAndRice(c1, data);
    FillNoodlesAndRiceWrites(c1, data);
    FillSidesWrites(c2, data);
    assert c1.Keys == c.Keys && c2.Keys == c.Keys;
    MapUnionAssoc(c, sw, nw);
    MapUnionAssoc(c, sw + nw, dw);
  }

  /** Running populateMenuItems again on the same document changes nothing:
      every populator clears what it writes before appending. */
  lemma FillMenuIdempotent(c: Containers, data: MenuDocument)
    ensures FillMenu(FillMenu(c, data), data) == FillMenu(c, data)
  {
    var w := MenuWrites(c.Keys, data);
    var c1 := FillMenu(c, data);
    FillMenuWrites(c, data);
    assert c1 == c + w && c1.Keys == c.Keys;
    FillMenuWrites(c1, data);
    assert FillMenu(c1, data) == c1 + w;
    UnionAgain(c, w);
  }

  /** The noodle container receives lo mein, then chow mein, then the eastern
      noodle dishes; the rice container fried rice, then egg foo young; and
      neither is touched unless both exist. */
  lemma FillNoodlesAndRiceContents(c: Containers, data: MenuDocument)
    ensures !(NoodleId in c && RiceId in c) ==> FillNoodlesAndRice(c, data) == c
    ensures NoodleId in c && RiceId in c ==>
              FillNoodlesAndRice(c, data)[NoodleId] ==
                NoteGroup(data, "lo_mein_noodles") + NoteGroup(data, "chow_mein_chop_suey") +
                Group(data, "eastern_popular_noodles_dishes", Described) &&
              FillNoodlesAndRice(c, data)[RiceId] ==
                Group(data, "fried_rice", Plain) + Group(data, "egg_foo_young", Plain)
  {
  }

  /** Lo mein and chow mein items carry the first truthy note of their own
      list and are never marked hot. */
  lemma NoteGroupItems(data: MenuDocument, key: string, i: nat)
    requires key in data && i < |NoteGroup(data, key)|
    ensures var e := NoteGroup(data, key)[i];
            e.MenuItem? && e.note == FirstNote(data[key]) && !e.hot && e.description == ""
  {
  }

  /** When both the noodle and the rice containers exist, populateRiceDishes
      fills the rice container exactly as populateNoodlesAndRice does. With a
      rice container but no noodle container the two differ:
      populateRiceDishes still fills rice, populateNoodlesAndRice changes
      nothing. */
  lemma RiceDishesAgree(c: Containers, data: MenuDocument)
    ensures NoodleId in c && RiceId in c ==>
              FillRiceDishes(c, data)[RiceId] == FillNoodlesAndRice(c, data)[RiceId]
    ensures RiceId in c && NoodleId !in c ==>
              FillRiceDishes(c, data)[RiceId] == RiceElements(data) && FillNoodlesAndRice(c, data) == c
  {
  }

  function Present(data: MenuDocument, key: string): nat
  {
    if key in data then 1 else 0
  }

  /** The header a subsection shows: its title exactly when its key is
      present. */
  function HeaderIfPresent(data: MenuDocument, key: string, title: string): seq<Element>
  {
    if key in data then [SubsectionHeader(title)] else []
  }

  lemma SubsectionHeaders(data: MenuDocument, key: string, title: string)
    ensures |Headers(Subsection(data, key, title))| == Present(data, key)
    ensures Headers(Subsection(data, key, title)) == HeaderIfPresent(data, key, title)
  {
    if key in data {
      var es := Rendered(Plain, data[key]);
      NoHeaders(es);
      HeadersAppend([SubsectionHeader(title)], es);
      assert [SubsectionHeader(title)][1..] == [];
    }
  }

  /** populateSides emits one subsection header per present key, in the
      order side orders, drinks, extra, even for a list whose records are
      all nameless. */
  lemma SideHeaders(data: MenuDocument)
    ensures |Headers(SideElements(data))| ==
              Present(data, "side_orders") + Present(data, "drinks") + Present(data, "extra")
    ensures Headers(SideElements(data)) ==
              HeaderIfPresent(data, "side_orders", "Side Orders") +
              HeaderIfPresent(data, "drinks", "Beverages") +
              HeaderIfPresent(data, "extra", "Extra Portions")
    ensures "side_orders" in data ==> SideElements(data)[0] == SubsectionHeader("Side Orders")
    ensures "side_orders" !in data && "drinks" in data ==> SideElements(data)[0] == SubsectionHeader("Beverages")
    ensures "side_orders" !in data && "drinks" !in data && "extra" in data ==>
              SideElements(data) == [SubsectionHeader("Extra Portions")] + Rendered(Plain, data["extra"])
  {
    var a := Subsection(data, "side_orders", "Side Orders");
    var b := Subsection(data, "drinks", "Beverages");
    var x := Subsection(data, "extra", "Extra Portions");
    SubsectionHeaders(data, "side_orders", "Side Orders");
    SubsectionHeaders(data, "drinks", "Beverages");
    SubsectionHeaders(data, "extra", "Extra Portions");
    HeadersAppend(a, b);
    HeadersAppend(a + b, x);
  }

  /** A subsection whose records are all nameless still shows its header. */
  lemma NamelessSubsection(data: MenuDocument, key: string, title: string)
    requires key in data && forall i :: 0 <= i < |data[key]| ==> data[key][i].name == ""
    ensures Subsection(data, key, title) == [SubsectionHeader(title)]
  {
    NamedOfNameless(data[key]);
    assert Rendered(Plain, data[key]) == [];
  }

  /** Writing no container changes nothing. */
  lemma OverwriteNone(c: Containers, e: Element)
    ensures Overwrite(c, [], e) == c
  {
  }

  /** Writing one more listed container. */
  lemma OverwriteStep(c: Containers, ids: seq<string>, i: nat, e: Element)
    requires i < |ids|
    ensures Overwrite(c, ids[..i + 1], e) ==
              if ids[i] in c then Overwrite(c, ids[..i], e)[ids[i] := [e]] else Overwrite(c, ids[..i], e)
  {
    assert ids[..i + 1] == ids[..i] + [ids[i]];
    var l, r := Overwrite(c, ids[..i + 1], e), Overwrite(c, ids[..i], e);
    assert l.Keys == r.Keys == c.Keys;
  }

  /** showMenuError writes the error message into each of its listed
      containers that exists, and nothing else; in particular the sides
      container is never replaced. */
  lemma ShowErrorContents(c: Containers)
    ensures ShowError(c).Keys == c.Keys
    ensures forall id :: id in c && id in MenuContainerIds ==> ShowError(c)[id] == [ErrorMessage]
    ensures forall id :: id in c && id !in MenuContainerIds ==> ShowError(c)[id] == c[id]
    ensures SideId in c ==> ShowError(c)[SideId] == c[SideId]
  {
  }

  /** A failed load after the loading placeholder leaves no stale
      placeholder in any listed container: the error overwrites exactly the
      containers the placeholder wrote. */
  lemma ErrorReplacesLoading(c: Containers)
    ensures ShowError(ShowLoading(c)) == ShowError(c)
    ensures forall id :: id in c && id in MenuContainerIds ==> LoadingMessage !in ShowError(ShowLoading(c))[id]
  {
  }

  /** A successful load whose document lacks a section's key leaves that
      section's loading placeholder in place (the populator returns before
      clearing its container). */
  lemma MissingKeyKeepsPlaceholder(c: Containers, data: MenuDocument)
    requires "seafoodItems" in c && "seafood" !in data
    ensures FillMenu(ShowLoading(c), data)["seafoodItems"] == [LoadingMessage]
  {
    assert MenuSections[7] == Seafood;
    FillMenuSection(ShowLoading(c), data, 7);
  }

  /** The scenario of a spicy dish with two sizes: hot, both prices shown. */
  lemma KungPaoChickenScenario()
    ensures Render(Chicken.renderer, Record("Kung Pao Chicken", "", "", 0, 895, 1195, false)) ==
              MenuItem("Kung Pao Chicken", "", TwoPrices(895, 1195), "", true, false)
  {
    assert OccursAt(Lower("Kung Pao Chicken"), "kung pao", 0);
    ContainsIff(Lower("Kung Pao Chicken"), "kung pao");
  }

  /** The scenario of a mild appetizer with a single price. */
  lemma EggRollScenario()
    ensures Render(Appetizers.renderer, Record("Egg Roll", "", "", 175, 0, 0, false)) ==
              MenuItem("Egg Roll", "", OnePrice(175), "", false, false)
  {
  }
}
