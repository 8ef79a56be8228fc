/** The page: its menu containers, updated in place by the populators, and
    the global menu data, assigned once by the loader. Each populator is
    proved against its specification in module Sections. */
module Page {
  import opened MenuData
  import opened Pricing
  import opened Rendering
  import opened Sections
  import opened SectionProperties

  /** How the fetch of the data document ended: the request or the parse
      failed, or the parsed document (None when it is falsy, such as null). */
  datatype FetchOutcome = Failed | Parsed(document: Option<MenuDocument>)

  /** One populator of a list, then the rest of the list. */
  lemma FillSectionsStep(c: Containers, data: MenuDocument, ss: seq<Section>, k: nat)
    requires k < |ss|
    ensures FillSections(c, data, ss[k..]) == FillSections(FillSection(c, data, ss[k]), data, ss[k + 1..])
  {
    assert ss[k..][0] == ss[k] && ss[k..][1..] == ss[k + 1..];
  }

  /** Writing two different containers: the later write does not undo the
      earlier one, whichever the order of clearing. */
  lemma SwapUpdates(c: Containers, a: string, b: string, x: seq<Element>, y: seq<Element>)
    requires a != b
    ensures c[a := []][b := []][a := x][b := y] == c[a := x][b := y]
  {
  }

  /** A sequence identity (appending to a cleared container), stated only
      as a hint to the verifier. */
  lemma EmptyPrefix(x: seq<Element>)
    ensures [] + x == x
  {
  }

  /** A sequence identity (appending twice to a container), stated only as
      a hint to the verifier. */
  lemma AppendTwice(a: seq<Element>, b: seq<Element>, x: seq<Element>)
    ensures a + b + x == a + (b + x)
  {
  }

  class MenuPage {
    /** The children of every element the populators look up by id. */
    var containers: Containers
    /** The global menuData: None until a document is loaded. */
    var menuData: Option<MenuDocument>

    constructor (markup: Containers)
      ensures containers == markup && menuData == None
    {
      containers := markup;
      menuData := None;
    }

    /** The forEach of a populator: render each record and append it. */
    method AppendEach(id: string, items: seq<Record>, rd: Renderer)
      requires id in containers
      modifies this
      ensures containers == old(containers)[id := old(containers)[id] + RenderAll(rd, items)]
      ensures menuData == old(menuData)
    {
      ghost var before := containers[id];
      var i := 0;
      assert RenderAll(rd, items[..0]) == [] && before + [] == before;
      while i < |items|
        invariant 0 <= i <= |items|
        invariant id in containers
        invariant containers == old(containers)[id := before + RenderAll(rd, items[..i])]
        invariant menuData == old(menuData)
      {
        var element := Render(rd, items[i]);
        assert RenderAll(rd, items[..i + 1]) == RenderAll(rd, items[..i]) + [element];
        assert containers[id] + [element] == before + RenderAll(rd, items[..i + 1]);
        containers := containers[id := containers[id] + [element]];
        i := i + 1;
      }
      assert items[..i] == items;
    }

    /** The body every single-key populator shares: return unless the
        container and the key exist, clear the container, then append the
        named records. */
    method PopulateSection(s: Section)
      requires menuData.Some?
      modifies this
      ensures containers == FillSection(old(containers), old(menuData).value, s)
      ensures menuData == old(menuData)
    {
      var data := menuData.value;
      if !(s.id in containers && s.key in data) {
        return;
      }
      containers := containers[s.id := []];
      var menuItems := Named(data[s.key]);
      AppendEach(s.id, menuItems, s.renderer);
      EmptyPrefix(RenderAll(s.renderer, menuItems));
    }

    method PopulateLunchMenu()
      requires menuData.Some?
      modifies this
      ensures containers == FillSection(old(containers), old(menuData).value, LunchMenu)
      ensures menuData == old(menuData)
    {
      PopulateSection(LunchMenu);
    }

    method PopulateAppetizers()
      requires menuData.Some?
      modifies this
      ensures containers == FillSection(old(containers), old(menuData).value, Appetizers)
      ensures menuData == old(menuData)
    {
      PopulateSection(Appetizers);
    }

    method PopulateSoups()
      requires menuData.Some?
      modifies this
      ensures containers == FillSection(old(containers), old(menuData).value, Soups)
      ensures menuData == old(menuData)
    {
      PopulateSection(Soups);
    }

    method PopulateSpecialties()
      requires menuData.Some?
      modifies this
      ensures containers == FillSection(old(containers), old(menuData).value, ChefsSpecialties)
      ensures menuData == old(menuData)
    {
      PopulateSection(ChefsSpecialties);
    }

    method PopulateChickenDishes()
      requires menuData.Some?
      modifies this
      ensures containers == FillSection(old(containers), old(menuData).value, Chicken)
      ensures menuData == old(menuData)
    {
      PopulateSection(Chicken);
    }

    method PopulatePorkDishes()
      requires menuData.Some?
      modifies this
      ensures containers == FillSection(old(containers), old(menuData).value, Pork)
      ensures menuData == old(menuData)
    {
      PopulateSection(Pork);
    }

    method PopulateBeefDishes()
      requires menuData.Some?
      modifies this
      ensures containers == FillSection(old(containers), old(menuData).value, Beef)
      ensures menuData == old(menuData)
    {
      PopulateSection(Beef);
    }

    method PopulateSeafoodDishes()
      requires menuData.Some?
      modifies this
      ensures containers == FillSection(old(containers), old(menuData).value, Seafood)
      ensures menuData == old(menuData)
    {
      PopulateSection(Seafood);
    }

    method PopulateVegetableDishes()
      requires menuData.Some?
      modifies this
      ensures containers == FillSection(old(containers), old(menuData).value, Vegetables)
      ensures menuData == old(menuData)
    {
      PopulateSection(Vegetables);
    }

    method PopulateWeightWatchers()
      requires menuData.Some?
      modifies this
      ensures containers == FillSection(old(containers), old(menuData).value, WeightWatchers)
      ensures menuData == old(menuData)
    {
      PopulateSection(WeightWatchers);
    }

    /** Appends one group of a composite section when its key is present. */
    method AppendGroup(id: string, key: string, rd: Renderer)
      requires menuData.Some? && id in containers
      modifies this
      ensures containers == old(containers)[id := old(containers)[id] + Group(old(menuData).value, key, rd)]
      ensures menuData == old(menuData)
    {
      var data := menuData.value;
      if key in data {
        AppendEach(id, Named(data[key]), rd);
      } else {
        assert old(containers)[id] + [] == old(containers)[id];
      }
    }

    /** Appends a noodle group, each item carrying the group's first note. */
    method AppendNoteGroup(id: string, key: string)
      requires menuData.Some? && id in containers
      modifies this
      ensures containers == old(containers)[id := old(containers)[id] + NoteGroup(old(menuData).value, key)]
      ensures menuData == old(menuData)
    {
      var data := menuData.value;
      if key in data {
        var note := FirstNote(data[key]);
        AppendEach(id, Named(data[key]), StandardItem(false, note, false));
      } else {
        assert old(containers)[id] + [] == old(containers)[id];
      }
    }

    /** The three noodle groups, appended in order. */
    method AppendNoodles()
      requires menuData.Some? && NoodleId in containers
      modifies this
      ensures containers == old(containers)[NoodleId := old(containers)[NoodleId] + NoodleElements(old(menuData).value)]
      ensures menuData == old(menuData)
    {
      ghost var data := menuData.value;
      ghost var before := containers[NoodleId];
      ghost var loMein := NoteGroup(data, "lo_mein_noodles");
      ghost var chowMein := NoteGroup(data, "chow_mein_chop_suey");
      ghost var eastern := Group(data, "eastern_popular_noodles_dishes", Described);
      AppendNoteGroup(NoodleId, "lo_mein_noodles");
      AppendNoteGroup(NoodleId, "chow_mein_chop_suey");
      AppendGroup(NoodleId, "eastern_popular_noodles_dishes", Described);
      assert containers == old(containers)[NoodleId := before + loMein + chowMein + eastern];
      AppendTwice(before + loMein, chowMein, eastern);
      AppendTwice(before, loMein, chowMein + eastern);
      AppendTwice(loMein, chowMein, eastern);
    }

    /** The two rice groups, appended in order. */
    method AppendRice()
      requires menuData.Some? && RiceId in containers
      modifies this
      ensures containers == old(containers)[RiceId := old(containers)[RiceId] + RiceElements(old(menuData).value)]
      ensures menuData == old(menuData)
    {
      ghost var data := menuData.value;
      ghost var before := containers[RiceId];
      ghost var fried := Group(data, "fried_rice", Plain);
      ghost var eggFooYoung := Group(data, "egg_foo_young", Plain);
      AppendGroup(RiceId, "fried_rice", Plain);
      AppendGroup(RiceId, "egg_foo_young", Plain);
      AppendTwice(before, fried, eggFooYoung);
    }

    method PopulateNoodlesAndRice()
      requires menuData.Some?
      modifies this
      ensures containers == FillNoodlesAndRice(old(containers), old(menuData).value)
      ensures menuData == old(menuData)
    {
      if !(NoodleId in containers && RiceId in containers) {
        return;
      }
      ghost var data := menuData.value;
      ghost var c0 := containers;
      containers := containers[NoodleId := []];
      containers := containers[RiceId := []];
      AppendNoodles();
      AppendRice();
      EmptyPrefix(NoodleElements(data));
      EmptyPrefix(RiceElements(data));
      SwapUpdates(c0, NoodleId, RiceId, NoodleElements(data), RiceElements(data));
    }

    method PopulateRiceDishes()
      requires menuData.Some?
      modifies this
      ensures containers == FillRiceDishes(old(containers), old(menuData).value)
      ensures menuData == old(menuData)
    {
      if RiceId !in containers {
        return;
      }
      containers := containers[RiceId := []];
      AppendRice();
      EmptyPrefix(RiceElements(old(menuData).value));
    }

    /** Appends a subsection header and its records when the key is present. */
    method AppendSubsection(key: string, title: string)
      requires menuData.Some? && SideId in containers
      modifies this
      ensures containers == old(containers)[SideId := old(containers)[SideId] + Subsection(old(menuData).value, key, title)]
      ensures menuData == old(menuData)
    {
      var data := menuData.value;
      if key in data {
        var header := [SubsectionHeader(title)];
        ghost var items := RenderAll(Plain, Named(data[key]));
        assert Subsection(data, key, title) == header + items;
        containers := containers[SideId := containers[SideId] + header];
        AppendEach(SideId, Named(data[key]), Plain);
        AppendTwice(old(containers)[SideId], header, items);
      } else {
        assert old(containers)[SideId] + [] == old(containers)[SideId];
      }
    }

    method PopulateSides()
      requires menuData.Some?
      modifies this
      ensures containers == FillSides(old(containers), old(menuData).value)
      ensures menuData == old(menuData)
    {
      if SideId !in containers {
        return;
      }
      ghost var data := menuData.value;
      ghost var sides := Subsection(data, "side_orders", "Side Orders");
      containers := containers[SideId := []];
      AppendSubsection("side_orders", "Side Orders");
      AppendSubsection("drinks", "Beverages");
      AppendSubsection("extra", "Extra Portions");
      EmptyPrefix(sides);
    }

    /** Runs the populators in the order the page defines, once a document
        is loaded; does nothing otherwise. */
    method PopulateMenuItems()
      modifies this
      ensures menuData == old(menuData)
      ensures containers == if menuData.Some? then FillMenu(old(containers), menuData.value) else old(containers)
    {
      if menuData.None? {
        return;
      }
      ghost var data := menuData.value;
      ghost var c0 := containers;
      PopulateLunchMenu();
      ghost var c1 := containers;
      PopulateAppetizers();
      ghost var c2 := containers;
      PopulateSoups();
      ghost var c3 := containers;
      PopulateSpecialties();
      ghost var c4 := containers;
      PopulateChickenDishes();
      ghost var c5 := containers;
      PopulatePorkDishes();
      ghost var c6 := containers;
      PopulateBeefDishes();
      ghost var c7 := containers;
      PopulateSeafoodDishes();
      ghost var c8 := containers;
      PopulateVegetableDishes();
      FillSectionsStep(c0, data, MenuSections, 0);
      FillSectionsStep(c1, data, MenuSections, 1);
      FillSectionsStep(c2, data, MenuSections, 2);
      FillSectionsStep(c3, data, MenuSections, 3);
      FillSectionsStep(c4, data, MenuSections, 4);
      FillSectionsStep(c5, data, MenuSections, 5);
      FillSectionsStep(c6, data, MenuSections, 6);
      FillSectionsStep(c7, data, MenuSections, 7);
      FillSectionsStep(c8, data, MenuSections, 8);
      assert MenuSections[9..] == [] && MenuSections[0..] == MenuSections;
      PopulateNoodlesAndRice();
      PopulateSides();
    }

    /** Writes one element into each listed container that exists. */
    method OverwriteEach(ids: seq<string>, e: Element)
      modifies this
      ensures containers == Overwrite(old(containers), ids, e)
      ensures menuData == old(menuData)
    {
      var i := 0;
      OverwriteNone(containers, e);
      while i < |ids|
        invariant 0 <= i <= |ids|
        invariant containers == Overwrite(old(containers), ids[..i], e)
        invariant menuData == old(menuData)
      {
        var id := ids[i];
        OverwriteStep(old(containers), ids, i, e);
        if id in containers {
          containers := containers[id := [e]];
        }
        i := i + 1;
      }
      assert ids[..i] == ids;
    }

    method ShowMenuLoading()
      modifies this
      ensures containers == ShowLoading(old(containers))
      ensures menuData == old(menuData)
    {
      OverwriteEach(MenuContainerIds, LoadingMessage);
    }

    method ShowMenuError()
      modifies this
      ensures containers == ShowError(old(containers))
      ensures menuData == old(menuData)
    {
      OverwriteEach(MenuContainerIds, ErrorMessage);
    }

    /** The loader once the fetch has settled: a failure shows the error in
        every listed container; a parsed document becomes the menu data and
        is rendered. */
    method LoadMenuData(outcome: FetchOutcome)
      modifies this
      ensures outcome.Failed? ==> containers == ShowError(old(containers)) && menuData == old(menuData)
      ensures outcome.Parsed? ==> menuData == outcome.document
      ensures outcome.Parsed? && outcome.document.Some? ==>
                containers == FillMenu(old(containers), outcome.document.value)
      ensures outcome.Parsed? && outcome.document.None? ==> containers == old(containers)
    {
      match outcome
      case Failed =>
        ShowMenuError();
      case Parsed(document) =>
        menuData := document;
        PopulateMenuItems();
    }
  }
}
