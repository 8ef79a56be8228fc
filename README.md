# China Cafe menu page: the data-to-display pipeline

The page script fetches a menu document and fills the page's menu containers
with one rendered element per dish. This project models that pipeline in Dafny:

- **Price selection** (`getPrice`): pick the small/large pair, else the large
  price, else the price, else 0. A price of 0 counts as missing.
- **Spice classification** (`isHotDish`): a case-insensitive substring match of
  the dish name against a fixed word list.
- **Item renderers** (`createMenuItem`, `createSpecialtyItem`): which price slot
  is shown. The output is an abstract `Element` value, not markup.
- **Populators** (`populate*`): each clears its container, keeps the records
  that have a name, and appends one element per record in source order. The
  composite populators for noodles & rice and for sides fill several groups.
  The first adds a hoisted note, the second adds subsection headers.
- **Whole-page fills**: `populateMenuItems` runs the populators in its order.
  `showMenuLoading` and `showMenuError` overwrite a fixed list of containers.
  `loadMenuData` is modelled once its fetch has settled.

The page's markup is a map from element id to the container's children
(`Sections.Containers`). An id missing from the map has no element. The
document is a map from key to a list of records. A key is present exactly when
the document has a truthy list under it. Prices are whole cents (`nat`), with
0 standing for a falsy or missing price. Strings are `seq<char>`, with "" for a
missing description, note or name.

Each populator is a method of the class `Page.MenuPage`. Its field
`containers` is updated in place and its field `menuData` is the script's
global. Each method is proved to leave `containers` equal to a specification
function of the old containers and the document (module `Sections`). The lemmas
in `SectionProperties` state what those functions promise.

JavaScript hoisting decides which declaration of a populator is in effect:
- `populateAppetizers` at script.js:187 replaces the one at script.js:96. The
  one in effect filters by name, shows the description and never marks a dish
  hot.
- `populateSpecialties` (64 and 337) and `populateVegetableDishes` (154 and
  232) are each declared twice with identical bodies. Each is modelled once.

Behaviour of the script worth noting:
- A specialty with a small/large pair shows its large price (script.js:348),
  so a specialty's price is `large_price` if truthy, else `price` if truthy,
  else 0 (`Pricing.SpecialtyPriceOfGetPrice`).
- A single-key populator whose data key is missing returns before clearing
  its container (script.js:139-141). After `showMenuLoading`, that container
  keeps the loading placeholder (`SectionProperties.MissingKeyKeepsPlaceholder`).
- `showMenuError` lists 11 containers, and `sideItems` is not one of them. On a
  failed load the sides container keeps its children
  (`SectionProperties.ShowErrorContents`).
- `getPrice` never returns null or undefined, so the "Price not available"
  branch of `createMenuItem` cannot be reached from any populator
  (`Pricing.ItemSlotOfGetPrice`).

## Model

| member | source | states |
|---|---|---|
| `Pricing.GetPrice` | script.js:425-435 | The result is a pair exactly when `small_price` and `large_price` are both truthy, and then both members are positive. Otherwise it is `large_price` if truthy, else `price` if truthy, else 0. |
| `Pricing.ItemPriceSlot` | script.js:446-457 | Two prices are shown exactly for a non-null pair whose two members are truthy. "Price not available" is shown exactly for null or undefined. A pair with a falsy member reaches number formatting and throws. Any single price, 0 included, is shown as one price. |
| `Pricing.SpecialtyPriceValue` | script.js:346-349 | For a pair, the value passed on is its large member if truthy, else its small member if truthy. When both members are falsy it is the pair object itself, on which number formatting throws (script.js:482). A single price passes through unchanged. |
| `Pricing.ItemSlotOfGetPrice` | script.js:426-457 | Given `getPrice`'s result, `createMenuItem` never throws and never shows "Price not available". It takes the pair branch exactly when both sizes are truthy. The 0 fallback shows as the single price 0. |
| `Pricing.SpecialtyPriceOfGetPrice` | script.js:346-349 | A specialty's price is `large_price` if truthy, else `price` if truthy, else 0. It is never a pair and never that throwing pair object. |
| `Spice.ContainsIff` | script.js:490-496 | The substring test holds exactly when the word occurs at some index of the name. |
| `Spice.ParenthesisedHotSubsumed` | script.js:490-491 | Every name containing "(hot)" contains "hot", so the first disjunct of `isHotDish` is redundant. |
| `Spice.Lower` | script.js:490-496 | `toLowerCase` keeps the length, turns each ASCII capital letter into its small letter, leaves no ASCII capital letter and keeps every character that is not one. |
| `Spice.Contains` | script.js:490-496 | `includes` finds the empty word in any name and finds no word longer than the name. |
| `Spice.IsHotDish` | script.js:489-497 | Any listed word in the lower-cased name makes the dish hot, and a hot name has at least three characters. |
| `Spice.IsHotDishIff` | script.js:489-497 | A dish is hot exactly when its lower-cased name contains one of "hot", "spicy", "szechuan", "kung pao", "hunan" or "curry". |
| `Spice.IsHotDishIgnoresCase` | script.js:489-497 | Two names that differ only in letter case classify alike. |
| `Spice.IsHotDishOfUpperAndLower` | script.js:489-497 | The upper-cased and the lower-cased spellings of a name classify like the name itself. |
| `Rendering.Render` | script.js:438-486 | A standard item keeps the record's name and gluten-free flag and shows the populator's note. It shows the description only where the populator passes it. It is hot exactly when the populator asks for `isHotDish` and the name is hot. It shows both sizes when both are truthy, otherwise the one price `large_price`, else `price`, else 0, and never "Price not available". A specialty card's price is large if truthy, else price, else 0, and its hot flag is `isHotDish(name)`. |
| `Rendering.Named` | script.js:116 | The name filter keeps exactly the records with a non-empty name and never adds records. |
| `Rendering.NamedAppend` | script.js:116-121 | Filtering distributes over concatenation, so kept records stay in source order. |
| `Rendering.NamedSingle` | script.js:116 | One record is kept exactly when it has a name. |
| `Rendering.NamedOfNameless` | script.js:116 | A list of note-only records keeps no records. |
| `Rendering.RenderAll` | script.js:117-121 | The forEach yields one element per record, in order. Each element is a menu item or specialty card carrying that record's name. |
| `Rendering.Rendered` | script.js:116-121 | A populator never appends more elements than its list has records. Each element is a menu item or specialty card with a non-empty name. |
| `Rendering.RenderedCount` | script.js:116-121 | The number of appended elements is the number of records minus the nameless ones. |
| `Rendering.RenderedAppend` | script.js:116-121 | Rendering two lists in turn appends the elements of the first, then those of the second. |
| `Rendering.RenderedAt` | script.js:116-121 | The i-th appended element is the i-th named record rendered. There is exactly one element per named record, and each carries that record's non-empty name. |
| `Rendering.FirstNote` | script.js:260 | The hoisted note is "" exactly when no record (named or not) has a note. Otherwise it is the note of the first record that has one. |
| `Sections.FillSection` | script.js:109-122 | A single-key populator keeps the set of containers and changes no container but its own. |
| `Sections.FillNoodlesAndRice` | script.js:247-308 | The noodles and rice populator keeps the set of containers and changes only the noodle and rice containers. |
| `Sections.FillRiceDishes` | script.js:310-335 | The rice populator keeps the set of containers and changes only the rice container. |
| `Sections.FillSides` | script.js:369-422 | The sides populator keeps the set of containers and changes only the sides container. |
| `Sections.FillMenu` | script.js:170-185 | Populating the whole menu never creates or removes a container. |
| `Sections.FillSections` | script.js:174-182 | Running the single-key populators one after the other keeps the set of containers. |
| `Sections.NoteGroup` | script.js:258-277 | A missing key adds nothing. Otherwise the group adds at most one element per record. Each element is a named menu item with no description, not hot, and shows its own list's first note. |
| `Sections.Group` | script.js:280-307 | A missing key adds nothing. Otherwise the group adds at most one element per record, and each is a named menu item or specialty card. |
| `Sections.Subsection` | script.js:376-389 | A missing key adds nothing. Otherwise the subsection starts with its header, and every element after it is a named item. |
| `Sections.Overwrite` | script.js:562-567 | Each listed container that exists holds just the given element. Every other container keeps its children, and no container is created or removed. |
| `Sections.ShowLoading` | script.js:554-567 | Each of the 11 listed containers that exists holds just the loading placeholder. Every unlisted container, the sides container included, keeps its children. |
| `Sections.ShowError` | script.js:575-588 | Each of the 11 listed containers that exists holds just the error message. Every unlisted container, the sides container included, keeps its children. |
| `SectionProperties.FillSectionContents` | script.js:109-122 | If the container or the data key is missing, every container is unchanged. Otherwise the container holds one element per named record, in order, and nameless records are excluded from the count. |
| `SectionProperties.FillSectionIdempotent` | script.js:113 | Running a single-key populator twice on the same data equals running it once. |
| `SectionProperties.FillNoodlesAndRiceIdempotent` | script.js:253-255 | Running the noodles and rice populator twice equals running it once. |
| `SectionProperties.FillSidesIdempotent` | script.js:373 | Running the sides populator twice equals running it once. |
| `SectionProperties.FillSectionsAt` | script.js:174-182 | When sections write distinct containers, each section's container ends with what its own populator wrote. |
| `SectionProperties.FillMenuSection` | script.js:170-185 | After the whole menu is populated, each single-key section's container holds its rendered records if the key is present. If the key is missing, it keeps its earlier children. |
| `SectionProperties.FillMenuWrites` | script.js:170-185 | Populating the whole menu overwrites a set of containers chosen by which containers exist and which keys the document has. Their new contents depend only on the document. |
| `SectionProperties.FillMenuIdempotent` | script.js:170-185 | Populating the whole menu twice from the same document equals populating it once. |
| `SectionProperties.FillNoodlesAndRiceContents` | script.js:247-308 | Neither container is touched unless both exist. Noodles get lo mein, then chow mein, then eastern noodles. Rice gets fried rice, then egg foo young. |
| `SectionProperties.NoteGroupItems` | script.js:258-277 | Every lo mein and chow mein item carries its own list's first note, has no description and is never hot. |
| `SectionProperties.RiceDishesAgree` | script.js:247-335 | When both the noodle and the rice containers exist, the never-called rice populator fills the rice container exactly as the noodles and rice populator does. With a rice container but no noodle container, the rice populator still fills rice with fried rice then egg foo young, while the noodles and rice populator changes nothing (script.js:251 and 312). |
| `SectionProperties.SubsectionHeaders` | script.js:376-389 | A subsection contributes one header, its own title, exactly when its key is present. Its records add no header. |
| `SectionProperties.SideHeaders` | script.js:369-421 | The sides container holds one header per present key. Its headers, read in order, are exactly "Side Orders" if `side_orders` is present, then "Beverages" if `drinks` is present, then "Extra Portions" if `extra` is present. The first element is the first present key's header. |
| `SectionProperties.NamelessSubsection` | script.js:376-389 | A present subsection whose records are all nameless still shows its header, and only the header. |
| `SectionProperties.ShowErrorContents` | script.js:575-588 | The error fill writes the error message into each listed container that exists and nothing else. The set of containers is unchanged and the sides container is never replaced. |
| `SectionProperties.ErrorReplacesLoading` | script.js:554-588 | Error after loading equals error alone. No listed container keeps a stale loading placeholder. |
| `SectionProperties.MissingKeyKeepsPlaceholder` | script.js:139-141 | With the seafood key missing, a loaded page still shows the loading placeholder in the seafood container. |
| `SectionProperties.KungPaoChickenScenario` | script.js:117-120 | "Kung Pao Chicken" with small 8.95 and large 11.95 renders hot with both prices. |
| `SectionProperties.EggRollScenario` | script.js:194-198 | An "Egg Roll" appetizer at 1.75 renders with one price and is not hot. |
| `Page.MenuPage.AppendEach` | script.js:117-121 | The forEach loop appends the rendered records, in order, to the end of one container and changes nothing else. |
| `Page.MenuPage.PopulateSection` | script.js:109-122 | The shared body of a single-key populator leaves exactly the containers given by `Sections.FillSection`. |
| `Page.MenuPage.PopulateLunchMenu` | script.js:81-94 | Fills the lunch container with no descriptions, hot by name. |
| `Page.MenuPage.PopulateAppetizers` | script.js:187-200 | Fills the appetizer container with descriptions, never hot. |
| `Page.MenuPage.PopulateSoups` | script.js:202-215 | Fills the soup container with descriptions, hot by name. |
| `Page.MenuPage.PopulateSpecialties` | script.js:337-352 | Fills the specialties container with specialty cards. |
| `Page.MenuPage.PopulateChickenDishes` | script.js:109-122 | Fills the chicken container with descriptions, hot by name. |
| `Page.MenuPage.PopulatePorkDishes` | script.js:217-230 | Fills the pork container with descriptions, hot by name. |
| `Page.MenuPage.PopulateBeefDishes` | script.js:124-137 | Fills the beef container with descriptions, hot by name. |
| `Page.MenuPage.PopulateSeafoodDishes` | script.js:139-152 | Fills the seafood container with descriptions, hot by name. |
| `Page.MenuPage.PopulateVegetableDishes` | script.js:232-245 | Fills the vegetable container with descriptions, hot by name. |
| `Page.MenuPage.PopulateWeightWatchers` | script.js:354-367 | Fills the weight-watchers container with plain items. |
| `Page.MenuPage.AppendNoteGroup` | script.js:258-277 | Appends a noodle group whose items carry the group's first note. Appends nothing when the key is missing. |
| `Page.MenuPage.AppendGroup` | script.js:280-307 | Appends one group of a composite section. Appends nothing when the key is missing. |
| `Page.MenuPage.AppendNoodles` | script.js:257-287 | Appends lo mein, then chow mein, then the eastern noodle dishes to the noodle container and changes nothing else. |
| `Page.MenuPage.AppendRice` | script.js:289-307 | Appends fried rice, then egg foo young to the rice container and changes nothing else. |
| `Page.MenuPage.PopulateNoodlesAndRice` | script.js:247-308 | Leaves exactly the containers given by `Sections.FillNoodlesAndRice`. |
| `Page.MenuPage.PopulateRiceDishes` | script.js:310-335 | Leaves exactly the containers given by `Sections.FillRiceDishes`. |
| `Page.MenuPage.AppendSubsection` | script.js:376-389 | Appends a subsection's header and then its named records. Appends nothing when the key is missing. |
| `Page.MenuPage.PopulateSides` | script.js:369-422 | Leaves exactly the containers given by `Sections.FillSides`. |
| `Page.MenuPage.PopulateMenuItems` | script.js:170-185 | Does nothing without data. Otherwise runs the populators in the script's order and leaves the containers given by `Sections.FillMenu`. |
| `Page.MenuPage.OverwriteEach` | script.js:582-587 | The id loop writes one element into each listed container that exists and changes nothing else. |
| `Page.MenuPage.ShowMenuLoading` | script.js:554-567 | Puts the loading placeholder into each of the 11 listed containers that exists. |
| `Page.MenuPage.ShowMenuError` | script.js:575-588 | Puts the error message into each of the 11 listed containers that exists. |
| `Page.MenuPage.LoadMenuData` | script.js:17-29 | A failed fetch or parse shows the error and leaves the data unset. A parsed document becomes the menu data, and the menu is populated from it unless the document is falsy. |

## Left out

- The network fetch and `response.json()` are not modelled. Their result
  enters `Page.MenuPage.LoadMenuData` as a parameter: failed, or parsed to a
  document. A parsed document that is falsy is `None`. A truthy non-object
  document is not modelled.
- Page.MenuPage.LoadMenuData: the catch clause also catches exceptions thrown
  while populating. That case is not modelled, because over well-typed records
  no populator throws (`Pricing.ItemSlotOfGetPrice`,
  `Pricing.SpecialtyPriceOfGetPrice`). Records that are not objects, or whose
  name is not a string, are outside the data model.
- Populator methods require `menuData` to be set. The script dereferences the
  global without a guard, and its only caller, `populateMenuItems`, checks it
  first.
- Spice.IsHotDish: lower-casing covers only the ASCII letters A to Z.
  JavaScript's full Unicode case mapping is not modelled (for example, the
  Kelvin sign lower-cases to "k").
- Number formatting with `toFixed(2)` is not modelled. Prices are whole cents.
  The HTML template strings are not modelled either. An element is an abstract
  value (name, description, price slot, note, hot flag, gluten-free flag), and
  the CSS class and chili emoji used for the hot marker are not distinguished.
- A specialty with a missing description shows the text "undefined". The model
  keeps the description as "" and does not capture that text.
- The superseded `populateAppetizers` declaration at script.js:96-107 never
  runs, because the later declaration replaces it. It is not modelled.
- The event-listener wiring is not modelled, being user-interface glue outside
  the data pipeline: the DOMContentLoaded handlers, menu tab switching
  (script.js:32-46), smooth scrolling (script.js:49-62), the scroll header
  restyle (script.js:500-509) and click-to-call (script.js:540-551).
- The IntersectionObserver fade-in and its one-second delay (script.js:512-537)
  are browser animation and timing, and are not modelled.
- The order in which the two DOMContentLoaded handlers run (script.js:9-14 and
  570-572) is event-loop timing and is not modelled. The lemma
  `SectionProperties.ErrorReplacesLoading` covers the order the script produces
  in practice, loading first and then the error.
- The DOM's element identity, aliasing and the in-place mutation of child
  lists are modelled as replacement of the container's sequence in a map.
