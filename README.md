# Image-slot resolver of the wildfire-drone landing page

The landing page (`Users/Ronen/Desktop/project/src/App.tsx`) fetches the rows of its `images` table, each
`{category, alt_text?, public_url}`, and turns them into a dictionary with at
most five keys that the page's sections read: `hero`, `focus1`, `focus2`,
`focus3` and `deployment`. This project models that resolver and proves what it
does:

- `hero` and `deployment` take the first row of their category;
- each focus slot first takes the first `focus` row whose lower-cased
  `alt_text` contains one of the slot's three keywords
  (`interface`/`barrier`/`urban`, `rapid`/`spot`/`extinguish`,
  `prescribed`/`burn`/`controlled`); a row without `alt_text` never matches;
- a focus slot the keyword pass left falsy takes the focus row at position 0, 1
  or 2, when there is one;
- slots with no candidate stay absent.

Files:

- `wrappers.dfy` — `Option`, for `alt_text` and for a query that returned no data.
- `ascii_text.dfy` — `toLowerCase` (ASCII letters) and `includes`, with the
  fact that changing letter case does not change the lower-cased text.
- `image_slots.dfy` — the row record, the category filter, the keyword `find`,
  the resolver as a pure two-phase definition (`Resolve` / `ImageMap`: keyword
  pass, then positional fallback), and the resolver as the source writes it
  (`BuildImageMap`: guarded writes into an initially empty dictionary). The
  three repeated keyword blocks and the three repeated fallback blocks of the
  source are one method each (`AssignByKeyword`, `AssignByPosition`), and hero
  and deployment share `AssignFirst`. `BuildImageMap` is proved to build exactly
  `ImageMap` of the fetched rows.
- `image_slot_properties.dfy` — the resolver's promises, stated over the input
  rows in their given order.

The dictionary's keys are the datatype `Slot`; `Slot.Name` gives the string key
the page uses, and distinct slots have distinct names (`SlotNamesDistinct`), so
the `Slot`-keyed map stands for the page's string-keyed record. "The keys are
among the five slot names" then holds by construction.

Two behaviours of the code worth knowing:

- A keyword match wins only when its `public_url` is truthy. The code tests
  `!imageMap.focusN` before the positional fallback, and the empty string is
  falsy, so a first keyword match whose `public_url` is `""` is overwritten by
  the positional record when one exists, and otherwise stays `""`.
  `EmptyKeywordUrlFallsBack` states this.
- The resolver has no default URLs: a slot with no candidate is simply absent
  from the map. The default URLs with `url || default` fallbacks belong to the
  other two page variants (`Users/Ronen/Desktop/project/project/src/App.tsx` and
  `Users/Ronen/Desktop/Extrecated-Files/project/src/App.tsx`), which are not part
  of this model; how this page renders an absent slot is listed
  under "## Left out".

## Model

| member | source | states |
|---|---|---|
| AsciiText.ToLower | Users/Ronen/Desktop/project/src/App.tsx:35 | lower-casing keeps the length, maps each character through ASCII lower-casing, and leaves no upper-case letter |
| AsciiText.RecasedLowerEqual | Users/Ronen/Desktop/project/src/App.tsx:35-37 | two strings that differ only in the case of ASCII letters lower-case to the same string |
| AsciiText.Contains | Users/Ronen/Desktop/project/src/App.tsx:35 | `includes` holds iff the keyword occurs in the text at some position |
| ImageSlots.Filter | Users/Ronen/Desktop/project/src/App.tsx:26 | the category filter keeps only rows of that category, drawn from the input, and keeps every such row |
| ImageSlots.NoDataNoSlots | Users/Ronen/Desktop/project/src/App.tsx:26 | a query that returned no data (`allImages` null, filtered through `|| []`) fills no slot: the map is empty |
| ImageSlots.KeywordUrl | Users/Ronen/Desktop/project/src/App.tsx:34-39 | the keyword phase sets the slot iff some focus record's alt text mentions one of the slot's keywords, and then to the URL of the first such record |
| ImageSlots.Resolve | Users/Ronen/Desktop/project/src/App.tsx:24-73 | the two-phase resolver sets hero/deployment iff that category list is non-empty, focus1 iff the focus list is non-empty, and focus2 or focus3 only when focus1 is set |
| ImageSlots.ImageMap | Users/Ronen/Desktop/project/src/App.tsx:24-73 | the resolver's map is empty for no rows, and without focus1 it holds no focus slot at all |
| ImageSlots.SlotNamesDistinct | Users/Ronen/Desktop/project/src/App.tsx:24-73 | the five slot keys are pairwise distinct strings, so the enum-keyed map is the string-keyed record |
| ImageSlots.Find | Users/Ronen/Desktop/project/src/App.tsx:34-38 | the keyword `find` returns nothing iff no row matches, and otherwise the first matching row |
| ImageSlots.Fallback | Users/Ronen/Desktop/project/src/App.tsx:60-68 | after the fallback a focus slot is set iff the keyword pass set it or the focus list reaches its position |
| ImageSlots.FocusSlotValue | Users/Ronen/Desktop/project/src/App.tsx:33-68 | a focus slot is set iff some focus row matches its keywords or the focus list reaches its position |
| ImageSlots.AssignFirst | Users/Ronen/Desktop/project/src/App.tsx:27-29 | the hero/deployment write sets the slot to the first row's URL of the category list, and leaves it absent for an empty list |
| ImageSlots.AssignByKeyword | Users/Ronen/Desktop/project/src/App.tsx:33-40 | one keyword block sets the slot to the URL found by the keyword search, if any, and changes no other slot |
| ImageSlots.AssignByPosition | Users/Ronen/Desktop/project/src/App.tsx:60-62 | one fallback block leaves the slot at the two-phase value, given what the keyword pass left there, and changes no other slot |
| ImageSlots.BuildImageMap | Users/Ronen/Desktop/project/src/App.tsx:24-73 | the dictionary the source builds step by step equals the two-phase `ImageMap` of the fetched rows, and is empty when the data is null |
| ImageSlotProperties.FilterLength | Users/Ronen/Desktop/project/src/App.tsx:31 | the filtered list has exactly one entry per row of the category |
| ImageSlotProperties.FilterAt | Users/Ronen/Desktop/project/src/App.tsx:31 | a row of the category at input position i is entry number "rows of that category before i" of the filtered list, so the filter keeps input order |
| ImageSlotProperties.FirstUrlRule | Users/Ronen/Desktop/project/src/App.tsx:26-73 | the first-record rule used for hero (lines 26-29) and deployment (lines 70-73): the value is present iff some row has the category, and then it is the URL of the first such row |
| ImageSlotProperties.FindAfterFilter | Users/Ronen/Desktop/project/src/App.tsx:31-38 | searching the focus list finds the first focus row of the whole input whose alt text matches |
| ImageSlotProperties.FindAfterFilterSome | Users/Ronen/Desktop/project/src/App.tsx:31-38 | the search over the focus list succeeds iff some focus row matches |
| ImageSlotProperties.HeroRule | Users/Ronen/Desktop/project/src/App.tsx:26-29 | `hero` is present iff some row has category `hero`, and then it is the URL of the first such row |
| ImageSlotProperties.DeploymentRule | Users/Ronen/Desktop/project/src/App.tsx:70-73 | `deployment` is present iff some row has category `deployment`, and then it is the URL of the first such row |
| ImageSlotProperties.FocusKeywordRule | Users/Ronen/Desktop/project/src/App.tsx:33-58 | when a focus row matches a slot's keywords and the first such row's URL is non-empty, the slot holds that URL |
| ImageSlotProperties.EmptyKeywordUrlFallsBack | Users/Ronen/Desktop/project/src/App.tsx:60-68 | when the first matching row's URL is empty, the slot is still present and holds the focus row at the slot's position if there is one, else the empty string |
| ImageSlotProperties.FocusFallbackRule | Users/Ronen/Desktop/project/src/App.tsx:60-68 | with no keyword match, focusN is present iff there are at least N focus rows, and then it holds the URL of focus row N-1 |
| ImageSlotProperties.FocusSlotPresence | Users/Ronen/Desktop/project/src/App.tsx:31-68 | focusN is present iff a focusN keyword match exists or there are at least N focus rows |
| ImageSlotProperties.Focus1Presence | Users/Ronen/Desktop/project/src/App.tsx:31-62 | `focus1` is present iff there is at least one focus row |
| ImageSlotProperties.Soundness | Users/Ronen/Desktop/project/src/App.tsx:24-73 | every value in the map is the URL of an input row whose category fits the slot (`hero`, `focus` or `deployment`) |
| ImageSlotProperties.MatchesRecased | Users/Ronen/Desktop/project/src/App.tsx:35-37 | the keyword predicate gives the same answer for two rows that differ only in the letter case of their alt text |
| ImageSlotProperties.CaseInsensitive | Users/Ronen/Desktop/project/src/App.tsx:34-56 | changing the case of ASCII letters in any alt text does not change the image map |
| ImageSlotProperties.OtherCategoryIgnored | Users/Ronen/Desktop/project/src/App.tsx:24-73 | inserting a row whose category is not `hero`, `focus` or `deployment` anywhere in the input does not change the image map |
| ImageSlotProperties.OneRowFillsTwoSlots | Users/Ronen/Desktop/project/src/App.tsx:33-49 | one row whose alt text names keywords of two slots fills both (`focus1` and `focus2` hold the same URL), so distinct images are not guaranteed |

## Left out

- The backend query, its `created_at` descending order, the async flow, the
  error branch and the React state setters (`setImages`, `setImagesLoaded`,
  `setImagesError`): network I/O and UI state. The model takes the fetched rows
  in the order given.
- The key order of the JavaScript object: a Dafny `map` has none, and nothing on
  the page depends on it.
- AsciiText.ToLower: does not model full Unicode `toLowerCase`, only ASCII letters,
  because Unicode case mapping belongs to the JavaScript runtime.
- `public_url` is a string in the model; a null `public_url` from the table is
  not modelled.
- The scroll listener, `scrollToSection` and all rendering, including how the
  page renders an absent slot (a gradient background for a missing `hero`,
  nothing for a missing focus or deployment image); the `getPublicUrl` variants of the page with their
  `url || default` fallbacks; the upload dialog; the contact form; the
  update-or-insert image helper; the static image URL constants. These are UI,
  browser events or calls into the storage backend, with no resolver logic.
