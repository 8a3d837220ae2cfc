# Situ showcase site — catalog, carousels and navigation, modelled in Dafny

This project models the logic inside the Situ showcase site, a small Next.js site.

- **Catalog page:**
  - loads the product feed and resolves every photo path against the deployment prefix;
  - derives sorted colour and category vocabularies;
  - filters products by search text, colour and category;
  - groups the result into category sections, with "Otros" for blank categories;
  - toggles the selected facets.
- **Infinite moving cards:**
  - duplicate the strip's children once, for a seamless loop;
  - slide the strip by half its measured width, which the gap between items leaves 8 pixels short of one copy;
  - keep at most one live animation handle, which pauses on hover.
- **Product card:** cycles through a product's photos with wrap-around.
- **Home-page catalog strip and projects section:** map their feeds, one item per record, to the items the two carousels show.
- **Navigation bar:** holds the scroll flag, the logo size, the active link and the asset URLs.
- **Apple-style carousel:** keeps the arrow flags and scroll position of its row. A closed card scrolls the row towards itself, by a target computed from a fixed card width.

**Modules**

- Shared modules:
  - `Wrappers`: `Option` and `Result`.
  - `Text`: the string order used for sorting, ASCII lower-casing, substring search and blankness.
  - `AssetPath`: the one asset-path rule, which every caller shares.
  - `Feed`: the decision taken once a fetch has settled.
- One module per component:
  - `CatalogPage` for `src/app/catalog/page.js`;
  - `InfiniteMovingCards`;
  - `ProductCard`;
  - `Catalog`;
  - `ProyectosArquitectonicos`;
  - `Navbar`;
  - `AppleCardsCarousel`.

**How components are modelled**

- A component whose state changes step by step is a class. Its fields are the state variables.
- Each handler or effect is a method.
- The mapping, filtering and grouping rules are functions, with lemmas about them.

## Model

| member | source | states |
|---|---|---|
| Text.SortedElements | src/app/catalog/page.js:81-82 | `Array.from(set).sort()`: the result is strictly ascending and holds exactly the set's elements |
| Text.SortedUnique | src/app/catalog/page.js:81-82 | two strictly ascending lists with the same elements are equal, so a sorted vocabulary is determined by its set |
| Text.ContainsIff | src/app/catalog/page.js:105-106 | `includes` holds exactly when the needle occurs at some position of the haystack |
| Text.Lower | src/app/catalog/page.js:105-106 | lower-casing keeps the length of the string |
| AssetPath.StripLeadingSlash | src/app/components/Navbar.jsx:33 | a path starting with "/" loses exactly that one character; any other path is unchanged |
| AssetPath.Normalize | src/app/components/Navbar.jsx:31-34 | the result is the prefix, one "/", then the path with at most one leading "/" removed; the path can be read back after the separator |
| AssetPath.NormalizeUnslashed | src/app/components/Navbar.jsx:33 | a path without a leading "/" appears in full after the separator |
| AssetPath.NormalizeIgnoresOneSlash | src/app/catalog/page.js:52 | "x" and "/x" give the same URL |
| AssetPath.NormalizeStripsOnlyOne | src/app/components/Navbar.jsx:33 | "//x" keeps one of its slashes |
| AssetPath.NormalizeInjective | src/app/catalog/page.js:52 | for a fixed prefix, two paths give the same URL exactly when they agree after one leading "/" is dropped |
| Feed.Decode | src/app/catalog/page.js:31-41 | the records are handed on exactly when the response is OK and the body is an array; a non-OK response is an HTTP error carrying its status; a non-array body is the "not in the expected format" error |
| CatalogPage.NormalizePhotos | src/app/catalog/page.js:47-54 | every photo path goes through the asset-path rule, with the same count and order; a `fotos` that is not an array is kept; every other field is copied unchanged |
| CatalogPage.ProcessData | src/app/catalog/page.js:46-66 | one processed record per raw record, in the same order |
| CatalogPage.ColorSetMembers | src/app/catalog/page.js:70-75 | a colour is collected exactly when some record lists it in its `colores` |
| CatalogPage.CategorySetMembers | src/app/catalog/page.js:77-78 | a category is collected exactly when some record has it as a string `categoria` whose trim is non-empty |
| CatalogPage.DeriveFacets | src/app/catalog/page.js:70-82 | both vocabularies are strictly sorted, hence duplicate-free, and hold exactly the collected colours and categories |
| CatalogPage.FilterProducts | src/app/catalog/page.js:95-117 | the result is an order-preserving subsequence of the products and holds exactly the products that pass the search, colour and category tests, each as many times as in the input |
| CatalogPage.FilterWithoutCriteria | src/app/catalog/page.js:103-114 | with an empty search and no selected colour or category, every product is shown, in order |
| CatalogPage.FilterIdempotent | src/app/catalog/page.js:95-117 | filtering the filtered list again changes nothing |
| CatalogPage.SearchIsCaseInsensitive | src/app/catalog/page.js:103-106 | a term and its lower-case form select the same products |
| CatalogPage.SearchFindsName | src/app/catalog/page.js:96-106 | a product is found by its own name written in any ASCII case |
| CatalogPage.SearchDoesNotFoldAccents | src/app/catalog/page.js:105 | the search does not fold accents: "lamp" does not find "Lámpara" |
| CatalogPage.Bucket | src/app/catalog/page.js:121-129 | a bucket is an order-preserving subsequence holding exactly the products whose effective category is its key |
| CatalogPage.BucketCounts | src/app/catalog/page.js:121-129 | a bucket holds each product of its key as many times as the list does, and no other product |
| CatalogPage.BlankCategoryGoesToOtros | src/app/catalog/page.js:123 | a product with a missing or blank category lands in "Otros" and in no other bucket |
| CatalogPage.BucketSizesPartition | src/app/catalog/page.js:121-129 | buckets over distinct keys that cover every category have sizes summing to the list's length |
| CatalogPage.GroupSizesAreBucketSizes | src/app/catalog/page.js:124-127 | groups that equal their buckets have the buckets' total size |
| CatalogPage.GroupProducts | src/app/catalog/page.js:121-131 | the groups are keyed by exactly the effective categories present; each group is that category's bucket and is non-empty; group sizes sum to the number of products |
| CatalogPage.Sections | src/app/catalog/page.js:290-295 | one section per non-empty group, strictly sorted by category name, each carrying its group |
| CatalogPage.RemoveAll | src/app/catalog/page.js:138 | the result holds exactly the selected names other than the removed one |
| CatalogPage.Toggle | src/app/catalog/page.js:135-141 | the name is selected afterwards exactly when it was not selected before; no other name changes |
| CatalogPage.ToggleTwiceSameMembers | src/app/catalog/page.js:135-149 | toggling a name twice restores the original membership |
| CatalogPage.ToggleTwiceRestores | src/app/catalog/page.js:143-149 | selecting an unselected name and deselecting it again gives back the same list |
| CatalogPage.Page.constructor | src/app/catalog/page.js:13-22 | the initial state: no products, loading, empty search, nothing selected, no error |
| CatalogPage.Page.Refilter | src/app/catalog/page.js:94-133 | the filtered list and the groups again agree with the products and the filter; groups are non-empty; without products both are empty; nothing else changes |
| CatalogPage.Page.BeginLoad | src/app/catalog/page.js:27-29 | loading starts and the error is cleared; products, filter, views and vocabularies are unchanged |
| CatalogPage.Page.FinishLoad | src/app/catalog/page.js:30-91 | on success the products are the processed records and the vocabularies are their colour and category sets; on failure the error is recorded and no products, filtered products or groups remain; loading ends either way |
| CatalogPage.Page.SetSearchTerm | src/app/catalog/page.js:169 | the search term is replaced and the views are recomputed; the selections, products, error, loading flag and vocabularies are unchanged |
| CatalogPage.Page.ToggleColor | src/app/catalog/page.js:135-141 | the colour selection is toggled and the views are recomputed; the search term, category selection, products, error, loading flag and vocabularies are unchanged |
| CatalogPage.Page.ToggleCategory | src/app/catalog/page.js:143-149 | the category selection is toggled and the views are recomputed; the search term, colour selection, products, error, loading flag and vocabularies are unchanged |
| InfiniteMovingCards.Originals | src/components/ui/infinite-moving-cards.jsx:23-26 | the children left after removing the clones are exactly the unmarked ones, in order |
| InfiniteMovingCards.CloneOf | src/components/ui/infinite-moving-cards.jsx:28-32 | a clone shows the same content, is marked cloned, and carries no non-empty id |
| InfiniteMovingCards.Clones | src/components/ui/infinite-moving-cards.jsx:26-34 | one clone per node, in the same order |
| InfiniteMovingCards.ClonesAreAllClones | src/components/ui/infinite-moving-cards.jsx:32 | every appended node is marked: no originals among the clones |
| InfiniteMovingCards.RebuiltShape | src/components/ui/infinite-moving-cards.jsx:23-34 | after a rebuild there are 2N children for N originals, N of them clones; the originals come first and the i-th clone copies the i-th original |
| InfiniteMovingCards.RebuildIdempotent | src/components/ui/infinite-moving-cards.jsx:20-35 | rebuilding again changes nothing, so clones never accumulate |
| InfiniteMovingCards.SegmentWidth | src/components/ui/infinite-moving-cards.jsx:51-52 | a segment exists exactly when the measured width is a positive number, and two segments make up the whole width |
| InfiniteMovingCards.Duration | src/components/ui/infinite-moving-cards.jsx:62-66 | 20 for "fast", 40 for "normal", 80 for anything else |
| InfiniteMovingCards.Offsets | src/components/ui/infinite-moving-cards.jsx:67-68 | the run is between 0 and -w, leftwards exactly for "left"; the distance travelled is w |
| InfiniteMovingCards.TravelIsHalfTheWidth | src/components/ui/infinite-moving-cards.jsx:51-68 | one cycle travels half the measured width, in either direction |
| InfiniteMovingCards.ItemWidth | src/components/ui/infinite-moving-cards.jsx:113 | an item is 300 pixels wide below the 768-pixel breakpoint and 380 from it on |
| InfiniteMovingCards.ItemStartIsLinear | src/components/ui/infinite-moving-cards.jsx:107-113 | the item at index i starts i × (width + 16) into the list |
| InfiniteMovingCards.CloneLiesOnePeriodOn | src/components/ui/infinite-moving-cards.jsx:20-35 | in a strip of n originals and their n clones, each item and its clone lie exactly the start of item n apart |
| InfiniteMovingCards.HalfWidthFallsShort | src/components/ui/infinite-moving-cards.jsx:51 | for n originals and n clones, half the measured width is 8 pixels less than that period |
| InfiniteMovingCards.SeamOnFourItems | src/components/ui/infinite-moving-cards.jsx:51 | four items of 380 pixels: the strip measures 3152, one cycle travels 1576, the period is 1584 |
| InfiniteMovingCards.SeamlessSegmentWidth | tailwind.config.js:22-25 | half the measured width plus half the gap, defined exactly when the width is a positive number |
| InfiniteMovingCards.SeamlessTravelIsOnePeriod | tailwind.config.js:22-25 | with the half-gap correction one cycle travels exactly one period, for every item count and width |
| InfiniteMovingCards.Animation.constructor | src/components/ui/infinite-moving-cards.jsx:70-78 | a new handle runs from the start offset to the end offset over the chosen duration |
| InfiniteMovingCards.Animation.Stop | src/components/ui/infinite-moving-cards.jsx:54 | the handle is stopped |
| InfiniteMovingCards.Animation.Pause | src/components/ui/infinite-moving-cards.jsx:88 | the handle is paused |
| InfiniteMovingCards.Animation.Play | src/components/ui/infinite-moving-cards.jsx:91 | the handle runs again |
| InfiniteMovingCards.Scroller.constructor | src/components/ui/infinite-moving-cards.jsx:17-18 | not ready, no animation |
| InfiniteMovingCards.Scroller.AtMostOneLive | src/components/ui/infinite-moving-cards.jsx:59-61 | any two animations that are not stopped are the same handle |
| InfiniteMovingCards.Scroller.RemoveClones | src/components/ui/infinite-moving-cards.jsx:23-25 | removing the marked nodes one by one leaves exactly the originals, in order |
| InfiniteMovingCards.Scroller.AppendClones | src/components/ui/infinite-moving-cards.jsx:26-34 | the children become the old children followed by one clone of each, in order |
| InfiniteMovingCards.Scroller.RebuildClones | src/components/ui/infinite-moving-cards.jsx:20-44 | with items, the children are rebuilt and the strip is ready; without items, only the clones are removed and it is not ready |
| InfiniteMovingCards.Scroller.SetupAnimation | src/components/ui/infinite-moving-cards.jsx:46-85 | any previous handle is stopped; a new one, the only live one, starts exactly when the strip is ready, has items and has a usable width, with offsets and duration as above; otherwise none is kept |
| InfiniteMovingCards.Scroller.MouseEnter | src/components/ui/infinite-moving-cards.jsx:87-89 | the live handle is paused exactly when pause-on-hover is on; otherwise nothing changes |
| InfiniteMovingCards.Scroller.MouseLeave | src/components/ui/infinite-moving-cards.jsx:90-92 | the live handle resumes exactly when pause-on-hover is on; otherwise nothing changes |
| InfiniteMovingCards.Scroller.Unmount | src/components/ui/infinite-moving-cards.jsx:80 | after cleanup no animation is left running |
| ProductCard.NextIndex | src/app/components/ProductCard.jsx:46-51 | the last photo wraps to 0; otherwise one on; for an index in range the result is in range and equals (i+1) mod len |
| ProductCard.PrevIndex | src/app/components/ProductCard.jsx:39-44 | the first photo wraps to len-1; otherwise one back; for an index in range the result is in range and equals (i-1) mod len |
| ProductCard.PrevThenNext | src/app/components/ProductCard.jsx:41-50 | previous followed by next returns the original index |
| ProductCard.NextThenPrev | src/app/components/ProductCard.jsx:41-50 | next followed by previous returns the original index |
| ProductCard.AdvanceIsModular | src/app/components/ProductCard.jsx:29-33 | k auto-advance ticks move the index k places round the strip |
| ProductCard.FullCycleReturns | src/app/components/ProductCard.jsx:29-33 | one tick per photo brings the strip back to where it started |
| ProductCard.PhotoCount | src/app/components/ProductCard.jsx:17 | a missing `fotos` counts as no photos |
| ProductCard.View | src/app/components/ProductCard.jsx:13-17 | the placeholder shows exactly when the product or its name is missing or empty; otherwise the card carries the product's name, description, photos and colours, missing lists being empty |
| ProductCard.Card.constructor | src/app/components/ProductCard.jsx:8-10 | index 0, not hovered, not cycling |
| ProductCard.Card.AutoCycleEffect | src/app/components/ProductCard.jsx:21-36 | the interval runs exactly when card and image area are hovered and there are several photos; with at most one photo the index is reset to 0 |
| ProductCard.Card.PointerEnterCard | src/app/components/ProductCard.jsx:64 | the card is hovered; the index is kept |
| ProductCard.Card.PointerLeaveCard | src/app/components/ProductCard.jsx:65 | the card is not hovered and the interval stops |
| ProductCard.Card.PointerEnterImageArea | src/app/components/ProductCard.jsx:70-72 | the image-area flag is set exactly when there are several photos |
| ProductCard.Card.PointerLeaveImageArea | src/app/components/ProductCard.jsx:73-75 | the image-area flag is cleared and the interval stops |
| ProductCard.Card.Tick | src/app/components/ProductCard.jsx:29-33 | while cycling the index advances like next; otherwise nothing changes |
| ProductCard.Card.GoToPrevious | src/app/components/ProductCard.jsx:39-44 | the index moves back with wrap-around and stays in range |
| ProductCard.Card.GoToNext | src/app/components/ProductCard.jsx:46-51 | the index moves on with wrap-around and stays in range |
| ProductCard.Card.GoToImage | src/app/components/ProductCard.jsx:53-55 | a dot sets the index to its own position |
| ProductCard.PreviousThenNext | src/app/components/ProductCard.jsx:39-51 | clicking previous then next on a card shows the same photo again |
| Catalog.ImagePath | src/app/components/Catalog.jsx:34 | the first photo when there are photos, otherwise 'default-image.png' |
| Catalog.ToCarouselItem | src/app/components/Catalog.jsx:31-39 | the name is the product's name, the title is empty, the image is the prefix, one "/", and the image path with one leading "/" removed |
| Catalog.CarouselItems | src/app/components/Catalog.jsx:31-40 | exactly one item per product, in the same order |
| Catalog.CarouselNamesFollowProducts | src/app/components/Catalog.jsx:36 | the strip's names are the products' names, in order |
| Catalog.CarouselItemsAppend | src/app/components/Catalog.jsx:31-40 | mapping a concatenation maps each part, so the mapping preserves order |
| Catalog.Section.constructor | src/app/components/Catalog.jsx:9-11 | no items, loading, no error |
| Catalog.Section.View | src/app/components/Catalog.jsx:78-110 | the spinner while loading, then the error, then the strip exactly when there are items |
| Catalog.Section.BeginLoad | src/app/components/Catalog.jsx:16-17 | loading starts and the error is cleared |
| Catalog.Section.FinishLoad | src/app/components/Catalog.jsx:18-50 | on success the items are the mapped products; a non-OK response or a non-array body gives the error and no items; loading ends |
| Catalog.LoadOnce | src/app/components/Catalog.jsx:15-110 | a fresh load shows the strip exactly when the feed held products, the empty message for an empty feed, and the error otherwise |
| ProyectosArquitectonicos.ImagePath | src/app/components/ProyectosArquitectonicos.jsx:33 | `imagen` when it is non-empty, otherwise 'default-project-image.png' |
| ProyectosArquitectonicos.KeyOf | src/app/components/ProyectosArquitectonicos.jsx:36 | the key is the id when it is truthy, otherwise the position |
| ProyectosArquitectonicos.ToProjectCard | src/app/components/ProyectosArquitectonicos.jsx:30-45 | title from nombre, category from ubicacion, year from año, description and id copied, index is the position, src is the prefixed image path |
| ProyectosArquitectonicos.ProjectCards | src/app/components/ProyectosArquitectonicos.jsx:30-66 | exactly one card per project, in the same order |
| ProyectosArquitectonicos.CardIndexesArePositions | src/app/components/ProyectosArquitectonicos.jsx:30-37 | every card's index is its position, so no two cards share an index |
| ProyectosArquitectonicos.IdlessKeysDistinct | src/app/components/ProyectosArquitectonicos.jsx:36 | two cards of projects without an id have different keys |
| ProyectosArquitectonicos.Section.constructor | src/app/components/ProyectosArquitectonicos.jsx:8-10 | no cards, loading, no error |
| ProyectosArquitectonicos.Section.View | src/app/components/ProyectosArquitectonicos.jsx:102-119 | the spinner while loading, then the error, then the carousel exactly when there are cards |
| ProyectosArquitectonicos.Section.BeginLoad | src/app/components/ProyectosArquitectonicos.jsx:15-16 | loading starts and the error is cleared |
| ProyectosArquitectonicos.Section.FinishLoad | src/app/components/ProyectosArquitectonicos.jsx:17-76 | on success the cards are the mapped projects; a non-OK response or a non-array body gives the error and no cards; loading ends |
| Navbar.Header.constructor | src/app/components/Navbar.jsx:11 | not scrolled |
| Navbar.Header.HandleScroll | src/app/components/Navbar.jsx:19-21 | scrolled exactly when `scrollY` is greater than 20 |
| Navbar.LogoSize | src/app/components/Navbar.jsx:66-67 | 135×30 exactly when scrolled, 150×34 exactly when not |
| Navbar.LogoShrinksWhenScrolled | src/app/components/Navbar.jsx:66-67 | the scrolled logo is smaller in both directions |
| Navbar.LogoAfterScroll | src/app/components/Navbar.jsx:19-23 | after a scroll event the logo size follows the 20-pixel threshold |
| Navbar.AtMostOneActive | src/app/components/Navbar.jsx:79-89 | at most one link is styled active |
| Navbar.DefaultPageHasNoActiveLink | src/app/components/Navbar.jsx:10 | with the default empty `currentPage` no link is active |
| Navbar.LogoSrc | src/app/components/Navbar.jsx:15-64 | the logo URL is the prefix, "/", and the relative logo path |
| Navbar.TextureSrc | src/app/components/Navbar.jsx:16-49 | the texture URL is the prefix, "/", and the relative texture path |
| AppleCardsCarousel.CardWidth | src/components/ui/apple-cards-carousel.jsx:62-75 | 230 exactly when the window is narrower than 768, else 384 |
| AppleCardsCarousel.RenderedCardWidth | src/components/ui/apple-cards-carousel.jsx:221 | a card is drawn 288 pixels wide below the 768-pixel breakpoint and 384 from it on |
| AppleCardsCarousel.AlignedCloseTargetAligns | src/components/ui/apple-cards-carousel.jsx:62-64 | with the drawn width, `(width + 16) × index` shows the card at `index` where the first card sits at rest, at every window width |
| AppleCardsCarousel.CloseTargetAlignsOnDesktop | src/components/ui/apple-cards-carousel.jsx:62-64 | from 768 pixels on, the target as written aligns the closed card |
| AppleCardsCarousel.CloseTargetFallsShortOnMobile | src/components/ui/apple-cards-carousel.jsx:62-64 | below 768 pixels the target as written is 58 pixels short per card before the closed one, so no card but the first is aligned |
| AppleCardsCarousel.CloseTargetOnPhone | src/components/ui/apple-cards-carousel.jsx:62-64 | on a 375-pixel window, closing the card at index 3 asks for 738 pixels where 912 would align it |
| AppleCardsCarousel.Clamp | src/components/ui/apple-cards-carousel.jsx:65-68 | a requested offset inside the range is kept; one outside is moved to the nearer end |
| AppleCardsCarousel.Carousel.constructor | src/components/ui/apple-cards-carousel.jsx:29-31 | cannot scroll left, can scroll right, current index 0 |
| AppleCardsCarousel.Carousel.CheckScrollability | src/components/ui/apple-cards-carousel.jsx:40-46 | left is possible exactly when the offset is positive; right exactly when it is below scrollWidth − clientWidth |
| AppleCardsCarousel.Carousel.ScrollTo | src/components/ui/apple-cards-carousel.jsx:65-84 | the offset becomes the clamped target, and a move re-checks the flags |
| AppleCardsCarousel.Carousel.ApplyInitialScroll | src/components/ui/apple-cards-carousel.jsx:33-38 | the initial offset is applied and the flags checked |
| AppleCardsCarousel.Carousel.ClickLeftArrow | src/components/ui/apple-cards-carousel.jsx:48-52 | disabled while left is impossible; otherwise the offset moves 300 back, clamped, and decreases |
| AppleCardsCarousel.Carousel.ClickRightArrow | src/components/ui/apple-cards-carousel.jsx:54-58 | disabled while right is impossible; otherwise the offset moves 300 on, clamped, and increases |
| AppleCardsCarousel.Carousel.HandleCardClose | src/components/ui/apple-cards-carousel.jsx:60-71 | the row scrolls to the clamped close target and that card becomes current; after a move the flags agree with the offset, otherwise they are unchanged |
| AppleCardsCarousel.Card.constructor | src/components/ui/apple-cards-carousel.jsx:141 | a card starts closed |
| AppleCardsCarousel.Card.Open | src/components/ui/apple-cards-carousel.jsx:170-172 | the card is open |
| AppleCardsCarousel.Card.Close | src/components/ui/apple-cards-carousel.jsx:174-177 | the card is closed and the carousel scrolls to this card's own index, which becomes current; after a move the flags agree with the offset, otherwise they are unchanged |
| AppleCardsCarousel.Card.OnOutsideClick | src/components/ui/apple-cards-carousel.jsx:163-167 | only an open card closes; a closed one leaves the offset, the current index and the flags alone |
| AppleCardsCarousel.Card.OnKeyDown | src/components/ui/apple-cards-carousel.jsx:145-160 | Escape closes the card and moves the carousel to it, whether or not it was open; other keys change nothing; the flags follow a move and are otherwise unchanged |
| AppleCardsCarousel.Card.OnKeyDownWhenOpen | src/components/ui/apple-cards-carousel.jsx:163-167 | Escape closes an open card; a closed card or another key leaves the offset, the current index and the flags alone |
| AppleCardsCarousel.PressKey | src/components/ui/apple-cards-carousel.jsx:145-160 | every card's listener runs; on Escape all cards end closed and the last registered card decides the offset and the current index; any other key changes nothing |
| AppleCardsCarousel.PressKeyGuarded | src/components/ui/apple-cards-carousel.jsx:163-167 | with guarded listeners Escape closes every card, and when no card was open the row, its flags and every card stay as they were |
| AppleCardsCarousel.EscapeWithNoCardOpenMovesRow | src/components/ui/apple-cards-carousel.jsx:145-177 | three closed cards on a desktop window: Escape scrolls the row to 800 and makes card 2 current |
| AppleCardsCarousel.EscapeWithNoCardOpenGuarded | src/components/ui/apple-cards-carousel.jsx:163-167 | with the guarded listeners the same key press leaves the row at 0 and the current index at 0 |
| AppleCardsCarousel.BlurImage.constructor | src/components/ui/apple-cards-carousel.jsx:280 | the image starts loading |
| AppleCardsCarousel.BlurImage.BlurClass | src/components/ui/apple-cards-carousel.jsx:292 | "blur-sm" exactly while loading, "blur-0" afterwards |
| AppleCardsCarousel.BlurImage.OnLoad | src/components/ui/apple-cards-carousel.jsx:295 | after the load event the image is sharp |
| AppleCardsCarousel.AltText | src/components/ui/apple-cards-carousel.jsx:301 | the given alt text when non-empty, otherwise "Background image"; never empty |

## Left out

- Network fetch and promise chaining are not modelled. A settled fetch is a `Feed.Response`: an OK flag, a status, and a body that is an array, another JSON value, or not JSON at all.
- Error messages are modelled as error kinds (HTTP status, syntax error, unexpected format), not as text.
- Console logging is left out.
- Rendering, JSX markup, React's scheduling of state updates and re-renders, and motion and animation internals are left out. Each effect is a method that runs when its inputs change; timing, easing and springs are not modelled.
- The 2.5-second interval is the abstract `Tick` event.
- Case folding covers ASCII only. `toLowerCase` on other letters is not modelled.
- `localeCompare` and the default `sort()` order are both modelled as one lexicographic order on character codes. Locale collation is not modelled.
- JSON values of unexpected types are folded into `None` (missing). The code behaves differently in these cases:
  - A `null` record makes `product.fotos` or `proyecto.imagen` throw while the feed is mapped (src/app/catalog/page.js:47, src/app/components/Catalog.jsx:34, src/app/components/ProyectosArquitectonicos.jsx:33). The whole load then fails with an error.
  - A `null` entry in `colores` makes `colorObj.color` throw while the colour vocabulary is collected (src/app/catalog/page.js:75).
  - A truthy `categoria` that is not a string makes the grouping's `.trim()` throw (src/app/catalog/page.js:123).
  - `fotos: null` makes the product card throw at `fotos.length` (src/app/components/ProductCard.jsx:36), and `colores: null` at `colores.length` (line 151), because the destructuring defaults of line 17 apply only to `undefined`. The model shows a card with no photos or colours.
  - A truthy `nombre` that is not a string still renders a full product card (src/app/components/ProductCard.jsx:13). `ProductCard.View` gives the placeholder.
  - `String(…)` turns a non-string photo or project image path into its text, and an absent photo path into the text "undefined". It does not pass through unchanged. Only a `fotos` field that is not an array is kept as it is.
- A product's `fotos` that is a string rather than an array would have a length in the catalog strip and the card. It is not modelled.
- Product ids are integers, so JavaScript's `id || index` falsiness is modelled only for 0 and a missing id.
- DOM measurements are integer inputs. Fractional offsets, smooth-scroll intermediate positions and the browser's own timing of scroll events are not modelled.
- The `carouselRef.current` and `scope.current` null checks are not modelled for the carousel, which is assumed mounted. For the infinite strip the check is the `mounted` constant.
- `document.body.style.overflow`, the outside-click hook's own implementation, and the `layoutId` animation ids are left out.
- A change of the `product` prop of a mounted product card is not modelled. The card's photo count is fixed.
- React list keys are modelled only for the projects section (`KeyOf`).
- The strip's own `key` and background-image fallback for each `li` are rendering details and are not modelled.
- A measured width of 0 or NaN only stops the current animation. Nothing retries until the effect's inputs change again.
- The strip's geometry assumes its content is wider than its container. With `min-w-full`, a narrower strip measures the container's width instead. Items of other widths than the two drawn ones are not modelled.
- The carousel row's centring margin (`mx-auto max-w-7xl`) shifts every card by the same amount, so it does not change which offset aligns a card. It is not modelled.
- CatalogPage.GroupProducts: the accumulator is a plain object literal, so a category named like an inherited `Object.prototype` member ("constructor", "toString", "valueOf", "__proto__", …) finds a truthy value at `acc[category]`. The following `.push` then throws inside the effect. The model groups such a category like any other.
- AppleCardsCarousel.Card.OnKeyDown: a card's listener is removed and added again whenever its `open` changes, which moves it to the end of the window's listener order. `PressKey` takes the registration order as given in `cards` and does not track these moves.
- InfiniteMovingCards.Scroller.SetupAnimation: the cleanup returned by the effect and the explicit `stop()` are merged. Every previous handle is stopped before a new one starts.
- ProductCard.Card.GoToPrevious, ProductCard.Card.GoToNext and ProductCard.Card.GoToImage require the buttons to be on screen. The arrows are rendered only with several photos while the image area is hovered, and the dots only with several photos.

## Findings

| source | as written | input that shows it | evidently intended | confidence | as-written member | corrected member |
|---|---|---|---|---|---|---|
| src/components/ui/apple-cards-carousel.jsx:145-160 | every card registers its Escape listener whatever `open` is, and the listener calls `handleClose`, which reports the card's index to the carousel | a desktop window, the row at offset 0, three cards (indexes 0, 1, 2) registered in that order, none open, Escape pressed: every listener runs, the row scrolls to 800 and card 2 becomes current although no card was open | only an open card reacts to Escape, as the outside-click callback at lines 163-167 already checks `open` | not executed | AppleCardsCarousel.PressKey, with AppleCardsCarousel.Card.OnKeyDown (exhibited by AppleCardsCarousel.EscapeWithNoCardOpenMovesRow) | AppleCardsCarousel.PressKeyGuarded, with AppleCardsCarousel.Card.OnKeyDownWhenOpen (exhibited by AppleCardsCarousel.EscapeWithNoCardOpenGuarded) |
| src/components/ui/apple-cards-carousel.jsx:62 | `handleCardClose` computes with a card width of 230 pixels on a narrow window, while the card is drawn `w-72`, 288 pixels wide (line 221) | a 375-pixel window, closing the card at index 3: the row is asked to scroll to 738 pixels, while 912 would bring the card to where the first card sits at rest | the width the card is drawn at, as the `md:w-96` note on the desktop width shows | not executed | AppleCardsCarousel.CloseTarget (exhibited by AppleCardsCarousel.CloseTargetOnPhone and AppleCardsCarousel.CloseTargetFallsShortOnMobile) | AppleCardsCarousel.AlignedCloseTarget (proved by AppleCardsCarousel.AlignedCloseTargetAligns) |
| src/components/ui/infinite-moving-cards.jsx:51 | one animation cycle travels `scrollWidth / 2`, but the list has a 16-pixel gap between items (line 107), so 2n items measure n periods less one gap | four items 380 pixels wide: the list measures 3152 pixels and a cycle travels 1576, while an item and its clone lie 1584 apart, so the strip jumps 8 pixels at the end of every cycle | travel half the width plus half the gap, as the scroll keyframes in tailwind.config.js:22-25 do with `calc(-50% - 0.5rem)` | not executed | InfiniteMovingCards.SegmentWidth (exhibited by InfiniteMovingCards.HalfWidthFallsShort and InfiniteMovingCards.SeamOnFourItems) | InfiniteMovingCards.SeamlessSegmentWidth (proved by InfiniteMovingCards.SeamlessTravelIsOnePeriod) |
