# Miarys Variedades catalogue — a Dafny model

Miarys Variedades is a small shop front written in React and TypeScript. Customers browse a product
catalogue, filter it by category and free-text search, page through it, open a product in a modal
with an image carousel and contact the shop over WhatsApp. An administrator creates, edits and
soft-deletes products and categories from a dashboard. All data lives in two browser storage slots,
`miarys_products` and `miarys_categories`. When a slot is empty it is filled from seed data.

This project models that core in Dafny and proves properties of the model:

- `Catalog`: the `Product` and `Category` records and the product draft (a product without its id,
  creation date and likes).
- `ProductService`: the storage slots and service operations, as the class `Store`. Also the pure
  helpers: search, the WhatsApp message and the image-url fallback.
- `Home`: the customer page, as the class `HomePage`. It holds the combined category and search
  filter, the page state, and pagination by slicing, with its page count.
- `AdminDashboard`: the admin page, as the class `Dashboard`. It holds the product and category
  forms, the comma-separated list parsing and the edit merge. It also holds the guard that skips a
  category save when a field is empty.
- `ProductModal`: the product modal, as the class `ProductModalView`. It holds the wrap-around
  image index, the photo fallback and the price and button label.
- `Seqs`, `Text`: the JavaScript array and string built-ins the core relies on. These are `filter`,
  `findIndex`, `toLowerCase`, `includes`, `trim`, `split` and `join`, each with its own properties
  proved.
- `Wrappers`: `Option` and `Result`.

Modelling choices:

- Storage is `Option<seq<...>>` per slot. `None` is an empty slot, so reading a slot has the
  seed-on-first-read side effect.
- Every store operation states the whole new state of both slots. `Store.Valid()` requires unique
  ids in the seed and in both slots. Every exported service operation preserves it. The two
  internal writers, `SaveStoredProducts` and `SaveStoredCategories`, neither require nor ensure it.
- Values the program draws from the environment are parameters:
  - fresh ids, with a precondition that the id is not yet used;
  - the current time;
  - the randomly generated seed products;
  - the user's answer to a confirmation dialog;
  - the phone number and the URL encoder of the WhatsApp link.
- React state updates are field assignments. The filter effect runs only when one of its
  dependencies changes. An `await` is a plain call.

Behaviour of the code worth knowing, which the model keeps:

- `searchProducts` returns the list unchanged only for the empty query. A query made only of spaces
  is lower-cased and matched like any other query.
- A stored slot is trusted as is. There is no recovery from unreadable storage.
- Saving an edited product writes `link_video` as `""` when the product had none. The form turns
  an absent link into the empty string (`EditUnchangedKeepsLists`).
- `updateProduct` on an unknown id still fills an empty slot with the seed before it fails. So the
  contract says the *observed* products are unchanged, not that the slot is untouched.

## Model

| member | source | states |
|---|---|---|
| Catalog.ToDraft | services/productService.ts:149 | a product without its id, creation time and likes (the `Omit` of `createProduct`); `FromDraft` ensures that the product it builds gives back exactly the draft it came from |
| Catalog.IsListed | services/productService.ts:137-142 | a product is listed exactly when its state is not `eliminado`; `Listed` keeps exactly those (`Seqs.Filter`, `Seqs.FilterCounts`) and `SoftDeletedHidden` shows that a deleted product leaves both listings |
| Catalog.FromDraft | services/productService.ts:149-155 | the new product carries the draft's fields unchanged, the given id and creation time, and 0 likes |
| ProductService.SeedCategoriesUnique | services/productService.ts:5-12 | the six seed categories have pairwise distinct ids |
| ProductService.GeneratedCategory | services/productService.ts:82-83 | the category of a generated seed product is the name of one of the seed categories |
| ProductService.SeedCategoryName | services/productService.ts:82-83 | the name of a seed category; `GeneratedCategory` ensures it, and the `Store` constructor requires it of every category of every seed product |
| ProductService.Listed | services/productService.ts:137 | the shoppers' and admin's listing, `Filter(IsListed, ps)`; what it keeps is stated by `Seqs.Filter` and `Seqs.FilterCounts`, and `SoftDeletedHidden` relies on it |
| ProductService.SoftDeleted | services/productService.ts:173-180 | the collection after `deleteProduct`; its properties are stated by `SoftDeletedFrame` and `SoftDeletedHidden` |
| ProductService.Liked | services/productService.ts:182-192 | the collection after `toggleProductLike`; its properties are stated by `LikedFrame` and `LikedTwice` |
| ProductService.WithoutCategory | services/productService.ts:215 | the categories after `deleteCategory`; its properties are stated by `WithoutCategorySpec` |
| ProductService.SoftDeletedFrame | services/productService.ts:173-180 | soft delete keeps the length; only the first product with the id changes, and only its estado (to eliminado); an unknown id leaves the list unchanged; the id's position stays the same |
| ProductService.SoftDeletedHidden | services/productService.ts:137-142 | with unique ids, no listed product (estado not eliminado) has the deleted id |
| ProductService.LikedFrame | services/productService.ts:182-192 | a like adds 1 to the likes of the first product with the id and changes nothing else; an unknown id leaves the list unchanged |
| ProductService.LikedTwice | services/productService.ts:182-192 | two likes of the same product add 2 |
| ProductService.WithoutCategorySpec | services/productService.ts:213-217 | after deletion no category has the id, every other category is kept in order, and a missing id changes nothing |
| ProductService.Store.constructor | services/productService.ts:103-130 | the store starts with the given slots and seed, and ids are unique; the seed products carry only seed category names |
| ProductService.Store.StoredProducts | services/productService.ts:106-113 | what `getStoredProducts` returns: the stored list, or the seed while the slot is empty; `GetStoredProducts` ensures it returns exactly this and every store contract is stated through it |
| ProductService.Store.StoredCategories | services/productService.ts:119-126 | what `getStoredCategories` returns: the stored list, or the seed categories while the slot is empty; `GetStoredCategories` ensures it returns exactly this and every category contract is stated through it |
| ProductService.Store.GetStoredProducts | services/productService.ts:106-113 | an empty slot is filled with the seed and the seed is returned; otherwise the stored list is returned |
| ProductService.Store.SaveStoredProducts | services/productService.ts:115-117 | the product slot holds exactly the given list; categories unchanged |
| ProductService.Store.GetStoredCategories | services/productService.ts:119-126 | an empty slot is filled with the six seed categories and they are returned; otherwise the stored list is returned |
| ProductService.Store.SaveStoredCategories | services/productService.ts:128-130 | the category slot holds exactly the given list; products unchanged |
| ProductService.Store.GetActiveProducts | services/productService.ts:134-138 | the result is the stored products whose estado is not eliminado, in order |
| ProductService.Store.GetAllProductsAdmin | services/productService.ts:140-143 | the admin list is the same non-deleted list |
| ProductService.Store.GetCategories | services/productService.ts:145-147 | the result is the stored (or seeded) categories |
| ProductService.Store.CreateProduct | services/productService.ts:149-160 | the new product is built from the draft and put first in the list; ids stay unique |
| ProductService.Store.UpdateProduct | services/productService.ts:162-171 | the first product with the id is replaced and returned; an unknown id gives "Product not found" and leaves the products unchanged |
| ProductService.Store.DeleteProduct | services/productService.ts:173-180 | the store holds the soft-deleted list; an unknown id changes nothing |
| ProductService.Store.ToggleProductLike | services/productService.ts:182-192 | the likes of the found product go up by one and the new count is returned; an unknown id returns 0 |
| ProductService.Store.CreateCategory | services/productService.ts:194-200 | the new category is appended at the end |
| ProductService.Store.UpdateCategory | services/productService.ts:202-211 | the first category with the id is replaced and returned; an unknown id gives "Category not found" |
| ProductService.Store.DeleteCategory | services/productService.ts:213-217 | the store holds the categories without the id |
| ProductService.SearchProducts | services/productService.ts:219-227 | the empty query returns the list; otherwise the result keeps exactly the products whose name, description or a category contains the lower-cased query |
| ProductService.MatchesQuery | services/productService.ts:222-226 | the search predicate: the lower-cased name, description or a lower-cased category contains the lower-cased query; used by `SearchProducts`, `SearchCounts` and `SearchZapatos` |
| ProductService.SearchCounts | services/productService.ts:222-226 | a non-empty search keeps every occurrence of a matching product and drops every other product |
| ProductService.SearchZapatos | services/productService.ts:219-226 | the query "zapa" finds a product named "Zapatos": matching ignores case on the product's side |
| ProductService.SearchIsSubsequence | services/productService.ts:219-227 | search results keep the original order and never add products |
| ProductService.SearchIgnoresQueryCase | services/productService.ts:221 | searching with a lower-cased query gives the same result as the query itself |
| ProductService.SearchConcat | services/productService.ts:222-226 | searching two lists joined together equals joining the two searches |
| ProductService.WhatsAppTextShape | services/productService.ts:229-235 | the message starts with the greeting, then the product name in bold; it ends with "Quiero comprarlo." exactly when the price is shown, and otherwise with the price question |
| ProductService.WhatsAppText | services/productService.ts:232-233 | the message text before encoding; its shape is stated by `WhatsAppTextShape` |
| ProductService.WhatsAppLink | services/productService.ts:229-235 | the link: base url, phone, `?text=` and the encoded message (the encoder is a parameter); no contract of its own |
| ProductService.GetOptimizedImageUrl | services/productService.ts:237-243 | a missing or blank url gives the video placeholder; any other url is returned as is |
| Home.FilterProducts | pages/Home.tsx:42-49 | with "All" the result is the search result; otherwise it keeps exactly the search results that carry the selected category |
| Home.FilterProductsIsSubsequence | pages/Home.tsx:42-49 | filtering keeps the order and only drops products |
| Home.FilterProductsIdentity | pages/Home.tsx:15-16 | the initial filter ("All", empty query) shows every product |
| Home.SliceIndex | pages/Home.tsx:64 | a slice bound is clipped to the list, and a non-negative bound is its own minimum with the length |
| Home.Slice | pages/Home.tsx:64 | `Array.prototype.slice` with JavaScript's index rule (`SliceIndex`); the page slices it returns are stated by `PageItemsSlice` |
| Home.PageItems | pages/Home.tsx:62-64 | `currentItems`; its properties are stated by `PageItemsSlice`, `PageItemsLength`, `PageItemsPastEnd`, `PageItemsNonEmpty` and `PagesCoverList` |
| Home.PageCount | pages/Home.tsx:65 | `Math.ceil(n / itemsPerPage)` on integers; its properties are stated by `PageCountSpec` |
| Home.PageCountSpec | pages/Home.tsx:65 | the page count is the least number of pages that holds every item, and 0 exactly for an empty list |
| Home.PageItemsSlice | pages/Home.tsx:62-64 | page p of size n is the items from (p-1)*n to p*n, clipped to the list |
| Home.PageItemsLength | pages/Home.tsx:62-64 | a page never holds more than the page size |
| Home.PageItemsPastEnd | pages/Home.tsx:62-65 | a page number above the page count shows nothing |
| Home.PageItemsNonEmpty | pages/Home.tsx:62-65 | every page from 1 to the page count shows at least one item |
| Home.PagesPrefix | pages/Home.tsx:62-64 | the first k pages laid end to end are the first k*n items |
| Home.PagesCoverList | pages/Home.tsx:62-65 | all pages laid end to end are the whole filtered list |
| Home.ThirtyProductsThirdPage | pages/Home.tsx:62-65 | thirty products at ten per page make three pages, and the third holds items 21 to 30 |
| Home.IsPageSize | pages/Home.tsx:126-128 | the selector offers 10, 20 and 50 per page; `HomePage.Valid` keeps the page size one of them and `SelectItemsPerPage` accepts only those |
| Home.HomePage.TotalPages | pages/Home.tsx:65 | `totalPages` of the filtered list; `Valid()` keeps the current page between 1 and it (or 1 when it is 0) |
| Home.HomePage.CurrentItems | pages/Home.tsx:62-64 | the products of the current page, `PageItems` of the filtered list |
| Home.HomePage.ShowsPagination | pages/Home.tsx:158 | the paging controls exist only with more than one page; `ClickPrevious`, `ClickNext` and `ClickPageNumber` ensure they act only when it holds and otherwise keep the current page |
| Home.HomePage.constructor | pages/Home.tsx:10-24 | the initial state: empty lists, "All", empty query, page 1, ten per page, no product open, loading |
| Home.HomePage.ApplyFilters | pages/Home.tsx:42-51 | the filtered list is recomputed and the page goes back to 1; nothing else changes |
| Home.HomePage.FetchData | pages/Home.tsx:27-36 | the page holds the non-deleted products of the store, unfiltered, and its categories; the store's contents are unchanged and loading ends |
| Home.HomePage.LoadData | pages/Home.tsx:26-39 | the page holds the non-deleted products and the categories of the store; the filter is applied and loading ends |
| Home.HomePage.HandleSearch | pages/Home.tsx:53-55 | the query is set and the filter follows it; the page resets only when the query changed |
| Home.HomePage.HandleCategoryClick | pages/Home.tsx:57-59 | the category is set and the filter follows it; the page resets only when the category changed |
| Home.HomePage.SelectItemsPerPage | pages/Home.tsx:121-129 | the page size becomes 10, 20 or 50 and the page goes back to 1 |
| Home.HomePage.HandlePageChange | pages/Home.tsx:67-70 | the current page becomes the chosen page, which lies between 1 and the page count |
| Home.HomePage.ClickPrevious | pages/Home.tsx:158-166 | the previous button acts only when pagination is shown and the page is not 1, and then moves back one page |
| Home.HomePage.ClickNext | pages/Home.tsx:182-188 | the next button acts only when pagination is shown and the page is not the last, and then moves forward one page |
| Home.HomePage.ClickPageNumber | pages/Home.tsx:168-180 | a numbered button exists for pages 1 to the page count, and pressing one selects that page |
| Home.HomePage.OpenProduct | pages/Home.tsx:147-152 | clicking a card opens that product |
| Home.HomePage.CloseProduct | pages/Home.tsx:197-200 | closing the modal clears the selected product |
| AdminDashboard.ProductFormOf | pages/AdminDashboard.tsx:63-72 | the form filled from a product: lists joined with ", ", an absent video link as ""; `EditUnchangedKeepsLists` and `EditUnchangedIsIdentity` state what saving it gives back |
| AdminDashboard.CategoryFormOf | pages/AdminDashboard.tsx:123 | the form filled from a category; `CategoryEditUnchanged` states what saving it gives back |
| AdminDashboard.DraftOf | pages/AdminDashboard.tsx:102 | the formatted data passed to `createProduct`; `SaveProductRequest` and `NewProductFormDefaults` state what it carries |
| AdminDashboard.TrimAll | pages/AdminDashboard.tsx:93-94 | every piece is trimmed, one for one |
| AdminDashboard.TrimAllConcat | pages/AdminDashboard.tsx:93-94 | trimming two piece lists joined together equals joining the two trimmed lists |
| AdminDashboard.NonEmpty | pages/AdminDashboard.tsx:93-94 | `filter(Boolean)` on strings keeps exactly the non-empty ones; `ParseList` ensures every entry is non-empty and `ParseListBlank` that blank text without commas gives no entry |
| AdminDashboard.ParseList | pages/AdminDashboard.tsx:93-94 | every parsed entry is non-empty, trimmed and free of commas |
| AdminDashboard.ParseListConcat | pages/AdminDashboard.tsx:93-94 | parsing "a,b" gives the entries of a followed by the entries of b |
| AdminDashboard.ParseListBlank | pages/AdminDashboard.tsx:93-94 | a blank field without commas gives an empty list |
| AdminDashboard.ParseListLeadingSpace | pages/AdminDashboard.tsx:93-94 | a leading space does not change the parsed list |
| AdminDashboard.ParseJoin | pages/AdminDashboard.tsx:68-69 | joining entries with ", " (as the edit form does) and parsing the text gives back the same entries |
| AdminDashboard.Format | pages/AdminDashboard.tsx:91-96 | the formatted data copies name, description, price, price visibility, video link and state from the form, holds the parsed category and photo lists (`ParseList`), and has empty tags |
| AdminDashboard.MergeEdit | pages/AdminDashboard.tsx:100 | the merged product keeps the edited product's id, likes and dates, and takes every form field |
| AdminDashboard.SaveProductRequest | pages/AdminDashboard.tsx:98-103 | an existing product gives an update of that id; a new one gives a create, with empty tags and the form's video link |
| AdminDashboard.EditUnchangedKeepsLists | pages/AdminDashboard.tsx:60-72 | opening a product and saving it without edits gives back its lists; only the video link (absent becomes "") and the tags (cleared) change |
| AdminDashboard.EditUnchangedIsIdentity | pages/AdminDashboard.tsx:60-100 | a product with a video link and no tags is saved back unchanged |
| AdminDashboard.NewProductFormDefaults | pages/AdminDashboard.tsx:73-85 | the request built from the untouched new-product form is a creation with empty name, description and lists, price 0, price shown, an empty video link and state available |
| AdminDashboard.SaveCategoryRequest | pages/AdminDashboard.tsx:131-139 | the save is skipped exactly when the name or the image is empty; otherwise it updates the edited category with the form fields, or creates one |
| AdminDashboard.CategoryEditUnchanged | pages/AdminDashboard.tsx:120-136 | opening a category and saving it unchanged updates it to itself |
| AdminDashboard.Dashboard.constructor | pages/AdminDashboard.tsx:10-38 | the initial state: products tab, empty lists, loading, modals closed, nothing being edited, empty forms |
| AdminDashboard.Dashboard.LoadData | pages/AdminDashboard.tsx:50-56 | the dashboard holds the non-deleted products and the categories; the store's contents are unchanged |
| AdminDashboard.Dashboard.SelectTab | pages/AdminDashboard.tsx:172-173 | the chosen tab becomes active |
| AdminDashboard.Dashboard.OpenProductModal | pages/AdminDashboard.tsx:60-87 | the modal opens, filled from the product when editing and empty when creating |
| AdminDashboard.Dashboard.EditProductForm | pages/AdminDashboard.tsx:338-369 | typing sets the form |
| AdminDashboard.Dashboard.SaveProduct | pages/AdminDashboard.tsx:89-109 | a create puts the new product first; an update replaces the product; on success the modal closes and the lists reload; an update of a vanished product fails and leaves the modal open |
| AdminDashboard.Dashboard.DeleteProduct | pages/AdminDashboard.tsx:111-116 | when confirmed the product is soft-deleted, the lists reload and loading ends; when declined neither the page nor the store changes |
| AdminDashboard.Dashboard.OpenCategoryModal | pages/AdminDashboard.tsx:120-129 | the modal opens, filled from the category when editing and empty when creating |
| AdminDashboard.Dashboard.EditCategoryForm | pages/AdminDashboard.tsx:390-394 | typing sets the form |
| AdminDashboard.Dashboard.SaveCategory | pages/AdminDashboard.tsx:131-145 | an empty field skips the save and touches nothing; otherwise create appends and update replaces; success closes the modal and reloads |
| AdminDashboard.Dashboard.DeleteCategory | pages/AdminDashboard.tsx:147-152 | when confirmed the category is removed, the lists reload and loading ends; when declined neither the page nor the store changes |
| ProductModal.Images | components/ProductModal.tsx:17 | the image list is never empty: the photos, or the placeholder alone |
| ProductModal.NextIndex | components/ProductModal.tsx:56 | the next index stays in range and is the index plus one, modulo the image count |
| ProductModal.PrevIndex | components/ProductModal.tsx:50 | the previous index stays in range and is the index minus one, modulo the image count |
| ProductModal.ArrowsInverse | components/ProductModal.tsx:47-60 | next then previous, and previous then next, return to the same image |
| ProductModal.NextTimesMod | components/ProductModal.tsx:56 | pressing next k times moves k places round the circle of images |
| ProductModal.NextFullCycle | components/ProductModal.tsx:56 | pressing next once per image returns to the starting image |
| ProductModal.PriceViewOf | components/ProductModal.tsx:112-118 | the price with the currency symbol is shown exactly when mostrar_precio is set; otherwise "Consultar al DM" |
| ProductModal.ActionLabel | components/ProductModal.tsx:137 | the button reads "Comprar por WhatsApp" exactly when the price is shown, and "Consultar Precio" otherwise |
| ProductModal.LabelMatchesPriceAndMessage | components/ProductModal.tsx:112-137 | the button reads "Comprar por WhatsApp" exactly when the price is shown, and exactly when the WhatsApp message ends with "Quiero comprarlo." |
| ProductModal.ProductModalView.constructor | components/ProductModal.tsx:12-17 | the modal opens on the first image |
| ProductModal.ProductModalView.CurrentImageUrl | components/ProductModal.tsx:40-41 | the gallery shows the current image, or the video placeholder when that url is blank; a product without photos shows the modal's placeholder |
| ProductModal.ProductModalView.ShowsArrows | components/ProductModal.tsx:47 | the arrows exist only with more than one image; `ClickPrevious` and `ClickNext` ensure they act exactly when it holds |
| ProductModal.ProductModalView.ClickPrevious | components/ProductModal.tsx:47-54 | the arrow exists only with more than one image and moves to the previous one, wrapping; a single image stays at 0 |
| ProductModal.ProductModalView.ClickNext | components/ProductModal.tsx:47-60 | the arrow exists only with more than one image and moves to the next one, wrapping; a single image stays at 0 |
| Seqs.Filter | services/productService.ts:137 | every kept element satisfies the predicate and comes from the list, every element satisfying it is kept, and the list never grows |
| Seqs.FilterCounts | services/productService.ts:137 | the filter keeps every occurrence of an element that satisfies the predicate and no occurrence of any other |
| Seqs.FilterIsSubsequence | services/productService.ts:137 | the filtered list keeps the original order |
| Seqs.FilterConcat | services/productService.ts:222 | filtering distributes over joining lists |
| Seqs.FilterAll | pages/Home.tsx:45-46 | a predicate true of every element leaves the list unchanged |
| Seqs.FindIndex | services/productService.ts:164 | the result is the first position whose key matches, or -1 exactly when no key matches |
| Seqs.UniqueFindIndex | services/productService.ts:164 | with unique keys, the found position is the only one with that key |
| Seqs.UniquePrepend | services/productService.ts:157 | putting an element with a fresh key first keeps keys unique |
| Seqs.UniqueAppend | services/productService.ts:197 | appending an element with a fresh key keeps keys unique |
| Seqs.UniqueReplace | services/productService.ts:166 | replacing an element by one with the same key keeps keys unique |
| Seqs.UniqueFilter | services/productService.ts:215 | filtering keeps keys unique |
| Text.Lower | services/productService.ts:221 | lower-casing keeps the length, maps each letter A-Z to its lower-case letter and keeps every other character |
| Text.LowerIdempotent | services/productService.ts:221 | lower-casing twice is lower-casing once |
| Text.Contains | services/productService.ts:223-225 | the empty string is contained in anything, and a contained string is no longer than the text |
| Text.ContainsIff | services/productService.ts:223-225 | a string is contained exactly when it occurs at some position |
| Text.TrimStartSpec | pages/AdminDashboard.tsx:93 | the start trim removes exactly the leading white space |
| Text.TrimEndSpec | pages/AdminDashboard.tsx:93 | the end trim removes exactly the trailing white space |
| Text.Trim | pages/AdminDashboard.tsx:93 | `String.prototype.trim`, the end trim after the start trim; its properties are stated by the lemmas below |
| Text.TrimIsTrimmed | pages/AdminDashboard.tsx:93 | a trimmed string neither starts nor ends with white space |
| Text.TrimChars | pages/AdminDashboard.tsx:93 | every character of the trimmed text comes from the original text |
| Text.TrimOfTrimmed | pages/AdminDashboard.tsx:93 | trimming a trimmed string changes nothing |
| Text.TrimEmptyIff | services/productService.ts:238 | trimming gives the empty string exactly when the text is blank |
| Text.TrimLeadingSpace | pages/AdminDashboard.tsx:93 | a leading white-space character does not change the trimmed result |
| Text.Split | pages/AdminDashboard.tsx:93 | split gives at least one piece and no piece contains the separator |
| Text.Join | pages/AdminDashboard.tsx:68 | `Array.prototype.join` with a separator; `JoinSplit` and `ParseJoin` state its relation to splitting and parsing |
| Text.JoinSplit | pages/AdminDashboard.tsx:68 | joining the pieces of a split with the separator gives back the text |
| Text.SplitNoSep | pages/AdminDashboard.tsx:93 | text without the separator splits into itself |
| Text.SplitConcat | pages/AdminDashboard.tsx:93 | splitting a,sep,b gives the pieces of a followed by the pieces of b |

## Left out

- Asynchrony: `await`, `Promise.all` and the 300 ms `setTimeout` delays. Each service call is a
  sequential step, so there are no interleavings and no stale-state races between handlers.
- JSON encoding of the storage slots, and unreadable stored data; a stored slot is taken as a list.
- The randomly generated seed products (prices, visibility, video links and likes come from
  `Math.random`). They are a constructor parameter of `Store` with unique ids; only their category
  rule is modelled: `GeneratedCategory` names a seed category, and the `Store` constructor
  requires every category of a seed product to be one (`SeedCategoryName`).
- The values of the open `etiquetas` record (`Record<string, any>`) are modelled as strings
  (`map<string, string>`); no operation of the core inspects them.
- `crypto.randomUUID` and `new Date().toISOString()`: ids and timestamps are parameters.
- `encodeURIComponent` and the shop's phone number in the WhatsApp link. `WhatsAppLink` receives
  them as parameters and only the message text is proved about.
- Prices are integers: the source's floating-point prices and `toFixed(2)` formatting are not
  modelled.
- `toLowerCase` only maps the ASCII letters A-Z. Unicode case mapping is not modelled.
- The login check, logout and route navigation, `alert` (a failed save returns `Failed`) and
  `confirm` (its answer is a parameter). Also `window.scrollTo`, the loading skeletons, and all
  markup and styling.
- The product card, the navigation bar, the footer, the contact and login pages, the Supabase
  client and the backend middleware are not part of this model. Neither are the like button and its
  local count in the product card; only `toggleProductLike` itself is modelled.
- The carousel dots under the modal's image only display the index; they are not modelled.
- AdminDashboard.Dashboard.SaveProduct: the browser's `required` validation is not modelled. The
  name and price inputs (pages/AdminDashboard.tsx:338, 346) are `required`, so the browser never
  submits a product form with an empty name. The model's save accepts one and builds the request
  the handler would build.
- AdminDashboard.Dashboard.SaveCategory: the same holds for the two `required` category inputs
  (pages/AdminDashboard.tsx:390, 394). The handler's own empty-field guard (line 133) is modelled.
