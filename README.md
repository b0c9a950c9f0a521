# Inventario — a verified model of the inventory web application

This project models the core of *Inventario*, a small inventory system for a
shop: a catalogue of products (`productos`) with stock levels, a ledger of
stock movements (`movimientos`, each an `entrada` or a `salida`), user
profiles (`perfiles`) with a role (`admin`, `empleado`, `auditor`), and a
storage bucket holding product images. The web pages and forms read and
write these tables through a hosted backend; here the backend is an
in-memory `Backend.Store` whose every call takes the answer the backend
would give (`Ok` or `Failed(message)`) as a parameter, so every success
and error path of the forms can be stated and proved.

The modules follow the source files:

| module | file | source |
|---|---|---|
| `Js` | js.dfy | the JavaScript built-ins the code leans on: `split`/`join`, `indexOf`, `parseFloat(…) \|\| 0`, `a \|\| b` on strings, `toLowerCase`, `includes`, search parameters |
| `Lists` | lists.dfy | `filter`, `find`, `limit`, ordering by a text column, `new Set(…)` |
| `Database` | database.dfy | lib/types/database.ts — the rows and their enumerations |
| `Backend` | backend.dfy | the tables and the storage bucket as a class whose methods update them |
| `Storage` | storage.dfy | lib/utils/storage.ts — image upload and removal, the public-URL round trip |
| `Auth` | auth.dfy | lib/utils/auth.ts — the session and role gates |
| `Dashboard` | dashboard.dfy | app/dashboard/page.tsx — the summary figures |
| `Historial` | historial.dfy | app/historial/page.tsx — the filtered movement history |
| `HistorialFiltros` | historial_filters.dfy | components/HistorialList.tsx — the history's filter form |
| `Catalogo` | catalogo.dfy | app/productos/page.tsx — the catalogue query and category list |
| `CatalogoVista` | catalogo_view.dfy | components/ProductosList.tsx — search box and delete button |
| `Salidas` | salidas.dfy | components/SalidaForm.tsx — the stock-exit form |
| `ProductoEditor` | producto_editor.dfy | components/ProductoForm.tsx — create/edit a product and its image |
| `PerfilEditor` | perfil_editor.dfy | components/PerfilForm.tsx — the profile form |

The forms are classes whose fields are the component's state (`datos`,
`error`, `loading`, …); each handler is a method whose `modifies` clause
names exactly the state it touches and whose `ensures` gives the new state
of the form and of the store. Queries that run on the backend (ordering,
`eq`, `ilike`, `gte`/`lte`) are modelled by what they return: the result is
ordered by the query's column and is, as a multiset, exactly the rows that
pass every filter that was set.

The stock-exit form records a `salida` movement but never changes a
product's `stock`; the model keeps it that way (the frame of
`Salidas.SalidaForm.HandleSubmit` does not include the product table).
Deleting a product from the catalogue deletes only its row: the code never
removes the product's image from storage, and the model follows the code
(`CatalogoVista.ProductosList.HandleDelete` leaves the bucket unchanged).

## Model

| member | source | states |
|---|---|---|
| Js.OrElse | components/SalidaForm.tsx:101 | `message \|\| fallback`: the fallback exactly when the message is missing or empty (or already equals it), the message otherwise |
| Js.OrNull | components/ProductoForm.tsx:68 | `url \|\| null`: present exactly when the text is present and non-empty, and then unchanged |
| Js.SplitPieces | lib/utils/storage.ts:38 | no piece of `split('/')` contains the separator; a single piece exactly when the text has none |
| Js.JoinSplit | lib/utils/storage.ts:38-47 | joining the pieces of a split with the same separator gives back the text |
| Js.SplitAround | lib/utils/storage.ts:38 | splitting `a + '/' + b` is splitting `a` followed by splitting `b` |
| Js.SplitJoin | lib/utils/storage.ts:47 | splitting a join of separator-free pieces gives back the pieces |
| Js.SplitSuffixJoin | lib/utils/storage.ts:38-47 | joining the pieces of a split from any piece on and splitting again gives those pieces back |
| Js.LastPiece | lib/utils/storage.ts:7 | `split('.').pop()` is the longest separator-free suffix: the whole name without a dot, else what follows the last dot |
| Js.IndexOf | lib/utils/storage.ts:39 | `indexOf`: −1 exactly when absent, otherwise the position of the first occurrence |
| Js.IntString | components/SalidaForm.tsx:80 | a number written in decimal is non-empty and starts with `-` exactly when negative |
| Js.ParseNumber | components/SalidaForm.tsx:56 | `parseFloat(v) \|\| 0`: text that does not start with a number (an optional sign, then a digit or a dot and a digit) reads as 0; only text starting with `-` reads negative |
| Js.Scale | components/SalidaForm.tsx:56 | shifting the decimal point keeps 0 at 0 and a shift by nothing changes nothing |
| Js.ScaleUp | components/SalidaForm.tsx:56 | a positive exponent multiplies by that power of ten |
| Js.ScaleDownDrops | components/SalidaForm.tsx:56 | shifting fraction digits back out of the number drops them, leaving the integer part |
| Js.Exponent | components/SalidaForm.tsx:56 | there is an exponent only after an `e` or `E` |
| Js.FractionDigits | components/SalidaForm.tsx:56 | the fraction is the digits after a leading dot, none without one |
| Js.DigitsOfDecimal | components/SalidaForm.tsx:80 | reading back the decimal digits of a natural number gives the number |
| Js.ParseIntPrefix | components/SalidaForm.tsx:80 | an integer written in decimal reads back as itself whatever non-numeric text follows it |
| Js.ParseIntString | components/SalidaForm.tsx:56 | round trip: parsing the decimal text of any integer gives the integer |
| Js.ExponentNotation | components/SalidaForm.tsx:56 | `<m>e<k>` reads as m times ten to the k, so `1e3` is 1000 |
| Js.FractionTruncated | components/SalidaForm.tsx:56 | `<m>.<f>` reads as m: the fraction is cut off toward zero |
| Js.Lower | app/productos/page.tsx:19 | lower-casing keeps the length and maps each letter A–Z to a–z, leaving other characters alone |
| Js.ContainsAt | app/productos/page.tsx:19 | substring search succeeds exactly when the needle occurs at some position |
| Js.Param | components/HistorialList.tsx:28-34 | a search parameter is its value when given and `''` when absent |
| Js.ToParamsLookup | components/HistorialList.tsx:44-51 | a key is in the parameters built from pairs exactly when some pair carries it, and its value is one of those pairs' |
| Lists.Filter | app/dashboard/page.tsx:29 | `filter` keeps only elements that pass, never more than the input |
| Lists.FilterMultiset | app/historial/page.tsx:26-44 | each element occurs in the filtered list as often as in the input if it passes, else not at all |
| Lists.FilterMembership | app/productos/page.tsx:37 | an element is in the filtered list exactly when it is in the input and passes |
| Lists.FilterCons | components/HistorialList.tsx:46-50 | filtering a list with a new head keeps the head exactly when it passes |
| Lists.FilterSnoc | components/HistorialList.tsx:46-50 | appending one element and filtering appends it exactly when it passes |
| Lists.FilterPermutation | app/historial/page.tsx:26-44 | filtering two permutations of a list gives permutations |
| Lists.FindIndex | components/SalidaForm.tsx:28 | the index of the first passing element, −1 when none passes |
| Lists.FindFirst | components/SalidaForm.tsx:28 | `find`: none exactly when no element passes, else the first passing element |
| Lists.Limit | app/dashboard/page.tsx:18 | `limit(n)`: a prefix of length `min(n, length)` |
| Lists.LexLeTotal | app/historial/page.tsx:24 | text order: any two texts are comparable |
| Lists.LexLeTransitive | app/historial/page.tsx:24 | text order is transitive |
| Lists.InOrderTotal | app/historial/page.tsx:24 | ascending or descending order by a column is total |
| Lists.InOrderTransitive | app/historial/page.tsx:24 | ascending or descending order by a column is transitive |
| Lists.ConsSorted | app/historial/page.tsx:24 | an element ordered before every element of a sorted list can head it |
| Lists.BeforeFirstBeforeAll | app/historial/page.tsx:24 | ordered before the first element of a sorted list means before all |
| Lists.HeadBeforeRest | app/historial/page.tsx:24 | the head of a sorted list stays before a permutation of its tail with one more later element |
| Lists.Insert | app/historial/page.tsx:24 | inserting into a sorted list keeps it sorted and adds exactly that element |
| Lists.SortBy | app/historial/page.tsx:24 | `order(column)`: the result is sorted by the column and is a permutation of the rows |
| Lists.SortedPrefix | app/dashboard/page.tsx:23-24 | `order(…).limit(n)`: the prefix is sorted, drawn from the rows, and ordered before everything cut off |
| Lists.FilterSorted | app/historial/page.tsx:26-44 | filtering an ordered result keeps the order |
| Lists.IndexOfInPrefix | app/productos/page.tsx:36-38 | the first occurrence of an element in a prefix is its first occurrence in the whole list |
| Lists.Distinct | app/productos/page.tsx:36-38 | `Array.from(new Set(…))`: the same members, each once, in order of first occurrence |
| Lists.Narrow | app/historial/page.tsx:26-44 | one more `eq`/`gte`/`lte`/`ilike` on an ordered query keeps the order and keeps exactly the passing rows |
| Database.ParseTipo | lib/types/database.ts:19 | a movement type is exactly `entrada` or `salida` |
| Database.TipoRoundTrip | lib/types/database.ts:19 | each type's name parses back to it, and distinct types have distinct names |
| Database.ParseRol | lib/types/database.ts:33 | a role is exactly `admin`, `empleado` or `auditor` |
| Database.RolRoundTrip | lib/types/database.ts:33 | each role's name parses back to it, and distinct roles have distinct names |
| Database.IsLowStock | app/dashboard/page.tsx:29 | strictly below the minimum: a product at exactly its minimum is not low, one unit below it is (the same test marks the catalogue's badge, components/ProductosList.tsx:119) |
| Database.Updated | components/ProductoForm.tsx:87-93 | an edit writes every form field and `imagen_url` and keeps `id` and `fecha_registro` |
| Backend.Store.constructor | lib/types/database.ts:1-42 | the store starts with empty tables, an empty bucket and no storage calls |
| Backend.Store.InsertMovimiento | components/SalidaForm.tsx:85-96 | an accepted insert appends the movement to the ledger; a failure changes nothing |
| Backend.Store.InsertProducto | components/ProductoForm.tsx:102-112 | an insert succeeds exactly when the backend accepts and the id is new; a taken id is a duplicate-key failure |
| Backend.Store.UpdateProducto | components/ProductoForm.tsx:87-95 | an accepted update rewrites that product's row and nothing else |
| Backend.Store.SetImagenUrl | components/ProductoForm.tsx:125-129 | an accepted update sets only that product's `imagen_url` |
| Backend.Store.DeleteProducto | components/ProductosList.tsx:42 | an accepted delete removes exactly that product's row |
| Backend.Store.UpdatePerfilNombre | components/PerfilForm.tsx:37-46 | an accepted update renames the user's profile and keeps its role; a user without a row changes nothing |
| Backend.Store.InsertPerfil | components/PerfilForm.tsx:48-57 | an insert succeeds exactly when accepted and the user has no profile yet |
| Backend.Store.UploadObject | lib/utils/storage.ts:12-17 | the upload is logged; an accepted upload adds the object to the bucket |
| Backend.Store.RemoveObject | lib/utils/storage.ts:49-51 | the removal is logged; an accepted removal takes the object out of the bucket |
| Storage.FileExtension | lib/utils/storage.ts:7 | the extension is the part after the last dot, or the whole name without one, and holds no dot |
| Storage.UploadPath | lib/utils/storage.ts:8-9 | every upload path lies inside the `productos/` folder |
| Storage.ExtractPath | lib/utils/storage.ts:38-47 | a URL yields a path exactly when one of its `/`-segments is the bucket name |
| Storage.ExtractedSegments | lib/utils/storage.ts:38-47 | the path is the segments after the first bucket segment, joined again |
| Storage.SplitAroundSegment | lib/utils/storage.ts:38 | splitting around a separator-free middle segment keeps it as one piece |
| Storage.FirstBucketSegment | lib/utils/storage.ts:39 | `indexOf` finds the first bucket segment, and what follows it is the suffix |
| Storage.ExtractAfterFirstBucket | lib/utils/storage.ts:37-47 | a URL `prefix/productos/path` whose prefix has no bucket segment gives back `path` |
| Storage.UploadDeleteRoundTrip | lib/utils/storage.ts:8-47 | round trip: the public URL of an uploaded image yields the upload path when it is deleted |
| Storage.UploadProductImage | lib/utils/storage.ts:3-30 | one upload to `productos/<id>-<time>.<ext>`; the public URL on success, null on failure |
| Storage.DeleteProductImage | lib/utils/storage.ts:32-63 | false without touching storage when the URL has no bucket segment; otherwise one removal of the extracted path, true exactly on success |
| Storage.UploadThenDelete | lib/utils/storage.ts:3-63 | against the store's own URL prefix, deleting by the URL an upload returned removes exactly the uploaded object; a failed upload leaves nothing to delete |
| Auth.GetProfile | lib/utils/auth.ts:17-30 | the user's profile row, or none when there is none or the query fails |
| Auth.CheckRole | lib/utils/auth.ts:32-38 | true exactly when the profile is readable and its role is allowed |
| Auth.RequireAuth | lib/utils/auth.ts:4-15 | redirect to `/login` exactly when there is no user; otherwise let that user through |
| Auth.RequireRole | lib/utils/auth.ts:40-49 | no user goes to `/login`; a user passes exactly when the role check holds, otherwise goes to `/dashboard` |
| Auth.RoleGateImpliesAuthGate | lib/utils/auth.ts:40-46 | whoever passes the role gate passes the session gate as the same user |
| Auth.StaffGate | lib/utils/auth.ts:32-38 | with `admin`/`empleado` allowed, an auditor is sent to `/dashboard` and any other readable role passes |
| Dashboard.TotalProducts | app/dashboard/page.tsx:27 | `count \|\| 0`: the count when the backend gives one, else 0 |
| Dashboard.Sample | app/dashboard/page.tsx:15-18 | at most 1000 rows, a prefix of the table, the whole table when it is small |
| Dashboard.LowStockCount | app/dashboard/page.tsx:29 | the low-stock count never exceeds the rows counted |
| Dashboard.LowStockAdditive | app/dashboard/page.tsx:29 | the low-stock count of two lists is the sum of their counts |
| Dashboard.LowStockSingle | app/dashboard/page.tsx:29 | a product counts exactly when its stock is strictly below its minimum |
| Dashboard.LowStockNone | app/dashboard/page.tsx:29 | the count is 0 exactly when no product is low |
| Dashboard.LowStockAll | app/dashboard/page.tsx:29 | the count is the number of rows exactly when every product is low |
| Dashboard.InventoryValue | app/dashboard/page.tsx:31-34 | the value of no products is 0 |
| Dashboard.ValueSumSnoc | app/dashboard/page.tsx:32-33 | adding a product adds its stock times its entry price |
| Dashboard.ValueSumAppend | app/dashboard/page.tsx:32-33 | the value of two lists is the sum of their values |
| Dashboard.ReduceIsSum | app/dashboard/page.tsx:32-34 | the left fold from an accumulator is the accumulator plus the sum of stock times entry price |
| Dashboard.InventoryValueIsSum | app/dashboard/page.tsx:31-34 | the inventory value is the sum of stock times entry price |
| Dashboard.InventoryValueAdditive | app/dashboard/page.tsx:31-34 | the value of two lists is the sum of their values |
| Dashboard.InventoryValueNonNegative | app/dashboard/page.tsx:31-34 | with no negative stock or price the value is not negative |
| Dashboard.NonNegativeSum | app/dashboard/page.tsx:32-33 | with no negative stock or price the sum is not negative |
| Dashboard.Recent | app/dashboard/page.tsx:20-24 | the last movements: at most 5, newest first, drawn from the ledger, the first rows of the ledger ordered by date |
| Dashboard.ProductMapKeys | app/dashboard/page.tsx:37-44 | a product id is a key of the map exactly when some recent row carries a joined product with that id |
| Dashboard.ProductMapLastWins | app/dashboard/page.tsx:37-44 | for a repeated id the map keeps the name of the last row that carries it |
| Dashboard.DisplayName | app/dashboard/page.tsx:203-205 | the map's name for the row's product when non-empty, else the row's joined name when non-empty, else `Producto no encontrado`; never empty |
| Dashboard.DisplayNameOfJoinedRow | app/dashboard/page.tsx:203-205 | a row with a joined product shows that product's name |
| Dashboard.DisplayNameWithoutJoin | app/dashboard/page.tsx:203-205 | a row with no join and no map entry shows `Producto no encontrado` |
| Dashboard.Sign | app/dashboard/page.tsx:199 | `+` exactly for entries, `-` for exits |
| Dashboard.Summary | app/dashboard/page.tsx:11-44 | the count or 0; the low-stock count and the inventory value over the sampled rows, both 0 when that query fails (`data \|\| []`); the last movements are the recent ledger rows, none when that query fails; the product map is built from them |
| Historial.JoinProducto | app/historial/page.tsx:21-24 | the movement with its product's name joined, null when the product is gone |
| Historial.Joined | app/historial/page.tsx:21-24 | one joined row per movement, in the same order |
| Historial.MatchesWithoutParams | app/historial/page.tsx:26-44 | with every parameter empty every movement matches |
| Historial.MoreParamsNarrow | app/historial/page.tsx:26-44 | setting one more parameter never lets in a movement that was out |
| Historial.ByProducto | app/historial/page.tsx:26-28 | the `producto_id` filter keeps the order and exactly the movements of that product |
| Historial.ByTipo | app/historial/page.tsx:30-32 | the `tipo` filter keeps the order and exactly the movements of that type |
| Historial.ByDesde | app/historial/page.tsx:34-36 | the `fecha_inicio` filter keeps the order and exactly the movements on or after it |
| Historial.ByHasta | app/historial/page.tsx:38-40 | the `fecha_fin` filter keeps the order and exactly the movements on or before it |
| Historial.ByResponsable | app/historial/page.tsx:42-44 | the `responsable` filter keeps the order and exactly that user's movements |
| Historial.Query | app/historial/page.tsx:21-46 | no data exactly when the query fails; otherwise newest first and, as a multiset, exactly the movements passing every set filter; all of them when none is set |
| Historial.ProfileName | app/historial/page.tsx:61-67 | the name of the first profile with the responsible's user id, none when there is none |
| Historial.WithProfiles | app/historial/page.tsx:61-67 | one row per movement with the responsible's profile name attached; empty when the query failed |
| Historial.WithProfilesKeepsOrder | app/historial/page.tsx:61-67 | attaching names keeps the newest-first order |
| HistorialFiltros.NombreInjective | components/HistorialList.tsx:28-34 | the five filters have five distinct parameter names |
| HistorialFiltros.FiltrosExtensional | components/HistorialList.tsx:28-34 | two filter states that agree on every filter are equal |
| HistorialFiltros.InitFilters | components/HistorialList.tsx:28-34 | each filter starts as its search parameter, `''` when absent |
| HistorialFiltros.InitWithoutParams | components/HistorialList.tsx:28-34 | without parameters every filter starts empty |
| HistorialFiltros.Entries | components/HistorialList.tsx:46 | one (name, value) entry per filter, in declaration order |
| HistorialFiltros.EntriesMembership | components/HistorialList.tsx:46 | an entry is present exactly when it is some filter's name and value |
| HistorialFiltros.ApplyThenInit | components/HistorialList.tsx:28-51 | round trip: the page opened with the applied parameters starts with the same filters |
| HistorialFiltros.ApplyCleared | components/HistorialList.tsx:54-62 | cleared filters produce no parameters |
| HistorialFiltros.ProductoLabel | components/HistorialList.tsx:223 | the joined product name, else `Producto no encontrado` |
| HistorialFiltros.UsuarioLabel | components/HistorialList.tsx:226 | the attached profile name, else `Usuario desconocido` |
| HistorialFiltros.UnknownUserLabel | components/HistorialList.tsx:226 | a movement whose responsible has no profile shows `Usuario desconocido` |
| HistorialFiltros.SetNonEmpty | components/HistorialList.tsx:46-50 | the loop sets exactly the non-empty entries, in order |
| HistorialFiltros.HistorialList.constructor | components/HistorialList.tsx:28-34 | the form starts with the filters read from the search parameters |
| HistorialFiltros.HistorialList.HandleFilterChange | components/HistorialList.tsx:37-42 | only the named filter changes, to the new value |
| HistorialFiltros.HistorialList.HandleApplyFilters | components/HistorialList.tsx:44-52 | the parameters are the non-empty filters, in order |
| HistorialFiltros.HistorialList.HandleClearFilters | components/HistorialList.tsx:54-63 | every filter is emptied and the page goes to `/historial` |
| Catalogo.Query | app/productos/page.tsx:16-24 | ordered by name; exactly the products matching the search (ignoring case) and the category; all of them when neither is set; none when the query fails |
| Catalogo.ShownIffMatches | app/productos/page.tsx:18-24 | a product of the table is shown exactly when it passes both filters |
| Catalogo.CategoriasQuery | app/productos/page.tsx:30 | no data exactly when the query fails; otherwise every row, ordered by category |
| Catalogo.Categorias | app/productos/page.tsx:37 | one category per row, in row order |
| Catalogo.DistinctCategorias | app/productos/page.tsx:36-38 | exactly the non-empty categories, each once, in order of first occurrence; none without data |
| Catalogo.CategoriasAscending | app/productos/page.tsx:30-38 | over the ordered query the offered categories are strictly ascending |
| CatalogoVista.SearchParams | components/ProductosList.tsx:25-31 | `search` then `categoria`, each present exactly when non-empty, and nothing else |
| CatalogoVista.SearchRoundTrip | components/ProductosList.tsx:21-31 | round trip: the page a search navigates to starts with the same search text and category |
| CatalogoVista.OnlyDeletingIsDisabled | components/ProductosList.tsx:157 | only the product being deleted has its button disabled |
| CatalogoVista.DeleteAlert | components/ProductosList.tsx:48 | the alert ends with the backend's message |
| CatalogoVista.ProductosList.constructor | components/ProductosList.tsx:21-23 | the boxes start with the page's search parameters; nothing is being deleted |
| CatalogoVista.ProductosList.SetSearch | components/ProductosList.tsx:66 | the search box holds the typed text |
| CatalogoVista.ProductosList.SetCategoria | components/ProductosList.tsx:74 | the category select holds the chosen category |
| CatalogoVista.ProductosList.HandleSearch | components/ProductosList.tsx:25-31 | the parameters navigated to are those of the current boxes |
| CatalogoVista.ProductosList.HandleDelete | components/ProductosList.tsx:33-52 | nothing happens unless confirmed; then the button is busy during the delete, exactly that row goes on success, an alert shows on failure, storage is untouched |
| Salidas.Mensaje | components/SalidaForm.tsx:67-81 | every refusal has a non-empty message, so the form always shows one |
| Salidas.StockMessageNumbers | components/SalidaForm.tsx:80 | the insufficient-stock message starts with its fixed text, and the stock after it and the quantity at its end read back as the numbers it was built from |
| Salidas.MensajeInjective | components/SalidaForm.tsx:67-81 | distinct refusals show distinct messages |
| Salidas.SelectedProduct | components/SalidaForm.tsx:26-33 | none when no id is chosen or no product has it; else the first product with that id |
| Salidas.Validate | components/SalidaForm.tsx:66-82 | the checks in order — user, positive quantity, chosen product, enough stock — each refusal exactly when the earlier ones pass and it fails |
| Salidas.NonNumericQuantityRefused | components/SalidaForm.tsx:56-71 | a quantity that does not start with a number is refused as not positive |
| Salidas.AcceptedQuantities | components/SalidaForm.tsx:69-82 | exactly the quantities from 1 to the product's stock are accepted |
| Salidas.SalidaMovement | components/SalidaForm.tsx:85-94 | the recorded movement is a `salida` by the signed-in user with the form's product, quantity, reason and date |
| Salidas.SalidaForm.constructor | components/SalidaForm.tsx:15-20 | an empty form dated today, no products, no error |
| Salidas.SalidaForm.LoadProductos | components/SalidaForm.tsx:35-47 | the products ordered by name; a failed query leaves the list as it was |
| Salidas.SalidaForm.HandleInputChange | components/SalidaForm.tsx:49-58 | only the named field changes; the quantity is parsed as a number |
| Salidas.SalidaForm.HandleSubmit | components/SalidaForm.tsx:60-105 | a refused submission shows its message and records nothing; an accepted one appends exactly one `salida` and goes to `/historial`, or shows the backend's error; products are never changed |
| Salidas.ExponentQuantity | components/SalidaForm.tsx:56-82 | a quantity typed as `1e3` is 1000 units and is refused against any stock below 1000 |
| Salidas.TypedQuantities | components/SalidaForm.tsx:56 | the texts `5` and `20` read as 5 and 20 |
| Salidas.ChooseTornillo | components/SalidaForm.tsx:26-58 | a fresh store and a form showing the only product as chosen, with the typed quantity |
| Salidas.ExitScenario | components/SalidaForm.tsx:60-105 | with stock 10, exiting 5 records one `salida` of 5; exiting 20 afterwards is refused for insufficient stock and records nothing |
| ProductoEditor.InitialDatos | components/ProductoForm.tsx:21-29 | a new product starts blank with zeros; an edited one starts with its stored values |
| ProductoEditor.FailureText | components/ProductoForm.tsx:141 | the error shown is never empty and is the backend's message when it has one |
| ProductoEditor.OldImagePath | components/ProductoForm.tsx:73-75 | the old image is removed exactly when the product has a non-empty URL with a bucket segment |
| ProductoEditor.EditedImagenUrl | components/ProductoForm.tsx:68-85 | the new image's public URL when one was uploaded, else the stored URL or null |
| ProductoEditor.EditCalls | components/ProductoForm.tsx:71-84 | no storage calls without a new file; with one, the old image's removal (when there is one) and then exactly one upload |
| ProductoEditor.NuevoProducto | components/ProductoForm.tsx:102-110 | a new row has the given id, no image, the registration date and the form's values |
| ProductoEditor.CreatedRow | components/ProductoForm.tsx:102-135 | the created row is the new product, with the uploaded URL exactly when the upload and the URL update both succeeded |
| ProductoEditor.EditedImageRemovedNextTime | components/ProductoForm.tsx:68-93 | the image an edit uploads is the one the next edit removes |
| ProductoEditor.CreatedImageRemovedNextTime | components/ProductoForm.tsx:116-128 | the image a creation attaches is the one the first edit removes |
| ProductoEditor.ReplaceImage | components/ProductoForm.tsx:68-85 | the edit's storage calls and resulting bucket, and the URL to store |
| ProductoEditor.AttachImage | components/ProductoForm.tsx:116-135 | at most one upload; the row gets the URL only if both the upload and the update succeed; a failed update is ignored |
| ProductoEditor.ProductoForm.constructor | components/ProductoForm.tsx:14-29 | the form starts with the product's values and its image as the preview |
| ProductoEditor.ProductoForm.HandleInputChange | components/ProductoForm.tsx:31-41 | only the named field changes; numeric fields are parsed |
| ProductoEditor.ProductoForm.HandleImageChange | components/ProductoForm.tsx:43-53 | a chosen file becomes the pending image and its data URL the preview; no file changes nothing |
| ProductoEditor.ProductoForm.HandleRemoveImage | components/ProductoForm.tsx:55-58 | no pending file and no preview |
| ProductoEditor.ProductoForm.HandleSubmit | components/ProductoForm.tsx:60-145 | edit: image calls, then the row rewritten with the form's values; create: no user is an error, otherwise the row inserted and the image attached; `/productos` exactly on success, a non-empty error otherwise |
| ProductoEditor.ProductoForm.SubmitEdit | components/ProductoForm.tsx:66-95 | the edit path's storage calls, bucket and row |
| ProductoEditor.ProductoForm.SubmitCreate | components/ProductoForm.tsx:96-136 | the create path's insert, image attachment and error |
| PerfilEditor.NuevoPerfil | components/PerfilForm.tsx:48-55 | a new profile belongs to the user, has the typed name and the `empleado` role |
| PerfilEditor.PerfilForm.constructor | components/PerfilForm.tsx:20-23 | the form starts with the profile's name and the user's e-mail |
| PerfilEditor.PerfilForm.HandleInputChange | components/PerfilForm.tsx:25-28 | only the named field changes |
| PerfilEditor.PerfilForm.HandleSubmit | components/PerfilForm.tsx:30-67 | renames or creates the profile (never writing the e-mail), keeping the role on a rename; success and error exclude each other; the error is the backend's message or the default, and a creation refused because the user already has a row shows the duplicate-key message |

## Left out

- The hosted backend, its client library, the router, `confirm`, `alert`, the clock and `FileReader` are not modelled as code: their answers are parameters (`Outcome`, `confirmed`, `now`, `dataUrl`, new row ids) and their effects are return values (`nav`, `alert`).
- Concurrency: handlers run one at a time; the parallel queries of the dashboard and catalogue are taken as independent reads.
- Dates are ISO text compared as text; `toLocaleString`/`toLocaleDateString` formatting in the views is not modelled.
- Quantities, stock and prices are integers; floating-point arithmetic is not modelled.
- Js.ParseNumber: the value is cut off toward zero (`2.5` reads as 2 where `parseFloat` gives 2.5, `1.5e1` reads as 15), because quantities are modelled as integers; an exponent past the largest double reads as a huge integer where `parseFloat` gives `Infinity` (both are refused against any stock), the words `Infinity`/`-Infinity` are read as 0, and leading white space is not skipped (a number input's value carries none).
- Js.Lower: folds only the letters A–Z; other Unicode case mappings are not modelled.
- Catalogo.Query: the `%`/`_` wildcards inside the search text of `ilike` are taken literally, and the database collation is taken as code-point order.
- Lists.SortBy: rows with equal keys come back in one fixed order; the backend's order among ties is unspecified.
- URL encoding of search parameters and of storage paths is not modelled.
- `console.error` logging (including the ignored failure of the image-URL update after a creation) has no effect in the model.
- The entry form (`entradas`), the product-detail pages, the Navbar, Layout and page wrappers, the `test-supabase` page, `next.config.js` and all rendering are not part of this model.
- Stock bookkeeping: no movement (entrada or salida) changes a product's stock; only the product form's edit writes `stock` (components/ProductoForm.tsx:87-93), and the source behaves the same way.
- Row-level security and the database's own constraints beyond unique keys are not modelled; `Backend.Store.Valid` keeps only the key invariants.
