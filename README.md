# Real-estate catalog: listing, favorites and recommendation logic in Dafny

This project models the client-side logic of a small real-estate catalog web
application (a Next.js/React app written in TypeScript) and proves properties of
that model. The app lists properties (`Propiedad`), lets the user search them by
text and price and page through the results, keeps a list of favorite property
ids in browser storage, shows a page of those favorites, and recommends up to two
similar properties on a property's detail page.

The model follows the app's own file structure:

- `listado.dfy` (module `Listado`) models the listing component
  `ListaPropiedades`. It covers the stable filter over title, city and type and
  the price bounds. The bounds are tested by JavaScript truthiness, so a bound of
  `0` acts like no bound. It also covers the page count `ceil(n / 12)`, the
  12-item page window, and the component state (query, two bounds, current page)
  as a class. The class invariant is `1 <= paginaActual <= max(1, totalPaginas)`.
  The two page buttons keep it, the reset-to-page-1 effect establishes it
  whenever it fires, and the three input setters that run that effect keep it.
- `usefavoritos.dfy` (module `UseFavoritos`) models the `useFavoritos` hook.
  The toggle is a pure function with its lemmas. The hook's state (`favoritos`,
  `isMounted`) is a class. Browser storage is a shared `Almacenamiento` object.
  The load effect and the persist effect are methods, and the class keeps the
  invariant "once mounted, storage holds the encoding of the current list".
- `json.dfy` (module `Json`) models the text that storage holds, which is
  `JSON.stringify` of an integer array. It also models reading that text back,
  rejecting leading zeros as `JSON.parse` does. The round trip is proved in both
  directions: reading what was written gives the list back, and any text that
  is read as a list (and does not spell zero as `-0`) is exactly what
  `JSON.stringify` writes for it.
- `recomendaciones.dfy` (module `Recomendaciones`) models
  `obtenerRecomendaciones`: a filter by id, city, type and a ±20 % price band,
  then `slice(0, 2)`.
- `paginafavoritos.dfy` (module `PaginaFavoritos`) models the favorites page:
  the membership filter `favoritas` and the `loading` gate.
- `propiedades.dfy` (module `Propiedades`) holds the `Propiedad` record and the
  string operations `toLowerCase` and `includes`. A `Propiedad` has an `id`, a
  `titulo`, a `ciudad`, a `tipo`, a number of `ambientes`, its `metrosCuadrados`,
  a `precio` and an `imagen` URL.
- `secuencias.dfy` (module `Secuencias`) holds `Array.prototype.filter`,
  `Array.prototype.slice` with its negative-index and clipping rules, and the
  subsequence relation. `opcion.dfy` holds `Option`.

React effects are modelled as explicit method calls made right after the change
that triggers them. `fetch` is replaced by an input sequence: `Recibir` on the
favorites page is handed the fetched listings.

## Model

| member | source | states |
|---|---|---|
| `Secuencias.Filter` | src/app/components/ListaPropiedades.tsx:45-54 | `Array.prototype.filter` keeps exactly the elements passing the test. Each element keeps its multiplicity. The result is an order-preserving subsequence of the input. |
| `Secuencias.JsSlice` | src/app/components/ListaPropiedades.tsx:62 | `slice(start, end)` with non-negative arguments is the clipped range `start..end`. It is never longer than `end - start`. |
| `Propiedades.IncludesIsSubstring` | src/app/components/ListaPropiedades.tsx:46-48 | The computed `includes` holds exactly when the query occurs as a contiguous piece of the text, in both directions. |
| `Propiedades.Lower` | src/app/components/ListaPropiedades.tsx:46-48 | `toLowerCase` keeps the length and leaves no capital letter (ASCII or Latin-1) in the result. Every character that is not a capital is kept as it is. |
| `Propiedades.LowerIdempotent` | src/app/components/ListaPropiedades.tsx:46-48 | Lower-casing an already lower-cased text changes nothing. |
| `Propiedades.SinLetraNoIncluye` | src/app/components/ListaPropiedades.tsx:46-48 | A lower-case query is not found in the lower-cased text when one of its letters is absent from the text, both small and capital. |
| `Listado.FiltrarCorrecto` | src/app/components/ListaPropiedades.tsx:45-54 | A listing is in `filtradas` iff it is in the input and passes the test. The test is: the lower-cased query is a substring of the lower-cased title, city or type, and each truthy bound holds. `filtradas` is a subsequence of the input, no longer than it. |
| `Listado.FiltrarEntreCotas` | src/app/components/ListaPropiedades.tsx:50-51 | With both bounds set to non-zero values `a` and `b`, every shown price lies in `a..b`. |
| `Listado.FiltrarSinCriterios` | src/app/components/ListaPropiedades.tsx:45-54 | An empty query with both bounds `null`, which is the initial state, shows the input unchanged. |
| `Listado.CotaCeroSinEfecto` | src/app/components/ListaPropiedades.tsx:50-51 | A minimum or maximum of `0` filters exactly like `null`, because the bound is tested by truthiness. |
| `Listado.FiltrarIdempotente` | src/app/components/ListaPropiedades.tsx:45-54 | Filtering the filtered list again changes nothing. |
| `Listado.BusquedaCasaCoincide` | src/app/components/ListaPropiedades.tsx:46-48 | The query "casa" matches the title "Casa en el centro" and the city "Casablanca", ignoring letter case. |
| `Listado.BusquedaCasaNoCoincide` | src/app/components/ListaPropiedades.tsx:46-48 | The query "casa" matches none of the title "Departamento", the city "Lima" and the type "Oficina". |
| `Listado.BusquedaCasaFiltrar` | src/app/components/ListaPropiedades.tsx:45-54 | With no price bounds, filtering those three listings by "casa" shows exactly the first two, in order. |
| `Listado.CantidadPaginas` | src/app/components/ListaPropiedades.tsx:59 | `totalPaginas` is the least `t` with `n <= 12 t`, i.e. `ceil(n / 12)`. It is 0 exactly when nothing is filtered. |
| `Listado.Ventana` | src/app/components/ListaPropiedades.tsx:60-62 | The visible window never holds more than 12 listings, for any page number. |
| `Listado.VentanaRango` | src/app/components/ListaPropiedades.tsx:60-62 | For page `p >= 1` the window is `filtradas[min((p-1)*12, n) .. min(p*12, n)]`. It is empty exactly when `p > totalPaginas`. |
| `Listado.PaginasPrefijo` | src/app/components/ListaPropiedades.tsx:59-62 | Pages `1..k` put together are the first `min(12 k, n)` filtered listings. |
| `Listado.PaginasCubren` | src/app/components/ListaPropiedades.tsx:59-62 | Pages `1..totalPaginas` put together are exactly `filtradas`, with no gap and no overlap. |
| `Listado.VeinticincoEnTresPaginas` | src/app/components/ListaPropiedades.tsx:59-62 | 25 filtered listings give 3 pages. Page 3 shows only the 25th listing. |
| `Listado.ListaPropiedades.constructor` | src/app/components/ListaPropiedades.tsx:30-33 | The initial state is an empty query, `null` bounds and page 1. It shows every listing and satisfies the invariant. |
| `Listado.ListaPropiedades.Anterior` | src/app/components/ListaPropiedades.tsx:65-67 | `handleAnterior` steps back only from a page above 1. It keeps the invariant and changes nothing but the page. |
| `Listado.ListaPropiedades.Siguiente` | src/app/components/ListaPropiedades.tsx:69-71 | `handleSiguiente` steps forward only below `totalPaginas`. It keeps the invariant and changes nothing but the page. |
| `Listado.ListaPropiedades.ReiniciarPagina` | src/app/components/ListaPropiedades.tsx:39-41 | When one of its dependencies has changed, the effect sets the page to 1, which satisfies the invariant. Otherwise it leaves the page alone and keeps the invariant. |
| `Listado.ListaPropiedades.CambiarBusqueda` | src/app/components/ListaPropiedades.tsx:83 | Typing a new query stores it and resets the page to 1. The same query changes nothing. The invariant holds afterwards. |
| `Listado.ListaPropiedades.CambiarMinPrecio` | src/app/components/ListaPropiedades.tsx:92 | A new minimum is stored and resets the page to 1. The invariant holds afterwards. |
| `Listado.ListaPropiedades.CambiarMaxPrecio` | src/app/components/ListaPropiedades.tsx:99 | A new maximum is stored and resets the page to 1. The invariant holds afterwards. |
| `Json.Codificar` | src/app/hooks/useFavoritos.ts:43 | `JSON.stringify` of an id array is a non-empty bracketed text, so it is truthy when read back. |
| `Json.DecodificarCodificar` | src/app/hooks/useFavoritos.ts:25-43 | Reading back the text written for a list gives back the same ids in the same order. |
| `Json.DecodificarInverso` | src/app/hooks/useFavoritos.ts:25-43 | Any text without `-0` that is read as a list is exactly the text `JSON.stringify` writes for that list. |
| `Json.DecodificarCeroInicial` | src/app/hooks/useFavoritos.ts:27-35 | The text `[01]`, which `JSON.parse` rejects for its leading zero, is not read as a list. |
| `Json.DecodificarMenosCero` | src/app/hooks/useFavoritos.ts:27-43 | `[-0]` is read as the list `[0]`, as `JSON.parse` reads it, and that list is written back as `[0]`. |
| `UseFavoritos.Alternar` | src/app/hooks/useFavoritos.ts:49 | A present id loses every occurrence, and every other id keeps its count and order. An absent id is appended after the unchanged elements. |
| `UseFavoritos.AlternarPertenencia` | src/app/hooks/useFavoritos.ts:47-53 | After a toggle `esFavorito(id)` is negated and `esFavorito(j)` is unchanged for every `j != id`. |
| `UseFavoritos.AlternarDosVecesAusente` | src/app/hooks/useFavoritos.ts:49 | Toggling an absent id twice restores the exact original list. |
| `UseFavoritos.AlternarDosVecesPresente` | src/app/hooks/useFavoritos.ts:49 | Toggling a present id twice restores the members, with the id moved to the end. |
| `UseFavoritos.AlternarSinRepetidos` | src/app/hooks/useFavoritos.ts:49 | A toggle keeps a duplicate-free list duplicate-free. |
| `UseFavoritos.CargadosCeroInicial` | src/app/hooks/useFavoritos.ts:25-35 | Stored text `[01]` is not loaded, so the mount keeps the current list. |
| `UseFavoritos.CargadosTrasGuardar` | src/app/hooks/useFavoritos.ts:22-45 | After the persist effect writes a list, a later load effect accepts exactly that list. |
| `UseFavoritos.Favoritos.constructor` | src/app/hooks/useFavoritos.ts:18-19 | The first render has an empty list, is not mounted and has written nothing. |
| `UseFavoritos.Favoritos.Guardar` | src/app/hooks/useFavoritos.ts:40-45 | The persist effect writes the encoding of the list under `'favoritos'` only once mounted. Otherwise storage is untouched. |
| `UseFavoritos.Favoritos.Montar` | src/app/hooks/useFavoritos.ts:22-37 | On mount the list is replaced only when stored text exists, is non-empty and reads as an array. Otherwise the list is kept. Then the list is written back. |
| `UseFavoritos.Favoritos.AgregarFavorito` | src/app/hooks/useFavoritos.ts:47-51 | The list becomes its toggle, `esFavorito` flips for that id only, and storage is rewritten only when mounted. |
| `UseFavoritos.SesionesSucesivas` | src/app/hooks/useFavoritos.ts:22-51 | A hook mounted later on the same storage restores the list an earlier hook left after a toggle. |
| `Recomendaciones.SimilarEnBanda` | src/app/lib/recomendaciones.ts:18-25 | With exact arithmetic, the test `precio ± precio*0.2` is the whole-number band `4p <= 5q <= 6p`, together with a different id and the same city and type. |
| `Recomendaciones.ObtenerRecomendaciones` | src/app/lib/recomendaciones.ts:17-27 | The result has at most 2 listings. Each excludes the reference id, has its city and type, and lies in the price band. The result is the prefix of length `min(2, k)` of the `k` qualifying listings, and a subsequence of the input. |
| `Recomendaciones.PocasCandidatas` | src/app/lib/recomendaciones.ts:20-26 | When at most two listings qualify, all of them are returned. |
| `Recomendaciones.SoloFaltanPorLimite` | src/app/lib/recomendaciones.ts:20-26 | A qualifying listing is missing from the result only when the limit of 2 is reached. |
| `PaginaFavoritos.Favoritas` | src/app/favoritos/page.tsx:33 | A fetched listing is in `favoritas` iff its id is a favorite. The result keeps the order of the fetched list, is no longer than it, and is empty when there are no favorites. |
| `PaginaFavoritos.FavoritasSoloPertenencia` | src/app/favoritos/page.tsx:33 | Only which ids are favorites matters: any reordering or repetition of the favorites gives the same `favoritas`. |
| `PaginaFavoritos.FavoritosPage.constructor` | src/app/favoritos/page.tsx:17-19 | The page starts loading, with no listings and a fresh, unmounted favorites hook. |
| `PaginaFavoritos.FavoritosPage.Recibir` | src/app/favoritos/page.tsx:25-26 | Receiving the data stores it and ends loading. |
| `PaginaFavoritos.FavoritosPage.Mostrar` | src/app/favoritos/page.tsx:36-54 | While loading, only the loading message is shown. After loading, the page shows the cards when `favoritas` is non-empty and the "no favorites" message otherwise. That message always appears when the favorites list is empty. |

## Left out

- Network I/O: the `fetch` calls of the home page and the favorites page and
  their JSON decoding. The fetched list is an input; `Recibir` stands for its
  arrival. A failed fetch leaves the favorites page loading forever in the app,
  and this model has no failure transition either.
- Rendering: `PropiedadCard`, `NavBar`, the home and detail pages, the
  `disabled` state of the page buttons, and the rule that shows the page
  controls only above 12 results. None of these contain logic beyond layout.
- React scheduling: effect timing, batched `setState` and `useMemo` caching.
  Each effect is a method called right after the change that triggers it.
- `console.log` and `console.error`.
- `Propiedades.Lower`: lower-cases ASCII and Latin-1 capitals only. The rest of
  Unicode case mapping done by `toLowerCase` (for example Greek or Cyrillic) is
  not modelled.
- `Json.Decodificar`: reads only the text that `JSON.stringify` writes for an
  array of integers, plus the spelling `-0` of zero (`Json.DecodificarInverso`).
  Text that `JSON.parse` plus `Array.isArray` also accept is treated as not an
  array, so the list stays as it is. Examples are spaces, fractions, exponents,
  and elements that are not integers, such as strings or nested arrays. The store
  itself only ever writes the form the reader takes.
- `Json.IntATexto`: ids are exact integers. In the app they are JavaScript
  numbers, which are rounded above 2^53, and `JSON.stringify` writes any value of
  magnitude 10^21 or more in exponent form (`1e+21`). So the encoding, the
  reading and both round trips agree with the app only for ids of magnitude
  below 2^53.
- `Listado.Cota`: a price bound is `None` for `null` and `Some(v)` for a number.
  `parseInt` on the input text is not modelled. A `NaN` from it is falsy like
  `null`, so it filters like `None`. But React compares `NaN` and `null` as
  different values, and the model does not capture the page reset that such a
  change triggers.
- Prices are integers and the band arithmetic is exact. IEEE rounding at the
  band edges of `precio * 0.2` is not modelled.
- `Recomendaciones.ObtenerRecomendaciones`: the statement that the input list is
  not modified needs no proof, because Dafny sequences are values.
- The props of `ListaPropiedades` do not change after the first render: the
  home page passes a list fetched once.
