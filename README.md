# Page layout catalog sync — a Dafny model

This project models the core of `PageLayoutService` from the WordPress iOS
app. The service fetches the catalog of Gutenberg page layouts and their
categories from WordPress.com. It stores the catalog in Core Data and makes
the local store agree with the latest fetch:

- Both entity types are reconciled by a keyed diff on `slug`.
- An entity that was fetched again is updated in place.
- A new slug creates exactly one entity.
- An entity that was not fetched again is deleted.
- Each layout's categories are replaced by the persisted categories it declares.

The work runs on a derived context. That context is saved only when both
passes finish without throwing. Each request ends in exactly one completion.

Modules:

- `Wrappers`, `Errors`: `Option`, `Result`, and the errors a request can end with.
- `Catalog`: the decoded response (`GutenbergLayoutCategory`, `GutenbergLayout`, `GutenbergPageLayouts`).
  It also gives the slugs a list names and which fetched entry is the last one with a given slug.
- `Reconciliation`: the store as a value (`Snapshot`: slug-keyed maps of entities plus the next object id).
  It holds the two passes as functions, and lemmas for full replace, update in place versus
  create, no dangling associations, idempotence and atomicity.
- `ManagedContext`: class `Context`, the managed-object context. Its methods are the source's
  loops: a deletion-candidate set, upserts, deletions of what is left. Each is proved to
  compute the matching `Reconciliation` function.
- `PageLayoutService`: endpoint selection, the completion mapping, `persistToCoreData`, the
  three fetch entry points and `resultsController`.
- `Decimal`: the decimal text of the site ID in the per-site path, with its inverse.
- `TitleOrder`: the title-ascending order of the categories list.

Entity identity is an `id` on each entity. Updating in place keeps the id.
Creating an entity takes the next unused id, as a new managed object would.
A lookup by slug sees the entities created earlier in the same pass. Core
Data fetches include the context's pending changes, so a slug fetched twice
yields one entity that holds the last fetched entry.

Errors and failure points in the code:

- A WordPress.com blog without a site ID or API completes with an `NSError` in the
  `PageLayoutService` domain, code 0, "Api or dotCom Site ID not found" (`Errors.SiteNotFound`).
- A response that cannot be decoded completes with "Unable to parse response"
  (`Errors.UnparsableResponse`).
- A store error is handed on unchanged.
- Only the category lookup in `associate` can throw. The lookups by slug use `try?`, and the
  category pass contains no throwing call. The outcome of the save is not examined.

## Model

| member | source | states |
|---|---|---|
| `Reconciliation.CategoryPassKeys` | WordPress/Classes/Services/PageLayoutService.swift:114-132 | after the category pass the persisted category slugs are exactly the fetched slugs, whatever was stored before; layouts are untouched |
| `Reconciliation.CategoryPassUpserts` | WordPress/Classes/Services/PageLayoutService.swift:118-129 | a fetched slug already stored keeps its entity (same id), an unknown slug gets a fresh entity, exactly one per new slug (id counter grows by the number of new slugs); every entity holds the last fetched entry for its slug |
| `Reconciliation.CategoryPassKeyed` | WordPress/Classes/Services/PageLayoutService.swift:114-132 | the category pass keeps slugs unique and entity ids distinct |
| `Reconciliation.LayoutPassKeys` | WordPress/Classes/Services/PageLayoutService.swift:134-153 | after the layout pass the persisted layout slugs are exactly the fetched slugs; categories are untouched |
| `Reconciliation.LayoutPassUpserts` | WordPress/Classes/Services/PageLayoutService.swift:138-150 | layouts are updated in place or created as categories are, and each holds its last fetched entry's title and preview and is associated with exactly the persisted categories that entry declares |
| `Reconciliation.ReconcileContents` | WordPress/Classes/Services/PageLayoutService.swift:101-160 | after both passes the store holds exactly the fetched categories and layouts, each layout's categories are the fetched category slugs intersected with its declared slugs (unknown ones dropped), and no association dangles |
| `Reconciliation.ReconcileWellFormed` | WordPress/Classes/Services/PageLayoutService.swift:114-160 | from any store with unique slugs and distinct ids, a sync leaves a store that also has no dangling association |
| `Reconciliation.CategoryPassStable` | WordPress/Classes/Services/PageLayoutService.swift:118-131 | a category pass over a store that already agrees with the fetch changes nothing: no entity recreated, none deleted |
| `Reconciliation.LayoutPassStable` | WordPress/Classes/Services/PageLayoutService.swift:138-152 | a layout pass over a store that already agrees with the fetch changes nothing |
| `Reconciliation.ReconcileIdempotent` | WordPress/Classes/Services/PageLayoutService.swift:114-160 | syncing the same catalog twice leaves the store, associations and ids included, as the first sync left it |
| `Reconciliation.ReplaceScenario` | WordPress/Classes/Services/PageLayoutService.swift:114-160 | "about"/"l1" synced into an empty store, then "contact"/"l2": the second sync leaves only "contact" and "l2", associated |
| `Reconciliation.FirstFault` | WordPress/Classes/Services/PageLayoutService.swift:138-150 | the first fetched layout whose category lookup throws: it throws, and no earlier one does; none when no lookup throws |
| `Reconciliation.PersistedIsAtomic` | WordPress/Classes/Services/PageLayoutService.swift:101-111 | the sync commits exactly when no lookup throws, committing the reconciled store; otherwise it reports the error of the first lookup that throws |
| `Reconciliation.UpsertCategory` | WordPress/Classes/Services/PageLayoutService.swift:120-128 | one fetched category: the entity with its slug takes the fetched fields and keeps its id, or a new entity is created with the next id (its properties are proved in `CategoryPassUpserts`) |
| `Reconciliation.CategoryPass` | WordPress/Classes/Services/PageLayoutService.swift:114-132 | the category pass: every fetched category upserted in order, then the categories not fetched deleted (proved in `CategoryPassKeys`, `CategoryPassUpserts`, `CategoryPassStable`) |
| `Reconciliation.Associated` | WordPress/Classes/Services/PageLayoutService.swift:156-160 | the slugs of the persisted categories that a layout declares; declared slugs with no persisted category are dropped |
| `Reconciliation.UpsertLayout` | WordPress/Classes/Services/PageLayoutService.swift:139-149 | one fetched layout: updated in place or created with the next id, and its association replaced, including for a new layout (proved in `LayoutPassUpserts`) |
| `Reconciliation.LayoutPass` | WordPress/Classes/Services/PageLayoutService.swift:134-153 | the layout pass: every fetched layout upserted and associated in order, then the layouts not fetched deleted (proved in `LayoutPassKeys`, `LayoutPassUpserts`, `LayoutPassStable`) |
| `Reconciliation.Reconcile` | WordPress/Classes/Services/PageLayoutService.swift:103-104 | the whole sync: the category pass first, then the layout pass on its result (proved in `ReconcileContents`, `ReconcileWellFormed`, `ReconcileIdempotent`) |
| `Reconciliation.Persisted` | WordPress/Classes/Services/PageLayoutService.swift:101-111 | the first thrown error, or the reconciled store to commit when nothing throws (proved in `PersistedIsAtomic`) |
| `PageLayoutService.SiteLayoutsPath` | WordPress/Classes/Services/PageLayoutService.swift:27 | `/wpcom/v2/sites/` + the site ID in decimal + `/block-layouts` (its inverse is `SiteLayoutsPathRoundTrip`) |
| `Decimal.IntToDecimal` | WordPress/Classes/Services/PageLayoutService.swift:27 | the decimal text of an integer as string interpolation renders it: a minus sign for a negative value, no leading zeros (its inverse is `IntToDecimalRoundTrip`) |
| `TitleOrder.TitleLe` | WordPress/Classes/Services/PageLayoutService.swift:85 | the ascending title comparison the sort descriptor uses, as lexicographic order by character code (proved total in `TitleLeTotal`) |
| `ManagedContext.Context.Derived` | WordPress/Classes/Services/PageLayoutService.swift:100 | a derived context starts from the main context's contents |
| `ManagedContext.Context.Save` | WordPress/Classes/Services/PageLayoutService.swift:109 | saving copies the derived context's contents into the main context |
| `ManagedContext.Context.PersistCategories` | WordPress/Classes/Services/PageLayoutService.swift:114-132 | the loop over the fetched categories with its deletion-candidate set leaves exactly the state the category pass function gives |
| `ManagedContext.Context.DeleteCategories` | WordPress/Classes/Services/PageLayoutService.swift:131 | deleting the candidates removes exactly them and nothing else |
| `ManagedContext.Context.Associate` | WordPress/Classes/Services/PageLayoutService.swift:155-160 | the layout's association is replaced by the persisted categories whose slug is declared; if the lookup throws, the error is returned and nothing changes |
| `ManagedContext.Context.PersistLayout` | WordPress/Classes/Services/PageLayoutService.swift:139-149 | one layout is updated in place or created, then associated; it matches one step of the layout pass |
| `ManagedContext.Context.PersistLayouts` | WordPress/Classes/Services/PageLayoutService.swift:134-153 | the loop throws the first lookup error, or it leaves exactly the state the layout pass function gives |
| `ManagedContext.Context.DeleteLayouts` | WordPress/Classes/Services/PageLayoutService.swift:152 | deleting the stale layouts removes exactly them and nothing else |
| `ManagedContext.Context.AllCategories` | WordPress/Classes/Services/PageLayoutService.swift:82-97 | the results controller's fetch: every persisted category, each once |
| `PageLayoutService.PersistToCoreData` | WordPress/Classes/Services/PageLayoutService.swift:99-112 | categories are reconciled, then layouts, on a derived context. The main store becomes the reconciled store with `.success` when nothing throws. Otherwise it gets `.failure` with the thrown error and the main store is unchanged. The store invariant is kept |
| `PageLayoutService.Fetched` | WordPress/Classes/Services/PageLayoutService.swift:37-56 | one completion per request. A transport error is passed on verbatim. A null parse is a failure with no persistence. A parsed catalog completes `.success` exactly when no category lookup throws, carrying that very catalog with the store reconciled. Otherwise it completes with the error of the first lookup that throws, and the store is unchanged |
| `PageLayoutService.FetchedKeepsWellFormed` | WordPress/Classes/Services/PageLayoutService.swift:45-52 | whatever a request ends with, the main store still has unique slugs, distinct ids and no dangling association |
| `PageLayoutService.FetchLayouts` | WordPress/Classes/Services/PageLayoutService.swift:37-56 | the completion and the store after the GET are those the completion mapping gives |
| `PageLayoutService.Endpoint` | WordPress/Classes/Services/PageLayoutService.swift:12-35 | a WordPress.com blog with a numeric ID and an API uses its own API and the per-site path; a WordPress.com blog lacking either fails with "Api or dotCom Site ID not found"; any other blog uses the anonymous API and the shared path |
| `PageLayoutService.EndpointIdentifiesSite` | WordPress/Classes/Services/PageLayoutService.swift:27-33 | the chosen path names exactly the blog's site ID when the blog's API is used, and no site for the shared path |
| `PageLayoutService.SiteLayoutsPathRoundTrip` | WordPress/Classes/Services/PageLayoutService.swift:27 | the site ID can be read back from `/wpcom/v2/sites/{id}/block-layouts` |
| `PageLayoutService.SharedLayoutsPathNamesNoSite` | WordPress/Classes/Services/PageLayoutService.swift:33 | `/wpcom/v2/common-block-layouts` is not the path of any site |
| `PageLayoutService.Parameters` | WordPress/Classes/Services/PageLayoutService.swift:66-71 | the query has exactly the keys `preview_width` and `scale`, holding the given width and scale |
| `PageLayoutService.FetchWordPressComLayouts` | WordPress/Classes/Services/PageLayoutService.swift:20-29 | without a site ID or API: no request, `.failure`, store unchanged; otherwise one GET of the per-site path through the blog's API, completed as the mapping says |
| `PageLayoutService.FetchSharedLayouts` | WordPress/Classes/Services/PageLayoutService.swift:31-35 | one GET of the shared path through the anonymous API, completed as the mapping says |
| `PageLayoutService.Layouts` | WordPress/Classes/Services/PageLayoutService.swift:12-18 | the request issued (none on a configuration failure) and the completion are those the endpoint choice and the mapping give; the store invariant is kept |
| `PageLayoutService.ResultsController` | WordPress/Classes/Services/PageLayoutService.swift:82-97 | all persisted categories, each once, sorted by title ascending; no objects when the initial fetch fails (the error is only logged) |
| `TitleOrder.SortByTitle` | WordPress/Classes/Services/PageLayoutService.swift:85-86 | the title-ascending order holds the same categories, sorted by title |
| `Decimal.IntToDecimalRoundTrip` | WordPress/Classes/Services/PageLayoutService.swift:27 | the site ID's decimal text in the path reads back as the same integer |

## Left out

- Core Data itself is not modelled: `NSManagedObjectContext`, fetch requests and predicates,
  `ContextManager.shared` and `context.perform`. The context is a class holding slug-keyed maps.
  The derived context is a copy of the main one, and the save copies it back. Threading and
  concurrent readers are out of scope.
- Managed-object identity is an integer `id`, not object references. Associations are sets of
  category slugs. The slug is the category key, so this is the same as a set of category objects.
- The relationship delete rule is not modelled. While the layout pass runs, a layout that is
  not yet re-associated may still name a deleted category. Every such layout is either
  re-associated or deleted before the save, so the committed store is unaffected.
- The bodies of `update(with:)` and of the entity initialisers are not part of this model. They
  are modelled as "the local fields become the fetched fields". A new layout starts with no
  categories until `associate` runs.
- `ManagedContext.Context.Save` always succeeds. `ContextManager.shared.save` is assumed to commit. The source does not check the save and completes `.success` regardless. A commit that fails while `.success` is still reported is a case the model cannot show.
- A lookup by slug that throws under `try?` counts as "not found". The model's lookup is total.
- `parseLayouts` is left out: its JSON serialisation and decoding are foreign code. It is the
  `parse` parameter, a function from a response to an optional catalog. The decoder's
  strictness is therefore assumed, not proved.
- The network is left out: `api.GET`, the anonymous API's user agent and the callbacks. It is
  the `network` parameter, which answers a request with a response or an error. `NSError`
  construction and `DDLogError` logging are reduced to the error values.
- Which store lookups throw is an input (`faults`), because the store's failures are outside
  this code.
- `previewWidth`/`scale` do not model the float-to-text conversion of the width or the read of
  the screen scale. Both values enter as text.
- `Blog.dotComID`: the NSNumber-to-`Int` cast is taken as already done. The 64-bit range of
  `Int` is not modelled, and the ID is only rendered as text.
- `PageLayoutService.ResultsController` does not model `NSFetchedResultsController`
  observation. The title comparison is by character code, and the order among equal titles is
  left open.
