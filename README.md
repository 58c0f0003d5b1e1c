# KunstmaanRestApi core, modelled in Dafny

This project models the decision logic of the KunstmaanRestApi bundles: a REST layer over the Kunstmaan CMS. Each module covers one part of that logic.

- **Paginator** (two revisions). It configures a pager: first the maximum per page, then the current page. It then reads the current page, optionally decorates each item with a closure, and wraps the result in a paginated representation. The older revision takes the route as an argument, `get_nodes` by default. The current revision reads `_route` from the current request, falling back to `get_nodes` outside a request.
  - The pager library is abstract: a record of functions named `Library`.
  - The usual windowing rule is the predicate `ConventionalPager`. Lemmas that describe whole pages take it as a hypothesis.
- **TranslationService and TranslationsController.**
  - Posted rows are turned into translation entities. One invalid row fails the whole batch with `NOT_VALID`.
  - Each entity is then created or updated in the translation table. The table keeps one row per (keyword, domain, locale). Rows with the same keyword and domain share a translation group.
  - Three bulk transitions exist: deprecate, disable deprecated, and enable. The controller validates the whole body before changing anything.
- **MediaController.**
  - Folders and media are created with their defaults.
  - Partial updates overwrite a field only when the incoming value is truthy in PHP's sense.
  - A folder can be moved under another folder, unless the target is among the folder's children.
- **ApiKeyAuthenticator.** It decides whether it applies (the fixed `X-Api-Key` header) and which key it reads (the configured header). It then finds the user holding that key and gives fixed failure and start responses.
- **AuthenticationController.** Regenerating a user's api key needs `ROLE_ADMIN` for your own key and `ROLE_SUPER_ADMIN` for anyone else's. It then replaces the key and redirects to the user's edit page.
- **ConfigController.** The configured classes are searched in order. The first one whose internal name matches answers with the first row of its table.

The module `Php` holds PHP's nullable values and its truthiness rules. A string is falsy when it is `null`, `""` or `"0"`. An integer is falsy when it is `null` or `0`.

Things the code reads from outside become parameters:
- timestamps (`now`);
- validation-error counts;
- what the media manager creates from an upload;
- the children list the tree repository returns;
- the access decision for a role;
- the freshly generated api key;
- the rows the deprecated-before-date lookup returns;
- the first row of each config class.

## Model

| member | source | states |
|---|---|---|
| Pagerfanta.Pager.constructor | src/Rest/CoreBundle/Helper/Controller/Paginator.php:65 | a new pager holds the adapter, 10 items per page, page 1 |
| Pagerfanta.Pager.SetMaxPerPage | src/Rest/CoreBundle/Helper/Controller/Paginator.php:66 | succeeds exactly when the library accepts the value; stores the library's value then, changes nothing otherwise, never touches the page |
| Pagerfanta.Pager.SetCurrentPage | src/Rest/CoreBundle/Helper/Controller/Paginator.php:67 | the page is checked against the maximum per page set before it; stored only when accepted; the maximum is unchanged |
| Pagerfanta.Window | src/Rest/CoreBundle/Helper/Controller/Paginator.php:74 | page `p` of size `m` holds exactly `m` items when the source reaches `p*m`, the remaining items when it ends inside the page, none beyond; item `i` is source item `(p-1)*m+i` |
| Pagerfanta.FirstPagesArePrefix | src/Rest/CoreBundle/Helper/Controller/Paginator.php:74 | the first `k` windows laid end to end are exactly the first `min(k*m, n)` source items: nothing skipped or repeated |
| Pagerfanta.PagesCoverRows | src/Rest/CoreBundle/Helper/Controller/Paginator.php:74 | enough pages to cover the total reproduce the whole source in order |
| Pagerfanta.EmptySourceHasEmptyPages | src/Rest/CoreBundle/Helper/Controller/Paginator.php:74 | every window of an empty source is empty |
| Pagerfanta.ConventionalPagerServesWindow | src/Rest/CoreBundle/Helper/Controller/Paginator.php:65-74 | under the conventional rule a positive limit is kept, an accepted page is kept, the page served is its window and the total is the row count |
| Pagination.ArrayMap | src/Rest/CoreBundle/Helper/Controller/Paginator.php:76 | `array_map` keeps the length and applies the closure to each item in place |
| Pagination.Decorated | src/Rest/CoreBundle/Helper/Controller/Paginator.php:75-77 | without a closure the items are untouched; with one, each item is mapped through it |
| Pagination.DecoratedAppend | src/Rest/CoreBundle/Helper/Controller/Paginator.php:75-77 | decorating distributes over concatenation, so pages can be decorated one by one |
| Pagination.Represent | src/Rest/CoreBundle/Helper/Controller/Paginator.php:64-91 | fails exactly where a setter throws: a refused limit is `InvalidMaxPerPage`, an accepted limit with a refused page is `InvalidCurrentPage`; otherwise echoes page and limit as requested, carries the route, empty route parameters, `absolute` false, the pager's page count and total, and the decorated current page |
| Pagination.ConventionalEnvelope | src/Rest/CoreBundle/Helper/Controller/Paginator.php:64-91 | under the conventional rule, an accepted request's items are the decorated window of the page and its total is the row count |
| Pagination.ConcatenatedPagesArePrefix | src/Rest/CoreBundle/Helper/Controller/Paginator.php:74-77 | the decorated pages 1..k together are the decoration of the first `min(k*limit, n)` rows |
| Pagination.ConventionalPagesCoverSource | src/Rest/CoreBundle/Helper/Controller/Paginator.php:64-91 | under the conventional rule and with every page accepted, walking all pages yields the decoration of the whole source, in order, without duplicates |
| Paginator.Paginator.GetPaginatedQueryBuilderResult | src/Rest/CoreBundle/Helper/Controller/Paginator.php:35-40 | a query is paginated through a Doctrine adapter with defaults page 0, limit 20, no closure |
| Paginator.Paginator.GetPaginatedArrayResult | src/Rest/CoreBundle/Helper/Controller/Paginator.php:50-55 | an array is paginated through an array adapter with the same defaults |
| Paginator.Paginator.GetPaginatedRepresentation | src/Rest/CoreBundle/Helper/Controller/Paginator.php:64-91 | the result is `Represent` with the request's `_route` as route, or `get_nodes` without a current request |
| Paginator.RouteOf | src/Rest/CoreBundle/Helper/Controller/Paginator.php:68-72 | `get_nodes` without a current request; with one, the request's `_route` parameter, and null exactly when the request has none |
| LegacyPaginator.Paginator.GetPaginatedQueryBuilderResult | CoreBundle/Helper/Controller/Paginator.php:22-27 | as above, with the route a parameter defaulting to `get_nodes` |
| LegacyPaginator.Paginator.GetPaginatedArrayResult | CoreBundle/Helper/Controller/Paginator.php:37-42 | as above, with the route a parameter defaulting to `get_nodes` |
| LegacyPaginator.Paginator.GetPaginatedRepresentation | CoreBundle/Helper/Controller/Paginator.php:51-73 | the result is `Represent` with the given route passed through unchanged |
| TranslationService.CreateTranslationFromArray | src/Rest/TranslationsBundle/Service/TranslationService.php:49-62 | succeeds exactly when locale, keyword, text and domain are all present, otherwise `NOT_VALID`; the entity carries exactly those four fields of the row |
| TranslationService.ValidateArrayTranslation | src/Rest/TranslationsBundle/Service/TranslationService.php:185-191 | a row is valid exactly when its keys include locale, keyword, text and domain |
| TranslationService.CreateFromArrayRoundTrip | src/Rest/TranslationsBundle/Service/TranslationService.php:49-62 | building an entity from an entity's row form gives that entity back |
| TranslationService.TranslationService.CreateCollectionFromArray | src/Rest/TranslationsBundle/Service/TranslationService.php:31-40 | one entity per row, in order, each the one its row describes; fails with `NOT_VALID` exactly when some row is invalid |
| TranslationService.TranslationService.CreateOrUpdateTranslation | src/Rest/TranslationsBundle/Service/TranslationService.php:70-116 | the repository and the returned row are those of `Upsert`, and the grouping invariant is kept |
| TranslationService.Upsert | src/Rest/TranslationsBundle/Service/TranslationService.php:70-116 | the table gains exactly the incoming key, the row returned is the stored row for it, and a new group id is used only when no row of that keyword and domain exists |
| TranslationService.UpsertPreservesGrouping | src/Rest/TranslationsBundle/Service/TranslationService.php:98-111 | create-or-update keeps "rows share a group iff they share keyword and domain" |
| TranslationService.UpsertExisting | src/Rest/TranslationsBundle/Service/TranslationService.php:79-95 | an existing row is re-enabled only when disabled, takes the incoming text exactly when forced, keeps its group; no row is added |
| TranslationService.UpsertNew | src/Rest/TranslationsBundle/Service/TranslationService.php:98-115 | a new row is enabled with the incoming text, joins the group of its keyword and domain in another locale, or gets a group no other row has |
| TranslationService.UpsertFrame | src/Rest/TranslationsBundle/Service/TranslationService.php:70-116 | no row other than the incoming one changes |
| TranslationService.UpsertSeq | src/Rest/TranslationsBundle/Controller/TranslationsController.php:294-296 | the table after create-or-update of each entity in order holds the old keys plus exactly the entities' keys |
| TranslationService.UpsertSeqProperties | src/Rest/TranslationsBundle/Controller/TranslationsController.php:294-296 | the table after a batch keeps the grouping invariant, keeps every old key and leaves rows no entity names unchanged |
| TranslationService.UpsertAll | src/Rest/TranslationsBundle/Controller/TranslationsController.php:292-298 | one row per entity, in order, each being that entity's key with its row in the final table, as the managed entities are serialized only after the loop; the table gains exactly the entities' keys |
| TranslationService.RepeatedKeyShowsFinalRow | src/Rest/TranslationsBundle/Controller/TranslationsController.php:292-298 | an entity that the last call updates again is shown, at its earlier position too, as that last call left it |
| TranslationService.UpsertAllProperties | src/Rest/TranslationsBundle/Controller/TranslationsController.php:292-298 | a batch keeps the grouping invariant, returns one row per entity in input order, each the final row of that entity's key, stores every posted key, keeps every old key and leaves rows no entity names unchanged |
| TranslationService.SetStatusByKeyword | src/Rest/TranslationsBundle/Service/TranslationService.php:129-134 | exactly the rows of that keyword and domain get the new status; nothing else changes |
| TranslationService.SetStatusOf | src/Rest/TranslationsBundle/Service/TranslationService.php:149-154 | exactly the stored rows among the found keys get the new status; no row is added or removed |
| TranslationService.SetStatusPreservesGrouping | src/Rest/TranslationsBundle/Service/TranslationService.php:124-177 | status transitions keep the grouping invariant |
| TranslationService.EnableAfterDeprecate | src/Rest/TranslationsBundle/Service/TranslationService.php:124-177 | enabling a keyword after deprecating it leaves the table as enabling alone would |
| TranslationService.TranslationService.SetStatus | src/Rest/TranslationsBundle/Service/TranslationService.php:132-136 | the row-by-row loop leaves the table equal to `SetStatusOf` |
| TranslationService.TranslationService.DeprecateTranslations | src/Rest/TranslationsBundle/Service/TranslationService.php:124-137 | the table becomes `SetStatusByKeyword(..., DEPRECATED)` |
| TranslationService.TranslationService.DisableDeprecatedTranslations | src/Rest/TranslationsBundle/Service/TranslationService.php:144-157 | the rows the lookup found become DISABLED, nothing else changes |
| TranslationService.TranslationService.EnableDeprecatedTranslations | src/Rest/TranslationsBundle/Service/TranslationService.php:164-177 | the table becomes `SetStatusByKeyword(..., ENABLED)` |
| TranslationsController.FindAllNotDisabled | src/Rest/TranslationsBundle/Controller/TranslationsController.php:71-72 | the rows of the locale (and domain, when given) that are not disabled, with their entries unchanged |
| TranslationsController.GetTranslationsAction | src/Rest/TranslationsBundle/Controller/TranslationsController.php:63-75 | a falsy locale is NotFound "locale is required"; otherwise every non-disabled row of the locale |
| TranslationsController.GetTranslationsByDomainAction | src/Rest/TranslationsBundle/Controller/TranslationsController.php:124-136 | as above, restricted to the domain |
| TranslationsController.GetTranslationAction | src/Rest/TranslationsBundle/Controller/TranslationsController.php:193-211 | a falsy locale is NotFound "locale is required"; the row is returned exactly when it exists and is not disabled, else an empty NotFound |
| TranslationsController.PostTranslationsAction | src/Rest/TranslationsBundle/Controller/TranslationsController.php:279-299 | every row's domain becomes the path domain; fails with nothing changed exactly when a row lacks locale, keyword or text; otherwise the table is the in-order batch with `force` true only for "true", and the output shows each posted entity as the whole batch left it |
| TranslationsController.Postable | src/Rest/TranslationsBundle/Controller/TranslationsController.php:288-293 | a posted row is usable exactly when it names locale, keyword and text; the domain comes from the path |
| TranslationsController.PostableWithDomain | src/Rest/TranslationsBundle/Controller/TranslationsController.php:288-293 | once the path domain is written in, a row is valid exactly when it is postable, and then it builds the posted entity |
| TranslationsController.PostedEntities | src/Rest/TranslationsBundle/Controller/TranslationsController.php:288-293 | one entity per posted row, each the entity that row builds once its domain is the path domain |
| TranslationsController.OverwriteDomain | src/Rest/TranslationsBundle/Controller/TranslationsController.php:288-290 | one row per posted row, each that row with its domain replaced by the path domain |
| TranslationsController.CreateOrUpdateEach | src/Rest/TranslationsBundle/Controller/TranslationsController.php:294-296 | the loop leaves the table equal to `UpsertSeq` over the entities in order, keeps the grouping invariant, and collects the handles (keys) of the returned entities, which are `KeysOf` the entities |
| TranslationsController.KeysOf | src/Rest/TranslationsBundle/Controller/TranslationsController.php:294-296 | the keys of the entities, one per entity, in order |
| TranslationsController.Serialized | src/Rest/TranslationsBundle/Controller/TranslationsController.php:298 | each collected entity is shown with its row as it stands when the response is built |
| TranslationsController.SetStatusByKeywordsEffect | src/Rest/TranslationsBundle/Controller/TranslationsController.php:362-364 | applying the transition per listed keyword sets the status of exactly the domain's rows with a listed keyword |
| TranslationsController.SetStatusByKeywords | src/Rest/TranslationsBundle/Controller/TranslationsController.php:362-364 | a keyword-by-keyword transition adds or removes no row and changes no text or group; its effect on statuses is `SetStatusByKeywordsEffect` |
| TranslationsController.ValidateKeywords | src/Rest/TranslationsBundle/Controller/TranslationsController.php:356-360 | succeeds exactly when every element has a keyword, else `NOT_VALID` |
| TranslationsController.DeprecateTranslationsAction | src/Rest/TranslationsBundle/Controller/TranslationsController.php:348-365 | all or nothing: a body element without keyword changes nothing; otherwise the domain's rows with listed keywords become DEPRECATED |
| TranslationsController.EnableDeprecatedTranslationsAction | src/Rest/TranslationsBundle/Controller/TranslationsController.php:478-495 | all or nothing: as above with ENABLED |
| TranslationsController.DisableDeprecatedTranslationsAction | src/Rest/TranslationsBundle/Controller/TranslationsController.php:414-427 | a body without `date` is `NOT_VALID` and changes nothing; otherwise the rows found deprecated before that date in the domain become DISABLED |
| TranslationsController.KeywordTransitionsPreserveGrouping | src/Rest/TranslationsBundle/Controller/TranslationsController.php:362-364 | keyword transitions keep the grouping invariant |
| MediaController.PatchMedia | src/Rest/MediaBundle/Controller/MediaController.php:553-572 | the upload is kept and `updatedAt` is the new time |
| MediaController.PatchMediaFields | src/Rest/MediaBundle/Controller/MediaController.php:553-569 | each field keeps its value unless the incoming one is truthy, and a truthy incoming value is taken |
| MediaController.PatchMediaWithNothingTouchesOnly | src/Rest/MediaBundle/Controller/MediaController.php:553-572 | a put with every field falsy changes only `updatedAt` |
| MediaController.PatchMediaDefaultModelMovesToFolderOne | src/Rest/MediaBundle/Controller/MediaController.php:553-558 | a put that leaves the model's default folder id moves the media to folder 1 |
| MediaController.DefaultMediaModel | src/Rest/MediaBundle/Model/MediaModel.php:17 | a fresh media model has folder id 1 and every other field null |
| MediaController.PatchMediaIdempotent | src/Rest/MediaBundle/Controller/MediaController.php:553-572 | putting the same media fields twice equals putting them once |
| MediaController.PatchFolder | src/Rest/MediaBundle/Controller/MediaController.php:663-673 | parent, children and creation time are kept |
| MediaController.PatchFolderFields | src/Rest/MediaBundle/Controller/MediaController.php:663-673 | a put folder is undeleted and touched; name, internal name and rel change only to truthy values |
| MediaController.PatchFolderIdempotent | src/Rest/MediaBundle/Controller/MediaController.php:663-673 | putting the same folder fields twice equals putting them once |
| MediaController.NewFolder | src/Rest/MediaBundle/Controller/MediaController.php:356-365 | keeps the posted name, internal name and rel; created and updated at the same time, not deleted, no children; no parent for parent id 0, otherwise the folder found under that id (none when missing) |
| MediaController.UploadOf | src/Rest/MediaBundle/Controller/MediaController.php:452-460 | non-empty content is uploaded as a named file, otherwise the url is used |
| MediaController.NewMedia | src/Rest/MediaBundle/Controller/MediaController.php:448-471 | the folder is the given id or folder 1 when null; name, description and copyright are copied as given |
| MediaController.SelfMoveCreatesCycle | src/Rest/MediaBundle/Controller/MediaController.php:746-750 | moving a folder into itself, which the guard admits whenever the children list leaves the folder out, leaves a folder that never reaches a root |
| MediaController.Moved | src/Rest/MediaBundle/Controller/MediaController.php:749-750 | the moved folder's parent becomes the target and the target's children gain it; no other folder's parent or children change |
| MediaController.MoveOutsideSubtreeKeepsAcyclic | src/Rest/MediaBundle/Controller/MediaController.php:749-750 | a move under a folder outside the moved subtree keeps the tree acyclic |
| MediaController.GuardedMoveKeepsAcyclic | src/Rest/MediaBundle/Controller/MediaController.php:746-752 | with the corrected guard and a complete children list, an accepted move keeps the tree acyclic |
| MediaController.MediaLibrary.PostFolderAction | src/Rest/MediaBundle/Controller/MediaController.php:349-368 | validation errors are a 400 with nothing saved; otherwise exactly one new folder is saved under the next id |
| MediaController.MediaLibrary.PostMediaAction | src/Rest/MediaBundle/Controller/MediaController.php:440-473 | validation errors and a failed file creation are 400s with nothing saved; otherwise exactly one new media item, with folder and fields set, is saved |
| MediaController.MediaLibrary.PutMediaAction | src/Rest/MediaBundle/Controller/MediaController.php:544-574 | validation errors are a 400, a missing item an error, both without change; otherwise only that item changes, to its patch; `Valid` is kept |
| MediaController.MediaLibrary.PutFolderAction | src/Rest/MediaBundle/Controller/MediaController.php:652-676 | validation errors are a 400, a missing folder an error, both without change; otherwise only that folder changes, to its patch; `Valid` is kept |
| MediaController.MediaLibrary.MoveFolderAction | src/Rest/MediaBundle/Controller/MediaController.php:736-757 | an existing target among the children is refused with nothing changed; a missing folder is an error; otherwise the folder's parent becomes the target and the target's children gain it; `Valid` is kept |
| MediaController.MediaLibrary.MoveFolderGuarded | src/Rest/MediaBundle/Controller/MediaController.php:746-752 | the move with a guard that also refuses the folder itself; an accepted move keeps the tree acyclic; `Valid` is kept |
| ApiKeyAuthenticator.Normalize | src/Rest/CoreBundle/Security/ApiKeyAuthenticator.php:53 | header names compare after lower-casing and mapping `_` to `-`, character by character |
| ApiKeyAuthenticator.NormalizeIdempotent | src/Rest/CoreBundle/Security/ApiKeyAuthenticator.php:53 | a normalized header name is its own normal form |
| ApiKeyAuthenticator.DefaultHeaderKey | src/Rest/CoreBundle/Security/ApiKeyAuthenticator.php:17 | the fixed header `X-Api-Key` is filed as `x-api-key` |
| ApiKeyAuthenticator.FindByApiKey | src/Rest/CoreBundle/Security/ApiKeyAuthenticator.php:92 | the first user whose api key equals the key, and `null` exactly when no user holds it |
| ApiKeyAuthenticator.Authenticator.Supports | src/Rest/CoreBundle/Security/ApiKeyAuthenticator.php:51-58 | true exactly when the fixed `X-Api-Key` header is present |
| ApiKeyAuthenticator.Authenticator.GetCredentials | src/Rest/CoreBundle/Security/ApiKeyAuthenticator.php:65-74 | the key is the configured header's value, and null exactly when that is absent or falsy |
| ApiKeyAuthenticator.Authenticator.GetUser | src/Rest/CoreBundle/Security/ApiKeyAuthenticator.php:82-93 | no user for a null key; otherwise a user holding the key, present whenever one exists |
| ApiKeyAuthenticator.Authenticator.CheckCredentials | src/Rest/CoreBundle/Security/ApiKeyAuthenticator.php:101-104 | every found user is accepted |
| ApiKeyAuthenticator.Authenticator.OnAuthenticationSuccess | src/Rest/CoreBundle/Security/ApiKeyAuthenticator.php:111-114 | success gives no response |
| ApiKeyAuthenticator.Authenticator.OnAuthenticationFailure | src/Rest/CoreBundle/Security/ApiKeyAuthenticator.php:122-129 | 403 "Authentication based on api key failed" |
| ApiKeyAuthenticator.Authenticator.Start | src/Rest/CoreBundle/Security/ApiKeyAuthenticator.php:137-144 | 401 "Authentication Required" |
| ApiKeyAuthenticator.Authenticator.SupportsRememberMe | src/Rest/CoreBundle/Security/ApiKeyAuthenticator.php:146-149 | remember-me is never supported |
| ApiKeyAuthenticator.Authenticator.Authenticate | src/Rest/CoreBundle/Security/ApiKeyAuthenticator.php:51-129 | unsupported requests are skipped, rejections carry the 403, authentications carry no response |
| ApiKeyAuthenticator.AuthenticatedExactlyByKey | src/Rest/CoreBundle/Security/ApiKeyAuthenticator.php:51-104 | authenticated exactly when `X-Api-Key` is present, the configured header is truthy and some user holds that value; the user holds it |
| ApiKeyAuthenticator.SupportedRequestIsDecided | src/Rest/CoreBundle/Security/ApiKeyAuthenticator.php:51-129 | a supported request ends authenticated or rejected, never skipped |
| ApiKeyAuthenticator.DefaultHeaderAloneIsRejected | src/Rest/CoreBundle/Security/ApiKeyAuthenticator.php:53-68 | with a different configured header, a request carrying only `X-Api-Key` is supported yet always rejected |
| ApiKeyAuthenticator.ConfiguredHeaderAloneIsSkipped | src/Rest/CoreBundle/Security/ApiKeyAuthenticator.php:53-68 | with a different configured header, a key sent only there is never used |
| ApiKeyAuthenticator.ZeroKeyIsRejected | src/Rest/CoreBundle/Security/ApiKeyAuthenticator.php:67-69 | the key "0" counts as no key and is rejected |
| AuthenticationController.RequiredRole | src/Rest/CoreBundle/Controller/AuthenticationController.php:60-64 | `ROLE_ADMIN` exactly for your own id, `ROLE_SUPER_ADMIN` exactly for any other |
| AuthenticationController.Regeneration | src/Rest/CoreBundle/Controller/AuthenticationController.php:57-93 | access is denied first when the role is not granted; succeeds exactly when granted and the user exists with an api key; the redirect is the edit page of the same id |
| AuthenticationController.DeniedRegardlessOfStore | src/Rest/CoreBundle/Controller/AuthenticationController.php:65-71 | the role check precedes the lookup: a denied caller gets the same answer whatever is stored |
| AuthenticationController.SuperAdminMayChangeOwnKey | src/Rest/CoreBundle/Controller/AuthenticationController.php:60-65 | under a hierarchy where super admins are admins, whoever may change another's key may change their own |
| AuthenticationController.UserStore.GenerateKeyAction | src/Rest/CoreBundle/Controller/AuthenticationController.php:57-93 | answers as `Regeneration`; on a refusal nothing changes; on success only the target's key changes, to the fresh key |
| ConfigController.GetConfigAction | src/Rest/ConfigBundle/Controller/ConfigController.php:71-91 | the first configured class in order whose internal name matches answers with its first row; not-found "not found" exactly when none matches; the form submissions play no part |

## Left out

- Pager internals: the library's range checks, page count and windowing are functions supplied by the caller. Whole-page properties assume `ConventionalPager` and are not proved of the real library.
- `Pagerfanta.Pager.constructor`: the defaults 10 and 1 are the library's, not this repository's. They are stated, not derived.
- A Doctrine query is modelled by the rows it denotes, read once. Query building and repeated reads are not modelled.
- JSON decoding of request bodies: bodies arrive as decoded sequences of string maps. Values of other JSON types are not modelled.
- Translation rows: the `REST` file label, translation ids and the timestamps the repository keeps are not modelled.
- `TranslationService.Upsert`: the repository's `updateTranslations` and `createTranslations` are modelled as storing the text under the given group. The row returned after creation is the stored row.
- `TranslationsController.CreateOrUpdateEach`: a managed entity is modelled by its key, and the response shows each row as the table holds it after the batch. Doctrine's identity map and lazy serialization are not modelled beyond that.
- `TranslationsController.DisableDeprecatedTranslationsAction`: date parsing and the deprecated-before-date query are not modelled. The rows found are a parameter.
- `TranslationService.Upsert`: when a new locale joins an existing keyword and domain, the row whose group it takes is chosen arbitrarily from the table (a map, with no order). Under `WellGrouped` every candidate has the same group, so the choice does not affect the result, as it does not in the source, where `findOneBy` has no defined order either.
- `ApiKeyAuthenticator.FindByApiKey` reads the user table in a fixed order and picks the first match. Doctrine's `findOneBy` has no defined order, so which of several users sharing a key is found is not modelled.
- Media: the temporary file, base64 decoding and `MediaManager::createNew` are not modelled. What the manager creates, or its failure, is a parameter.
- Media timestamps (`new \DateTime()`) are a parameter `now`.
- Media validation: only the number of violations is modelled, not their content.
- Media responses: views and status codes are named outcomes. A setter called on a missing entity is the outcome `MissingEntity`, with nothing stored.
- `deleteFolderAction`, `deleteMediaAction` and the media GET endpoints are not modelled.
- `getChildren`, `recover()` and the tree listener that runs at flush belong to the tree extension. The children list is a parameter. Any check the listener makes at flush and the nested-set rebuild after a move are not modelled.
- Folder children are a list of ids. `addChild` is modelled as appending the id. Doctrine collection semantics are not modelled.
- `MediaController.MediaLibrary.PostFolderAction`: the posted folder's own parent, when a parent id of 0 is given, is modelled as none.
- Request headers are a map from normalized name to first value. Multi-valued headers are not modelled.
- `ApiKeyAuthenticator.Authenticator.Authenticate` is the Guard framework's order of calls. The framework is not modelled beyond that order.
- `AuthenticationController.UserStore.GenerateKeyAction`: UUID generation is a parameter `freshKey`. The edit-initialise event, the flash message and URL generation are not modelled.
- `AuthenticationController.UserStore.GenerateKeyAction`: role checks are a parameter `isGranted`, so role hierarchies are not modelled.
- `ConfigController.GetConfigAction`: internal names are compared with strict string equality, not PHP's loose `==`. This is weaker for names that loosely equal a non-identical string.
- `ConfigController.GetConfigAction`: instantiating each class is modelled by its internal name. The row `findOneBy([])` returns is a parameter.
- MenuController, GroupController, RoleController, the Swagger and documentation controllers, bundle wiring, models and entities are not part of this model, beyond the datatypes above.

## Findings

| source | as written | input that shows it | evidently intended | confidence | as-written member | corrected member |
|---|---|---|---|---|---|---|
| src/Rest/MediaBundle/Controller/MediaController.php:746-750 | the move is refused only when the target is among `getChildren(original)`. The tree extension's children list does not include the folder itself. | `PUT /folder/5/5` (route `/folder/{id}/{targetId}`) for an existing folder 5: the guard passes and `setParent` makes folder 5 its own parent | refuse a move that would make a folder its own ancestor: into itself as well as into any descendant | medium: relies on `getChildren` excluding the node itself. The tree extension's nested-set listener, which is not modelled, probably refuses a self-parent at flush; PHP would then throw an exception instead of storing folder 5 as its own parent, so the likely outcome is an unguarded error rather than a stored cycle; not executed | MediaController.MediaLibrary.MoveFolderAction, MediaController.SelfMoveCreatesCycle | MediaController.MediaLibrary.MoveFolderGuarded, MediaController.GuardedMoveKeepsAcyclic |
