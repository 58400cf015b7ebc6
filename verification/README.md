# Marketing-Fund-Manager: request-collection core in Dafny

This project models the request-collection layer of the marketing-budget request tracker's top-level
component (`App.tsx`) and the record types it uses (`types.ts`). Regional managers submit branch-level
spend requests. Territory managers approve, partially approve or reject them, and finance marks them paid.
The component keeps the request list in memory, mirrors it in browser local storage, and talks to a remote
`requests` table.

The model has five modules:

- `Wrappers` has the `Option` type. It stands for TypeScript's optional properties and nullable values.
- `Types` covers `types.ts`. It has the `UserRole` and `RequestStatus` enumerations with their string
  values, and the `BranchData`, `MarketingRequest` and `User` records.
- `Mapper` covers `mapFromDb` and `mapToDb`. A persisted row is a map from the ten table columns to
  values, so key presence can be stated. `Partial<MarketingRequest>` is `Patch`, where every property is
  an `Option`. Object spread is `Overlay` (partial over partial) and `Apply` (partial over whole record).
- `Requests` holds the pure list logic of `addRequest` and `updateRequestStatus`. It also builds the
  partial row sent to the store for a status update.
- `App` models the component state as one record, including the two local-storage keys. The handlers
  `fetchData`, `addRequest`, `updateRequestStatus`, `handleLogin`, `handleLogout`, `resetData` and the
  mount effect are transition functions. These outside effects become inputs:
  - the outcome of a remote read is `ReadOutcome`;
  - the outcome of a remote write is `WriteOutcome`;
  - the clock value is the `now` parameter;
  - the user's answer to the confirmation dialog is a boolean.

  The remote write a handler issues is part of its result, as `RemoteWrite`.

The model follows the code. `App.tsx` does not implement any of the following:

- no status-transition table: `updateRequestStatus` accepts any status;
- no duplicate-id rejection: `addRequest` prepends unconditionally;
- no rollback on a failed remote write: errors are only logged;
- no built-in seed fallback in `fetchData`: without a cache the list is left as it was.

Lemmas state these points where they are observable: `AddRequestKeepsDuplicateIds` and
`FailedInsertNotRolledBack`.

## Model

| member | source | states |
|---|---|---|
| Types.StatusValue | types.ts:10-17 | each status is persisted as a string that parses back to the same status |
| Types.ParseStatus | types.ts:10-17 | exactly the six member names parse to a status; every other string is rejected |
| Types.StatusEncodingBijective | types.ts:10-17 | parsing a name gives a status exactly when that status's value is the name (both directions) |
| Types.StatusEnumerationComplete | types.ts:10-17 | there are exactly six statuses, every status is one of them, and distinct statuses have distinct values |
| Types.RoleValue | types.ts:2-8 | each role's string value parses back to the same role |
| Types.ParseRole | types.ts:2-8 | exactly the five role names parse to a role |
| Types.RoleEncodingBijective | types.ts:2-8 | parsing a name gives a role exactly when that role's value is the name (both directions) |
| Types.RoleEnumerationComplete | types.ts:2-8 | there are exactly five roles, and distinct roles have distinct values |
| Mapper.ColumnName | App.tsx:30-39 | each column's snake_case key parses back to that column |
| Mapper.ColumnNamesDistinct | App.tsx:30-39 | no two columns share a snake_case key |
| Mapper.Whole | types.ts:42-53 | viewed as a partial record, a request defines all eight required properties, and the two optional ones exactly when it has them |
| Mapper.Apply | App.tsx:148-153 | spreading a partial record over a whole one agrees with spreading it over the whole one's partial view |
| Mapper.OverlayLaws | App.tsx:162-166 | spreading partial records: `{}` is neutral on either side, spreading is associative, and spreading the later operand again changes nothing |
| Mapper.ApplyOverlay | App.tsx:148-153 | spreading two partial records one after the other equals spreading their overlay |
| Mapper.ToDb | App.tsx:28-41 | a column is emitted exactly when its camelCase property is defined, and it carries that property's value unchanged (a status as its string value) |
| Mapper.ToDbWritesNoNulls | App.tsx:28-41 | mapToDb never writes a null column |
| Mapper.PartialRowExamples | App.tsx:28-41 | `{status, tmComment}` maps to exactly the columns `status` and `tm_comment`, and `{}` maps to the empty row |
| Mapper.FromDb | App.tsx:14-25 | the status is read from its string value; an optional property is set exactly when its column is present and not null (the values of all other properties are pinned by CanonicalRowRoundTrip) |
| Mapper.RoundTrip | App.tsx:14-41 | mapToDb of a whole request is a well-formed stored row, and mapFromDb reads the same request back (an unset optional stays unset) |
| Mapper.CanonicalRowRoundTrip | App.tsx:14-41 | for every well-formed stored row, mapToDb of the request mapFromDb reads from it is the row's non-null columns with their values unchanged (a null column reads as unset and is not written back); with no null column it is the row itself |
| Mapper.UpdateAgreesWithSpread | App.tsx:162-171 | writing mapToDb of a partial record over a stored row and reading it back gives the record with that partial record spread over it |
| Requests.AddRequest | App.tsx:129-133 | the new request is first, the old list is the unchanged tail, the length grows by one, and the count of the new id grows by one while every other id's count is unchanged |
| Requests.AddRequestKeepsDuplicateIds | App.tsx:129-130 | adding a request whose id is already present leaves at least two records with that id |
| Requests.UpdatePatch | App.tsx:162-166 | the patch always defines status and updatedAt; its status is the one from additionalData if defined, its updatedAt is `now`, and its other properties are exactly additionalData's |
| Requests.UpdateRecord | App.tsx:146-156 | a matching record gets updatedAt `now`; its status comes from additionalData if defined there, else from the argument; every other property comes from additionalData if defined there, else keeps its old value |
| Requests.UpdateRecordIsPatch | App.tsx:146-166 | the local rewrite of a matching record is exactly the spread of the partial record that is also sent to the store |
| Requests.UpdateRequestStatus | App.tsx:144-156 | length and order are kept, a record whose id differs from requestId is unchanged, and a record with that id is rewritten by UpdateRecord |
| Requests.UnknownIdLeavesListUnchanged | App.tsx:146-156 | an id that no record carries leaves the list equal to the old one |
| Requests.UpdateIdempotent | App.tsx:144-156 | repeating the same update with the same `now` changes nothing more, for every additionalData |
| Requests.UpdatesOfDifferentIdsCommute | App.tsx:144-156 | updates of two different ids give the same list in either order, when neither patch moves a record to another id (each leaves `id` unset or sets it to its own `requestId`) |
| Requests.UpdatePayload | App.tsx:161-166 | the update row always holds `status` and `updated_at`; `updated_at` is `now`; the other columns are exactly those of additionalData's defined properties, with the same values |
| Requests.PayloadMatchesLocalUpdate | App.tsx:144-171 | for each matching record, applying the update row to its stored row and reading it back gives the record the local list now holds |
| App.FromDbAll | App.tsx:66 | mapping the fetched rows keeps their number and order, one mapFromDb per row |
| App.FetchData | App.tsx:55-80 | non-empty rows set the list to the mapped rows in the store's order, and the cache to the same list; empty rows or an error set the list to the cached list if there is one, else leave it; the cache is then not written; loading ends and the session is untouched |
| App.EmptyRowsSameAsError | App.tsx:63-76 | an empty answer and an error lead to the same state |
| App.RefreshRestoresStoredList | App.tsx:65-68 | refreshing from the rows stored for a non-empty list yields that list and caches it |
| App.FailedRefreshKeepsLastGood | App.tsx:65-76 | a failed refresh after a successful one keeps the successful one's list |
| App.AddRequest | App.tsx:129-142 | the list becomes the new request followed by the old list; the cache is set to the same list; the view returns to the dashboard; mapToDb of the request is inserted; session and login are untouched, whatever the insert's outcome |
| App.InsertedRowReadsBack | App.tsx:135-137 | the inserted row is a well-formed stored row that reads back as the new request |
| App.FailedInsertNotRolledBack | App.tsx:129-141 | any two outcomes of the insert leave the same state, so a failed insert leaves the same state as a successful one, and the list is not restored |
| App.UpdateRequestStatus | App.tsx:144-177 | the list is rewritten by the list update; the cache is set to the new list; the update row is sent for `requestId`; view, login and session are untouched, whatever the outcome |
| App.UpdateTimestampAgrees | App.tsx:145-166 | the `updated_at` sent to the store equals the `updatedAt` of every rewritten record |
| App.Login | App.tsx:114-120 | the user is logged in and current; the session is stored when `remember` is true and otherwise left as it was; the list and its cache are untouched |
| App.Logout | App.tsx:122-127 | logged out, no current user, the dashboard view, and the stored session removed; the list and its cache are untouched |
| App.ResetData | App.tsx:179-185 | when confirmed, the list is the initial requests and the cache is removed; when not confirmed, nothing changes; login, current user, view, loading flag and stored session are untouched either way |
| App.Mount | App.tsx:82-95 | on mount the user is logged in exactly when a session user is stored, and that user is current; the stored session is kept; the list is the mapped rows when the store returns some, else the cached list if there is one, else the built-in initial requests; the cache is set to the mapped rows when the store returns some and is otherwise kept; the view is the dashboard and loading has ended |
| App.SessionAcrossReload | App.tsx:114-127 | a remembered login is restored on the next mount, and a logout is not |
| App.ResetThenOfflineMountShowsInitial | App.tsx:179-185 | after a confirmed reset, a reload with the store unreachable or empty shows the built-in initial requests, since the cache is gone |
| App.ReloadOfflineShowsCachedList | App.tsx:70-76 | after an addition or a status update, whatever its write outcome, a mount with the store unreachable shows the list that mutation cached |

## Left out

- Remote calls (`supabase.from('requests')…`, App.tsx:58-61, 137, 168-171) are foreign I/O. A read is the
  `ReadOutcome` input and a write is the `RemoteWrite` result. The store's column-wise update is modelled
  by `Mapper.Update`, which the payload lemmas use.
- The realtime change channel (App.tsx:97-111) is left out. It only re-runs `fetchData`, which is
  `App.FetchData` again. Subscribing and unsubscribing are not modelled.
- Local storage is modelled as two optional values (`Storage`). `JSON.stringify`/`JSON.parse` are not
  modelled, so unparsable stored text is left out:
  - a corrupt cache makes `JSON.parse` throw at App.tsx:71, which lands in the `catch` block; there the
    same parse throws again at line 76 and escapes `fetchData`;
  - a corrupt session (App.tsx:86-92) is caught and logged, and the user stays logged out.
- A failing `localStorage.setItem` (quota exceeded) is left out. At App.tsx:68 the throw falls into the
  `catch` block, which replaces the freshly fetched rows with the stale cache. At App.tsx:132 and 159 it
  aborts the handler before the remote write.
- `new Date().toISOString()` is the `now` parameter. The code does not order timestamps, so the model
  does not either.
- The render guard (App.tsx:187) shows the login screen unless the user is logged in and a current user
  is set. That condition is the predicate `App.Authenticated`, used in the contracts of `App.Mount` and
  `App.SessionAcrossReload`; the rendering itself is left out.
- Concurrency is left out: async interleavings and a refresh racing an update.
- Rendering, view components, `console.*` logging, `alert`, and the admin reference-data setters are left
  out. The setters replace whole lists and never touch requests.
- Mapper.FromDb: requires a well-formed stored row (`IsStoredRow`). The source casts `any` to
  `MarketingRequest` without checking, so a malformed row has no meaning in the model.
- App.FetchData: requires every fetched row to be well-formed, for the same reason as Mapper.FromDb.
- Mapper.FromDb: an absent column and a `null` column both read as an unset optional. The source would
  carry `null` into the record.
- Mapper.Patch: an `Option` field cannot tell an absent property from one explicitly set to `undefined`.
  The source's spread would clear a local field for the second; mapToDb skips both.
- `BranchData.amount` and `approvedAmount` are JavaScript numbers and are modelled as integers. The core
  does no arithmetic on them.
- The status-transition table, duplicate-id rejection, rollback on a failed write, and a built-in seed
  list when no cache exists are not in the code. They are not modelled as behaviour of it.
