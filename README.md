# Documents and auth slices

A model of the two Redux slices of a local-first document client.

The documents slice is a normalised entity store:

- `data.allIds` lists the document ids in insertion order.
- `data.byId` maps each id to its record.
- Beside them sit the view `filter`, a shared `isLoading` flag and an `error` slot.

Documents are added from the server's response and edited locally, which marks them dirty. A batched sync sends a snapshot of the dirty documents. The server's acknowledgments then mark documents clean. The auth slice is a three-transition sign-in state machine; a session is authenticated unless its token is the empty string.

Layout:

- `common.dfy`: `Option`, `Error` (a JavaScript error, reduced to its message), `ApiOutcome` (how an awaited API call settles) and `ThunkRun` (what a thunk sends to the API and the actions it dispatches).
- `document_store.dfy` (`DocumentStore`): the documents state as a value, the store invariant `Valid`, and one next-state function per reducer case.
- `documents_reducer.dfy` (`DocumentsReducer.DocumentsSlice`): the same reducer cases as a class whose methods update its fields in place. Each method keeps `Valid()` and ends in the state the matching `DocumentStore` function computes. The acknowledgment `forEach` is a loop.
- `document_selectors.dfy` (`DocumentSelectors`): the selectors as functions, with the order, subsequence, partition and count lemmas.
- `document_actions.dfy` (`DocumentActions`): the action datatype, the reducer `Reduce`, and dispatching a list of actions (`ReduceAll`, which is `None` when a reducer case would throw). It also holds the `addDocument` and `syncDirtyDocuments` thunks and the lemmas about whole runs, including the staleness hazard.
- `auth.dfy`, `auth_reducer.dfy`, `auth_thunk.dfy`: the same three layers for the auth slice.

On these points the model follows the code exactly:

- `editDocument` and `syncDocumentsSuccess` dereference `byId[id]` without a guard. A missing id makes `Object.assign` throw, so "id present" is a precondition. It is not modelled as a silent no-op.
- `addDocumentSuccess` copies `isDirty` from the server's payload; it does not force it to false. The selectors compare the flag with `=== true` and `=== false`. The flag is therefore a three-valued `DirtyFlag`, and `Unset` stands for any non-boolean value. The dirty and clean views partition the documents only when every flag is boolean.
- `editDocument` always assigns the payload's `updatedAt`, so a patch without one leaves `updatedAt` undefined. `Document.updatedAt` is an `Option` for that reason.
- `selectAllDocumentsCount` is the length of `allIds`, not of the document list. The two agree only under the store invariant.

## Model

| member | source | states |
|---|---|---|
| `DocumentStore.InitialStateValid` | src/modules/documents/documentsSlice.js:10-18 | The initial state has an empty store, filter NONE, not loading, no error, and satisfies the store invariant. |
| `DocumentStore.SetFilter` | src/modules/documents/documentsSlice.js:24-30 | A value among the three filter constants becomes the filter. Any other value leaves the whole state unchanged. Data, loading and error never change, and the invariant is kept. |
| `DocumentStore.RequestStart` | src/modules/documents/documentsSlice.js:31-34 | Start (the same case body as `syncDocumentsStart` at lines 77-80) sets loading and clears the error. Data and filter are untouched and the invariant is kept. |
| `DocumentStore.RequestFailure` | src/modules/documents/documentsSlice.js:62-67 | Failure (the same case body as `syncDocumentsFailure` at lines 95-100) stores the error and clears loading. Data and filter are untouched. |
| `DocumentStore.AddDocumentSuccess` | src/modules/documents/documentsSlice.js:35-61 | The record is stored under its id and every other record is kept. The id is appended only when absent; re-adding keeps order and count. Loading and error are cleared, and the invariant is kept. |
| `DocumentStore.Patched` | src/modules/documents/documentsSlice.js:68-76 | The edited record is dirty and takes the patch's `updatedAt`, even when that is absent. Title, content and author present in the patch overwrite; absent ones are kept. `id` and `createdAt` are unchanged. |
| `DocumentStore.EditDocument` | src/modules/documents/documentsSlice.js:68-76 | Requires the id to be stored. Only that record changes, to its patched form. Ids, filter, loading and error are unchanged, and the invariant is kept. |
| `DocumentStore.MarkClean` | src/modules/documents/documentsSlice.js:84-90 | Requires every acknowledged id to be stored. The set of keys is unchanged. |
| `DocumentStore.SyncDocumentsSuccess` | src/modules/documents/documentsSlice.js:81-94 | Requires every acknowledged id to be stored. Each acknowledged record becomes clean with its other fields unchanged, and unacknowledged records are untouched. Loading and error are cleared, and the invariant is kept. |
| `DocumentStore.SyncDocumentsSuccessIdempotent` | src/modules/documents/documentsSlice.js:81-94 | Applying the same acknowledgments twice equals applying them once. |
| `DocumentsReducer.DocumentsSlice.constructor` | src/modules/documents/documentsSlice.js:10-18 | A new slice holds the initial state and satisfies the invariant. |
| `DocumentsReducer.DocumentsSlice.SetFilter` | src/modules/documents/documentsSlice.js:24-30 | In place: the new state is `DocumentStore.SetFilter` of the old one, and the invariant is kept. |
| `DocumentsReducer.DocumentsSlice.AddDocumentStart` | src/modules/documents/documentsSlice.js:31-34 | In place: the new state is `RequestStart` of the old one. |
| `DocumentsReducer.DocumentsSlice.AddDocumentSuccess` | src/modules/documents/documentsSlice.js:35-61 | In place: the append-if-absent and overwrite give `DocumentStore.AddDocumentSuccess` of the old state, and the invariant is kept. |
| `DocumentsReducer.DocumentsSlice.AddDocumentFailure` | src/modules/documents/documentsSlice.js:62-67 | In place: the new state is `RequestFailure` of the old one. |
| `DocumentsReducer.DocumentsSlice.EditDocument` | src/modules/documents/documentsSlice.js:68-76 | In place: requires the id to be stored. The field-by-field assign gives `DocumentStore.EditDocument` of the old state. |
| `DocumentsReducer.DocumentsSlice.SyncDocumentsStart` | src/modules/documents/documentsSlice.js:77-80 | In place: the new state is `RequestStart` of the old one. |
| `DocumentsReducer.DocumentsSlice.SyncDocumentsSuccess` | src/modules/documents/documentsSlice.js:81-94 | In place: the loop over the acknowledgments gives `DocumentStore.SyncDocumentsSuccess` of the old state, and the invariant is kept. |
| `DocumentsReducer.DocumentsSlice.SyncDocumentsFailure` | src/modules/documents/documentsSlice.js:95-100 | In place: the new state is `RequestFailure` of the old one. |
| `DocumentSelectors.Collect` | src/modules/documents/documentsSlice.js:154-155 | The fold lists at most one record per id. It lists all of them exactly when every id has a record, and then in id order. It contains exactly the records of the listed ids. |
| `DocumentSelectors.CollectFollowsPresentIds` | src/modules/documents/documentsSlice.js:154-155 | For any ids and records, the fold lists the record of each id that has one, one per occurrence, in the order of the ids. |
| `DocumentSelectors.WithFlag` | src/modules/documents/documentsSlice.js:168-172 | The filter keeps exactly the documents whose flag equals the given one. |
| `DocumentSelectors.WithFlagIsSubsequence` | src/modules/documents/documentsSlice.js:180-183 | The filtered list is an order-preserving subsequence of its input. |
| `DocumentSelectors.DirtyCleanPartition` | src/modules/documents/documentsSlice.js:163-173 | With boolean flags, the dirty and clean filters together hold every document exactly once, by multiset and by length. |
| `DocumentSelectors.UnsetInNeitherView` | src/modules/documents/documentsSlice.js:168-172 | A record with a non-boolean flag is in neither filtered view, so the two views together are shorter than the list. |
| `DocumentSelectors.SelectDocument` | src/modules/documents/documentsSlice.js:150 | The record under the id, present exactly when stored. Under the invariant it carries that id and the id is listed. |
| `DocumentSelectors.SelectError` | src/modules/documents/documentsSlice.js:145-146 | The stored error's message, or null when no error is stored. |
| `DocumentSelectors.SelectAllDocuments` | src/modules/documents/documentsSlice.js:152-156 | Only stored records are listed. Under the invariant there is one per id, in `allIds` order, each carrying that id. |
| `DocumentSelectors.AllDocumentsFollowPresentIds` | src/modules/documents/documentsSlice.js:152-156 | In any store, valid or not, the list holds the records of the ids in `allIds` that have one, in `allIds` order, and nothing else. |
| `DocumentSelectors.SkippedIdKeepsOrder` | src/modules/documents/documentsSlice.js:152-156 | With ids a, b, c and records only for a and c, the list is the record of a followed by the record of c. |
| `DocumentSelectors.ListedDocumentIsStored` | src/modules/documents/documentsSlice.js:152-156 | Under the invariant, every listed document is the record stored under its own id. |
| `DocumentSelectors.AllDocumentsListEveryRecordOnce` | src/modules/documents/documentsSlice.js:152-156 | Under the invariant an id is stored exactly when a listed document carries it, and no two listed documents share an id. |
| `DocumentSelectors.SelectAllDocumentsCount` | src/modules/documents/documentsSlice.js:158-161 | The count bounds the document list, and it equals the list's length under the invariant. |
| `DocumentSelectors.CountDisagreesWithoutInvariant` | src/modules/documents/documentsSlice.js:158-161 | An id without a record is counted but not listed. |
| `DocumentSelectors.SelectOnlyDirtyDocuments` | src/modules/documents/documentsSlice.js:180-183 | Exactly the listed documents whose flag is true, as an order-preserving subsequence of the list. |
| `DocumentSelectors.SelectOnlyDirtyDocumentsCount` | src/modules/documents/documentsSlice.js:185-188 | At most the total count, and zero exactly when no listed document is dirty. |
| `DocumentSelectors.SelectFilteredDocuments` | src/modules/documents/documentsSlice.js:163-173 | NONE gives the whole list and ONLY_DIRTY the dirty view. Any other filter gives the documents whose flag is false. The result is always a subsequence of the list. |
| `DocumentSelectors.SelectFilteredDocumentsCount` | src/modules/documents/documentsSlice.js:175-178 | At most the total count, and the whole list's length under NONE. |
| `DocumentSelectors.FilteredViewsPartition` | src/modules/documents/documentsSlice.js:163-173 | With boolean flags, the ONLY_DIRTY and ONLY_CLEAN views partition the list, by multiset and by count. NONE returns the list unchanged. |
| `DocumentActions.Reduce` | src/modules/documents/documentsSlice.js:20-102 | Every reducer case that does not throw keeps the store invariant. Only `addDocumentSuccess` changes the set of ids. Apart from `setFilter` and `editDocument`, loading is set exactly by the two start actions. |
| `DocumentActions.ReduceAll` | src/modules/documents/documentsSlice.js:20-102 | Any run of actions in which no reducer case throws keeps the store invariant. |
| `DocumentActions.AddDocument` | src/modules/documents/documentsSlice.js:117-125 | Called with a whole document, the thunk sends its title, content and author and none of its other fields. It dispatches start, then success with the server's record or failure with the rejection. |
| `DocumentActions.AddDocumentResolved` | src/modules/documents/documentsSlice.js:117-125 | A resolved run stores the server's record under its id, keeps the invariant and ends the request without error. The count grows by one only for a new id. |
| `DocumentActions.AddDocumentRejected` | src/modules/documents/documentsSlice.js:117-125 | A rejected run leaves the data and filter unchanged, ends the request, and exposes the rejection's message. |
| `DocumentActions.SyncDirtyDocuments` | src/modules/documents/documentsSlice.js:127-137 | The request is exactly the dirty-only view at call time, in list order. The thunk dispatches start, then success with the acknowledgments or failure with the rejection. |
| `DocumentActions.SnapshotUnaffectedByStart` | src/modules/documents/documentsSlice.js:128-130 | Reading the dirty view before or after the start action gives the same snapshot. |
| `DocumentActions.DirtyViewIdsPresent` | src/modules/documents/documentsSlice.js:127-133 | Every id sent by the sync thunk names a stored dirty record, so acknowledging the snapshot cannot throw. |
| `DocumentActions.DirtyRecordIsSent` | src/modules/documents/documentsSlice.js:127-133 | Every stored dirty record is in the snapshot and its id is sent. |
| `DocumentActions.SyncAcknowledgingAllLeavesNothingDirty` | src/modules/documents/documentsSlice.js:127-137 | When the server acknowledges every sent id, the run keeps the invariant and the order and leaves the dirty view empty. |
| `DocumentActions.SyncPartialAcknowledgment` | src/modules/documents/documentsSlice.js:81-94 | After a successful sync, a record is dirty exactly when it was dirty and was not acknowledged. |
| `DocumentActions.SyncRejected` | src/modules/documents/documentsSlice.js:127-137 | A rejected sync leaves every record and the dirty view unchanged, ends the request, and exposes the rejection's message. |
| `DocumentActions.StaleAcknowledgmentClearsLaterEdit` | src/modules/documents/documentsSlice.js:127-137 | Snapshot, then a title edit, then the snapshot's acknowledgment: the edited record ends clean with a title the server never received. |
| `DocumentActions.AddEditScenario` | src/modules/documents/documentsSlice.test.js:239-247 | Two clean documents are added and the second is edited. Both are listed in order, and only the edited one is dirty. |
| `DocumentActions.AddEditSyncScenario` | src/modules/documents/documentsSlice.test.js:239-260 | In that state the sync sends the edited document. An acknowledgment of it alone leaves both clean and the dirty view empty. |
| `Auth.InitialStateUnauthenticated` | src/modules/auth/authSlice.js:4-11 | The initial state is not loading, has no error and an empty user name and token, and is not authenticated. |
| `Auth.SelectIsAuthenticated` | src/modules/auth/authSlice.js:63-66 | Authenticated exactly when the token is not the empty string. A missing or non-string token counts as authenticated. |
| `Auth.SignInStart` | src/modules/auth/authSlice.js:17-20 | Sets loading, clears the error, and keeps the user and so the authentication status. |
| `Auth.SignInSuccess` | src/modules/auth/authSlice.js:21-27 | Stores the token and user name as given, and clears loading and error. Authenticated afterwards exactly when the token is not the empty string. |
| `Auth.SignInFailure` | src/modules/auth/authSlice.js:28-37 | Stores the error, resets token and user name to empty, and clears loading. Never authenticated afterwards. |
| `AuthReducer.AuthSlice.constructor` | src/modules/auth/authSlice.js:4-11 | A new slice holds the initial state. |
| `AuthReducer.AuthSlice.SignInStart` | src/modules/auth/authSlice.js:17-20 | In place: the new state is `Auth.SignInStart` of the old one. |
| `AuthReducer.AuthSlice.SignInSuccess` | src/modules/auth/authSlice.js:21-27 | In place: the new state is `Auth.SignInSuccess` of the old one, authenticated exactly when the token is not the empty string. |
| `AuthReducer.AuthSlice.SignInFailure` | src/modules/auth/authSlice.js:28-37 | In place: the new state is `Auth.SignInFailure` of the old one, and it is not authenticated. |
| `AuthThunk.Reduce` | src/modules/auth/authSlice.js:13-39 | Loading is set exactly by the start action, and start keeps the user. |
| `AuthThunk.ReduceAll` | src/modules/auth/authSlice.js:13-39 | After any run, loading is set exactly when the last action is a start. The error is the last action's, when that is a failure, and none otherwise. The user is the last success's, or empty after a last failure, or unchanged when there was neither. The session is authenticated exactly when the last success or failure is a success whose token is not the empty string; with neither, the status is unchanged. |
| `AuthThunk.SignIn` | src/modules/auth/authSlice.js:45-57 | The credentials are sent as given. The thunk dispatches start, then success with the response's token and user name, or failure with the rejection. |
| `AuthThunk.SignInOutcome` | src/modules/auth/authSlice.js:45-57 | Every run ends the request. It is authenticated exactly when the API resolved with a token other than the empty string, including a missing one. The stored user and error match the outcome. |

## Left out

- The network calls behind `api.addDocument`, `api.syncDocuments` and `api.signIn`, and the `await` on them: the API module is not part of this model. Each call's outcome is a parameter (`ApiOutcome`).
- Redux Toolkit's machinery: action type strings, Immer's draft proxies and `createSelector` memoisation. Selectors recompute. `Reduce` has no case for foreign action types, and it does not model the `reducer(undefined, {})` default to `initialState`.
- Thunks in flight at the same time, racing on the shared `isLoading` and `error`. Only the sequential form of the snapshot staleness is modelled (`StaleAcknowledgmentClearsLaterEdit`).
- In a live store, a `syncDocumentsSuccess` whose reducer throws (an acknowledged id with no record) is caught by the thunk's own `try`, which then dispatches `syncDocumentsFailure` with the `TypeError`. `SyncDirtyDocuments` lists the actions as a recording store sees them, and `ReduceAll` returns `None` for such a run.
- `selectIsLoading`, `selectFilter`, `selectToken`, `selectUserName` and the auth `selectError` return a state field unchanged. The model reads those fields directly.
- Errors are reduced to their message. The auth slice stores its failure payload as is; it is modelled as the same `Error` record.
- Ids and date strings are opaque strings; `cuid` generation is not modelled.
- Payload keys other than title, content, author and `updatedAt`, which `...rest` would copy into an edited record, are not modelled. Title, content and author are always strings, and the filter payload is always a string. The auth user's token and user name are `None` for any value that is not a string; the model does not tell such values apart.
- `DocumentStore.MarkClean`: specified by what it leaves behind, not as the one-at-a-time `forEach`. The loop is in `DocumentsReducer.DocumentsSlice.SyncDocumentsSuccess`, which is proved equal to it.
