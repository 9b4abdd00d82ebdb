/**
 * The documents slice state and its reducer cases, as pure next-state
 * functions (src/modules/documents/documentsSlice.js). The in-place form of the
 * same cases is the class in module DocumentsReducer; the lemmas about runs of
 * several actions are stated over these functions.
 */
module DocumentStore {
  import opened Common

  /** Ids are authority-assigned opaque strings (cuids). */
  type Id = string
  /** ISO date strings, treated as opaque. */
  type Timestamp = string

  /**
   * The value held in a document's `isDirty`. The reducer stores whatever the
   * payload carries and the selectors compare it with `=== true` and
   * `=== false`, so every non-boolean value (undefined, null, ...) behaves the
   * same: `Unset`.
   */
  datatype DirtyFlag = Dirty | Clean | Unset

  /** The seven fields `addDocumentSuccess` keeps from its payload. */
  datatype Document = Document(
    id: Id,
    title: string,
    createdAt: Timestamp,
    updatedAt: Option<Timestamp>,
    content: string,
    author: string,
    isDirty: DirtyFlag)

  /** An `editDocument` payload; None means the key is absent. */
  datatype Patch = Patch(
    id: Id,
    author: Option<string>,
    title: Option<string>,
    content: Option<string>,
    updatedAt: Option<Timestamp>)

  /** The normalised entity store: records by id plus the insertion order. */
  datatype Data = Data(byId: map<Id, Document>, allIds: seq<Id>)

  datatype DocumentsState = DocumentsState(
    isLoading: bool,
    error: Option<Error>,
    data: Data,
    filter: string)

  const NONE: string := "NONE"
  const ONLY_DIRTY: string := "ONLY_DIRTY"
  const ONLY_CLEAN: string := "ONLY_CLEAN"
  /** `Object.values(FilterTypes)`. */
  const FilterTypes: seq<string> := [NONE, ONLY_DIRTY, ONLY_CLEAN]

  const InitialState: DocumentsState :=
    DocumentsState(false, None, Data(map[], []), NONE)

  predicate NoDuplicates(ids: seq<Id>) {
    forall i, j :: 0 <= i < j < |ids| ==> ids[i] != ids[j]
  }

  /**
   * The store invariant: `allIds` has no duplicates, it holds exactly the keys
   * of `byId`, and each record sits under its own id.
   */
  ghost predicate DataValid(data: Data) {
    && NoDuplicates(data.allIds)
    && (forall id :: id in data.byId <==> id in data.allIds)
    && (forall id :: id in data.byId ==> data.byId[id].id == id)
  }

  ghost predicate Valid(s: DocumentsState) {
    DataValid(s.data) && s.filter in FilterTypes
  }

  lemma InitialStateValid()
    ensures Valid(InitialState)
    ensures InitialState.data.allIds == [] && InitialState.data.byId == map[]
    ensures !InitialState.isLoading && InitialState.error == None && InitialState.filter == NONE
  {
  }

  /** `setFilter`: only one of the three filter constants is accepted. */
  function SetFilter(s: DocumentsState, filter: string): (r: DocumentsState)
    ensures filter in FilterTypes ==> r.filter == filter
    ensures filter !in FilterTypes ==> r == s
    ensures r.data == s.data && r.isLoading == s.isLoading && r.error == s.error
    ensures Valid(s) ==> Valid(r)
  {
    if filter in FilterTypes then s.(filter := filter) else s
  }

  /** `addDocumentStart` and `syncDocumentsStart` (identical case bodies). */
  function RequestStart(s: DocumentsState): (r: DocumentsState)
    ensures r.isLoading && r.error == None
    ensures r.data == s.data && r.filter == s.filter
    ensures Valid(s) ==> Valid(r)
  {
    s.(isLoading := true, error := None)
  }

  /** `addDocumentFailure` and `syncDocumentsFailure` (identical case bodies). */
  function RequestFailure(s: DocumentsState, error: Error): (r: DocumentsState)
    ensures !r.isLoading && r.error == Some(error)
    ensures r.data == s.data && r.filter == s.filter
    ensures Valid(s) ==> Valid(r)
  {
    s.(isLoading := false, error := Some(error))
  }

  /**
   * `addDocumentSuccess`: the id is appended only when absent, the record is
   * stored (or overwritten) under its id, and the request is over.
   */
  function AddDocumentSuccess(s: DocumentsState, doc: Document): (r: DocumentsState)
    ensures doc.id in r.data.byId && r.data.byId[doc.id] == doc
    ensures r.data.byId.Keys == s.data.byId.Keys + {doc.id}
    ensures forall id :: id in s.data.byId && id != doc.id ==> r.data.byId[id] == s.data.byId[id]
    ensures doc.id in s.data.allIds ==> r.data.allIds == s.data.allIds
    ensures doc.id !in s.data.allIds ==> r.data.allIds == s.data.allIds + [doc.id]
    ensures !r.isLoading && r.error == None && r.filter == s.filter
    ensures Valid(s) ==> Valid(r)
  {
    var allIds := if doc.id in s.data.allIds then s.data.allIds else s.data.allIds + [doc.id];
    var r := s.(data := Data(s.data.byId[doc.id := doc], allIds), isLoading := false, error := None);
    assert Valid(s) ==> NoDuplicates(allIds) by {
      if Valid(s) && doc.id !in s.data.allIds {
        forall i, j | 0 <= i < j < |allIds| ensures allIds[i] != allIds[j] {
          if j == |s.data.allIds| {
            assert allIds[i] == s.data.allIds[i];
          }
        }
      }
    }
    r
  }

  /**
   * The record `editDocument` leaves behind: the keys present in the patch
   * overwrite, `updatedAt` is always taken from the patch (absent means it
   * becomes undefined), and the record is forced dirty.
   */
  function Patched(doc: Document, p: Patch): (r: Document)
    ensures r.isDirty == Dirty && r.updatedAt == p.updatedAt
    ensures r.id == doc.id && r.createdAt == doc.createdAt
    ensures p.title.Some? ==> r.title == p.title.value
    ensures p.title.None? ==> r.title == doc.title
    ensures p.content.Some? ==> r.content == p.content.value
    ensures p.content.None? ==> r.content == doc.content
    ensures p.author.Some? ==> r.author == p.author.value
    ensures p.author.None? ==> r.author == doc.author
  {
    doc.(title := p.title.GetOr(doc.title),
         content := p.content.GetOr(doc.content),
         author := p.author.GetOr(doc.author),
         updatedAt := p.updatedAt,
         isDirty := Dirty)
  }

  /**
   * `editDocument`: `Object.assign(state.data.byId[id], ...)` throws on a
   * missing id, so the id must be present.
   */
  function EditDocument(s: DocumentsState, p: Patch): (r: DocumentsState)
    requires p.id in s.data.byId
    ensures r.data.byId.Keys == s.data.byId.Keys
    ensures r.data.byId[p.id] == Patched(s.data.byId[p.id], p)
    ensures forall id :: id in s.data.byId && id != p.id ==> r.data.byId[id] == s.data.byId[id]
    ensures r.data.allIds == s.data.allIds && r.filter == s.filter
    ensures r.isLoading == s.isLoading && r.error == s.error
    ensures Valid(s) ==> Valid(r)
  {
    s.(data := s.data.(byId := s.data.byId[p.id := Patched(s.data.byId[p.id], p)]))
  }

  /** Every acknowledged id names a stored record. */
  predicate AllPresent(byId: map<Id, Document>, acked: seq<Id>) {
    forall i :: 0 <= i < |acked| ==> acked[i] in byId
  }

  /**
   * The records after `syncDocumentsSuccess`'s `forEach`: each acknowledged
   * record is marked clean and keeps its other fields; the rest are untouched.
   */
  function MarkClean(byId: map<Id, Document>, acked: seq<Id>): (r: map<Id, Document>)
    requires AllPresent(byId, acked)
    ensures r.Keys == byId.Keys
  {
    map id | id in byId :: if id in acked then byId[id].(isDirty := Clean) else byId[id]
  }

  /** Acknowledging one more id is one more in-place clean-marking. */
  lemma MarkCleanSnoc(byId: map<Id, Document>, acked: seq<Id>, id: Id)
    requires AllPresent(byId, acked) && id in byId
    ensures AllPresent(byId, acked + [id])
    ensures MarkClean(byId, acked + [id])
            == MarkClean(byId, acked)[id := MarkClean(byId, acked)[id].(isDirty := Clean)]
  {
    assert forall k :: k in acked + [id] <==> k in acked || k == id;
  }

  /** `syncDocumentsSuccess`: marks every acknowledged record clean. */
  function SyncDocumentsSuccess(s: DocumentsState, acked: seq<Id>): (r: DocumentsState)
    requires AllPresent(s.data.byId, acked)
    ensures r.data.byId.Keys == s.data.byId.Keys
    ensures forall id :: id in acked ==> r.data.byId[id] == s.data.byId[id].(isDirty := Clean)
    ensures forall id :: id in s.data.byId && id !in acked ==> r.data.byId[id] == s.data.byId[id]
    ensures r.data.allIds == s.data.allIds && r.filter == s.filter
    ensures !r.isLoading && r.error == None
    ensures Valid(s) ==> Valid(r)
  {
    s.(data := s.data.(byId := MarkClean(s.data.byId, acked)),
       isLoading := false, error := None)
  }

  /** Acknowledging the same ids twice is the same as acknowledging them once. */
  lemma SyncDocumentsSuccessIdempotent(s: DocumentsState, acked: seq<Id>)
    requires AllPresent(s.data.byId, acked)
    ensures AllPresent(SyncDocumentsSuccess(s, acked).data.byId, acked)
    ensures SyncDocumentsSuccess(SyncDocumentsSuccess(s, acked), acked) == SyncDocumentsSuccess(s, acked)
  {
    var once := SyncDocumentsSuccess(s, acked);
    var twice := SyncDocumentsSuccess(once, acked);
    assert twice.data.byId == once.data.byId;
  }
}
