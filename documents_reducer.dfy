/**
 * The documents slice reducer as the source writes it: each case mutates the
 * draft state in place (src/modules/documents/documentsSlice.js:20-102). Every
 * method keeps the store invariant and leaves the state that the matching
 * next-state function of module DocumentStore computes.
 */
module DocumentsReducer {
  import opened Common
  import opened DocumentStore

  class DocumentsSlice {
    var isLoading: bool
    var error: Option<Error>
    var byId: map<Id, Document>
    var allIds: seq<Id>
    var filter: string

    /** The slice state as a value. */
    function State(): DocumentsState
      reads this
    {
      DocumentsState(isLoading, error, Data(byId, allIds), filter)
    }

    ghost predicate Valid()
      reads this
    {
      DocumentStore.Valid(State())
    }

    /** `initialState`. */
    constructor ()
      ensures Valid() && State() == InitialState
    {
      isLoading, error := false, None;
      byId, allIds := map[], [];
      filter := NONE;
    }

    method SetFilter(f: string)
      requires Valid()
      modifies this
      ensures Valid() && State() == DocumentStore.SetFilter(old(State()), f)
    {
      if f in FilterTypes {
        filter := f;
      }
    }

    method AddDocumentStart()
      requires Valid()
      modifies this
      ensures Valid() && State() == RequestStart(old(State()))
    {
      isLoading := true;
      error := None;
    }

    method AddDocumentSuccess(doc: Document)
      requires Valid()
      modifies this
      ensures Valid() && State() == DocumentStore.AddDocumentSuccess(old(State()), doc)
    {
      if doc.id !in allIds {
        allIds := allIds + [doc.id];
      }
      byId := byId[doc.id := doc];
      isLoading := false;
      error := None;
    }

    method AddDocumentFailure(e: Error)
      requires Valid()
      modifies this
      ensures Valid() && State() == RequestFailure(old(State()), e)
    {
      error := Some(e);
      isLoading := false;
    }

    /** `Object.assign` onto the stored record: patch keys, then `updatedAt`, then the dirty flag. */
    method EditDocument(p: Patch)
      requires Valid() && p.id in byId
      modifies this
      ensures Valid() && State() == DocumentStore.EditDocument(old(State()), p)
    {
      var doc := byId[p.id];
      if p.author.Some? {
        doc := doc.(author := p.author.value);
      }
      if p.title.Some? {
        doc := doc.(title := p.title.value);
      }
      if p.content.Some? {
        doc := doc.(content := p.content.value);
      }
      doc := doc.(updatedAt := p.updatedAt, isDirty := Dirty);
      byId := byId[p.id := doc];
    }

    method SyncDocumentsStart()
      requires Valid()
      modifies this
      ensures Valid() && State() == RequestStart(old(State()))
    {
      isLoading := true;
      error := None;
    }

    /** The `forEach` over the acknowledgments, then the request bookkeeping. */
    method SyncDocumentsSuccess(acked: seq<Id>)
      requires Valid() && AllPresent(byId, acked)
      modifies this
      ensures Valid() && State() == DocumentStore.SyncDocumentsSuccess(old(State()), acked)
    {
      var i := 0;
      while i < |acked|
        invariant 0 <= i <= |acked|
        invariant AllPresent(old(byId), acked[..i])
        invariant byId == MarkClean(old(byId), acked[..i])
        invariant allIds == old(allIds) && filter == old(filter)
        invariant isLoading == old(isLoading) && error == old(error)
      {
        var id := acked[i];
        assert acked[..i + 1] == acked[..i] + [id];
        MarkCleanSnoc(old(byId), acked[..i], id);
        byId := byId[id := byId[id].(isDirty := Clean)];
        i := i + 1;
      }
      assert acked[..i] == acked;
      isLoading := false;
      error := None;
    }

    method SyncDocumentsFailure(e: Error)
      requires Valid()
      modifies this
      ensures Valid() && State() == RequestFailure(old(State()), e)
    {
      error := Some(e);
      isLoading := false;
    }
  }
}
