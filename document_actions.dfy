/**
 * The documents slice's actions, the reducer that applies them, and the two
 * thunks `addDocument` and `syncDirtyDocuments` as the action sequences they
 * dispatch for a given API outcome (src/modules/documents/documentsSlice.js).
 */
module DocumentActions {
  import opened Common
  import S = DocumentStore
  import opened DocumentSelectors

  type Id = S.Id
  type Document = S.Document
  type State = S.DocumentsState

  /** The action creators exported by the slice, with their payloads. */
  datatype Action =
    | SetFilter(filter: string)
    | AddDocumentStart
    | AddDocumentSuccess(document: Document)
    | AddDocumentFailure(error: Error)
    | EditDocument(patch: S.Patch)
    | SyncDocumentsStart
    | SyncDocumentsSuccess(documents: seq<Id>)
    | SyncDocumentsFailure(error: Error)

  /** The reducer runs to completion, i.e. does not throw on a missing record. */
  predicate Accepts(s: State, a: Action) {
    match a
    case EditDocument(p) => p.id in s.data.byId
    case SyncDocumentsSuccess(acked) => S.AllPresent(s.data.byId, acked)
    case _ => true
  }

  /** The slice reducer: one case per action type. */
  function Reduce(s: State, a: Action): (r: State)
    requires Accepts(s, a)
    ensures S.Valid(s) ==> S.Valid(r)
    ensures a.SetFilter? || a.EditDocument? || r.isLoading == (a.AddDocumentStart? || a.SyncDocumentsStart?)
    ensures !a.AddDocumentSuccess? ==> r.data.allIds == s.data.allIds && r.data.byId.Keys == s.data.byId.Keys
  {
    match a
    case SetFilter(f) => S.SetFilter(s, f)
    case AddDocumentStart => S.RequestStart(s)
    case AddDocumentSuccess(d) => S.AddDocumentSuccess(s, d)
    case AddDocumentFailure(e) => S.RequestFailure(s, e)
    case EditDocument(p) => S.EditDocument(s, p)
    case SyncDocumentsStart => S.RequestStart(s)
    case SyncDocumentsSuccess(acked) => S.SyncDocumentsSuccess(s, acked)
    case SyncDocumentsFailure(e) => S.RequestFailure(s, e)
  }

  /** Dispatching actions one after another; None when some reducer case throws. */
  function ReduceAll(s: State, actions: seq<Action>): (r: Option<State>)
    ensures r.Some? && S.Valid(s) ==> S.Valid(r.value)
    decreases |actions|
  {
    if actions == [] then Some(s)
    else if Accepts(s, actions[0]) then ReduceAll(Reduce(s, actions[0]), actions[1..])
    else None
  }

  /** Dispatching two actions. */
  lemma ReduceAllPair(s: State, a: Action, b: Action)
    ensures ReduceAll(s, [a, b]) ==
              if Accepts(s, a) && Accepts(Reduce(s, a), b) then Some(Reduce(Reduce(s, a), b)) else None
  {
    assert [a, b][1..] == [b];
    if Accepts(s, a) {
      var s1 := Reduce(s, a);
      assert ReduceAll(s, [a, b]) == ReduceAll(s1, [b]);
      assert [b][1..] == [];
      if Accepts(s1, b) {
        assert ReduceAll(s1, [b]) == ReduceAll(Reduce(s1, b), []);
      }
    }
  }

  /** Dispatching three actions. */
  lemma ReduceAllTriple(s: State, a: Action, b: Action, c: Action)
    ensures ReduceAll(s, [a, b, c]) ==
              if Accepts(s, a) then ReduceAll(Reduce(s, a), [b, c]) else None
  {
    assert [a, b, c][1..] == [b, c];
  }

  /** The ids of a list of documents, in order. */
  function IdsOf(docs: seq<Document>): (r: seq<Id>)
    ensures |r| == |docs|
    ensures forall i :: 0 <= i < |docs| ==> r[i] == docs[i].id
  {
    if docs == [] then [] else [docs[0].id] + IdsOf(docs[1..])
  }

  /** The fields the `addDocument` thunk destructures from its argument and sends. */
  datatype NewDocument = NewDocument(title: string, content: string, author: string)

  /**
   * `addDocument({ title, content, author })`, called with a whole document:
   * only its title, content and author are sent (its id, dates and dirty flag
   * are dropped); start, then success with the server's record, or failure
   * with the rejection.
   */
  function AddDocument(arg: Document, outcome: ApiOutcome<Document>): (r: ThunkRun<NewDocument, Action>)
    ensures r.request.title == arg.title && r.request.content == arg.content && r.request.author == arg.author
    ensures |r.dispatched| == 2 && r.dispatched[0] == AddDocumentStart
    ensures outcome.Resolved? ==> r.dispatched[1] == AddDocumentSuccess(outcome.value)
    ensures outcome.Rejected? ==> r.dispatched[1] == AddDocumentFailure(outcome.error)
  {
    var last := match outcome
      case Resolved(doc) => AddDocumentSuccess(doc)
      case Rejected(e) => AddDocumentFailure(e);
    ThunkRun(NewDocument(arg.title, arg.content, arg.author), [AddDocumentStart, last])
  }

  /**
   * `syncDirtyDocuments()`: the dirty-only view is read before anything is
   * dispatched and sent as is; then start, then success carrying the
   * server's acknowledgments, or failure with the rejection.
   */
  function SyncDirtyDocuments(s: State, outcome: ApiOutcome<seq<Id>>): (r: ThunkRun<seq<Document>, Action>)
    ensures forall d :: d in r.request <==> d in SelectAllDocuments(s) && d.isDirty == S.Dirty
    ensures IsSubsequence(r.request, SelectAllDocuments(s))
    ensures |r.dispatched| == 2 && r.dispatched[0] == SyncDocumentsStart
    ensures outcome.Resolved? ==> r.dispatched[1] == SyncDocumentsSuccess(outcome.value)
    ensures outcome.Rejected? ==> r.dispatched[1] == SyncDocumentsFailure(outcome.error)
  {
    var last := match outcome
      case Resolved(acked) => SyncDocumentsSuccess(acked)
      case Rejected(e) => SyncDocumentsFailure(e);
    ThunkRun(SelectOnlyDirtyDocuments(s), [SyncDocumentsStart, last])
  }

  /** Start does not touch the store, so reading the dirty view before or after it is the same. */
  lemma SnapshotUnaffectedByStart(s: State)
    ensures SelectOnlyDirtyDocuments(S.RequestStart(s)) == SelectOnlyDirtyDocuments(s)
  {
  }

  /** Every document in the dirty view of a valid store is stored under its id. */
  lemma DirtyViewIdsPresent(s: State)
    requires S.Valid(s)
    ensures S.AllPresent(s.data.byId, IdsOf(SelectOnlyDirtyDocuments(s)))
    ensures forall id :: id in IdsOf(SelectOnlyDirtyDocuments(s)) ==>
              id in s.data.byId && s.data.byId[id].isDirty == S.Dirty
  {
    var dirty := SelectOnlyDirtyDocuments(s);
    var ids := IdsOf(dirty);
    forall id | id in ids ensures id in s.data.byId && s.data.byId[id].isDirty == S.Dirty {
      var i :| 0 <= i < |ids| && ids[i] == id;
      assert dirty[i] in dirty;
      ListedDocumentIsStored(s, dirty[i]);
    }
  }

  /** A record that is dirty in a valid store is in the dirty view, so its id is sent. */
  lemma DirtyRecordIsSent(s: State, id: Id)
    requires S.Valid(s) && id in s.data.byId && s.data.byId[id].isDirty == S.Dirty
    ensures s.data.byId[id] in SelectOnlyDirtyDocuments(s)
    ensures id in IdsOf(SelectOnlyDirtyDocuments(s))
  {
    var all := SelectAllDocuments(s);
    var i :| 0 <= i < |s.data.allIds| && s.data.allIds[i] == id;
    assert all[i] == s.data.byId[id];
    var dirty := SelectOnlyDirtyDocuments(s);
    assert s.data.byId[id] in dirty;
    var j :| 0 <= j < |dirty| && dirty[j] == s.data.byId[id];
    assert IdsOf(dirty)[j] == id;
  }

  /**
   * A successful `addDocument` run stores the server's record under its id
   * and ends the request; the count grows only for a new id.
   */
  lemma AddDocumentResolved(s: State, arg: Document, doc: Document)
    requires S.Valid(s)
    ensures var r := ReduceAll(s, AddDocument(arg, Resolved(doc)).dispatched);
            && r.Some? && S.Valid(r.value)
            && SelectDocument(r.value, doc.id) == Some(doc)
            && !r.value.isLoading && SelectError(r.value) == None
            && (doc.id in s.data.allIds ==> SelectAllDocumentsCount(r.value) == SelectAllDocumentsCount(s))
            && (doc.id !in s.data.allIds ==> SelectAllDocumentsCount(r.value) == SelectAllDocumentsCount(s) + 1)
  {
    assert AddDocument(arg, Resolved(doc)).dispatched == [AddDocumentStart, AddDocumentSuccess(doc)];
    ReduceAllPair(s, AddDocumentStart, AddDocumentSuccess(doc));
  }

  /** A failed `addDocument` run stores the error, ends the request and creates nothing. */
  lemma AddDocumentRejected(s: State, arg: Document, e: Error)
    ensures var r := ReduceAll(s, AddDocument(arg, Rejected(e)).dispatched);
            && r.Some? && r.value.data == s.data && r.value.filter == s.filter
            && !r.value.isLoading && SelectError(r.value) == Some(e.message)
  {
    assert AddDocument(arg, Rejected(e)).dispatched == [AddDocumentStart, AddDocumentFailure(e)];
    ReduceAllPair(s, AddDocumentStart, AddDocumentFailure(e));
  }

  /**
   * When the server acknowledges exactly the documents it was sent, and
   * nothing is dispatched in between, the run leaves no dirty document.
   */
  lemma SyncAcknowledgingAllLeavesNothingDirty(s: State)
    requires S.Valid(s)
    ensures var run := SyncDirtyDocuments(s, Resolved(IdsOf(SelectOnlyDirtyDocuments(s))));
            var r := ReduceAll(s, run.dispatched);
            && r.Some? && S.Valid(r.value)
            && SelectOnlyDirtyDocuments(r.value) == []
            && r.value.data.allIds == s.data.allIds
            && !r.value.isLoading && r.value.error == None
  {
    var acked := IdsOf(SelectOnlyDirtyDocuments(s));
    DirtyViewIdsPresent(s);
    var s1 := Reduce(s, SyncDocumentsStart);
    var s2 := Reduce(s1, SyncDocumentsSuccess(acked));
    assert SyncDirtyDocuments(s, Resolved(acked)).dispatched == [SyncDocumentsStart, SyncDocumentsSuccess(acked)];
    ReduceAllPair(s, SyncDocumentsStart, SyncDocumentsSuccess(acked));
    var all := SelectAllDocuments(s2);
    forall d | d in all ensures d.isDirty != S.Dirty {
      var i :| 0 <= i < |all| && all[i] == d;
      var id := s2.data.allIds[i];
      if id !in acked && s.data.byId[id].isDirty == S.Dirty {
        DirtyRecordIsSent(s, id);
      }
    }
    assert SelectOnlyDirtyDocumentsCount(s2) == 0;
  }

  /**
   * Partial acknowledgment: after a successful sync, exactly the documents
   * that were dirty and not acknowledged are still dirty.
   */
  lemma SyncPartialAcknowledgment(s: State, acked: seq<Id>, id: Id)
    requires S.AllPresent(s.data.byId, acked) && id in s.data.byId
    ensures var r := ReduceAll(s, SyncDirtyDocuments(s, Resolved(acked)).dispatched);
            && r.Some? && id in r.value.data.byId
            && (r.value.data.byId[id].isDirty == S.Dirty <==> s.data.byId[id].isDirty == S.Dirty && id !in acked)
  {
    assert SyncDirtyDocuments(s, Resolved(acked)).dispatched == [SyncDocumentsStart, SyncDocumentsSuccess(acked)];
    ReduceAllPair(s, SyncDocumentsStart, SyncDocumentsSuccess(acked));
  }

  /** A failed sync stores the error, ends the request and leaves every record as it was. */
  lemma SyncRejected(s: State, e: Error)
    ensures var r := ReduceAll(s, SyncDirtyDocuments(s, Rejected(e)).dispatched);
            && r.Some? && r.value.data == s.data
            && SelectOnlyDirtyDocuments(r.value) == SelectOnlyDirtyDocuments(s)
            && !r.value.isLoading && SelectError(r.value) == Some(e.message)
  {
    assert SyncDirtyDocuments(s, Rejected(e)).dispatched == [SyncDocumentsStart, SyncDocumentsFailure(e)];
    ReduceAllPair(s, SyncDocumentsStart, SyncDocumentsFailure(e));
  }

  /**
   * The staleness hazard, without any concurrency: the dirty view is
   * snapshotted and sent, the user then edits a sent document while the
   * request is pending, and the acknowledgment of the snapshot marks that
   * document clean although its new title never reached the server.
   */
  lemma StaleAcknowledgmentClearsLaterEdit(s: State, p: S.Patch, title: string)
    requires S.Valid(s)
    requires p.id in s.data.byId && s.data.byId[p.id].isDirty == S.Dirty
    requires p.title == Some(title) && title != s.data.byId[p.id].title
    ensures var run := SyncDirtyDocuments(s, Resolved(IdsOf(SelectOnlyDirtyDocuments(s))));
            var r := ReduceAll(s, [run.dispatched[0], EditDocument(p), run.dispatched[1]]);
            && r.Some? && p.id in r.value.data.byId
            && r.value.data.byId[p.id].isDirty == S.Clean
            && r.value.data.byId[p.id].title == title
            && (forall d :: d in run.request && d.id == p.id ==> d.title != title)
  {
    var acked := IdsOf(SelectOnlyDirtyDocuments(s));
    DirtyViewIdsPresent(s);
    DirtyRecordIsSent(s, p.id);
    var run := SyncDirtyDocuments(s, Resolved(acked));
    assert run.dispatched == [SyncDocumentsStart, SyncDocumentsSuccess(acked)];
    var s1 := Reduce(s, SyncDocumentsStart);
    ReduceAllTriple(s, SyncDocumentsStart, EditDocument(p), SyncDocumentsSuccess(acked));
    ReduceAllPair(s1, EditDocument(p), SyncDocumentsSuccess(acked));
    var s2 := Reduce(s1, EditDocument(p));
    assert S.AllPresent(s2.data.byId, acked);
    var s3 := Reduce(s2, SyncDocumentsSuccess(acked));
    assert s3.data.byId[p.id] == S.Patched(s.data.byId[p.id], p).(isDirty := S.Clean);
    var all := SelectAllDocuments(s);
    forall d | d in run.request && d.id == p.id ensures d.title != title {
      var i :| 0 <= i < |all| && all[i] == d;
    }
  }

  /** Adding two documents with distinct ids to the initial state. */
  lemma AddTwo(a: Document, b: Document)
    requires a.id != b.id
    ensures Reduce(Reduce(S.InitialState, AddDocumentSuccess(a)), AddDocumentSuccess(b))
            == S.DocumentsState(false, None, S.Data(map[a.id := a, b.id := b], [a.id, b.id]), S.NONE)
  {
    var s1 := Reduce(S.InitialState, AddDocumentSuccess(a));
    assert s1.data.allIds == [a.id] && s1.data.byId == map[a.id := a];
    var s2 := Reduce(s1, AddDocumentSuccess(b));
    assert s2.data.allIds == [a.id, b.id];
    assert s2.data.byId == map[a.id := a, b.id := b];
  }

  /** Two clean documents added to the initial state, the second one then edited. */
  lemma AddTwoThenEdit(a: Document, b: Document, p: S.Patch)
    requires a.id != b.id && p.id == b.id
    ensures ReduceAll(S.InitialState, [AddDocumentSuccess(a), AddDocumentSuccess(b), EditDocument(p)])
            == Some(S.DocumentsState(false, None, S.Data(map[a.id := a, b.id := S.Patched(b, p)], [a.id, b.id]), S.NONE))
  {
    AddTwo(a, b);
    var s1 := Reduce(S.InitialState, AddDocumentSuccess(a));
    ReduceAllTriple(S.InitialState, AddDocumentSuccess(a), AddDocumentSuccess(b), EditDocument(p));
    ReduceAllPair(s1, AddDocumentSuccess(b), EditDocument(p));
    var s2 := Reduce(s1, AddDocumentSuccess(b));
    assert p.id in s2.data.byId;
    var s3 := Reduce(s2, EditDocument(p));
    assert s3.data.byId == map[a.id := a, b.id := S.Patched(b, p)];
    assert s3.data.allIds == [a.id, b.id];
  }

  /** In that state only the edited document is dirty. */
  lemma {:induction false} AddEditScenario(a: Document, b: Document, p: S.Patch)
    requires a.id != b.id && a.isDirty == S.Clean && b.isDirty == S.Clean && p.id == b.id
    ensures var pre := ReduceAll(S.InitialState, [AddDocumentSuccess(a), AddDocumentSuccess(b), EditDocument(p)]);
            && pre.Some?
            && pre.value.data.allIds == [a.id, b.id]
            && pre.value.data.byId == map[a.id := a, b.id := S.Patched(b, p)]
            && SelectOnlyDirtyDocuments(pre.value) == [S.Patched(b, p)]
  {
    AddTwoThenEdit(a, b, p);
    var m := map[a.id := a, b.id := S.Patched(b, p)];
    CollectTwo(a.id, b.id, m);
    FlagsOfTwo(a, S.Patched(b, p));
  }

  lemma CollectTwo(x: Id, y: Id, m: map<Id, Document>)
    requires x in m && y in m
    ensures Collect([x, y], m) == [m[x], m[y]]
  {
    assert [x, y][..1] == [x];
    assert [x][..0] == [];
  }

  lemma FlagsOfTwo(c: Document, d: Document)
    requires c.isDirty == S.Clean
    ensures WithFlag([c, d], S.Dirty) == if d.isDirty == S.Dirty then [d] else []
  {
    assert [c, d][1..] == [d];
    assert [d][1..] == [];
  }

  /** The sync run on that state when the server acknowledges only the edited document. */
  lemma SyncAfterScenario(a: Document, b: Document, p: S.Patch)
    requires a.id != b.id && p.id == b.id
    ensures var pre := S.DocumentsState(false, None, S.Data(map[a.id := a, b.id := S.Patched(b, p)], [a.id, b.id]), S.NONE);
            ReduceAll(pre, SyncDirtyDocuments(pre, Resolved([b.id])).dispatched)
            == Some(S.DocumentsState(false, None, S.Data(map[a.id := a, b.id := S.Patched(b, p).(isDirty := S.Clean)], [a.id, b.id]), S.NONE))
  {
    var pre := S.DocumentsState(false, None, S.Data(map[a.id := a, b.id := S.Patched(b, p)], [a.id, b.id]), S.NONE);
    ReduceAllPair(pre, SyncDocumentsStart, SyncDocumentsSuccess([b.id]));
    var started := Reduce(pre, SyncDocumentsStart);
    assert started.data == pre.data;
    var post := Reduce(started, SyncDocumentsSuccess([b.id]));
    assert post.data.byId == map[a.id := a, b.id := S.Patched(b, p).(isDirty := S.Clean)];
  }

  /** Once both are clean the dirty view is empty. */
  lemma BothCleanScenario(a: Document, b: Document, p: S.Patch)
    requires a.id != b.id && a.isDirty == S.Clean
    ensures var m := map[a.id := a, b.id := S.Patched(b, p).(isDirty := S.Clean)];
            SelectOnlyDirtyDocuments(S.DocumentsState(false, None, S.Data(m, [a.id, b.id]), S.NONE)) == []
  {
    var m := map[a.id := a, b.id := S.Patched(b, p).(isDirty := S.Clean)];
    CollectTwo(a.id, b.id, m);
    FlagsOfTwo(a, S.Patched(b, p).(isDirty := S.Clean));
  }

  /**
   * Two clean documents are added, the second is edited, and a sync whose
   * response acknowledges only that one leaves both clean and the dirty view
   * empty.
   */
  lemma AddEditSyncScenario(a: Document, b: Document, p: S.Patch)
    requires a.id != b.id && a.isDirty == S.Clean && b.isDirty == S.Clean && p.id == b.id
    ensures var pre := ReduceAll(S.InitialState, [AddDocumentSuccess(a), AddDocumentSuccess(b), EditDocument(p)]);
            && pre.Some?
            && var run := SyncDirtyDocuments(pre.value, Resolved([b.id]));
               && run.request == [S.Patched(b, p)]
               && var post := ReduceAll(pre.value, run.dispatched);
                  && post.Some?
                  && post.value.data.byId == map[a.id := a, b.id := S.Patched(b, p).(isDirty := S.Clean)]
                  && SelectOnlyDirtyDocuments(post.value) == []
  {
    AddEditScenario(a, b, p);
    AddTwoThenEdit(a, b, p);
    SyncAfterScenario(a, b, p);
    BothCleanScenario(a, b, p);
  }
}
