/**
 * The documents selectors: pure views recomputed from the store
 * (src/modules/documents/documentsSlice.js, the `select*` exports).
 */
module DocumentSelectors {
  import opened Common
  import opened DocumentStore

  /** `a` is an order-preserving subsequence of `b`. */
  predicate IsSubsequence(a: seq<Document>, b: seq<Document>)
    decreases |b|
  {
    if a == [] then true
    else if b == [] then false
    else if a[0] == b[0] then IsSubsequence(a[1..], b[1..])
    else IsSubsequence(a, b[1..])
  }

  /** The ids that have a record, in their order in `ids`, repeats kept. */
  function PresentIds(ids: seq<Id>, byId: map<Id, Document>): (r: seq<Id>)
    ensures |r| <= |ids|
    ensures forall id :: id in r <==> id in ids && id in byId
    ensures (forall id :: id in ids ==> id in byId) ==> r == ids
  {
    if ids == [] then []
    else
      var last := ids[|ids| - 1];
      assert ids == ids[..|ids| - 1] + [last];
      PresentIds(ids[..|ids| - 1], byId) + (if last in byId then [last] else [])
  }

  /**
   * The `reduce` of `selectAllDocuments`, a left fold over `ids` that appends
   * `byId[id]` when there is one and skips the id otherwise: the records of
   * the present ids, one per occurrence, in order.
   */
  function Collect(ids: seq<Id>, byId: map<Id, Document>): (r: seq<Document>)
    ensures |r| <= |ids|
    ensures |r| == |ids| <==> forall id :: id in ids ==> id in byId
    ensures forall d :: d in r ==> exists id :: id in ids && id in byId && byId[id] == d
    ensures forall id :: id in ids && id in byId ==> byId[id] in r
    ensures (forall id :: id in ids ==> id in byId) ==>
              forall i :: 0 <= i < |ids| ==> r[i] == byId[ids[i]]
  {
    if ids == [] then []
    else
      var last := ids[|ids| - 1];
      assert ids == ids[..|ids| - 1] + [last];
      Collect(ids[..|ids| - 1], byId) + (if last in byId then [byId[last]] else [])
  }

  /**
   * The fold lists exactly the records of `PresentIds`, position by
   * position, whether or not every id has a record.
   */
  lemma {:induction false} CollectFollowsPresentIds(ids: seq<Id>, byId: map<Id, Document>)
    ensures |Collect(ids, byId)| == |PresentIds(ids, byId)|
    ensures forall k :: 0 <= k < |PresentIds(ids, byId)| ==>
              PresentIds(ids, byId)[k] in byId && Collect(ids, byId)[k] == byId[PresentIds(ids, byId)[k]]
  {
    if ids != [] {
      CollectFollowsPresentIds(ids[..|ids| - 1], byId);
    }
  }

  /** `documents.filter(({ isDirty }) => isDirty === flag)`. */
  function WithFlag(docs: seq<Document>, flag: DirtyFlag): (r: seq<Document>)
    ensures |r| <= |docs|
    ensures forall d :: d in r <==> d in docs && d.isDirty == flag
  {
    if docs == [] then []
    else if docs[0].isDirty == flag then [docs[0]] + WithFlag(docs[1..], flag)
    else WithFlag(docs[1..], flag)
  }

  /** Filtering keeps the relative order of the documents it keeps. */
  lemma {:induction false} WithFlagIsSubsequence(docs: seq<Document>, flag: DirtyFlag)
    ensures IsSubsequence(WithFlag(docs, flag), docs)
  {
    if docs != [] {
      WithFlagIsSubsequence(docs[1..], flag);
      var rest := WithFlag(docs[1..], flag);
      if docs[0].isDirty != flag && rest != [] {
        assert rest[0] in rest;
      }
    }
  }

  /**
   * With boolean flags only, the dirty and the clean filter split the
   * documents between them: together they hold every document exactly once.
   */
  lemma {:induction false} DirtyCleanPartition(docs: seq<Document>)
    requires forall i :: 0 <= i < |docs| ==> docs[i].isDirty != Unset
    ensures multiset(WithFlag(docs, Dirty)) + multiset(WithFlag(docs, Clean)) == multiset(docs)
    ensures |WithFlag(docs, Dirty)| + |WithFlag(docs, Clean)| == |docs|
  {
    if docs != [] {
      DirtyCleanPartition(docs[1..]);
      assert docs == [docs[0]] + docs[1..];
    }
  }

  /** A record whose flag is not a boolean appears in neither filtered view. */
  lemma UnsetInNeitherView(docs: seq<Document>, d: Document)
    requires d in docs && d.isDirty == Unset
    ensures d !in WithFlag(docs, Dirty) && d !in WithFlag(docs, Clean)
    ensures |WithFlag(docs, Dirty)| + |WithFlag(docs, Clean)| < |docs|
  {
    UnsetShrinks(docs);
  }

  lemma {:induction false} UnsetShrinks(docs: seq<Document>)
    ensures |WithFlag(docs, Dirty)| + |WithFlag(docs, Clean)| <= |docs|
    ensures (exists i :: 0 <= i < |docs| && docs[i].isDirty == Unset) ==>
              |WithFlag(docs, Dirty)| + |WithFlag(docs, Clean)| < |docs|
  {
    if docs != [] {
      UnsetShrinks(docs[1..]);
      if exists i :: 0 <= i < |docs| && docs[i].isDirty == Unset {
        var i :| 0 <= i < |docs| && docs[i].isDirty == Unset;
        if i > 0 {
          assert docs[1..][i - 1].isDirty == Unset;
        }
      }
    }
  }

  /** `selectDocument(state)(id)`: the record under `id`, or undefined. */
  function SelectDocument(s: DocumentsState, id: Id): (r: Option<Document>)
    ensures r.Some? <==> id in s.data.byId
    ensures r.Some? ==> r.value == s.data.byId[id]
    ensures DataValid(s.data) && r.Some? ==> r.value.id == id && id in s.data.allIds
  {
    if id in s.data.byId then Some(s.data.byId[id]) else None
  }

  /** `selectError`: the stored error's message, or null. */
  function SelectError(s: DocumentsState): (r: Option<string>)
    ensures r.Some? <==> s.error.Some?
    ensures s.error.Some? ==> r.value == s.error.value.message
  {
    match s.error
    case None => None
    case Some(e) => Some(e.message)
  }

  /** `selectAllDocuments`: the records in `allIds` order, skipping ids without one. */
  function SelectAllDocuments(s: DocumentsState): (r: seq<Document>)
    ensures forall d :: d in r ==> d in s.data.byId.Values
    ensures DataValid(s.data) ==> |r| == |s.data.allIds|
    ensures DataValid(s.data) ==>
              forall i :: 0 <= i < |r| ==> r[i] == s.data.byId[s.data.allIds[i]] && r[i].id == s.data.allIds[i]
  {
    Collect(s.data.allIds, s.data.byId)
  }

  /**
   * For any store, valid or not, the list holds the records of the ids that
   * have one, in `allIds` order, one per occurrence.
   */
  lemma AllDocumentsFollowPresentIds(s: DocumentsState)
    ensures var ids := PresentIds(s.data.allIds, s.data.byId);
            && |SelectAllDocuments(s)| == |ids|
            && forall k :: 0 <= k < |ids| ==> ids[k] in s.data.byId && SelectAllDocuments(s)[k] == s.data.byId[ids[k]]
  {
    CollectFollowsPresentIds(s.data.allIds, s.data.byId);
  }

  /** An id without a record is skipped and the others keep their order. */
  lemma SkippedIdKeepsOrder(a: Document, c: Document)
    ensures var s := DocumentsState(false, None, Data(map["a" := a, "c" := c], ["a", "b", "c"]), NONE);
            SelectAllDocuments(s) == [a, c]
  {
    var s := DocumentsState(false, None, Data(map["a" := a, "c" := c], ["a", "b", "c"]), NONE);
    AllDocumentsFollowPresentIds(s);
    assert ["a", "b", "c"][..2] == ["a", "b"] && ["a", "b"][..1] == ["a"] && ["a"][..0] == [];
    assert PresentIds(["a", "b", "c"], s.data.byId) == ["a", "c"];
  }

  /** Under the invariant, the listed ids are exactly the stored ids, each once. */
  lemma AllDocumentsListEveryRecordOnce(s: DocumentsState, id: Id)
    requires DataValid(s.data)
    ensures id in s.data.byId <==> exists i :: 0 <= i < |SelectAllDocuments(s)| && SelectAllDocuments(s)[i].id == id
    ensures forall i, j :: 0 <= i < j < |SelectAllDocuments(s)| ==> SelectAllDocuments(s)[i].id != SelectAllDocuments(s)[j].id
  {
    var all := SelectAllDocuments(s);
    if id in s.data.byId {
      assert id in s.data.allIds;
      var i :| 0 <= i < |s.data.allIds| && s.data.allIds[i] == id;
      assert all[i].id == id;
    }
  }

  /** Under the invariant, a listed document is the record stored under its own id. */
  lemma ListedDocumentIsStored(s: DocumentsState, d: Document)
    requires DataValid(s.data) && d in SelectAllDocuments(s)
    ensures d.id in s.data.byId && s.data.byId[d.id] == d
  {
    var all := SelectAllDocuments(s);
    var j :| 0 <= j < |all| && all[j] == d;
    assert d.id == s.data.allIds[j];
  }

  /** `selectAllDocumentsCount`: the length of `allIds`, not of the document list. */
  function SelectAllDocumentsCount(s: DocumentsState): (r: nat)
    ensures |SelectAllDocuments(s)| <= r
    ensures DataValid(s.data) ==> r == |SelectAllDocuments(s)|
  {
    |s.data.allIds|
  }

  /** Without the invariant the count and the list can disagree: an id with no record is counted but not listed. */
  lemma CountDisagreesWithoutInvariant()
    ensures var s := DocumentsState(false, None, Data(map[], ["a"]), NONE);
            SelectAllDocumentsCount(s) == 1 && SelectAllDocuments(s) == []
  {
    var s := DocumentsState(false, None, Data(map[], ["a"]), NONE);
    assert Collect(["a"], map[]) == Collect([], map[]) + [];
  }

  /** `selectOnlyDirtyDocuments`: the records whose flag is exactly true, in order. */
  function SelectOnlyDirtyDocuments(s: DocumentsState): (r: seq<Document>)
    ensures forall d :: d in r <==> d in SelectAllDocuments(s) && d.isDirty == Dirty
    ensures IsSubsequence(r, SelectAllDocuments(s))
  {
    WithFlagIsSubsequence(SelectAllDocuments(s), Dirty);
    WithFlag(SelectAllDocuments(s), Dirty)
  }

  /** `selectOnlyDirtyDocumentsCount`. */
  function SelectOnlyDirtyDocumentsCount(s: DocumentsState): (r: nat)
    ensures r <= SelectAllDocumentsCount(s)
    ensures r == 0 <==> forall d :: d in SelectAllDocuments(s) ==> d.isDirty != Dirty
  {
    var dirty := SelectOnlyDirtyDocuments(s);
    assert dirty != [] ==> dirty[0] in dirty;
    |dirty|
  }

  /**
   * `selectFilteredDocuments`: the whole list under NONE, the records whose
   * flag is exactly true under ONLY_DIRTY, and those whose flag is exactly
   * false under any other filter value.
   */
  function SelectFilteredDocuments(s: DocumentsState): (r: seq<Document>)
    ensures s.filter == NONE ==> r == SelectAllDocuments(s)
    ensures s.filter == ONLY_DIRTY ==> r == SelectOnlyDirtyDocuments(s)
    ensures s.filter != NONE ==>
              forall d :: d in r <==> d in SelectAllDocuments(s) && d.isDirty == (if s.filter == ONLY_DIRTY then Dirty else Clean)
    ensures IsSubsequence(r, SelectAllDocuments(s))
  {
    var all := SelectAllDocuments(s);
    if s.filter == NONE then
      SubsequenceReflexive(all);
      all
    else
      var flag := if s.filter == ONLY_DIRTY then Dirty else Clean;
      WithFlagIsSubsequence(all, flag);
      WithFlag(all, flag)
  }

  lemma {:induction false} SubsequenceReflexive(a: seq<Document>)
    ensures IsSubsequence(a, a)
  {
    if a != [] {
      SubsequenceReflexive(a[1..]);
    }
  }

  /** `selectFilteredDocumentsCount`. */
  function SelectFilteredDocumentsCount(s: DocumentsState): (r: nat)
    ensures r <= SelectAllDocumentsCount(s)
    ensures s.filter == NONE ==> r == |SelectAllDocuments(s)|
  {
    |SelectFilteredDocuments(s)|
  }

  /**
   * With boolean flags, the ONLY_DIRTY and ONLY_CLEAN views of one store
   * partition its document list, and NONE returns the list unchanged.
   */
  lemma FilteredViewsPartition(s: DocumentsState)
    requires forall d :: d in SelectAllDocuments(s) ==> d.isDirty != Unset
    ensures var all := SelectAllDocuments(s);
            && SelectFilteredDocuments(s.(filter := NONE)) == all
            && multiset(SelectFilteredDocuments(s.(filter := ONLY_DIRTY)))
               + multiset(SelectFilteredDocuments(s.(filter := ONLY_CLEAN))) == multiset(all)
            && SelectFilteredDocumentsCount(s.(filter := ONLY_DIRTY))
               + SelectFilteredDocumentsCount(s.(filter := ONLY_CLEAN)) == |all|
  {
    var all := SelectAllDocuments(s);
    assert forall f :: SelectAllDocuments(s.(filter := f)) == all;
    DirtyCleanPartition(all);
  }
}
