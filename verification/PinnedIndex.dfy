/** The pinned-document index of a project record and the manifest it must agree with: `core/storage.ts`,
    and the write side of `core/manifestStore.ts`. */
module PinnedIndex {
  import opened Basics
  import opened Text
  import opened EssayAnswers
  import AnswerMatching

  /** `textual` says whether the source type is one that can be edited in place. */
  datatype Document = Document(id: string, title: string, textual: bool, pinned: bool)

  /** The project record, as far as it takes part. `pinned` is only ever used as a set. */
  datatype Record = Record(pinned: set<string>, questions: seq<string>, answers: seq<AnswerState>)

  datatype Store = Store(manifest: seq<Document>, record: Record)

  datatype Failure = DocumentNotFound | NotEditable

  datatype Result = Ok(store: Store) | Failed(error: Failure)

  // ---- The manifest --------------------------------------------------------

  function IndexOf(manifest: seq<Document>, id: string): (i: int)
    ensures -1 <= i < |manifest|
    ensures i >= 0 ==> manifest[i].id == id
    ensures i < 0 ==> forall j :: 0 <= j < |manifest| ==> manifest[j].id != id
  {
    if manifest == [] then -1
    else if manifest[0].id == id then 0
    else
      var i := IndexOf(manifest[1..], id);
      if i < 0 then -1 else i + 1
  }

  /** The manifest with the pin of one document set. */
  function Repin(manifest: seq<Document>, id: string, pinned: bool): seq<Document> {
    seq(|manifest|, i requires 0 <= i < |manifest| =>
      if manifest[i].id == id then manifest[i].(pinned := pinned) else manifest[i])
  }

  function Drop(manifest: seq<Document>, id: string): seq<Document> {
    if manifest == [] then []
    else (if manifest[0].id == id then [] else [manifest[0]]) + Drop(manifest[1..], id)
  }

  function PinnedIds(manifest: seq<Document>): set<string> {
    set i | 0 <= i < |manifest| && manifest[i].pinned :: manifest[i].id
  }

  function Ids(manifest: seq<Document>): set<string> {
    set i | 0 <= i < |manifest| :: manifest[i].id
  }

  ghost predicate DistinctIds(manifest: seq<Document>) {
    forall i, j :: 0 <= i < j < |manifest| ==> manifest[i].id != manifest[j].id
  }

  /** The index lists exactly the documents that are pinned by default. */
  ghost predicate Agree(s: Store) {
    s.record.pinned == PinnedIds(s.manifest)
  }

  // ---- The operations ------------------------------------------------------

  function MarkPinned(record: Record, id: string, pinned: bool): Record {
    record.(pinned := if pinned then record.pinned + {id} else record.pinned - {id})
  }

  /** `createProject`. */
  function Created(questions: seq<string>): Store {
    Store([], Record({}, questions, []))
  }

  /** `persistDocument`, the last step of every save and import. */
  function Persist(s: Store, document: Document): Store {
    Store([document] + s.manifest, if document.pinned then MarkPinned(s.record, document.id, true) else s.record)
  }

  function SetPinned(s: Store, id: string, pinned: bool): Store {
    Store(Repin(s.manifest, id, pinned), MarkPinned(s.record, id, pinned))
  }

  function Update(s: Store, id: string, title: string, pinned: bool, withContent: bool): Result {
    var i := IndexOf(s.manifest, id);
    if i < 0 then Failed(DocumentNotFound)
    else if withContent && !s.manifest[i].textual then Failed(NotEditable)
    else
      var newTitle := if Trim(title) != "" then Trim(title) else s.manifest[i].title;
      var updated := s.manifest[i].(title := newTitle, pinned := pinned);
      Ok(Store(s.manifest[i := updated], MarkPinned(s.record, id, pinned)))
  }

  function Delete(s: Store, id: string): Result {
    if IndexOf(s.manifest, id) < 0 then Failed(DocumentNotFound)
    else Ok(Store(Drop(s.manifest, id), MarkPinned(s.record, id, false)))
  }

  function UnpinAll(s: Store, ids: seq<string>): Store
    decreases |ids|
  {
    if ids == [] then s else UnpinAll(SetPinned(s, ids[0], false), ids[1..])
  }

  /** `updateProjectInfo`: what an edit of the questions does to answers and pins. */
  function EditQuestions(s: Store, questions: seq<string>): Store {
    var next := Reconcile(s.record.questions, questions, s.record.answers);
    var unpinned := UnpinAll(s, next.removedDocumentIds);
    unpinned.(record := unpinned.record.(questions := questions, answers := next.states))
  }

  function FindAnswer(answers: seq<AnswerState>, index: int): (found: Option<AnswerState>)
    ensures found.Some? ==> found.value in answers && found.value.questionIndex == index
  {
    if answers == [] then None
    else if answers[0].questionIndex == index then Some(answers[0])
    else FindAnswer(answers[1..], index)
  }

  /** The document an answer is stored in, if it has one already. */
  function AnswerDocument(s: Store, index: int): string {
    var found := FindAnswer(s.record.answers, index);
    if found.None? then "" else found.value.documentId
  }

  /** `saveCompletedEssayAnswer`; `newId` is the id of the document created when there is none. */
  function CompleteAnswer(s: Store, index: int, title: string, newId: string): Result {
    var existing := AnswerDocument(s, index);
    var written := if existing != "" then Update(s, existing, title, true, true)
                   else Ok(Persist(s, Document(newId, title, true, true)));
    match written
    case Failed(error) => Failed(error)
    case Ok(t) =>
      var state := AnswerState(index, true, if existing != "" then existing else newId);
      Ok(t.(record := t.record.(answers := AnswerMatching.Upsert(t.record.answers, state))))
  }

  function ReopenAnswer(s: Store, index: int): Store {
    var found := FindAnswer(s.record.answers, index);
    if found.None? then s
    else s.(record := s.record.(answers := AnswerMatching.Upsert(s.record.answers, found.value.(completed := false))))
  }

  // ---- Agreement -----------------------------------------------------------

  lemma PersistKeeps(s: Store, document: Document)
    requires Agree(s) && DistinctIds(s.manifest) && document.id !in Ids(s.manifest)
    ensures Agree(Persist(s, document)) && DistinctIds(Persist(s, document).manifest)
  {
    var next := Persist(s, document);
    assert forall i :: 0 <= i < |s.manifest| ==> s.manifest[i].id in Ids(s.manifest);
    assert forall i :: 0 < i < |next.manifest| ==> next.manifest[i] == s.manifest[i - 1];
    assert PinnedIds(next.manifest) == PinnedIds(s.manifest) + if document.pinned then {document.id} else {} by {
      assert forall i :: 0 <= i < |s.manifest| ==> s.manifest[i] == next.manifest[i + 1];
      assert next.manifest[0] == document;
    }
  }

  lemma RepinnedIds(manifest: seq<Document>, id: string, pinned: bool)
    ensures PinnedIds(Repin(manifest, id, pinned)) ==
            (PinnedIds(manifest) - {id}) + if pinned && id in Ids(manifest) then {id} else {}
    ensures Ids(Repin(manifest, id, pinned)) == Ids(manifest)
    ensures DistinctIds(manifest) ==> DistinctIds(Repin(manifest, id, pinned))
  {
    var next := Repin(manifest, id, pinned);
    assert forall i :: 0 <= i < |manifest| ==> next[i].id == manifest[i].id;
    forall other ensures other in PinnedIds(next) <==>
                         (other in PinnedIds(manifest) && other != id) || (other == id && pinned && id in Ids(manifest))
    {
      if other in PinnedIds(next) {
        var i :| 0 <= i < |next| && next[i].pinned && next[i].id == other;
        if other != id { assert manifest[i].pinned && manifest[i].id == other; }
      }
      if other in PinnedIds(manifest) && other != id {
        var i :| 0 <= i < |manifest| && manifest[i].pinned && manifest[i].id == other;
        assert next[i].pinned && next[i].id == other;
      }
      if other == id && pinned && id in Ids(manifest) {
        var i :| 0 <= i < |manifest| && manifest[i].id == id;
        assert next[i].pinned && next[i].id == id;
      }
    }
    forall other ensures other in Ids(next) <==> other in Ids(manifest) {
      if other in Ids(manifest) {
        var i :| 0 <= i < |manifest| && manifest[i].id == other;
        assert next[i].id == other;
      }
    }
  }

  /** Setting a pin keeps the agreement exactly when the document exists or the pin is taken off. */
  lemma SetPinnedKeeps(s: Store, id: string, pinned: bool)
    requires Agree(s) && DistinctIds(s.manifest)
    ensures DistinctIds(SetPinned(s, id, pinned).manifest)
    ensures Agree(SetPinned(s, id, pinned)) <==> id in Ids(s.manifest) || !pinned
  {
    RepinnedIds(s.manifest, id, pinned);
    if pinned && id !in Ids(s.manifest) {
      assert id in SetPinned(s, id, pinned).record.pinned;
    }
  }

  lemma UpdateKeeps(s: Store, id: string, title: string, pinned: bool, withContent: bool)
    requires Agree(s) && DistinctIds(s.manifest)
    ensures var r := Update(s, id, title, pinned, withContent);
            r.Ok? ==> Agree(r.store) && DistinctIds(r.store.manifest) && Ids(r.store.manifest) == Ids(s.manifest) &&
                      r.store.record == MarkPinned(s.record, id, pinned) && id in Ids(s.manifest)
  {
    hide Trim;
    var r := Update(s, id, title, pinned, withContent);
    if r.Ok? {
      var i := IndexOf(s.manifest, id);
      RepinnedIds(s.manifest, id, pinned);
      var repinned, next := Repin(s.manifest, id, pinned), r.store.manifest;
      assert forall j :: 0 <= j < |next| ==> next[j].id == repinned[j].id && next[j].pinned == repinned[j].pinned;
      SamePins(repinned, next);
    }
  }

  lemma SamePins(a: seq<Document>, b: seq<Document>)
    requires |a| == |b| && forall j :: 0 <= j < |a| ==> a[j].id == b[j].id && a[j].pinned == b[j].pinned
    ensures PinnedIds(a) == PinnedIds(b) && Ids(a) == Ids(b)
  {
  }

  lemma DroppedPins(manifest: seq<Document>, id: string)
    ensures PinnedIds(Drop(manifest, id)) == PinnedIds(manifest) - {id}
  {
    DroppedIds(manifest, id);
    var next := Drop(manifest, id);
    forall other ensures other in PinnedIds(next) <==> other in PinnedIds(manifest) && other != id {
      if other in PinnedIds(next) {
        var i :| 0 <= i < |next| && next[i].pinned && next[i].id == other;
        assert next[i] in manifest;
      }
      if other in PinnedIds(manifest) && other != id {
        var i :| 0 <= i < |manifest| && manifest[i].pinned && manifest[i].id == other;
        assert manifest[i] in next;
      }
    }
  }

  lemma {:induction false} DroppedIds(manifest: seq<Document>, id: string)
    ensures forall d :: d in Drop(manifest, id) <==> d in manifest && d.id != id
    ensures DistinctIds(manifest) ==> DistinctIds(Drop(manifest, id))
  {
    if manifest != [] {
      DroppedIds(manifest[1..], id);
      var rest, next := Drop(manifest[1..], id), Drop(manifest, id);
      assert forall d :: d in manifest <==> d == manifest[0] || d in manifest[1..];
      if DistinctIds(manifest) && manifest[0].id != id {
        assert forall j :: 0 <= j < |rest| ==> rest[j] in manifest[1..];
        assert forall j :: 0 < j < |next| ==> next[j] == rest[j - 1];
      }
    }
  }

  lemma DeleteKeeps(s: Store, id: string)
    requires Agree(s) && DistinctIds(s.manifest)
    ensures Delete(s, id).Ok? ==> Agree(Delete(s, id).store) && DistinctIds(Delete(s, id).store.manifest)
  {
    DroppedIds(s.manifest, id);
    DroppedPins(s.manifest, id);
  }

  lemma {:induction false} UnpinAllKeeps(s: Store, ids: seq<string>)
    requires Agree(s) && DistinctIds(s.manifest)
    ensures var t := UnpinAll(s, ids);
            && Agree(t) && DistinctIds(t.manifest)
            && t.record.pinned <= s.record.pinned
            && (forall id :: id in ids ==> id !in t.record.pinned)
            && t.record.questions == s.record.questions && t.record.answers == s.record.answers
    decreases |ids|
  {
    hide Agree, DistinctIds;
    if ids != [] {
      SetPinnedKeeps(s, ids[0], false);
      UnpinAllKeeps(SetPinned(s, ids[0], false), ids[1..]);
      assert forall id :: id in ids <==> id == ids[0] || id in ids[1..];
    }
  }

  /** Editing the questions keeps the agreement, and pins no document of an answer that was dropped. */
  lemma EditQuestionsKeeps(s: Store, questions: seq<string>)
    requires Agree(s) && DistinctIds(s.manifest)
    ensures var t := EditQuestions(s, questions);
            && Agree(t) && DistinctIds(t.manifest)
            && t.record.pinned <= s.record.pinned
            && forall id :: id in Reconcile(s.record.questions, questions, s.record.answers).removedDocumentIds ==>
                              id !in t.record.pinned && id !in PinnedIds(t.manifest)
  {
    hide Reconcile;
    UnpinAllKeeps(s, Reconcile(s.record.questions, questions, s.record.answers).removedDocumentIds);
  }

  /** Completing an answer keeps the agreement; its document is in the manifest and pinned, and its state points at
      it. */
  lemma CompleteAnswerKeeps(s: Store, index: int, title: string, newId: string)
    requires Agree(s) && DistinctIds(s.manifest) && newId !in Ids(s.manifest) && newId != ""
    requires AnswerMatching.DistinctIndexes(s.record.answers)
    ensures var r := CompleteAnswer(s, index, title, newId);
            r.Ok? ==>
              && Agree(r.store) && DistinctIds(r.store.manifest)
              && AnswerMatching.DistinctIndexes(r.store.record.answers)
              && exists document ::
                   document in r.store.record.pinned && AnswerState(index, true, document) in r.store.record.answers
  {
    hide AnswerMatching.Upsert, Update, DistinctIds;
    var existing := AnswerDocument(s, index);
    var document := if existing != "" then existing else newId;
    if existing != "" {
      UpdateKeeps(s, existing, title, true, true);
    } else {
      PersistKeeps(s, Document(newId, title, true, true));
    }
    AnswerMatching.UpsertReplaces(s.record.answers, AnswerState(index, true, document));
  }

  lemma ReopenAnswerKeeps(s: Store, index: int)
    requires Agree(s) && DistinctIds(s.manifest) && AnswerMatching.DistinctIndexes(s.record.answers)
    ensures var t := ReopenAnswer(s, index);
            && Agree(t) && t.manifest == s.manifest
            && AnswerMatching.DistinctIndexes(t.record.answers)
            && forall a :: a in t.record.answers && a.questionIndex == index ==> !a.completed
  {
    hide AnswerMatching.Upsert;
    var found := FindAnswer(s.record.answers, index);
    if found.None? {
      NotFound(s.record.answers, index);
    } else {
      AnswerMatching.UpsertReplaces(s.record.answers, found.value.(completed := false));
    }
  }

  lemma {:induction false} NotFound(answers: seq<AnswerState>, index: int)
    requires FindAnswer(answers, index).None?
    ensures forall a :: a in answers ==> a.questionIndex != index
  {
    if answers != [] {
      NotFound(answers[1..], index);
    }
  }

  // ---- All sequences of operations -----------------------------------------

  datatype Op =
    | OpPersist(document: Document)
    | OpSetPinned(id: string, pinned: bool)
    | OpUpdate(id: string, title: string, pinned: bool, withContent: bool)
    | OpDelete(id: string)
    | OpEditQuestions(questions: seq<string>)
    | OpComplete(index: int, title: string, newId: string)
    | OpReopen(index: int)

  function OrUnchanged(s: Store, r: Result): Store {
    if r.Ok? then r.store else s
  }

  function Apply(s: Store, op: Op): Store {
    match op
    case OpPersist(document) => Persist(s, document)
    case OpSetPinned(id, pinned) => SetPinned(s, id, pinned)
    case OpUpdate(id, title, pinned, withContent) => OrUnchanged(s, Update(s, id, title, pinned, withContent))
    case OpDelete(id) => OrUnchanged(s, Delete(s, id))
    case OpEditQuestions(questions) => EditQuestions(s, questions)
    case OpComplete(index, title, newId) => OrUnchanged(s, CompleteAnswer(s, index, title, newId))
    case OpReopen(index) => ReopenAnswer(s, index)
  }

  /** The ids of new documents are new. */
  predicate HasFreshIds(s: Store, op: Op) {
    match op
    case OpPersist(document) => document.id !in Ids(s.manifest)
    case OpComplete(index, title, newId) => newId !in Ids(s.manifest) && newId != ""
    case _ => true
  }

  /** A pin is put on a document that exists. */
  predicate PinsExisting(s: Store, op: Op) {
    op.OpSetPinned? && op.pinned ==> op.id in Ids(s.manifest)
  }

  ghost predicate AllFresh(s: Store, ops: seq<Op>)
    decreases |ops|
  {
    ops == [] || (HasFreshIds(s, ops[0]) && AllFresh(Apply(s, ops[0]), ops[1..]))
  }

  ghost predicate AllPinExisting(s: Store, ops: seq<Op>)
    decreases |ops|
  {
    ops == [] || (PinsExisting(s, ops[0]) && AllPinExisting(Apply(s, ops[0]), ops[1..]))
  }

  function Run(s: Store, ops: seq<Op>): Store
    decreases |ops|
  {
    if ops == [] then s else Run(Apply(s, ops[0]), ops[1..])
  }

  ghost predicate Consistent(s: Store) {
    Agree(s) && DistinctIds(s.manifest) && AnswerMatching.DistinctIndexes(s.record.answers)
  }

  lemma ApplyKeeps(s: Store, op: Op)
    requires Consistent(s) && HasFreshIds(s, op)
    ensures Agree(Apply(s, op)) <==> PinsExisting(s, op)
    ensures PinsExisting(s, op) ==> Consistent(Apply(s, op))
  {
    hide Agree, DistinctIds, AnswerMatching.DistinctIndexes, Update, Delete, CompleteAnswer, ReopenAnswer, Reconcile,
         UnpinAll;
    match op
    case OpPersist(document) => PersistKeeps(s, document);
    case OpSetPinned(id, pinned) => SetPinnedKeeps(s, id, pinned);
    case OpUpdate(id, title, pinned, withContent) => UpdateKeeps(s, id, title, pinned, withContent);
    case OpDelete(id) => DeleteKeeps(s, id); DeleteKeepsAnswers(s, id);
    case OpEditQuestions(questions) => EditQuestionsKeeps(s, questions); EditedAnswersDistinct(s, questions);
    case OpComplete(index, title, newId) => CompleteAnswerKeeps(s, index, title, newId);
    case OpReopen(index) => ReopenAnswerKeeps(s, index);
  }

  lemma DeleteKeepsAnswers(s: Store, id: string)
    ensures Delete(s, id).Ok? ==> Delete(s, id).store.record.answers == s.record.answers
  {
  }

  lemma EditedAnswersDistinct(s: Store, questions: seq<string>)
    ensures AnswerMatching.DistinctIndexes(EditQuestions(s, questions).record.answers)
  {
    KeptStrictlySorted(s.record.questions, s.record.answers, questions, |questions|);
  }

  /** The index agrees with the manifest at every moment. */
  ghost predicate AlwaysAgrees(s: Store, ops: seq<Op>)
    decreases |ops|
  {
    Agree(s) && (ops == [] || AlwaysAgrees(Apply(s, ops[0]), ops[1..]))
  }

  /** Over every sequence of operations, the index agrees with the manifest throughout if and only if no pin is put on a
      document that does not exist. */
  lemma {:induction false} PinnedIndexAgrees(s: Store, ops: seq<Op>)
    requires Consistent(s) && AllFresh(s, ops)
    ensures AlwaysAgrees(s, ops) <==> AllPinExisting(s, ops)
    ensures AllPinExisting(s, ops) ==> Consistent(Run(s, ops))
    decreases |ops|
  {
    hide Agree, DistinctIds, Apply, HasFreshIds, PinsExisting;
    if ops != [] {
      ApplyKeeps(s, ops[0]);
      if PinsExisting(s, ops[0]) {
        PinnedIndexAgrees(Apply(s, ops[0]), ops[1..]);
      }
    }
  }

  /** So it is in every project, from its creation on. */
  lemma ProjectIndexAgrees(questions: seq<string>, ops: seq<Op>)
    requires AllFresh(Created(questions), ops)
    ensures AlwaysAgrees(Created(questions), ops) <==> AllPinExisting(Created(questions), ops)
  {
    assert Consistent(Created(questions)) by {
      assert PinnedIds([]) == {};
    }
    PinnedIndexAgrees(Created(questions), ops);
  }
}
