/** The storage operations of `core/storage.ts` in their own form: each reads a file, changes it and writes it back. */
module ProjectStorage {
  import opened Basics
  import opened Text
  import opened EssayAnswers
  import opened PinnedIndex
  import AnswerMatching

  /** One project: `manifest` and `record` are its two files. */
  class Storage {
    var manifest: seq<Document>
    var record: Record

    function State(): Store
      reads this
    {
      Store(manifest, record)
    }

    constructor (questions: seq<string>)
      ensures State() == Created(questions)
    {
      manifest, record := [], Record({}, questions, []);
    }

    method PersistDocument(document: Document)
      modifies this
      ensures State() == Persist(old(State()), document)
    {
      manifest := [document] + manifest;
      if document.pinned {
        record := record.(pinned := record.pinned + {document.id});
      }
    }

    method SetProjectDocumentPinned(id: string, pinned: bool)
      modifies this
      ensures State() == SetPinned(old(State()), id, pinned)
    {
      manifest := seq(|manifest|, i requires 0 <= i < |manifest| reads this =>
        if manifest[i].id == id then manifest[i].(pinned := pinned) else manifest[i]);
      var current := record.pinned;
      if pinned {
        current := current + {id};
      } else {
        current := current - {id};
      }
      record := record.(pinned := current);
    }

    method UpdateProjectDocument(id: string, title: string, pinned: bool, withContent: bool)
      returns (failure: Option<Failure>)
      modifies this
      ensures Update(old(State()), id, title, pinned, withContent) ==
              if failure.Some? then Failed(failure.value) else Ok(State())
      ensures failure.Some? ==> State() == old(State())
    {
      hide Trim;
      var documentIndex := IndexOf(manifest, id);
      if documentIndex < 0 {
        return Some(DocumentNotFound);
      }
      var existing := manifest[documentIndex];
      var updated := existing.(title := if Trim(title) != "" then Trim(title) else existing.title, pinned := pinned);
      if withContent && !existing.textual {
        return Some(NotEditable);
      }
      manifest := manifest[documentIndex := updated];
      record := record.(pinned := if pinned then record.pinned + {id} else record.pinned - {id});
      return None;
    }

    method DeleteProjectDocument(id: string) returns (failure: Option<Failure>)
      modifies this
      ensures Delete(old(State()), id) == if failure.Some? then Failed(failure.value) else Ok(State())
      ensures failure.Some? ==> State() == old(State())
    {
      if IndexOf(manifest, id) < 0 {
        return Some(DocumentNotFound);
      }
      manifest := Drop(manifest, id);
      record := record.(pinned := record.pinned - {id});
      return None;
    }

    /** The part of `updateProjectInfo` that an edit of the questions concerns. The record read at the beginning is
        written back only when no document was unpinned in between; otherwise it is read again. */
    method UpdateProjectInfo(questions: seq<string>)
      modifies this
      ensures State() == EditQuestions(old(State()), questions)
    {
      hide Reconcile;
      var project := record;
      var next := ReconcileEssayAnswerStates(project.questions, questions, project.answers);
      var removed := next.removedDocumentIds;
      ghost var target := UnpinAll(State(), removed);
      for i := 0 to |removed|
        invariant UnpinAll(State(), removed[i..]) == target
        invariant i == 0 ==> record == project
      {
        assert removed[i..][1..] == removed[i + 1..];
        SetProjectDocumentPinned(removed[i], false);
      }
      var refreshed := if |removed| > 0 then record else project;
      record := refreshed.(questions := questions, answers := next.states);
    }

    method SaveCompletedEssayAnswer(index: int, title: string, newId: string) returns (failure: Option<Failure>)
      modifies this
      ensures CompleteAnswer(old(State()), index, title, newId) ==
              if failure.Some? then Failed(failure.value) else Ok(State())
      ensures failure.Some? ==> State() == old(State())
    {
      hide AnswerMatching.Upsert, Update;
      var existing := FindAnswer(record.answers, index);
      var document := if existing.Some? then existing.value.documentId else "";
      if document != "" {
        failure := UpdateProjectDocument(document, title, true, true);
        if failure.Some? {
          return;
        }
      } else {
        PersistDocument(Document(newId, title, true, true));
        document := newId;
      }
      record := record.(answers := AnswerMatching.Upsert(record.answers, AnswerState(index, true, document)));
      return None;
    }

    method ReopenEssayAnswer(index: int)
      modifies this
      ensures State() == ReopenAnswer(old(State()), index)
    {
      var existing := FindAnswer(record.answers, index);
      if existing.None? {
        return;
      }
      record := record.(answers := AnswerMatching.Upsert(record.answers, existing.value.(completed := false)));
    }
  }
}
