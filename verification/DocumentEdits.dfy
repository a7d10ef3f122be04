/** What each change of a project's documents does, document by document. */
module DocumentEdits {
  import opened Basics
  import opened Text
  import opened EssayAnswers
  import opened PinnedIndex
  import AnswerMatching

  lemma IndexIsIn(manifest: seq<Document>, id: string)
    ensures IndexOf(manifest, id) >= 0 <==> id in Ids(manifest)
  {
    if id in Ids(manifest) {
      var i :| 0 <= i < |manifest| && manifest[i].id == id;
    }
  }

  lemma {:induction false} DropAbsent(manifest: seq<Document>, id: string)
    requires id !in Ids(manifest)
    ensures Drop(manifest, id) == manifest
  {
    if manifest != [] {
      assert manifest[0].id in Ids(manifest);
      assert forall i :: 0 <= i < |manifest[1..]| ==> manifest[1..][i] == manifest[i + 1];
      DropAbsent(manifest[1..], id);
    }
  }

  lemma {:induction false} DropTakesOut(manifest: seq<Document>, i: nat)
    requires DistinctIds(manifest) && i < |manifest|
    ensures Drop(manifest, manifest[i].id) == manifest[..i] + manifest[i + 1..]
  {
    var id, rest := manifest[i].id, manifest[1..];
    assert forall j :: 0 <= j < |rest| ==> rest[j] == manifest[j + 1];
    if i == 0 {
      assert id !in Ids(rest);
      DropAbsent(rest, id);
    } else {
      DropTakesOut(rest, i - 1);
      assert manifest[0].id != id && rest[i - 1] == manifest[i];
      assert [manifest[0]] + (rest[..i - 1] + rest[i..]) == manifest[..i] + manifest[i + 1..];
    }
  }

  /** A deletion takes exactly the document with the id out of the manifest and off the index, and fails exactly when
      there is none. */
  lemma DeleteExact(s: Store, id: string)
    requires DistinctIds(s.manifest)
    ensures if id !in Ids(s.manifest) then Delete(s, id) == Failed(DocumentNotFound)
            else exists i :: 0 <= i < |s.manifest| && s.manifest[i].id == id &&
                             Delete(s, id) == Ok(Store(s.manifest[..i] + s.manifest[i + 1..],
                                                       s.record.(pinned := s.record.pinned - {id})))
  {
    IndexIsIn(s.manifest, id);
    var i := IndexOf(s.manifest, id);
    if i >= 0 {
      DropTakesOut(s.manifest, i);
    }
  }

  /** The document with a new pin and, unless the new title is blank, that title, trimmed. */
  ghost predicate IsEdited(before: Document, after: Document, title: string, pinned: bool) {
    && after.id == before.id && after.textual == before.textual && after.pinned == pinned
    && (if Blank(title) then after.title == before.title else after.title == Trim(title))
  }

  /** An update sets title and pin of the document with the id and leaves every other as it is; it fails exactly when
      there is none, or when new content is for one that cannot be edited in place. */
  lemma UpdateExact(s: Store, id: string, title: string, pinned: bool, withContent: bool)
    requires DistinctIds(s.manifest)
    ensures var r := Update(s, id, title, pinned, withContent);
            && (r == Failed(DocumentNotFound) <==> id !in Ids(s.manifest))
            && (r == Failed(NotEditable) <==>
                withContent && exists d :: d in s.manifest && d.id == id && !d.textual)
            && (r.Ok? ==>
                  && |r.store.manifest| == |s.manifest|
                  && (forall j :: 0 <= j < |s.manifest| ==>
                        if s.manifest[j].id == id then IsEdited(s.manifest[j], r.store.manifest[j], title, pinned)
                        else r.store.manifest[j] == s.manifest[j])
                  && r.store.record ==
                     s.record.(pinned := if pinned then s.record.pinned + {id} else s.record.pinned - {id}))
  {
    hide Trim, Blank;
    IndexIsIn(s.manifest, id);
    TrimBlank(title);
    var i := IndexOf(s.manifest, id);
    if i >= 0 {
      assert s.manifest[i] in s.manifest;
    }
  }

  lemma {:induction false} UnpinAllExact(s: Store, ids: seq<string>)
    ensures var t := UnpinAll(s, ids);
            && |t.manifest| == |s.manifest|
            && (forall j :: 0 <= j < |s.manifest| ==>
                  t.manifest[j] ==
                  if s.manifest[j].id in ids then s.manifest[j].(pinned := false) else s.manifest[j])
            && (forall id :: id in t.record.pinned <==> id in s.record.pinned && id !in ids)
            && t.record.questions == s.record.questions && t.record.answers == s.record.answers
    decreases |ids|
  {
    if ids != [] {
      UnpinAllExact(SetPinned(s, ids[0], false), ids[1..]);
      assert forall id :: id in ids <==> id == ids[0] || id in ids[1..];
    }
  }

  /** An edit stores the questions and the answers as they are matched to them, and unpins exactly the documents of the
      answers that no question takes over. */
  lemma EditQuestionsExact(s: Store, questions: seq<string>)
    ensures var t, matched := EditQuestions(s, questions), Reconcile(s.record.questions, questions, s.record.answers);
            && t.record.questions == questions && t.record.answers == matched.states
            && |t.manifest| == |s.manifest|
            && (forall j :: 0 <= j < |s.manifest| ==>
                  t.manifest[j] ==
                  if s.manifest[j].id in matched.removedDocumentIds then s.manifest[j].(pinned := false)
                  else s.manifest[j])
            && (forall id :: id in t.record.pinned <==> id in s.record.pinned && id !in matched.removedDocumentIds)
  {
    hide Reconcile, UnpinAll;
    UnpinAllExact(s, Reconcile(s.record.questions, questions, s.record.answers).removedDocumentIds);
  }

  lemma {:induction false} FindInDistinct(answers: seq<AnswerState>, a: AnswerState)
    requires AnswerMatching.DistinctIndexes(answers) && a in answers
    ensures FindAnswer(answers, a.questionIndex) == Some(a)
  {
    if answers[0] != a {
      assert a in answers[1..];
      FindInDistinct(answers[1..], a);
    }
  }

  /** An answer that is completed again is written to the document of the first time: no document is added. */
  lemma CompletedAgain(s: Store, index: int, title: string, newId: string, again: string, anotherId: string)
    requires AnswerMatching.DistinctIndexes(s.record.answers) && newId != ""
    requires CompleteAnswer(s, index, title, newId).Ok?
    ensures var first := CompleteAnswer(s, index, title, newId).store;
            var document := if AnswerDocument(s, index) != "" then AnswerDocument(s, index) else newId;
            && AnswerDocument(first, index) == document
            && var second := CompleteAnswer(first, index, again, anotherId);
               second.Ok? ==> |second.store.manifest| == |first.manifest| &&
                              AnswerDocument(second.store, index) == document
  {
    hide Update, AnswerMatching.Upsert;
    UpdateKeepsAnswers(s, AnswerDocument(s, index), title);
    DocumentRemembered(s, index, title, newId);
    var first := CompleteAnswer(s, index, title, newId).store;
    UpdateKeepsAnswers(first, AnswerDocument(first, index), again);
    if CompleteAnswer(first, index, again, anotherId).Ok? {
      DocumentRemembered(first, index, again, anotherId);
    }
  }

  lemma UpdateKeepsAnswers(s: Store, id: string, title: string)
    ensures var r := Update(s, id, title, true, true);
            r.Ok? ==> r.store.record.answers == s.record.answers && |r.store.manifest| == |s.manifest|
  {
  }

  lemma DocumentRemembered(s: Store, index: int, title: string, newId: string)
    requires AnswerMatching.DistinctIndexes(s.record.answers)
    requires CompleteAnswer(s, index, title, newId).Ok?
    ensures var first := CompleteAnswer(s, index, title, newId).store;
            && AnswerMatching.DistinctIndexes(first.record.answers)
            && AnswerDocument(first, index) ==
               if AnswerDocument(s, index) != "" then AnswerDocument(s, index) else newId
  {
    hide Update, AnswerMatching.Upsert, FindAnswer;
    var document := if AnswerDocument(s, index) != "" then AnswerDocument(s, index) else newId;
    var state := AnswerState(index, true, document);
    UpdateKeepsAnswers(s, AnswerDocument(s, index), title);
    AnswerMatching.UpsertReplaces(s.record.answers, state);
    FindInDistinct(AnswerMatching.Upsert(s.record.answers, state), state);
  }

  /** Completing an answer writes its document, with the new title, pinned: the one it has, when that can be edited in
      place, or a new one in front of the others; no other document changes, and its state alone is replaced. */
  lemma CompleteExact(s: Store, index: int, title: string, newId: string)
    requires DistinctIds(s.manifest) && AnswerMatching.DistinctIndexes(s.record.answers)
    ensures var r, existing := CompleteAnswer(s, index, title, newId), AnswerDocument(s, index);
            && (r.Failed? <==> existing != "" && !exists d :: d in s.manifest && d.id == existing && d.textual)
            && (r.Ok? && existing == "" ==>
                  r.store.manifest == [Document(newId, title, true, true)] + s.manifest &&
                  r.store.record.pinned == s.record.pinned + {newId})
            && (r.Ok? && existing != "" ==>
                  && |r.store.manifest| == |s.manifest|
                  && (forall j :: 0 <= j < |s.manifest| ==>
                        if s.manifest[j].id == existing then IsEdited(s.manifest[j], r.store.manifest[j], title, true)
                        else r.store.manifest[j] == s.manifest[j])
                  && r.store.record.pinned == s.record.pinned + {existing})
            && (r.Ok? ==>
                  r.store.record.questions == s.record.questions &&
                  forall a :: a in r.store.record.answers <==>
                              a == AnswerState(index, true, if existing != "" then existing else newId) ||
                              (a in s.record.answers && a.questionIndex != index))
  {
    hide Update, AnswerMatching.Upsert, FindAnswer, IsEdited;
    var existing := AnswerDocument(s, index);
    UpdateExact(s, existing, title, true, true);
    UpdateKeepsAnswers(s, existing, title);
    FailsIfMissing(s, existing, title);
    var document := if existing != "" then existing else newId;
    AnswerMatching.UpsertReplaces(s.record.answers, AnswerState(index, true, document));
  }

  lemma FailsIfMissing(s: Store, id: string, title: string)
    requires DistinctIds(s.manifest)
    ensures Update(s, id, title, true, true).Failed? <==>
            !exists d :: d in s.manifest && d.id == id && d.textual
  {
    hide Trim;
    IndexIsIn(s.manifest, id);
    var i := IndexOf(s.manifest, id);
    if i >= 0 {
      assert s.manifest[i] in s.manifest;
    }
    if d :| d in s.manifest && d.id == id && d.textual {
      var j :| 0 <= j < |s.manifest| && s.manifest[j] == d;
    }
  }

  /** Reopening an answer takes back that it is completed, and nothing else: it keeps its document. */
  lemma ReopenExact(s: Store, index: int)
    requires AnswerMatching.DistinctIndexes(s.record.answers)
    ensures var t := ReopenAnswer(s, index);
            && t.manifest == s.manifest && t.record.pinned == s.record.pinned
            && t.record.questions == s.record.questions
            && forall a :: a in t.record.answers <==>
                           if a.questionIndex == index then
                             !a.completed && exists b :: b in s.record.answers && a == b.(completed := false)
                           else a in s.record.answers
  {
    hide AnswerMatching.Upsert, FindAnswer;
    var found := FindAnswer(s.record.answers, index);
    if found.None? {
      NotFound(s.record.answers, index);
    } else {
      AnswerMatching.UpsertReplaces(s.record.answers, found.value.(completed := false));
      forall b | b in s.record.answers && b.questionIndex == index ensures b == found.value {
        FindInDistinct(s.record.answers, b);
      }
    }
  }
}
