/** How `core/essayQuestionWorkflow.ts` carries essay answers over an edit of the questions. */
module EssayAnswers {
  import opened Basics
  import opened Text

  /** `documentId` is empty when the state has no document. */
  datatype AnswerState = AnswerState(questionIndex: int, completed: bool, documentId: string)

  // ---- What is matched with what -------------------------------------------

  /** The trimmed text of the question a state points at; empty when there is none. */
  function TextOf(prior: seq<string>, state: AnswerState): string {
    if 0 <= state.questionIndex < |prior| then Trim(prior[state.questionIndex]) else ""
  }

  /** The states that answer a text, in their order. */
  function Bucket(prior: seq<string>, states: seq<AnswerState>, text: string): seq<AnswerState> {
    if states == [] then []
    else
      var n := |states| - 1;
      Bucket(prior, states[..n], text) + if TextOf(prior, states[n]) == text then [states[n]] else []
  }

  /** How many questions have a text. */
  function CountText(questions: seq<string>, text: string): nat {
    if questions == [] then 0
    else
      var n := |questions| - 1;
      CountText(questions[..n], text) + if Trim(questions[n]) == text then 1 else 0
  }

  /** The i-th new question with a text takes the i-th state that answers it. */
  function Match(prior: seq<string>, states: seq<AnswerState>, questions: seq<string>, q: nat): Option<AnswerState>
    requires q < |questions|
  {
    var text := Trim(questions[q]);
    var bucket, rank := Bucket(prior, states, text), CountText(questions[..q], text);
    if text != "" && rank < |bucket| then Some(bucket[rank]) else None
  }

  /** The states kept for the first `n` questions, moved to their new index. */
  function Kept(prior: seq<string>, states: seq<AnswerState>, questions: seq<string>, n: nat): seq<AnswerState>
    requires n <= |questions|
  {
    if n == 0 then []
    else
      Kept(prior, states, questions, n - 1) +
      match Match(prior, states, questions, n - 1)
      case Some(state) => [state.(questionIndex := n - 1)]
      case None => []
  }

  /** The old indexes of the states kept for the first `n` questions. */
  function MatchedIndexes(prior: seq<string>, states: seq<AnswerState>, questions: seq<string>, n: nat): set<int>
    requires n <= |questions|
  {
    set q | 0 <= q < n && Match(prior, states, questions, q).Some? ::
      Match(prior, states, questions, q).value.questionIndex
  }

  function RemovedDocuments(states: seq<AnswerState>, matched: set<int>): seq<string> {
    if states == [] then []
    else
      var n := |states| - 1;
      RemovedDocuments(states[..n], matched) +
      if states[n].questionIndex !in matched && states[n].documentId != "" then [states[n].documentId] else []
  }

  datatype Reconciled = Reconciled(states: seq<AnswerState>, removedDocumentIds: seq<string>)

  function Reconcile(prior: seq<string>, questions: seq<string>, states: seq<AnswerState>): Reconciled {
    Reconciled(Kept(prior, states, questions, |questions|),
               RemovedDocuments(states, MatchedIndexes(prior, states, questions, |questions|)))
  }

  // ---- Sorting by index ----------------------------------------------------

  ghost predicate SortedByIndex(states: seq<AnswerState>) {
    forall i, j :: 0 <= i < j < |states| ==> states[i].questionIndex <= states[j].questionIndex
  }

  ghost predicate StrictlySorted(states: seq<AnswerState>) {
    forall i, j :: 0 <= i < j < |states| ==> states[i].questionIndex < states[j].questionIndex
  }

  /** Inserts a state behind those that are not greater. */
  function InsertSorted(sorted: seq<AnswerState>, state: AnswerState): seq<AnswerState> {
    if sorted == [] || sorted[|sorted| - 1].questionIndex <= state.questionIndex then sorted + [state]
    else InsertSorted(sorted[..|sorted| - 1], state) + [sorted[|sorted| - 1]]
  }

  /** The stable sort by question index. */
  function SortByIndex(states: seq<AnswerState>): seq<AnswerState> {
    if states == [] then [] else InsertSorted(SortByIndex(states[..|states| - 1]), states[|states| - 1])
  }

  lemma {:induction false} InsertMembers(sorted: seq<AnswerState>, state: AnswerState)
    ensures forall s :: s in InsertSorted(sorted, state) <==> s in sorted || s == state
  {
    if sorted != [] && sorted[|sorted| - 1].questionIndex > state.questionIndex {
      var n := |sorted| - 1;
      InsertMembers(sorted[..n], state);
      assert sorted == sorted[..n] + [sorted[n]];
    }
  }

  lemma {:induction false} InsertKeepsStrict(sorted: seq<AnswerState>, state: AnswerState)
    requires StrictlySorted(sorted)
    requires forall s :: s in sorted ==> s.questionIndex != state.questionIndex
    ensures StrictlySorted(InsertSorted(sorted, state))
  {
    if sorted != [] && sorted[|sorted| - 1].questionIndex > state.questionIndex {
      var n := |sorted| - 1;
      InsertKeepsStrict(sorted[..n], state);
      InsertMembers(sorted[..n], state);
      var inserted := InsertSorted(sorted[..n], state);
      forall i | 0 <= i < |inserted| ensures inserted[i].questionIndex < sorted[n].questionIndex {
        assert inserted[i] in inserted;
      }
    } else if sorted != [] {
      assert sorted[|sorted| - 1] in sorted;
    }
  }

  /** Sorting states with different indexes orders them strictly and loses none. */
  lemma {:induction false} SortIsStrict(states: seq<AnswerState>)
    ensures forall s :: s in SortByIndex(states) <==> s in states
    ensures (forall i, j :: 0 <= i < j < |states| ==> states[i].questionIndex != states[j].questionIndex) ==>
              StrictlySorted(SortByIndex(states))
  {
    if states != [] {
      var n := |states| - 1;
      SortIsStrict(states[..n]);
      InsertMembers(SortByIndex(states[..n]), states[n]);
      assert states == states[..n] + [states[n]];
      if forall i, j :: 0 <= i < j < |states| ==> states[i].questionIndex != states[j].questionIndex {
        InsertKeepsStrict(SortByIndex(states[..n]), states[n]);
      }
    }
  }

  lemma {:induction false} SortKeepsSorted(states: seq<AnswerState>)
    requires SortedByIndex(states)
    ensures SortByIndex(states) == states
  {
    hide InsertSorted;
    if states != [] {
      var n := |states| - 1;
      SortKeepsSorted(states[..n]);
      InsertsLast(states[..n], states[n]);
      assert states == states[..n] + [states[n]];
    }
  }

  lemma InsertsLast(sorted: seq<AnswerState>, state: AnswerState)
    requires sorted != [] ==> sorted[|sorted| - 1].questionIndex <= state.questionIndex
    ensures InsertSorted(sorted, state) == sorted + [state]
  {
  }

  // ---- The program's loops -------------------------------------------------

  /** What is left of a bucket after the questions so far have shifted their share from it. */
  function Remaining(prior: seq<string>, states: seq<AnswerState>, questions: seq<string>, n: nat, text: string)
    : seq<AnswerState>
    requires n <= |questions|
  {
    var bucket, taken := Bucket(prior, states, text), CountText(questions[..n], text);
    if taken <= |bucket| then bucket[taken..] else []
  }

  function Content(buckets: map<string, seq<AnswerState>>, text: string): seq<AnswerState> {
    if text in buckets then buckets[text] else []
  }

  /** The buckets as they stand after `n` questions. */
  ghost predicate BucketsAt(buckets: map<string, seq<AnswerState>>, prior: seq<string>, states: seq<AnswerState>,
                            questions: seq<string>, n: nat)
    requires n <= |questions|
  {
    "" !in buckets &&
    forall text :: text != "" ==> Content(buckets, text) == Remaining(prior, states, questions, n, text)
  }

  lemma CountNext(questions: seq<string>, q: nat, text: string)
    requires q < |questions|
    ensures CountText(questions[..q + 1], text) ==
            CountText(questions[..q], text) + if Trim(questions[q]) == text then 1 else 0
  {
    assert questions[..q + 1][..q] == questions[..q];
  }

  /** Shifting the bucket of a question's text yields its match and the buckets for the next question. */
  lemma ShiftAdvances(buckets: map<string, seq<AnswerState>>, prior: seq<string>, states: seq<AnswerState>,
                      questions: seq<string>, q: nat)
    requires q < |questions| && BucketsAt(buckets, prior, states, questions, q)
    ensures var text := Trim(questions[q]);
            var bucket := Content(buckets, text);
            if bucket != []
            then Match(prior, states, questions, q) == Some(bucket[0]) &&
                 BucketsAt(buckets[text := bucket[1..]], prior, states, questions, q + 1)
            else Match(prior, states, questions, q) == None && BucketsAt(buckets, prior, states, questions, q + 1)
  {
    hide CountText, Bucket, Trim;
    var text := Trim(questions[q]);
    var bucket := Content(buckets, text);
    var next := if bucket != [] then buckets[text := bucket[1..]] else buckets;
    forall other | other != "" ensures Content(next, other) == Remaining(prior, states, questions, q + 1, other) {
      CountNext(questions, q, other);
      assert Content(buckets, other) == Remaining(prior, states, questions, q, other);
    }
  }

  method ReconcileEssayAnswerStates(prior: seq<string>, questions: seq<string>, current: seq<AnswerState>)
    returns (result: Reconciled)
    ensures result == Reconcile(prior, questions, current)
  {
    hide Match, Trim, BucketsAt, SortByIndex, MatchedIndexes;
    var byQuestionText := FillBuckets(prior, current);
    FirstBuckets(byQuestionText, prior, current, questions);
    var states: seq<AnswerState>, matchedQuestionIndexes: set<int> := [], {};
    NothingMatched(prior, current, questions);
    for q := 0 to |questions|
      invariant states == Kept(prior, current, questions, q)
      invariant matchedQuestionIndexes == MatchedIndexes(prior, current, questions, q)
      invariant BucketsAt(byQuestionText, prior, current, questions, q)
    {
      ShiftAdvances(byQuestionText, prior, current, questions, q);
      MatchedGrow(prior, current, questions, q);
      var text := Trim(questions[q]);
      if text in byQuestionText && byQuestionText[text] != [] {
        var nextMatch := byQuestionText[text][0];
        byQuestionText := byQuestionText[text := byQuestionText[text][1..]];
        matchedQuestionIndexes := matchedQuestionIndexes + {nextMatch.questionIndex};
        states := states + [nextMatch.(questionIndex := q)];
      }
    }
    KeptStrictlySorted(prior, current, questions, |questions|);
    SortKeepsSorted(states);
    var removed := CollectRemoved(current, matchedQuestionIndexes);
    result := Reconciled(SortByIndex(states), removed);
  }

  lemma NothingMatched(prior: seq<string>, states: seq<AnswerState>, questions: seq<string>)
    ensures MatchedIndexes(prior, states, questions, 0) == {}
  {
  }

  lemma FirstBuckets(buckets: map<string, seq<AnswerState>>, prior: seq<string>, states: seq<AnswerState>,
                     questions: seq<string>)
    requires "" !in buckets
    requires forall text :: text != "" ==> Content(buckets, text) == Bucket(prior, states, text)
    ensures BucketsAt(buckets, prior, states, questions, 0)
  {
    assert questions[..0] == [];
  }

  lemma MatchedGrow(prior: seq<string>, states: seq<AnswerState>, questions: seq<string>, q: nat)
    requires q < |questions|
    ensures MatchedIndexes(prior, states, questions, q + 1) ==
            MatchedIndexes(prior, states, questions, q) +
            if Match(prior, states, questions, q).Some?
            then {Match(prior, states, questions, q).value.questionIndex} else {}
  {
    hide Match;
  }

  method FillBuckets(prior: seq<string>, current: seq<AnswerState>) returns (buckets: map<string, seq<AnswerState>>)
    ensures "" !in buckets
    ensures forall text :: text != "" ==> Content(buckets, text) == Bucket(prior, current, text)
  {
    buckets := map[];
    for i := 0 to |current|
      invariant "" !in buckets
      invariant forall text :: text != "" ==> Content(buckets, text) == Bucket(prior, current[..i], text)
    {
      assert current[..i + 1][..i] == current[..i];
      var text := TextOf(prior, current[i]);
      if text != "" {
        buckets := buckets[text := Content(buckets, text) + [current[i]]];
      }
    }
    assert current[..|current|] == current;
  }

  method CollectRemoved(current: seq<AnswerState>, matched: set<int>) returns (removed: seq<string>)
    ensures removed == RemovedDocuments(current, matched)
  {
    removed := [];
    for i := 0 to |current|
      invariant removed == RemovedDocuments(current[..i], matched)
    {
      assert current[..i + 1][..i] == current[..i];
      if current[i].questionIndex !in matched && current[i].documentId != "" {
        removed := removed + [current[i].documentId];
      }
    }
    assert current[..|current|] == current;
  }

  // ---- Order and origin of what is kept ------------------------------------

  lemma {:induction false} KeptStrictlySorted(prior: seq<string>, states: seq<AnswerState>, questions: seq<string>,
                                              n: nat)
    requires n <= |questions|
    ensures var kept := Kept(prior, states, questions, n);
            && StrictlySorted(kept) && SortedByIndex(kept)
            && forall i :: 0 <= i < |kept| ==> 0 <= kept[i].questionIndex < n
  {
    hide Match;
    if n > 0 {
      KeptStrictlySorted(prior, states, questions, n - 1);
    }
  }

  lemma {:induction false} BucketMembers(prior: seq<string>, states: seq<AnswerState>, text: string)
    ensures forall state :: state in Bucket(prior, states, text) <==> state in states && TextOf(prior, state) == text
  {
    hide TextOf;
    if states != [] {
      var n := |states| - 1;
      BucketMembers(prior, states[..n], text);
      assert forall state :: state in states <==> state in states[..n] || state == states[n];
    }
  }

  /** Every kept state is an input state, moved to a question with the text it answered. */
  lemma {:induction false} KeptOrigins(prior: seq<string>, states: seq<AnswerState>, questions: seq<string>, n: nat,
                                       i: nat)
    requires n <= |questions| && i < |Kept(prior, states, questions, n)|
    ensures var kept := Kept(prior, states, questions, n)[i];
            && 0 <= kept.questionIndex < n
            && Match(prior, states, questions, kept.questionIndex).Some?
            && var origin := Match(prior, states, questions, kept.questionIndex).value;
               && origin in states
               && kept == origin.(questionIndex := kept.questionIndex)
               && TextOf(prior, origin) == Trim(questions[kept.questionIndex]) != ""
  {
    hide TextOf, CountText;
    if i < |Kept(prior, states, questions, n - 1)| {
      KeptOrigins(prior, states, questions, n - 1, i);
    } else {
      BucketMembers(prior, states, Trim(questions[n - 1]));
    }
  }
}
