/** The matching that `reconcileEssayAnswerStates` finds is a largest one, and loses nothing that could be kept. */
module AnswerMatching {
  import opened Basics
  import opened Text
  import opened EssayAnswers

  /** The input states have different question indexes. */
  ghost predicate DistinctIndexes(states: seq<AnswerState>) {
    forall i, j :: 0 <= i < j < |states| ==> states[i].questionIndex != states[j].questionIndex
  }

  function Min(a: nat, b: nat): nat {
    if a < b then a else b
  }

  // ---- How many are kept ---------------------------------------------------

  /** How many kept states sit at a question with the text. */
  function CountKept(questions: seq<string>, kept: seq<AnswerState>, text: string): nat {
    if kept == [] then 0
    else
      var n := |kept| - 1;
      CountKept(questions, kept[..n], text) + if TextOf(questions, kept[n]) == text then 1 else 0
  }

  /** Per non-blank text, as many states are kept as there are both states that answer it and questions that ask it. */
  lemma {:induction false} KeptPerText(prior: seq<string>, states: seq<AnswerState>, questions: seq<string>, n: nat,
                                       text: string)
    requires n <= |questions| && text != ""
    ensures CountKept(questions, Kept(prior, states, questions, n), text) ==
            Min(CountText(questions[..n], text), |Bucket(prior, states, text)|)
  {
    hide Bucket, Trim, CountText, Match, CountKept;
    if n == 0 {
      assert questions[..0] == [];
      NoneAsked(text);
      NoneKept(questions, text);
    } else {
      KeptPerText(prior, states, questions, n - 1, text);
      CountNext(questions, n - 1, text);
      var before, found := Kept(prior, states, questions, n - 1), Match(prior, states, questions, n - 1);
      MatchIffRoom(prior, states, questions, n - 1);
      if found.Some? {
        KeepOne(questions, before, found.value.(questionIndex := n - 1), text);
      } else {
        assert before + [] == before;
      }
    }
  }

  lemma MatchIffRoom(prior: seq<string>, states: seq<AnswerState>, questions: seq<string>, q: nat)
    requires q < |questions|
    ensures Match(prior, states, questions, q).Some? <==>
            Trim(questions[q]) != "" &&
            CountText(questions[..q], Trim(questions[q])) < |Bucket(prior, states, Trim(questions[q]))|
  {
  }

  lemma KeepOne(questions: seq<string>, kept: seq<AnswerState>, state: AnswerState, text: string)
    ensures CountKept(questions, kept + [state], text) ==
            CountKept(questions, kept, text) + if TextOf(questions, state) == text then 1 else 0
  {
    assert (kept + [state])[..|kept|] == kept;
  }

  lemma NoneKept(questions: seq<string>, text: string)
    ensures CountKept(questions, [], text) == 0
  {
  }

  lemma NoneAsked(text: string)
    ensures CountText([], text) == 0
  {
  }

  // ---- Which are kept ------------------------------------------------------

  /** The question that asks a text for the k-th time. */
  lemma {:induction false} KthQuestion(questions: seq<string>, text: string, k: nat) returns (q: nat)
    requires k < CountText(questions, text)
    ensures q < |questions| && Trim(questions[q]) == text && CountText(questions[..q], text) == k
  {
    hide Trim;
    var n := |questions| - 1;
    if k < CountText(questions[..n], text) {
      q := KthQuestion(questions[..n], text, k);
      assert questions[..n][..q] == questions[..q];
    } else {
      q := n;
    }
  }

  lemma {:induction false} CountMonotone(questions: seq<string>, text: string, m: nat, n: nat)
    requires m <= n <= |questions|
    ensures CountText(questions[..m], text) <= CountText(questions[..n], text)
    decreases n - m
  {
    hide Trim, CountText;
    if m < n {
      CountMonotone(questions, text, m, n - 1);
      CountNext(questions, n - 1, text);
    }
  }

  /** A bucket holds different states, in places that no other state shares. */
  lemma {:induction false} BucketDistinct(prior: seq<string>, states: seq<AnswerState>, text: string)
    requires DistinctIndexes(states)
    ensures DistinctIndexes(Bucket(prior, states, text))
  {
    hide TextOf;
    if states != [] {
      var n := |states| - 1;
      BucketDistinct(prior, states[..n], text);
      BucketMembers(prior, states[..n], text);
      assert forall i :: 0 <= i < |Bucket(prior, states[..n], text)| ==>
        Bucket(prior, states[..n], text)[i] in states[..n];
    }
  }

  lemma SameIndexSameState(states: seq<AnswerState>, a: AnswerState, b: AnswerState)
    requires DistinctIndexes(states) && a in states && b in states && a.questionIndex == b.questionIndex
    ensures a == b
  {
  }

  /** What the match of a question is. */
  lemma MatchOrigin(prior: seq<string>, states: seq<AnswerState>, questions: seq<string>, q: nat)
    requires q < |questions| && Match(prior, states, questions, q).Some?
    ensures var origin := Match(prior, states, questions, q).value;
            origin in states && TextOf(prior, origin) == Trim(questions[q]) != ""
  {
    hide Trim, TextOf, CountText;
    BucketMembers(prior, states, Trim(questions[q]));
  }

  /** The k-th state that answers a text is kept exactly when the text is asked more than k times, and then by the
      question that asks it for the k-th time, counting from 0. */
  lemma KeptExactlyWhenAsked(prior: seq<string>, states: seq<AnswerState>, questions: seq<string>, text: string, k: nat)
    requires DistinctIndexes(states) && text != "" && k < |Bucket(prior, states, text)|
    ensures var state := Bucket(prior, states, text)[k];
            && (state.questionIndex in MatchedIndexes(prior, states, questions, |questions|) <==>
              k < CountText(questions, text))
            && (k < CountText(questions, text) ==>
                  exists q :: 0 <= q < |questions| && Match(prior, states, questions, q) == Some(state))
  {
    hide Trim, TextOf, Bucket, CountText;
    var bucket := Bucket(prior, states, text);
    var state := bucket[k];
    BucketMembers(prior, states, text);
    assert questions[..|questions|] == questions;
    if k < CountText(questions, text) {
      var q := KthQuestion(questions, text, k);
      assert Match(prior, states, questions, q) == Some(state);
    }
    if state.questionIndex in MatchedIndexes(prior, states, questions, |questions|) {
      var q :| 0 <= q < |questions| && Match(prior, states, questions, q).Some? &&
               Match(prior, states, questions, q).value.questionIndex == state.questionIndex;
      MatchOrigin(prior, states, questions, q);
      SameIndexSameState(states, Match(prior, states, questions, q).value, state);
      BucketDistinct(prior, states, text);
      assert CountText(questions[..q], text) == k;
      CountNext(questions, q, text);
      CountMonotone(questions, text, q + 1, |questions|);
    }
  }

  /** Kept and dropped divide the input: a state is kept by exactly one question, or it is dropped. */
  lemma KeptAndDropped(prior: seq<string>, states: seq<AnswerState>, questions: seq<string>, state: AnswerState)
    requires DistinctIndexes(states) && state in states
    ensures state.questionIndex in MatchedIndexes(prior, states, questions, |questions|) <==>
            exists q :: 0 <= q < |questions| && Match(prior, states, questions, q) == Some(state)
    ensures forall q, r :: 0 <= q < r < |questions| && Match(prior, states, questions, q) == Some(state) ==>
              Match(prior, states, questions, r) != Some(state)
  {
    hide Trim, TextOf, Bucket, CountText, Match;
    if state.questionIndex in MatchedIndexes(prior, states, questions, |questions|) {
      var q :| 0 <= q < |questions| && Match(prior, states, questions, q).Some? &&
               Match(prior, states, questions, q).value.questionIndex == state.questionIndex;
      MatchOrigin(prior, states, questions, q);
      SameIndexSameState(states, Match(prior, states, questions, q).value, state);
    }
    forall q, r | 0 <= q < r < |questions| && Match(prior, states, questions, q) == Some(state)
      ensures Match(prior, states, questions, r) != Some(state)
    {
      MatchedOnce(prior, states, questions, q, r);
    }
  }

  lemma MatchedOnce(prior: seq<string>, states: seq<AnswerState>, questions: seq<string>, q: nat, r: nat)
    requires DistinctIndexes(states) && q < r < |questions| && Match(prior, states, questions, q).Some?
    ensures Match(prior, states, questions, r) != Match(prior, states, questions, q)
  {
    hide Trim, TextOf, Bucket, CountText;
    if Match(prior, states, questions, r) == Match(prior, states, questions, q) {
      MatchOrigin(prior, states, questions, q);
      MatchOrigin(prior, states, questions, r);
      var text := Trim(questions[q]);
      BucketDistinct(prior, states, text);
      CountNext(questions, q, text);
      CountMonotone(questions, text, q + 1, r);
    }
  }

  /** The removed documents are those of the dropped states. */
  lemma {:induction false} RemovedAreDropped(states: seq<AnswerState>, matched: set<int>, documentId: string)
    ensures documentId in RemovedDocuments(states, matched) <==>
            exists i :: 0 <= i < |states| && states[i].questionIndex !in matched &&
              states[i].documentId == documentId != ""
  {
    if states != [] {
      var n := |states| - 1;
      RemovedAreDropped(states[..n], matched, documentId);
      if i :| 0 <= i < |states| && states[i].questionIndex !in matched && states[i].documentId == documentId != "" {
        if i < n { assert states[..n][i] == states[i]; }
      }
    }
  }

  // ---- When nothing is dropped ---------------------------------------------

  /** Every state answers some text, and no text is asked less often than it is answered. */
  ghost predicate RoomForAll(prior: seq<string>, states: seq<AnswerState>, questions: seq<string>) {
    forall i :: 0 <= i < |states| ==>
      TextOf(prior, states[i]) != "" &&
      |Bucket(prior, states, TextOf(prior, states[i]))| <= CountText(questions, TextOf(prior, states[i]))
  }

  lemma NothingDropped(prior: seq<string>, states: seq<AnswerState>, questions: seq<string>)
    requires DistinctIndexes(states)
    ensures (forall i :: 0 <= i < |states| ==>
               states[i].questionIndex in MatchedIndexes(prior, states, questions, |questions|)) <==>
            RoomForAll(prior, states, questions)
  {
    hide Trim, TextOf, Bucket, CountText, MatchedIndexes, Match;
    var matched := MatchedIndexes(prior, states, questions, |questions|);
    forall i | 0 <= i < |states| && RoomForAll(prior, states, questions) ensures states[i].questionIndex in matched {
      var text := TextOf(prior, states[i]);
      BucketMembers(prior, states, text);
      var k :| 0 <= k < |Bucket(prior, states, text)| && Bucket(prior, states, text)[k] == states[i];
      KeptExactlyWhenAsked(prior, states, questions, text, k);
    }
    if forall i :: 0 <= i < |states| ==> states[i].questionIndex in matched {
      forall i | 0 <= i < |states|
        ensures TextOf(prior, states[i]) != "" &&
                |Bucket(prior, states, TextOf(prior, states[i]))| <= CountText(questions, TextOf(prior, states[i]))
      {
        var text := TextOf(prior, states[i]);
        KeptHasText(prior, states, questions, states[i]);
        BucketMembers(prior, states, text);
        var last := |Bucket(prior, states, text)| - 1;
        if last >= 0 {
          assert Bucket(prior, states, text)[last] in states;
          KeptExactlyWhenAsked(prior, states, questions, text, last);
        }
      }
    }
  }

  lemma KeptHasText(prior: seq<string>, states: seq<AnswerState>, questions: seq<string>, state: AnswerState)
    requires DistinctIndexes(states) && state in states
    requires state.questionIndex in MatchedIndexes(prior, states, questions, |questions|)
    ensures TextOf(prior, state) != ""
  {
    hide Trim, TextOf, Bucket, CountText, Match, MatchedIndexes;
    KeptAndDropped(prior, states, questions, state);
    var q :| 0 <= q < |questions| && Match(prior, states, questions, q) == Some(state);
    MatchOrigin(prior, states, questions, q);
  }

  // ---- Reordered questions -------------------------------------------------

  lemma {:induction false} CountSplit(a: seq<string>, b: seq<string>, text: string)
    ensures CountText(a + b, text) == CountText(a, text) + CountText(b, text)
  {
    hide Trim;
    if b == [] {
      assert a + b == a;
    } else {
      var n := |b| - 1;
      assert (a + b)[..|a + b| - 1] == a + b[..n];
      CountSplit(a, b[..n], text);
    }
  }

  lemma WithoutOne(b: seq<string>, j: nat, text: string)
    requires j < |b|
    ensures multiset(b[..j] + b[j + 1..]) == multiset(b) - multiset{b[j]}
    ensures CountText(b, text) == CountText(b[..j] + b[j + 1..], text) + if Trim(b[j]) == text then 1 else 0
  {
    hide Trim;
    assert b == b[..j] + [b[j]] + b[j + 1..];
    CountSplit(b[..j], b[j + 1..], text);
    CountSplit(b[..j] + [b[j]], b[j + 1..], text);
    CountSplit(b[..j], [b[j]], text);
    assert [b[j]][..0] == [];
  }

  /** How often a text is asked does not depend on the order of the questions. */
  lemma {:induction false} CountOfPermutation(a: seq<string>, b: seq<string>, text: string)
    requires multiset(a) == multiset(b)
    ensures CountText(a, text) == CountText(b, text)
  {
    hide Trim;
    if a == [] {
      assert |multiset(b)| == 0;
    } else {
      var n := |a| - 1;
      assert a == a[..n] + [a[n]];
      assert a[n] in multiset(b);
      var j :| 0 <= j < |b| && b[j] == a[n];
      WithoutOne(b, j, text);
      CountOfPermutation(a[..n], b[..j] + b[j + 1..], text);
    }
  }

  function Asking(questions: seq<string>, text: string): set<int> {
    set q | 0 <= q < |questions| && Trim(questions[q]) == text
  }

  lemma {:induction false} CountIsAsking(questions: seq<string>, text: string)
    ensures |Asking(questions, text)| == CountText(questions, text)
  {
    hide Trim;
    if questions != [] {
      var n := |questions| - 1;
      CountIsAsking(questions[..n], text);
      assert Asking(questions, text) == Asking(questions[..n], text) + if Trim(questions[n]) == text then {n} else {};
    }
  }

  lemma {:induction false} IndexCount(states: seq<AnswerState>)
    requires DistinctIndexes(states)
    ensures |set i | 0 <= i < |states| :: states[i].questionIndex| == |states|
  {
    var indexes := set i | 0 <= i < |states| :: states[i].questionIndex;
    if states != [] {
      var n := |states| - 1;
      IndexCount(states[..n]);
      var before := set i | 0 <= i < n :: states[..n][i].questionIndex;
      assert indexes == before + {states[n].questionIndex};
    } else {
      assert indexes == {};
    }
  }

  lemma Subset<T>(a: set<T>, b: set<T>)
    requires a <= b
    ensures |a| <= |b|
  {
    assert |b| == |a| + |b - a| by {
      assert b == a + (b - a);
    }
  }

  /** A text is not answered more often than the old questions asked it. */
  lemma AnsweredAtMostAsked(prior: seq<string>, states: seq<AnswerState>, text: string)
    requires DistinctIndexes(states) && text != ""
    ensures |Bucket(prior, states, text)| <= CountText(prior, text)
  {
    hide Trim, Bucket;
    var bucket := Bucket(prior, states, text);
    BucketDistinct(prior, states, text);
    BucketMembers(prior, states, text);
    IndexCount(bucket);
    CountIsAsking(prior, text);
    var indexes := set i | 0 <= i < |bucket| :: bucket[i].questionIndex;
    forall i | 0 <= i < |bucket| ensures bucket[i].questionIndex in Asking(prior, text) {
      assert bucket[i] in bucket;
    }
    Subset(indexes, Asking(prior, text));
  }

  /** Reordering the questions drops no state that points at a non-blank question. */
  lemma ReorderingDropsNothing(prior: seq<string>, states: seq<AnswerState>, questions: seq<string>)
    requires DistinctIndexes(states)
    requires multiset(questions) == multiset(prior)
    requires forall i :: 0 <= i < |states| ==> TextOf(prior, states[i]) != ""
    ensures forall i :: 0 <= i < |states| ==>
              states[i].questionIndex in MatchedIndexes(prior, states, questions, |questions|)
  {
    hide Trim, TextOf, Bucket, CountText, MatchedIndexes;
    forall i | 0 <= i < |states|
      ensures |Bucket(prior, states, TextOf(prior, states[i]))| <= CountText(questions, TextOf(prior, states[i]))
    {
      AnsweredAtMostAsked(prior, states, TextOf(prior, states[i]));
      CountOfPermutation(questions, prior, TextOf(prior, states[i]));
    }
    NothingDropped(prior, states, questions);
  }

  // ---- Upsert --------------------------------------------------------------

  function Without(states: seq<AnswerState>, index: int): seq<AnswerState> {
    if states == [] then []
    else
      var n := |states| - 1;
      Without(states[..n], index) + if states[n].questionIndex != index then [states[n]] else []
  }

  /** `upsertEssayAnswerState`. */
  function Upsert(states: seq<AnswerState>, state: AnswerState): seq<AnswerState> {
    SortByIndex(Without(states, state.questionIndex) + [state])
  }

  lemma {:induction false} WithoutMembers(states: seq<AnswerState>, index: int)
    ensures forall s :: s in Without(states, index) <==> s in states && s.questionIndex != index
  {
    if states != [] {
      var n := |states| - 1;
      WithoutMembers(states[..n], index);
      assert forall s :: s in states <==> s in states[..n] || s == states[n];
    }
  }

  lemma {:induction false} WithoutDistinct(states: seq<AnswerState>, index: int)
    requires DistinctIndexes(states)
    ensures DistinctIndexes(Without(states, index))
  {
    if states != [] {
      var n := |states| - 1;
      var rest := Without(states[..n], index);
      WithoutDistinct(states[..n], index);
      WithoutMembers(states[..n], index);
      forall i | 0 <= i < |rest| ensures rest[i].questionIndex != states[n].questionIndex {
        assert rest[i] in states[..n];
      }
    }
  }

  /** Upserting replaces the state of one index, keeps the others, and leaves the indexes strictly ordered. */
  lemma UpsertReplaces(states: seq<AnswerState>, state: AnswerState)
    requires DistinctIndexes(states)
    ensures forall s :: s in Upsert(states, state) <==>
            s == state || (s in states && s.questionIndex != state.questionIndex)
    ensures StrictlySorted(Upsert(states, state))
  {
    hide SortByIndex, Without;
    var rest := Without(states, state.questionIndex);
    var joined := rest + [state];
    WithoutMembers(states, state.questionIndex);
    WithoutDistinct(states, state.questionIndex);
    assert DistinctIndexes(joined) by {
      assert forall i :: 0 <= i < |rest| ==> rest[i] in rest;
    }
    SortIsStrict(joined);
  }
}
