/** `deduplicate_questions`: a stable filter that keeps the first question of every
    identity key, the key being the question text with its answers' uids. */
module Deduplication {
  import opened Wrappers
  import opened Questions

  /** The identity key `(text, tuple(sorted(uids)))`. Two sorted tuples of integers
      are equal exactly when they hold the same uids the same number of times, so the
      sorted tuple is represented by the multiset of uids. */
  type Key = (string, multiset<int>)

  function KeyOf(q: Question): Key
    requires q.answers.Some?
  {
    (q.text, multiset(Uids(q.answers.value)))
  }

  /** The keys that occur in a list of questions. */
  function KeysOf(qs: seq<Question>): set<Key>
    requires HasAnswers(qs)
  {
    if qs == [] then {} else KeysOf(qs[..|qs| - 1]) + {KeyOf(qs[|qs| - 1])}
  }

  /** The key of every question of a list is one of the list's keys. */
  lemma {:induction false} KeysOfContains(qs: seq<Question>, i: nat)
    requires HasAnswers(qs) && i < |qs|
    ensures KeyOf(qs[i]) in KeysOf(qs)
  {
    var init, n := qs[..|qs| - 1], |qs| - 1;
    if i < n {
      KeysOfContains(init, i);
      assert init[i] == qs[i];
    }
  }

  /** A key that no question of a list has is not one of the list's keys. */
  lemma {:induction false} KeysOfAbsent(qs: seq<Question>, key: Key)
    requires HasAnswers(qs)
    requires forall i :: 0 <= i < |qs| ==> KeyOf(qs[i]) != key
    ensures key !in KeysOf(qs)
  {
    if qs != [] {
      var init := qs[..|qs| - 1];
      forall i | 0 <= i < |init|
        ensures KeyOf(init[i]) != key
      {
        assert init[i] == qs[i];
      }
      KeysOfAbsent(init, key);
    }
  }

  /** No two questions share a key. */
  predicate DistinctKeys(qs: seq<Question>) {
    HasAnswers(qs) && forall i, j :: 0 <= i < j < |qs| ==> KeyOf(qs[i]) != KeyOf(qs[j])
  }

  /** The specification of the filter: the last question is kept exactly when no
      earlier question has its key. */
  function Dedup(qs: seq<Question>): (r: seq<Question>)
    requires HasAnswers(qs)
    ensures |r| <= |qs|
    ensures HasAnswers(r)
  {
    if qs == [] then []
    else
      var init, last := qs[..|qs| - 1], qs[|qs| - 1];
      if KeyOf(last) in KeysOf(init) then Dedup(init) else Dedup(init) + [last]
  }

  /** One more question of the input: it is appended exactly when its key is new. */
  lemma DedupStep(qs: seq<Question>, i: nat)
    requires HasAnswers(qs) && i < |qs|
    ensures HasAnswers(qs[..i]) && HasAnswers(qs[..i + 1])
    ensures KeysOf(qs[..i + 1]) == KeysOf(qs[..i]) + {KeyOf(qs[i])}
    ensures Dedup(qs[..i + 1]) ==
              if KeyOf(qs[i]) in KeysOf(qs[..i]) then Dedup(qs[..i]) else Dedup(qs[..i]) + [qs[i]]
  {
    assert qs[..i + 1][..i] == qs[..i];
  }

  /** One more question at the end: it is appended exactly when its key is new. */
  lemma DedupSnoc(front: seq<Question>, q: Question)
    requires HasAnswers(front) && q.answers.Some?
    ensures HasAnswers(front + [q])
    ensures KeysOf(front + [q]) == KeysOf(front) + {KeyOf(q)}
    ensures Dedup(front + [q]) == if KeyOf(q) in KeysOf(front) then Dedup(front) else Dedup(front) + [q]
  {
    assert (front + [q])[..|front|] == front;
  }

  /** The loop of `deduplicate_questions`, with its `seen` keys and its output list. */
  method DeduplicateQuestions(questions: seq<Question>) returns (deduplicated: seq<Question>)
    requires HasAnswers(questions)
    ensures deduplicated == Dedup(questions)
  {
    var seen: set<Key> := {};
    deduplicated := [];
    for i := 0 to |questions|
      invariant HasAnswers(questions[..i])
      invariant seen == KeysOf(questions[..i])
      invariant deduplicated == Dedup(questions[..i])
    {
      var question := questions[i];
      var key := KeyOf(question);
      DedupStep(questions, i);
      if key !in seen {
        seen := seen + {key};
        deduplicated := deduplicated + [question];
      }
    }
    assert questions[..|questions|] == questions;
  }

  /** Every key of the input survives: the output has exactly the input's keys. */
  lemma {:induction false} DedupKeys(qs: seq<Question>)
    requires HasAnswers(qs)
    ensures KeysOf(Dedup(qs)) == KeysOf(qs)
  {
    if qs != [] {
      var init, last := qs[..|qs| - 1], qs[|qs| - 1];
      DedupKeys(init);
      if KeyOf(last) !in KeysOf(init) {
        assert (Dedup(init) + [last])[..|Dedup(init)|] == Dedup(init);
      }
    }
  }

  /** No key occurs twice in the output. */
  lemma {:induction false} DedupDistinct(qs: seq<Question>)
    requires HasAnswers(qs)
    ensures DistinctKeys(Dedup(qs))
  {
    if qs != [] {
      var init, last := qs[..|qs| - 1], qs[|qs| - 1];
      DedupDistinct(init);
      var d := Dedup(init);
      if KeyOf(last) !in KeysOf(init) {
        forall i | 0 <= i < |d|
          ensures KeyOf(d[i]) != KeyOf(last)
        {
          DedupKeys(init);
          KeysOfContains(d, i);
        }
      }
    }
  }

  /** A list without repeated keys passes through unchanged. */
  lemma {:induction false} DedupOfDistinct(qs: seq<Question>)
    requires DistinctKeys(qs)
    ensures Dedup(qs) == qs
  {
    if qs != [] {
      var init, last := qs[..|qs| - 1], qs[|qs| - 1];
      assert DistinctKeys(init);
      DedupOfDistinct(init);
      forall i | 0 <= i < |init|
        ensures KeyOf(init[i]) != KeyOf(last)
      {
        assert init[i] == qs[i];
      }
      KeysOfAbsent(init, KeyOf(last));
      SplitLast(qs);
    }
  }

  /** Deduplicating twice is deduplicating once. */
  lemma DedupIdempotent(qs: seq<Question>)
    requires HasAnswers(qs)
    ensures Dedup(Dedup(qs)) == Dedup(qs)
  {
    DedupDistinct(qs);
    DedupOfDistinct(Dedup(qs));
  }

  /** Question `i` is the first of its key. */
  ghost predicate FirstOccurrence(qs: seq<Question>, i: nat)
    requires HasAnswers(qs) && i < |qs|
  {
    forall j :: 0 <= j < i ==> KeyOf(qs[j]) != KeyOf(qs[i])
  }

  /** The input positions the filter keeps, in increasing order. */
  ghost function Positions(qs: seq<Question>): seq<nat>
    requires HasAnswers(qs)
  {
    if qs == [] then []
    else
      var init, last := qs[..|qs| - 1], qs[|qs| - 1];
      if KeyOf(last) in KeysOf(init) then Positions(init) else Positions(init) + [|qs| - 1]
  }

  /** The output is picked from the input at increasing positions. */
  lemma {:induction false} DedupPicksPositions(qs: seq<Question>)
    requires HasAnswers(qs)
    ensures |Positions(qs)| == |Dedup(qs)|
    ensures forall k :: 0 <= k < |Positions(qs)| ==>
              Positions(qs)[k] < |qs| && Dedup(qs)[k] == qs[Positions(qs)[k]]
    ensures forall k, l :: 0 <= k < l < |Positions(qs)| ==> Positions(qs)[k] < Positions(qs)[l]
  {
    if qs != [] {
      var init, last, n := qs[..|qs| - 1], qs[|qs| - 1], |qs| - 1;
      DedupPicksPositions(init);
      var p, d := Positions(init), Dedup(init);
      var positions, kept := Positions(qs), Dedup(qs);
      if KeyOf(last) in KeysOf(init) {
        assert positions == p && kept == d;
        forall k | 0 <= k < |p|
          ensures p[k] < |qs| && d[k] == qs[p[k]]
        {
          assert init[p[k]] == qs[p[k]];
        }
      } else {
        assert positions == p + [n] && kept == d + [last];
        forall k | 0 <= k < |positions|
          ensures positions[k] < |qs| && kept[k] == qs[positions[k]]
        {
          if k < |p| {
            assert positions[k] == p[k] && kept[k] == d[k];
            assert init[p[k]] == qs[p[k]];
          }
        }
        forall k, l | 0 <= k < l < |positions|
          ensures positions[k] < positions[l]
        {
          assert positions[k] == p[k];
          if l < |p| {
            assert positions[l] == p[l];
          }
        }
      }
    }
  }

  /** Every output question is a question of the input. */
  lemma DedupFromInput(qs: seq<Question>)
    requires HasAnswers(qs)
    ensures forall q :: q in Dedup(qs) ==> q in qs
  {
    DedupPicksPositions(qs);
    forall q | q in Dedup(qs)
      ensures q in qs
    {
      var k :| 0 <= k < |Dedup(qs)| && Dedup(qs)[k] == q;
      assert qs[Positions(qs)[k]] == q;
    }
  }

  lemma FirstOccurrenceInPrefix(qs: seq<Question>, i: nat)
    requires HasAnswers(qs) && i < |qs| - 1
    ensures HasAnswers(qs[..|qs| - 1])
    ensures FirstOccurrence(qs, i) <==> FirstOccurrence(qs[..|qs| - 1], i)
  {
    assert forall j :: 0 <= j <= i ==> qs[j] == qs[..|qs| - 1][j];
  }

  /** The last question is the first of its key exactly when its key is new. */
  lemma LastIsFirstOccurrence(qs: seq<Question>)
    requires HasAnswers(qs) && qs != []
    ensures HasAnswers(qs[..|qs| - 1])
    ensures FirstOccurrence(qs, |qs| - 1) <==> KeyOf(qs[|qs| - 1]) !in KeysOf(qs[..|qs| - 1])
  {
    var init, n := qs[..|qs| - 1], |qs| - 1;
    if FirstOccurrence(qs, n) {
      forall j | 0 <= j < n
        ensures KeyOf(init[j]) != KeyOf(qs[n])
      {
        assert init[j] == qs[j];
      }
      KeysOfAbsent(init, KeyOf(qs[n]));
    } else {
      var j :| 0 <= j < n && KeyOf(qs[j]) == KeyOf(qs[n]);
      assert init[j] == qs[j];
      KeysOfContains(init, j);
    }
  }

  /** The last position is picked exactly when its key is new. */
  lemma PositionsLast(qs: seq<Question>)
    requires HasAnswers(qs) && qs != []
    ensures HasAnswers(qs[..|qs| - 1])
    ensures |qs| - 1 in Positions(qs) <==> KeyOf(qs[|qs| - 1]) !in KeysOf(qs[..|qs| - 1])
  {
    var init, n := qs[..|qs| - 1], |qs| - 1;
    DedupPicksPositions(init);
    assert n !in Positions(init);
  }

  /** An earlier position is picked as it is in the input without its last question. */
  lemma PositionsPrefix(qs: seq<Question>, i: nat)
    requires HasAnswers(qs) && i < |qs| - 1
    ensures HasAnswers(qs[..|qs| - 1])
    ensures i in Positions(qs) <==> i in Positions(qs[..|qs| - 1])
  {
    var init, n := qs[..|qs| - 1], |qs| - 1;
    if KeyOf(qs[n]) !in KeysOf(init) {
      assert Positions(qs) == Positions(init) + [n];
    }
  }

  /** A position is picked exactly when no earlier question has the same key, so the
      output is made of the first occurrence of every key. */
  lemma {:induction false} DedupKeepsFirstOccurrences(qs: seq<Question>, i: nat)
    requires HasAnswers(qs) && i < |qs|
    ensures i in Positions(qs) <==> FirstOccurrence(qs, i)
  {
    if i < |qs| - 1 {
      PositionsPrefix(qs, i);
      DedupKeepsFirstOccurrences(qs[..|qs| - 1], i);
      FirstOccurrenceInPrefix(qs, i);
    } else {
      PositionsLast(qs);
      LastIsFirstOccurrence(qs);
    }
  }

  /** A list followed by questions whose keys it already has deduplicates as the list
      alone: a question captured again in a later session adds nothing. */
  lemma {:induction false} RecapturedQuestionsAddNothing(qs: seq<Question>, again: seq<Question>)
    requires HasAnswers(qs) && HasAnswers(again)
    requires KeysOf(again) <= KeysOf(qs)
    ensures HasAnswers(qs + again)
    ensures Dedup(qs + again) == Dedup(qs)
    ensures KeysOf(qs + again) == KeysOf(qs)
  {
    if again == [] {
      assert qs + again == qs;
    } else {
      var n := |again| - 1;
      var init, last := again[..n], again[n];
      assert KeysOf(again) == KeysOf(init) + {KeyOf(last)};
      RecapturedQuestionsAddNothing(qs, init);
      RecaptureStep(qs, init, last);
      SplitLast(again);
    }
  }

  lemma SplitLast(s: seq<Question>)
    requires s != []
    ensures s == s[..|s| - 1] + [s[|s| - 1]]
  {
  }

  lemma RecaptureStep(qs: seq<Question>, init: seq<Question>, last: Question)
    requires HasAnswers(qs) && HasAnswers(qs + init) && last.answers.Some?
    requires Dedup(qs + init) == Dedup(qs) && KeysOf(qs + init) == KeysOf(qs)
    requires KeyOf(last) in KeysOf(qs)
    ensures HasAnswers(qs + (init + [last]))
    ensures Dedup(qs + (init + [last])) == Dedup(qs)
    ensures KeysOf(qs + (init + [last])) == KeysOf(qs)
  {
    assert qs + (init + [last]) == (qs + init) + [last];
    DedupSnoc(qs + init, last);
  }

  /** The same capture stored twice deduplicates to a single copy. */
  lemma DoubleCaptureCollapses(qs: seq<Question>)
    requires HasAnswers(qs)
    ensures HasAnswers(qs + qs)
    ensures Dedup(qs + qs) == Dedup(qs)
  {
    RecapturedQuestionsAddNothing(qs, qs);
  }

  /** Reordering a question's answers leaves its key unchanged. */
  lemma KeyIgnoresAnswerOrder(q: Question, reordered: seq<Answer>)
    requires q.answers.Some? && multiset(reordered) == multiset(q.answers.value)
    ensures KeyOf(q.(answers := Some(reordered))) == KeyOf(q)
  {
    UidsPermutation(reordered, q.answers.value);
  }

  /** A question with the same text and the same uids as an earlier one is dropped,
      whatever its type, images or answer texts. */
  lemma SameTextAndUidsCollapse(p: Question, q: Question)
    requires p.answers.Some? && q.answers.Some?
    requires p.text == q.text && multiset(Uids(p.answers.value)) == multiset(Uids(q.answers.value))
    ensures Dedup([p, q]) == [p]
  {
    assert [p, q][..1] == [p];
    assert [p][..0] == [];
  }
}
