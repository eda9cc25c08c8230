/** The question records that the quiz platform embeds in its page, after JSON decoding. */
module Questions {
  import opened Wrappers

  /** A type code as the platform sends it, both in each question and in its type map. */
  type Code = int

  /** One answer option of a question. */
  datatype Answer = Answer(uid: int, answer: string, images: seq<string>)

  /** One question. Its `questionType` holds a type code as captured and a category
      name once normalised; `answers` and `answersDraggable` are JSON keys that may be
      missing from the record. */
  datatype QuestionOf<T> = Question(
    text: string,
    questionType: T,
    images: seq<string>,
    answers: Option<seq<Answer>>,
    answersDraggable: Option<seq<Answer>>)

  /** A question as decoded from the page, its type still a code. */
  type RawQuestion = QuestionOf<Code>

  /** A question as stored and archived, its type a category name such as "MATCHING". */
  type Question = QuestionOf<string>

  /** Every question carries an `answers` key. */
  predicate HasAnswers(qs: seq<Question>) {
    forall i :: 0 <= i < |qs| ==> qs[i].answers.Some?
  }

  /** The uids of a list of answers, in order. */
  function Uids(answers: seq<Answer>): (r: seq<int>)
    ensures |r| == |answers|
  {
    if answers == [] then [] else [answers[0].uid] + Uids(answers[1..])
  }

  lemma {:induction false} UidsConcat(a: seq<Answer>, b: seq<Answer>)
    ensures Uids(a + b) == Uids(a) + Uids(b)
  {
    if a != [] {
      assert (a + b)[1..] == a[1..] + b;
      UidsConcat(a[1..], b);
    } else {
      assert a + b == b;
    }
  }

  /** Taking one answer out of a list takes it out of the answer multiset and its uid
      out of the uid multiset. */
  lemma {:induction false} RemoveAt(b: seq<Answer>, k: nat)
    requires k < |b|
    ensures multiset(b[..k] + b[k + 1..]) == multiset(b) - multiset{b[k]}
    ensures multiset(Uids(b)) == multiset(Uids(b[..k] + b[k + 1..])) + multiset{b[k].uid}
  {
    var front, back := b[..k], b[k + 1..];
    assert b == front + [b[k]] + back;
    assert multiset(b) == multiset(front) + multiset{b[k]} + multiset(back);
    UidsConcat(front + [b[k]], back);
    UidsConcat(front, [b[k]]);
    UidsConcat(front, back);
    assert Uids([b[k]]) == [b[k].uid];
    var u := Uids(b);
    assert u == Uids(front) + [b[k].uid] + Uids(back);
    assert multiset(u) == multiset(Uids(front)) + multiset{b[k].uid} + multiset(Uids(back));
  }

  lemma MultisetTail(a: seq<Answer>)
    requires a != []
    ensures a[0] in multiset(a)
    ensures multiset(a[1..]) == multiset(a) - multiset{a[0]}
  {
    assert a == [a[0]] + a[1..];
  }

  lemma UidsHead(a: seq<Answer>)
    requires a != []
    ensures multiset(Uids(a)) == multiset{a[0].uid} + multiset(Uids(a[1..]))
  {
    assert Uids(a) == [a[0].uid] + Uids(a[1..]);
  }

  /** The first position of an answer in a list that holds it. */
  function IndexOf(b: seq<Answer>, x: Answer): (k: nat)
    requires x in b
    ensures k < |b| && b[k] == x
  {
    if b[0] == x then 0 else 1 + IndexOf(b[1..], x)
  }

  /** Answers that are a permutation of one another have the same multiset of uids. */
  lemma {:induction false} UidsPermutation(a: seq<Answer>, b: seq<Answer>)
    requires multiset(a) == multiset(b)
    ensures multiset(Uids(a)) == multiset(Uids(b))
  {
    if a == [] {
      assert |b| == |multiset(b)| == 0;
    } else {
      var x, tail := a[0], a[1..];
      assert x in b by {
        MultisetTail(a);
      }
      var k := IndexOf(b, x);
      var rest := b[..k] + b[k + 1..];
      assert multiset(tail) == multiset(rest) by {
        MultisetTail(a);
        RemoveAt(b, k);
      }
      UidsPermutation(tail, rest);
      UidsHead(a);
      assert multiset(Uids(b)) == multiset(Uids(rest)) + multiset{x.uid} by {
        RemoveAt(b, k);
      }
    }
  }
}
