/** The proxy side: the response hook that recognises the question page, turns the
    platform's type codes into category names and accumulates the questions in memory
    and in the working store. */
module Capture {
  import opened Wrappers
  import opened Questions
  import opened Files

  /** The only request URL whose response is captured. */
  const TargetUrl := "https://ks2.rsmu.ru/tests2/questions"

  /** The working store the proxy rewrites after every capture. */
  const StorePath := "intercepted_data.json"

  /** Length of the namespace prefix the platform puts before every type name. */
  const TypePrefixLength := 14

  /** `{v: k for k, v in types.items()}` over the decoded dict's items in the dict's
      order, each a (name, code) pair: every code that occurs becomes a key, mapped back
      to a name that carried it. */
  function InvertTypes(items: seq<(string, Code)>): (inverse: map<Code, string>)
    ensures inverse.Keys == set p | p in items :: p.1
    ensures forall c :: c in inverse ==> (inverse[c], c) in items
  {
    if items == [] then map[]
    else
      var last := items[|items| - 1];
      InvertTypes(items[..|items| - 1])[last.1 := last.0]
  }

  /** When several names share a code, the one that comes last in the map wins. */
  lemma {:induction false} InvertLastWins(items: seq<(string, Code)>, i: nat)
    requires i < |items|
    requires forall j :: i < j < |items| ==> items[j].1 != items[i].1
    ensures items[i].1 in InvertTypes(items)
    ensures InvertTypes(items)[items[i].1] == items[i].0
  {
    if i < |items| - 1 {
      InvertLastWins(items[..|items| - 1], i);
    }
  }

  /** `name[14:]`: the name without its namespace prefix, empty when the name is no
      longer than the prefix. */
  function StripTypePrefix(name: string): (r: string)
    ensures |name| <= TypePrefixLength ==> r == ""
    ensures |name| >= TypePrefixLength ==> name == name[..TypePrefixLength] + r
  {
    if |name| <= TypePrefixLength then "" else name[TypePrefixLength..]
  }

  /** The question with its type code replaced by the stripped category name. */
  function Normalise(q: RawQuestion, name: string): Question {
    Question(q.text, StripTypePrefix(name), q.images, q.answers, q.answersDraggable)
  }

  /** The normalised batch, or the first type code the inverted map lacks (the
      `KeyError` that abandons the whole batch). */
  function NormaliseAll(batch: seq<RawQuestion>, names: map<Code, string>): Result<seq<Question>, Code> {
    if batch == [] then Success([])
    else
      var q := batch[|batch| - 1];
      match NormaliseAll(batch[..|batch| - 1], names)
      case Failure(code) => Failure(code)
      case Success(done) =>
        if q.questionType in names then Success(done + [Normalise(q, names[q.questionType])])
        else Failure(q.questionType)
  }

  /** Normalisation succeeds exactly when every code is known; it then keeps every
      question in place with only its type renamed, and otherwise reports the first
      unknown code. */
  lemma {:induction false} NormaliseAllSpec(batch: seq<RawQuestion>, names: map<Code, string>)
    ensures NormaliseAll(batch, names).Success? <==>
              forall k :: 0 <= k < |batch| ==> batch[k].questionType in names
    ensures NormaliseAll(batch, names).Success? ==>
              var out := NormaliseAll(batch, names).value;
              && |out| == |batch|
              && forall k :: 0 <= k < |batch| ==>
                   && out[k].questionType == StripTypePrefix(names[batch[k].questionType])
                   && out[k].text == batch[k].text
                   && out[k].images == batch[k].images
                   && out[k].answers == batch[k].answers
                   && out[k].answersDraggable == batch[k].answersDraggable
    ensures NormaliseAll(batch, names).Failure? ==>
              exists k :: 0 <= k < |batch| && batch[k].questionType == NormaliseAll(batch, names).error
                          && batch[k].questionType !in names
                          && forall j :: 0 <= j < k ==> batch[j].questionType in names
  {
    if batch != [] {
      var init := batch[..|batch| - 1];
      NormaliseAllSpec(init, names);
      assert forall k :: 0 <= k < |init| ==> init[k] == batch[k];
    }
  }

  /** Once a prefix of the batch fails, the whole batch fails with the same code. */
  lemma {:induction false} NormaliseFailurePersists(batch: seq<RawQuestion>, n: nat, names: map<Code, string>)
    requires n <= |batch|
    requires NormaliseAll(batch[..n], names).Failure?
    ensures NormaliseAll(batch, names) == NormaliseAll(batch[..n], names)
  {
    if n < |batch| {
      var init := batch[..|batch| - 1];
      assert init[..n] == batch[..n];
      NormaliseFailurePersists(init, n, names);
    } else {
      assert batch[..n] == batch;
    }
  }

  /** The loop of the response hook that renames every question's type in turn. */
  method NormaliseBatch(batch: seq<RawQuestion>, names: map<Code, string>) returns (r: Result<seq<Question>, Code>)
    ensures r == NormaliseAll(batch, names)
  {
    var normalised: seq<Question> := [];
    for i := 0 to |batch|
      invariant NormaliseAll(batch[..i], names) == Success(normalised)
    {
      var question := batch[i];
      assert batch[..i + 1][..i] == batch[..i];
      if question.questionType !in names {
        NormaliseFailurePersists(batch, i + 1, names);
        return Failure(question.questionType);
      }
      normalised := normalised + [Normalise(question, names[question.questionType])];
    }
    assert batch[..|batch|] == batch;
    return Success(normalised);
  }

  datatype CaptureOutcome = Ignored | UnknownTypeCode(code: Code) | Captured(count: nat)

  /** The proxy addon: the module-level `questions_list` of one proxy process and the
      working directory it writes the store to. */
  class Interceptor {
    var questionsList: seq<Question>
    const store: FileStore

    /** A freshly loaded addon starts with an empty list. */
    constructor (store: FileStore)
      ensures questionsList == [] && this.store == store
    {
      questionsList := [];
      this.store := store;
    }

    /** The response hook, given the request URL and the two decoded attributes of the
        page's `questions` tag: the questions and the type map's (name, code) items. */
    method Response(url: string, questions: seq<RawQuestion>, questionTypes: seq<(string, Code)>)
      returns (outcome: CaptureOutcome)
      modifies this, store
      ensures url != TargetUrl ==>
                outcome == Ignored && questionsList == old(questionsList) && unchanged(store)
      ensures url == TargetUrl && NormaliseAll(questions, InvertTypes(questionTypes)).Failure? ==>
                && outcome == UnknownTypeCode(NormaliseAll(questions, InvertTypes(questionTypes)).error)
                && questionsList == old(questionsList) && unchanged(store)
      ensures url == TargetUrl && NormaliseAll(questions, InvertTypes(questionTypes)).Success? ==>
                var batch := NormaliseAll(questions, InvertTypes(questionTypes)).value;
                && outcome == Captured(|batch|)
                && questionsList == old(questionsList) + batch
                && store.files == old(store.files)[StorePath := JsonFile(questionsList)]
                && store.log == old(store.log) + [Wrote(StorePath)]
    {
      if url != TargetUrl {
        return Ignored;
      }
      var names := InvertTypes(questionTypes);
      var normalised := NormaliseBatch(questions, names);
      match normalised
      case Failure(code) =>
        return UnknownTypeCode(code);
      case Success(batch) =>
        questionsList := questionsList + batch;
        store.Write(StorePath, JsonFile(questionsList));
        return Captured(|batch|);
    }
  }

  /** A proxy process starts with an empty list, so its first capture replaces whatever
      an earlier, unarchived session left in the store. */
  method StartAndCapture(store: FileStore, url: string, questions: seq<RawQuestion>, questionTypes: seq<(string, Code)>)
    returns (outcome: CaptureOutcome)
    modifies store
    ensures outcome.Captured? ==>
              && NormaliseAll(questions, InvertTypes(questionTypes)).Success?
              && StorePath in store.files
              && store.files[StorePath] == JsonFile(NormaliseAll(questions, InvertTypes(questionTypes)).value)
  {
    var proxy := new Interceptor(store);
    outcome := proxy.Response(url, questions, questionTypes);
  }
}
