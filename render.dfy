/** `render_questions_to_text`: the line-oriented text report of a list of questions. */
module Render {
  import opened Wrappers
  import opened Questions
  import opened Text

  /** The two URL prefixes that image ids are appended to. The report names images;
      it never fetches them. */
  datatype ImageBases = ImageBases(question: string, answer: string)

  /** The prefixes the renderer holds in its two local variables. */
  function SourceBases(): ImageBases {
    ImageBases("https://ks.rsmu.ru/upload/l_btz_filequestion/", "https://ks.rsmu.ru/upload/l_btz_fileanswer/")
  }

  const Matching := "MATCHING"

  /** The renderer reads `answers` of every question that is not a MATCHING one. */
  predicate Renderable(qs: seq<Question>) {
    forall q :: q in qs ==> q.questionType != Matching ==> q.answers.Some?
  }

  function Header(q: Question): string {
    q.questionType + " " + q.text
  }

  /** "QUESTION IMAGE ", in Russian, as the report labels question images. */
  function ImageLabel(): string {
    "КАРТИНКА ВОПРОСА "
  }

  /** The line for the `n`-th image of a question, counting from 1. */
  function ImageLine(n: nat, image: string, bases: ImageBases): string {
    ImageLabel() + DecimalString(n) + ": " + bases.question + image
  }

  function ImageLines(images: seq<string>, bases: ImageBases): (lines: seq<string>)
    ensures |lines| == |images|
  {
    if images == [] then []
    else ImageLines(images[..|images| - 1], bases) + [ImageLine(|images|, images[|images| - 1], bases)]
  }

  /** An answer's text, followed by its image ids when they join to something. */
  function AnswerLine(a: Answer, bases: ImageBases): string {
    var ids := JoinWith(a.images, ", ");
    if ids != "" then a.answer + " (" + bases.answer + ids + ")" else a.answer
  }

  function AnswerLines(answers: seq<Answer>, bases: ImageBases): (lines: seq<string>)
    ensures |lines| == |answers|
  {
    if answers == [] then []
    else AnswerLines(answers[..|answers| - 1], bases) + [AnswerLine(answers[|answers| - 1], bases)]
  }

  /** `max((len(x['answer']) for x in answers), default=0)`. */
  function MaxAnswerLength(answers: seq<Answer>): (m: nat)
    ensures forall a :: a in answers ==> |a.answer| <= m
    ensures answers == [] ==> m == 0
    ensures answers != [] ==> exists a :: a in answers && |a.answer| == m
  {
    if answers == [] then 0
    else
      var rest := MaxAnswerLength(answers[1..]);
      if |answers[0].answer| >= rest then |answers[0].answer| else rest
  }

  /** `'-' * n`. */
  function Dashes(n: nat): (s: string)
    ensures |s| == n
    ensures forall k :: 0 <= k < n ==> s[k] == '-'
  {
    if n == 0 then "" else Dashes(n - 1) + "-"
  }

  function Max(x: nat, y: nat): nat {
    if x >= y then x else y
  }

  /** The separator between the two answer lists of a MATCHING question. */
  function Separator(answers: seq<Answer>, draggable: seq<Answer>): string {
    Dashes(Max(MaxAnswerLength(answers), MaxAnswerLength(draggable)))
  }

  /** The lines after a question's header and images: its answers and a blank line,
      or nothing for a MATCHING question that lacks one of its two answer lists. */
  function AnswerBlock(q: Question, bases: ImageBases): seq<string>
    requires q.questionType != Matching ==> q.answers.Some?
  {
    if q.questionType != Matching then AnswerLines(q.answers.value, bases) + [""]
    else if q.answers.None? || q.answersDraggable.None? then []
    else
      var answers, draggable := q.answers.value, q.answersDraggable.value;
      AnswerLines(answers, bases) + [Separator(answers, draggable)] + AnswerLines(draggable, bases) + [""]
  }

  /** The lines one question contributes. */
  function QuestionLines(q: Question, bases: ImageBases): seq<string>
    requires q.questionType != Matching ==> q.answers.Some?
  {
    [Header(q)] + ImageLines(q.images, bases) + AnswerBlock(q, bases)
  }

  /** The lines of all questions, in order. */
  function RenderLines(qs: seq<Question>, bases: ImageBases): seq<string>
    requires Renderable(qs)
  {
    if qs == [] then []
    else RenderLines(qs[..|qs| - 1], bases) + QuestionLines(qs[|qs| - 1], bases)
  }

  lemma RenderLinesStep(qs: seq<Question>, n: nat, bases: ImageBases)
    requires Renderable(qs) && n < |qs|
    ensures Renderable(qs[..n]) && Renderable(qs[..n + 1])
    ensures RenderLines(qs[..n + 1], bases) == RenderLines(qs[..n], bases) + QuestionLines(qs[n], bases)
  {
    assert qs[..n + 1][..n] == qs[..n];
  }

  lemma ConcatAssoc(a: seq<string>, b: seq<string>, c: seq<string>)
    ensures (a + b) + c == a + (b + c)
  {
  }

  /** Lines appended one group at a time after a header and its image lines are that
      question's lines appended at once. */
  lemma AppendedQuestion(done: seq<string>, q: Question, bases: ImageBases, lines: seq<string>)
    requires q.questionType != Matching ==> q.answers.Some?
    requires lines == done + [Header(q)] + ImageLines(q.images, bases) + AnswerBlock(q, bases)
    ensures lines == done + QuestionLines(q, bases)
  {
    var images, block := ImageLines(q.images, bases), AnswerBlock(q, bases);
    ConcatAssoc(done + [Header(q)], images, block);
    ConcatAssoc(done, [Header(q)], images + block);
    ConcatAssoc([Header(q)], images, block);
  }

  /** Appends the answer lines, as each of the source's three answer loops does. */
  method AppendAnswerLines(lines: seq<string>, answers: seq<Answer>, bases: ImageBases) returns (r: seq<string>)
    ensures r == lines + AnswerLines(answers, bases)
  {
    r := lines;
    for k := 0 to |answers|
      invariant r == lines + AnswerLines(answers[..k], bases)
    {
      var answer := answers[k];
      var answerText := answer.answer;
      var imageIds := if answer.images != [] then JoinWith(answer.images, ", ") else "";
      r := r + [if imageIds != "" then answerText + " (" + bases.answer + imageIds + ")" else answerText];
      assert answers[..k + 1][..k] == answers[..k];
    }
    assert answers[..|answers|] == answers;
  }

  /** Appends the numbered image lines, as the source's image loop does. */
  method AppendImageLines(lines: seq<string>, images: seq<string>, bases: ImageBases) returns (r: seq<string>)
    ensures r == lines + ImageLines(images, bases)
  {
    r := lines;
    for i := 0 to |images|
      invariant r == lines + ImageLines(images[..i], bases)
    {
      assert images[..i + 1][..i] == images[..i];
      r := r + [ImageLine(i + 1, images[i], bases)];
    }
    assert images[..|images|] == images;
  }

  /** One pass of the renderer's loop: a question's header, image lines and answer
      block; a MATCHING question lacking an answer list stops after its images, as the
      source's `continue` does. */
  method AppendQuestion(lines: seq<string>, question: Question, bases: ImageBases) returns (r: seq<string>)
    requires question.questionType != Matching ==> question.answers.Some?
    ensures r == lines + QuestionLines(question, bases)
  {
    var questionType := question.questionType;
    r := lines + [Header(question)];
    r := AppendImageLines(r, question.images, bases);
    ghost var top := r;
    if questionType == Matching {
      if question.answers.None? || question.answersDraggable.None? {
        AppendedQuestion(lines, question, bases, r);
        return;
      }
      var answers := question.answers.value;
      var answersDraggable := question.answersDraggable.value;
      r := AppendAnswerLines(r, answers, bases);
      var maxAnswerLength := Max(MaxAnswerLength(answers), MaxAnswerLength(answersDraggable));
      r := r + [Dashes(maxAnswerLength)];
      ConcatAssoc(top, AnswerLines(answers, bases), [Dashes(maxAnswerLength)]);
      r := AppendAnswerLines(r, answersDraggable, bases);
      ConcatAssoc(top, AnswerLines(answers, bases) + [Dashes(maxAnswerLength)], AnswerLines(answersDraggable, bases));
    } else {
      r := AppendAnswerLines(r, question.answers.value, bases);
    }
    ghost var body := r;
    r := r + [""];
    ConcatAssoc(top, body[|top|..], [""]);
    assert body == top + body[|top|..];
    AppendedQuestion(lines, question, bases, r);
  }

  /** The body of the renderer, with its two image URL prefixes given. */
  method RenderWith(questions: seq<Question>, bases: ImageBases) returns (text: string)
    requires Renderable(questions)
    ensures text == JoinWith(RenderLines(questions, bases), "\n")
  {
    var lines: seq<string> := [];
    for n := 0 to |questions|
      invariant lines == RenderLines(questions[..n], bases)
    {
      RenderLinesStep(questions, n, bases);
      lines := AppendQuestion(lines, questions[n], bases);
    }
    assert questions[..|questions|] == questions;
    text := JoinWith(lines, "\n");
  }

  /** The report: every question's lines, joined with newlines. */
  method RenderQuestionsToText(questions: seq<Question>) returns (text: string)
    requires Renderable(questions)
    ensures text == JoinWith(RenderLines(questions, SourceBases()), "\n")
  {
    text := RenderWith(questions, SourceBases());
  }

  lemma {:induction false} ImageLinesAt(images: seq<string>, bases: ImageBases, k: nat)
    requires k < |images|
    ensures ImageLines(images, bases)[k] == ImageLine(k + 1, images[k], bases)
  {
    if k < |images| - 1 {
      ImageLinesAt(images[..|images| - 1], bases, k);
    }
  }

  lemma {:induction false} AnswerLinesAt(answers: seq<Answer>, bases: ImageBases, k: nat)
    requires k < |answers|
    ensures AnswerLines(answers, bases)[k] == AnswerLine(answers[k], bases)
  {
    if k < |answers| - 1 {
      AnswerLinesAt(answers[..|answers| - 1], bases, k);
    }
  }

  /** An answer line is the bare answer text exactly when its image ids join to the
      empty string, i.e. it has no images or one empty id; otherwise the ids follow
      the text in parentheses, comma-separated, after a single base URL. */
  lemma AnswerLineForm(a: Answer, bases: ImageBases)
    ensures AnswerLine(a, bases) == a.answer <==> (a.images == [] || a.images == [""])
    ensures a.images != [] && a.images != [""] ==>
              AnswerLine(a, bases) == a.answer + " (" + bases.answer + JoinWith(a.images, ", ") + ")"
  {
    JoinWithEmpty(a.images, ", ");
    if a.images != [] && a.images != [""] {
      assert |AnswerLine(a, bases)| > |a.answer|;
    }
  }

  /** Rendering a concatenation renders each part in turn: a question's lines do not
      depend on its neighbours, and a question that is skipped does not stop the rest. */
  lemma {:induction false} RenderLinesConcat(a: seq<Question>, b: seq<Question>, bases: ImageBases)
    requires Renderable(a) && Renderable(b)
    ensures Renderable(a + b)
    ensures RenderLines(a + b, bases) == RenderLines(a, bases) + RenderLines(b, bases)
  {
    if b == [] {
      assert a + b == a;
    } else {
      var init, last := b[..|b| - 1], b[|b| - 1];
      assert b == init + [last];
      assert a + b == (a + init) + [last];
      assert Renderable(init);
      RenderLinesConcat(a, init, bases);
      assert RenderLines(a + b, bases) == RenderLines(a + init, bases) + QuestionLines(last, bases);
      ConcatAssoc(RenderLines(a, bases), RenderLines(init, bases), QuestionLines(last, bases));
    }
  }

  /** A question other than MATCHING gives its header, one numbered line per image, one
      line per answer and a blank line. */
  lemma PlainQuestionLines(q: Question, bases: ImageBases)
    requires q.questionType != Matching && q.answers.Some?
    ensures var lines, answers := QuestionLines(q, bases), q.answers.value;
            && |lines| == |q.images| + |answers| + 2
            && lines[0] == q.questionType + " " + q.text
            && (forall k :: 0 <= k < |q.images| ==> lines[1 + k] == ImageLine(k + 1, q.images[k], bases))
            && (forall k :: 0 <= k < |answers| ==> lines[1 + |q.images| + k] == AnswerLine(answers[k], bases))
            && lines[|lines| - 1] == ""
  {
    var lines, answers := QuestionLines(q, bases), q.answers.value;
    forall k | 0 <= k < |q.images|
      ensures lines[1 + k] == ImageLine(k + 1, q.images[k], bases)
    {
      ImageLinesAt(q.images, bases, k);
    }
    forall k | 0 <= k < |answers|
      ensures lines[1 + |q.images| + k] == AnswerLine(answers[k], bases)
    {
      AnswerLinesAt(answers, bases, k);
    }
  }

  /** The separator is a line of dashes as long as the longest answer text of either
      list, and empty when both lists are. */
  lemma SeparatorLength(answers: seq<Answer>, draggable: seq<Answer>)
    ensures var separator := Separator(answers, draggable);
            && (forall k :: 0 <= k < |separator| ==> separator[k] == '-')
            && (forall a :: a in answers + draggable ==> |a.answer| <= |separator|)
            && (answers + draggable == [] ==> separator == "")
            && (answers + draggable != [] ==> exists a :: a in answers + draggable && |a.answer| == |separator|)
  {
    var longest, longestDraggable := MaxAnswerLength(answers), MaxAnswerLength(draggable);
    if answers != [] && longest >= longestDraggable {
      var a :| a in answers && |a.answer| == longest;
      assert a in answers + draggable;
    } else if draggable != [] && longestDraggable >= longest {
      var a :| a in draggable && |a.answer| == longestDraggable;
      assert a in answers + draggable;
    }
  }

  /** A complete MATCHING question's lines are its header, its image lines, its answer
      lines, the separator, its draggable answer lines and a blank line. */
  lemma MatchingParts(q: Question, bases: ImageBases)
    requires q.questionType == Matching && q.answers.Some? && q.answersDraggable.Some?
    ensures QuestionLines(q, bases) == [Header(q)] + ImageLines(q.images, bases)
              + (AnswerLines(q.answers.value, bases) + [Separator(q.answers.value, q.answersDraggable.value)]
                 + AnswerLines(q.answersDraggable.value, bases) + [""])
  {
  }

  /** A complete MATCHING question's lines: the header first, the separator after the
      image and answer lines, a blank line last, and one line for each of them. */
  lemma MatchingQuestionLines(q: Question, bases: ImageBases)
    requires q.questionType == Matching && q.answers.Some? && q.answersDraggable.Some?
    ensures |QuestionLines(q, bases)| == |q.images| + |q.answers.value| + |q.answersDraggable.value| + 3
    ensures QuestionLines(q, bases)[0] == q.questionType + " " + q.text
    ensures QuestionLines(q, bases)[1 + |q.images| + |q.answers.value|]
              == Separator(q.answers.value, q.answersDraggable.value)
    ensures QuestionLines(q, bases)[|QuestionLines(q, bases)| - 1] == ""
  {
    MatchingParts(q, bases);
  }

  /** Line `1 + k` of a complete MATCHING question is its `k`-th image line. */
  lemma MatchingImageLine(q: Question, bases: ImageBases, k: nat)
    requires q.questionType == Matching && q.answers.Some? && q.answersDraggable.Some?
    requires k < |q.images|
    ensures 1 + k < |QuestionLines(q, bases)|
    ensures QuestionLines(q, bases)[1 + k] == ImageLine(k + 1, q.images[k], bases)
  {
    MatchingParts(q, bases);
    ImageLinesAt(q.images, bases, k);
  }

  /** After the image lines come the answers, one line each, in order. */
  lemma MatchingAnswerLine(q: Question, bases: ImageBases, k: nat)
    requires q.questionType == Matching && q.answers.Some? && q.answersDraggable.Some?
    requires k < |q.answers.value|
    ensures 1 + |q.images| + k < |QuestionLines(q, bases)|
    ensures QuestionLines(q, bases)[1 + |q.images| + k] == AnswerLine(q.answers.value[k], bases)
  {
    MatchingParts(q, bases);
    AnswerLinesAt(q.answers.value, bases, k);
  }

  /** After the separator come the draggable answers, one line each, in order. */
  lemma MatchingDraggableLine(q: Question, bases: ImageBases, k: nat)
    requires q.questionType == Matching && q.answers.Some? && q.answersDraggable.Some?
    requires k < |q.answersDraggable.value|
    ensures 2 + |q.images| + |q.answers.value| + k < |QuestionLines(q, bases)|
    ensures QuestionLines(q, bases)[2 + |q.images| + |q.answers.value| + k]
              == AnswerLine(q.answersDraggable.value[k], bases)
  {
    MatchingParts(q, bases);
    AnswerLinesAt(q.answersDraggable.value, bases, k);
  }

  /** A MATCHING question that lacks either answer list gives only its header and
      image lines, with no blank line after them. */
  lemma IncompleteMatchingLines(q: Question, bases: ImageBases)
    requires q.questionType == Matching && (q.answers.None? || q.answersDraggable.None?)
    ensures QuestionLines(q, bases) == [q.questionType + " " + q.text] + ImageLines(q.images, bases)
    ensures |QuestionLines(q, bases)| == 1 + |q.images|
  {
  }

  /** When no line carries a newline of its own, the report splits back into exactly
      the rendered lines. */
  lemma RenderedTextSplitsIntoLines(qs: seq<Question>, bases: ImageBases)
    requires Renderable(qs) && RenderLines(qs, bases) != [] && NoNewlines(RenderLines(qs, bases))
    ensures SplitLines(JoinWith(RenderLines(qs, bases), "\n")) == RenderLines(qs, bases)
  {
    SplitJoinLines(RenderLines(qs, bases));
  }

  /** A question is complete when the renderer reaches its blank line: any question
      other than MATCHING, or a MATCHING one with both answer lists. */
  predicate Complete(q: Question) {
    q.questionType != Matching || (q.answers.Some? && q.answersDraggable.Some?)
  }

  /** A complete question's lines end with the blank line, after at least its header. */
  lemma CompleteQuestionEndsBlank(q: Question, bases: ImageBases)
    requires Complete(q) && (q.questionType != Matching ==> q.answers.Some?)
    ensures |QuestionLines(q, bases)| >= 2 && QuestionLines(q, bases)[|QuestionLines(q, bases)| - 1] == ""
  {
    if q.questionType == Matching {
      MatchingQuestionLines(q, bases);
    } else {
      PlainQuestionLines(q, bases);
    }
  }

  /** When the last question is complete, the report ends with a newline. */
  lemma ReportEndsWithNewline(qs: seq<Question>, bases: ImageBases)
    requires Renderable(qs) && qs != [] && Complete(qs[|qs| - 1])
    ensures var report := JoinWith(RenderLines(qs, bases), "\n");
            |report| >= 1 && report[|report| - 1] == '\n'
  {
    var last := qs[|qs| - 1];
    var lines := RenderLines(qs, bases);
    CompleteQuestionEndsBlank(last, bases);
    assert lines == RenderLines(qs[..|qs| - 1], bases) + QuestionLines(last, bases);
    JoinWithLastEmpty(lines, "\n");
  }

  /** A MATCHING question without answer lists, rendered last, leaves the report without
      a final newline: its `continue` skips the blank line. */
  lemma ScenarioIncompleteMatchingLast(bases: ImageBases)
    ensures JoinWith(RenderLines([Question("T", "MATCHING", [], None, None)], bases), "\n") == "MATCHING T"
  {
    var q := Question("T", "MATCHING", [], None, None);
    assert [q][..0] == [];
    assert QuestionLines(q, bases) == [Header(q)];
  }

  /** An empty answer text, rendered last, gives a report that ends in a blank line. */
  lemma ScenarioEmptyAnswerLast(bases: ImageBases)
    ensures JoinWith(RenderLines([Question("Q", "SINGLE", [], Some([Answer(1, "", [])]), None)], bases), "\n")
            == "SINGLE Q" + "\n" + ("" + "\n" + "")
  {
    var answers := [Answer(1, "", [])];
    var q := Question("Q", "SINGLE", [], Some(answers), None);
    assert [q][..0] == [];
    assert AnswerLines(answers[..0], bases) == [];
    assert AnswerLines(answers, bases) == [""];
    assert AnswerBlock(q, bases) == ["", ""];
    assert Header(q) == "SINGLE Q";
    var lines := ["SINGLE Q", "", ""];
    assert RenderLines([q], bases) == lines;
    JoinWithFront(lines[1..], "\n", "");
    JoinWithFront(lines, "\n", "" + "\n" + "");
  }

  /** A single-choice question with two plain answers renders as its header, the two
      answers and a blank line, so the text ends in one newline. */
  lemma ScenarioSingleChoice(bases: ImageBases)
    ensures var q := Question("Q1", "SINGLE", [], Some([Answer(1, "A", []), Answer(2, "B", [])]), None);
            JoinWith(RenderLines([q], bases), "\n") == "SINGLE Q1\nA\nB\n"
  {
    var answers := [Answer(1, "A", []), Answer(2, "B", [])];
    var q := Question("Q1", "SINGLE", [], Some(answers), None);
    assert [q][..0] == [];
    assert AnswerLines(answers[..1], bases) == ["A"];
    assert AnswerLines(answers, bases) == ["A", "B"];
    assert AnswerBlock(q, bases) == ["A", "B", ""];
    assert Header(q) == "SINGLE Q1";
    var lines := ["SINGLE Q1", "A", "B", ""];
    assert QuestionLines(q, bases) == lines;
    assert RenderLines([q], bases) == lines;
    assert JoinWith(lines[2..], "\n") == "B\n";
    assert JoinWith(lines[1..], "\n") == "A\nB\n";
  }

  lemma MatchingScenarioLines(bases: ImageBases)
    ensures var q := Question("T", "MATCHING", [], Some([Answer(1, "Left", [])]), Some([Answer(2, "Right", [])]));
            RenderLines([q], bases) == ["MATCHING T", "Left", "-----", "Right", ""]
  {
    var answers, draggable := [Answer(1, "Left", [])], [Answer(2, "Right", [])];
    var q := Question("T", "MATCHING", [], Some(answers), Some(draggable));
    assert [q][..0] == [];
    assert MaxAnswerLength(answers) == 4;
    assert MaxAnswerLength(draggable) == 5;
    assert Separator(answers, draggable) == "-----";
    assert AnswerLines(answers, bases) == ["Left"];
    assert AnswerLines(draggable, bases) == ["Right"];
    assert AnswerBlock(q, bases) == ["Left", "-----", "Right", ""];
    assert Header(q) == "MATCHING T";
  }

  /** A MATCHING question with answers "Left" and "Right" gets a five-dash separator. */
  lemma ScenarioMatching(bases: ImageBases)
    ensures var q := Question("T", "MATCHING", [], Some([Answer(1, "Left", [])]), Some([Answer(2, "Right", [])]));
            JoinWith(RenderLines([q], bases), "\n") == "MATCHING T\nLeft\n-----\nRight\n"
  {
    MatchingScenarioLines(bases);
    MatchingScenarioJoin();
  }

  lemma MatchingScenarioJoin()
    ensures JoinWith(["MATCHING T", "Left", "-----", "Right", ""], "\n") == "MATCHING T\nLeft\n-----\nRight\n"
  {
    var lines := ["MATCHING T", "Left", "-----", "Right", ""];
    JoinWithFront(lines[3..], "\n", "");
    JoinWithFront(lines[2..], "\n", "Right" + "\n" + "");
    JoinWithFront(lines[1..], "\n", "-----" + "\n" + ("Right" + "\n" + ""));
    JoinWithFront(lines, "\n", "Left" + "\n" + ("-----" + "\n" + ("Right" + "\n" + "")));
    LiteralReport();
  }

  lemma LiteralReport()
    ensures "MATCHING T" + "\n" + ("Left" + "\n" + ("-----" + "\n" + ("Right" + "\n" + "")))
            == "MATCHING T\nLeft\n-----\nRight\n"
  {
  }

  /** The report is empty exactly when there are no questions: every question
      contributes at least its header, which is never empty. */
  lemma EmptyReportIffNoQuestions(qs: seq<Question>, bases: ImageBases)
    requires Renderable(qs)
    ensures JoinWith(RenderLines(qs, bases), "\n") == "" <==> qs == []
  {
    var lines := RenderLines(qs, bases);
    JoinWithEmpty(lines, "\n");
    if qs != [] {
      var first := qs[0];
      assert [first] + qs[1..] == qs;
      assert [first][..0] == [];
      assert RenderLines([first], bases) == QuestionLines(first, bases);
      RenderLinesConcat([first], qs[1..], bases);
      assert lines[0] == Header(first);
      assert Header(first)[|first.questionType|] == ' ';
    }
  }
}
