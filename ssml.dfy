/**
 * audio/gcp.go: `storyToSSML`, the Speech Synthesis Markup Language (W3C
 * SSML 1.1) document handed to the speech service. The document is one
 * `speak` element (section 3.1.1) holding `p` elements (section 3.1.8.1) and
 * `break` elements (section 3.2.3). Texts are inserted verbatim, without
 * XML escaping.
 */
module AudioSsml {
  import opened Wrappers
  import opened Text
  import opened Gpt

  /** An element inside `speak`: a paragraph of text, or a pause of the given time. */
  datatype Element = Para(text: string) | Pause(time: string)

  const POpen: string := "<p>"
  const PClose: string := "</p>"
  const BreakOpen: string := "<break time=\""
  const BreakClose: string := "\"/>"
  const SpeakOpen: string := "<speak>"
  const SpeakClose: string := "</speak>"

  function Render(e: Element): string
  {
    match e
    case Para(t) => POpen + t + PClose
    case Pause(t) => BreakOpen + t + BreakClose
  }

  function RenderAll(es: seq<Element>): string
  {
    if es == [] then "" else Render(es[0]) + RenderAll(es[1..])
  }

  function ParagraphElements(ps: seq<string>): (es: seq<Element>)
    ensures |es| == |ps|
    ensures forall i :: 0 <= i < |ps| ==> es[i] == Para(ps[i])
  {
    seq(|ps|, i requires 0 <= i < |ps| => Para(ps[i]))
  }

  /** Each question: its text, a three-second pause, the answer, a one-second pause. */
  function QuestionElements(qs: seq<Question>): (es: seq<Element>)
    ensures |es| == 4 * |qs|
  {
    if qs == [] then []
    else [Para(qs[0].question), Pause("3s"), Para(qs[0].answer), Pause("1s")] + QuestionElements(qs[1..])
  }

  /**
   * The elements of a story's document: the title and a two-second pause,
   * every paragraph with no pause between them, a three-second pause, the
   * questions header and a one-second pause, then the questions.
   */
  function Elements(s: Story): seq<Element>
  {
    [Para(s.title), Pause("2s")] + ParagraphElements(Paragraphs(s))
    + [Pause("3s"), Para(QuestionsHeader), Pause("1s")] + QuestionElements(s.questions)
  }

  function Ssml(s: Story): string
  {
    SpeakOpen + RenderAll(Elements(s)) + SpeakClose
  }

  lemma {:induction false} RenderAllAppend(a: seq<Element>, b: seq<Element>)
    ensures RenderAll(a + b) == RenderAll(a) + RenderAll(b)
    decreases |a|
  {
    if a == [] {
      assert a + b == b;
    } else {
      assert (a + b)[0] == a[0];
      assert (a + b)[1..] == a[1..] + b;
      RenderAllAppend(a[1..], b);
    }
  }

  lemma RenderAllOne(e: Element)
    ensures RenderAll([e]) == Render(e)
  {
    assert [e][1..] == [];
  }

  lemma RenderAllThree(a: Element, b: Element, c: Element)
    ensures RenderAll([a, b, c]) == Render(a) + Render(b) + Render(c)
  {
    assert [a, b, c][1..] == [b, c];
    assert [b, c][1..] == [c];
    RenderAllOne(c);
    Assoc(Render(a), Render(b), Render(c));
  }

  lemma RenderAllFour(a: Element, b: Element, c: Element, d: Element)
    ensures RenderAll([a, b, c, d]) == Render(a) + Render(b) + Render(c) + Render(d)
  {
    assert [a, b, c, d][1..] == [b, c, d];
    RenderAllThree(b, c, d);
    Assoc4(Render(a), Render(b), Render(c), Render(d));
  }

  lemma RenderAllSnoc(a: seq<Element>, e: Element)
    ensures RenderAll(a + [e]) == RenderAll(a) + Render(e)
  {
    RenderAllAppend(a, [e]);
    RenderAllOne(e);
  }

  /** The three pauses as the source writes them. */
  const Break2s: string := "<break time=\"2s\"/>"
  const Break3s: string := "<break time=\"3s\"/>"
  const Break1s: string := "<break time=\"1s\"/>"

  /**
   * `storyToSSML`: writes `<speak>`, the title paragraph and its pause, each
   * paragraph, the questions header between its pauses, each question and
   * answer with their pauses, and `</speak>`.
   */
  method StoryToSsml(s: Story) returns (r: string)
    ensures r == Ssml(s)
  {
    r := "";
    r := r + "<speak>";
    r := r + "<p>";
    r := r + s.title;
    r := r + "</p>";
    r := r + "<break time=\"2s\"/>";
    ghost var head := [Para(s.title), Pause("2s")];
    WriteHead(s.title);
    var paragraphs := Split(s.story, '\n');
    var i := 0;
    assert head + ParagraphElements(paragraphs[..0]) == head;
    while i < |paragraphs|
      invariant 0 <= i <= |paragraphs|
      invariant r == SpeakOpen + RenderAll(head + ParagraphElements(paragraphs[..i]))
    {
      ghost var before := r;
      r := r + "<p>";
      r := r + paragraphs[i];
      r := r + "</p>";
      WriteParagraph(head, paragraphs, i, before);
      i := i + 1;
    }
    assert paragraphs[..i] == paragraphs;
    ghost var before := r;
    r := r + "<break time=\"3s\"/>";
    r := r + "<p>";
    r := r + "Preguntas:";
    r := r + "</p>";
    r := r + "<break time=\"1s\"/>";
    WriteMiddle(before, head + ParagraphElements(paragraphs));
    ghost var body := head + ParagraphElements(paragraphs) + [Pause("3s"), Para(QuestionsHeader), Pause("1s")];
    var j := 0;
    assert body + QuestionElements(s.questions[..0]) == body;
    while j < |s.questions|
      invariant 0 <= j <= |s.questions|
      invariant r == SpeakOpen + RenderAll(body + QuestionElements(s.questions[..j]))
    {
      var q := s.questions[j];
      ghost var before := r;
      r := r + "<p>";
      r := r + q.question;
      r := r + "</p>";
      r := r + "<break time=\"3s\"/>";
      r := r + "<p>";
      r := r + q.answer;
      r := r + "</p>";
      r := r + "<break time=\"1s\"/>";
      WriteQuestion(body, s.questions, j, before);
      j := j + 1;
    }
    assert s.questions[..j] == s.questions;
    r := r + "</speak>";
  }

  /** Writing a `p` element after a rendered prefix renders one more element. */
  lemma WritePara(before: string, done: seq<Element>, t: string)
    requires before == SpeakOpen + RenderAll(done)
    ensures before + "<p>" + t + "</p>" == SpeakOpen + RenderAll(done + [Para(t)])
  {
    RenderAllSnoc(done, Para(t));
    Assoc4(before, "<p>", t, "</p>");
    Assoc(SpeakOpen, RenderAll(done), "<p>" + t + "</p>");
  }

  /** The opening writes render `<speak>`, the title paragraph and its pause. */
  lemma WriteHead(t: string)
    ensures "" + "<speak>" + "<p>" + t + "</p>" + "<break time=\"2s\"/>"
         == SpeakOpen + RenderAll([Para(t), Pause("2s")])
  {
    HeadMarkup(t);
    assert "" + "<speak>" == SpeakOpen;
    Assoc5(SpeakOpen, "<p>", t, "</p>", Break2s);
  }

  /** The writes between paragraphs and questions render the header and its two pauses. */
  lemma WriteMiddle(before: string, done: seq<Element>)
    requires before == SpeakOpen + RenderAll(done)
    ensures before + "<break time=\"3s\"/>" + "<p>" + "Preguntas:" + "</p>" + "<break time=\"1s\"/>"
         == SpeakOpen + RenderAll(done + [Pause("3s"), Para(QuestionsHeader), Pause("1s")])
  {
    var d1 := done + [Pause("3s")];
    var d2 := d1 + [Para(QuestionsHeader)];
    assert Render(Pause("3s")) == Break3s;
    assert Render(Pause("1s")) == Break1s;
    WriteBreak(before, done, "3s", Break3s);
    WritePara(before + Break3s, d1, QuestionsHeader);
    WriteBreak(before + Break3s + "<p>" + QuestionsHeader + "</p>", d2, "1s", Break1s);
    Assoc4(done, [Pause("3s")], [Para(QuestionsHeader)], [Pause("1s")]);
    assert [Pause("3s")] + [Para(QuestionsHeader)] + [Pause("1s")]
        == [Pause("3s"), Para(QuestionsHeader), Pause("1s")];
  }

  /** Writing a `break` element after a rendered prefix renders one more element. */
  lemma WriteBreak(before: string, done: seq<Element>, time: string, markup: string)
    requires before == SpeakOpen + RenderAll(done)
    requires Render(Pause(time)) == markup
    ensures before + markup == SpeakOpen + RenderAll(done + [Pause(time)])
  {
    RenderAllSnoc(done, Pause(time));
    Assoc(SpeakOpen, RenderAll(done), markup);
  }

  /** Writing the next paragraph renders its `p` element. */
  lemma WriteParagraph(head: seq<Element>, ps: seq<string>, i: nat, before: string)
    requires i < |ps|
    requires before == SpeakOpen + RenderAll(head + ParagraphElements(ps[..i]))
    ensures before + "<p>" + ps[i] + "</p>" == SpeakOpen + RenderAll(head + ParagraphElements(ps[..i + 1]))
  {
    WritePara(before, head + ParagraphElements(ps[..i]), ps[i]);
    ParagraphElementsSnoc(ps, i);
    Assoc(head, ParagraphElements(ps[..i]), [Para(ps[i])]);
  }

  lemma ParagraphElementsSnoc(ps: seq<string>, i: nat)
    requires i < |ps|
    ensures ParagraphElements(ps[..i + 1]) == ParagraphElements(ps[..i]) + [Para(ps[i])]
  {
  }

  /** Writing a question's eight pieces renders its four elements. */
  lemma WriteQuestionPieces(before: string, done: seq<Element>, q: Question)
    requires before == SpeakOpen + RenderAll(done)
    ensures before + "<p>" + q.question + "</p>" + "<break time=\"3s\"/>"
                   + "<p>" + q.answer + "</p>" + "<break time=\"1s\"/>"
         == SpeakOpen + RenderAll(done + [Para(q.question), Pause("3s"), Para(q.answer), Pause("1s")])
  {
    var d1 := done + [Para(q.question)];
    var d2 := d1 + [Pause("3s")];
    var d3 := d2 + [Para(q.answer)];
    var d4 := d3 + [Pause("1s")];
    var r1 := before + "<p>" + q.question + "</p>";
    WritePara(before, done, q.question);
    assert Render(Pause("3s")) == Break3s;
    WriteBreak(r1, d1, "3s", Break3s);
    WritePara(r1 + Break3s, d2, q.answer);
    assert Render(Pause("1s")) == Break1s;
    WriteBreak(r1 + Break3s + "<p>" + q.answer + "</p>", d3, "1s", Break1s);
    SnocFour(done, Para(q.question), Pause("3s"), Para(q.answer), Pause("1s"));
  }

  lemma SnocFour(done: seq<Element>, a: Element, b: Element, c: Element, d: Element)
    ensures done + [a] + [b] + [c] + [d] == done + [a, b, c, d]
  {
    Assoc5(done, [a], [b], [c], [d]);
    assert [a] + [b] + [c] + [d] == [a, b, c, d];
  }

  /** Writing the next question renders its four elements. */
  lemma WriteQuestion(body: seq<Element>, qs: seq<Question>, j: nat, before: string)
    requires j < |qs|
    requires before == SpeakOpen + RenderAll(body + QuestionElements(qs[..j]))
    ensures before + "<p>" + qs[j].question + "</p>" + "<break time=\"3s\"/>"
                   + "<p>" + qs[j].answer + "</p>" + "<break time=\"1s\"/>"
         == SpeakOpen + RenderAll(body + QuestionElements(qs[..j + 1]))
  {
    var q := qs[j];
    WriteQuestionPieces(before, body + QuestionElements(qs[..j]), q);
    assert qs[..j + 1] == qs[..j] + [q];
    QuestionElementsSnoc(qs[..j], q);
    Assoc(body, QuestionElements(qs[..j]), [Para(q.question), Pause("3s"), Para(q.answer), Pause("1s")]);
  }

  lemma {:induction false} QuestionElementsSnoc(qs: seq<Question>, q: Question)
    ensures QuestionElements(qs + [q])
         == QuestionElements(qs) + [Para(q.question), Pause("3s"), Para(q.answer), Pause("1s")]
    decreases |qs|
  {
    if qs == [] {
      assert qs + [q] == [q];
    } else {
      assert (qs + [q])[0] == qs[0];
      assert (qs + [q])[1..] == qs[1..] + [q];
      QuestionElementsSnoc(qs[1..], q);
    }
  }

  /** The document is a `speak` element: it opens with `<speak>` and closes with `</speak>`. */
  lemma SsmlFrame(s: Story)
    ensures |Ssml(s)| >= |SpeakOpen| + |SpeakClose|
    ensures Ssml(s)[..|SpeakOpen|] == "<speak>"
    ensures Ssml(s)[|Ssml(s)| - |SpeakClose|..] == "</speak>"
  {
  }

  /** What each paragraph contributes: its text as a `p` element. */
  function ParagraphMarkup(ps: seq<string>): string
  {
    if ps == [] then "" else "<p>" + ps[0] + "</p>" + ParagraphMarkup(ps[1..])
  }

  /** What each question contributes: question, three-second pause, answer, one-second pause. */
  function QuestionMarkup(qs: seq<Question>): string
  {
    if qs == [] then ""
    else ("<p>" + qs[0].question + "</p>") + Break3s + ("<p>" + qs[0].answer + "</p>") + Break1s
         + QuestionMarkup(qs[1..])
  }

  lemma {:induction false} ParagraphMarkupIs(ps: seq<string>)
    ensures RenderAll(ParagraphElements(ps)) == ParagraphMarkup(ps)
    decreases |ps|
  {
    if ps != [] {
      assert ParagraphElements(ps) == [Para(ps[0])] + ParagraphElements(ps[1..]);
      RenderAllAppend([Para(ps[0])], ParagraphElements(ps[1..]));
      ParagraphMarkupIs(ps[1..]);
    }
  }

  lemma {:induction false} QuestionMarkupIs(qs: seq<Question>)
    ensures RenderAll(QuestionElements(qs)) == QuestionMarkup(qs)
    decreases |qs|
  {
    if qs != [] {
      var q := qs[0];
      var four := [Para(q.question), Pause("3s"), Para(q.answer), Pause("1s")];
      RenderAllAppend(four, QuestionElements(qs[1..]));
      QuestionMarkupIs(qs[1..]);
      RenderAllFour(four[0], four[1], four[2], four[3]);
      assert Render(Pause("3s")) == Break3s;
      assert Render(Pause("1s")) == Break1s;
    }
  }

  /**
   * The document's text, piece by piece: the title paragraph and a
   * two-second break, the paragraphs back to back, a three-second break, the
   * questions header and a one-second break, the questions, `</speak>`.
   * Title, paragraphs, questions and answers appear verbatim.
   */
  lemma SsmlLayout(s: Story)
    ensures Ssml(s)
      == "<speak>"
         + ("<p>" + s.title + "</p>" + Break2s)
         + ParagraphMarkup(Paragraphs(s))
         + (Break3s + "<p>" + "Preguntas:" + "</p>" + Break1s)
         + QuestionMarkup(s.questions)
         + "</speak>"
  {
    var head := [Para(s.title), Pause("2s")];
    var ps := ParagraphElements(Paragraphs(s));
    var middle := [Pause("3s"), Para(QuestionsHeader), Pause("1s")];
    var qs := QuestionElements(s.questions);
    ElementsRender(head, ps, middle, qs);
    ParagraphMarkupIs(Paragraphs(s));
    QuestionMarkupIs(s.questions);
    HeadMarkup(s.title);
    MiddleMarkup();
    Assoc5(SpeakOpen, RenderAll(head), RenderAll(ps), RenderAll(middle), RenderAll(qs));
  }

  lemma ElementsRender(head: seq<Element>, ps: seq<Element>, middle: seq<Element>, qs: seq<Element>)
    ensures RenderAll(head + ps + middle + qs)
         == RenderAll(head) + RenderAll(ps) + RenderAll(middle) + RenderAll(qs)
  {
    RenderAllAppend(head + ps + middle, qs);
    RenderAllAppend(head + ps, middle);
    RenderAllAppend(head, ps);
  }

  lemma HeadMarkup(t: string)
    ensures RenderAll([Para(t), Pause("2s")]) == "<p>" + t + "</p>" + Break2s
  {
    assert [Para(t), Pause("2s")][1..] == [Pause("2s")];
    RenderAllOne(Pause("2s"));
    assert Render(Pause("2s")) == Break2s;
  }

  lemma MiddleMarkup()
    ensures RenderAll([Pause("3s"), Para(QuestionsHeader), Pause("1s")])
         == Break3s + "<p>" + "Preguntas:" + "</p>" + Break1s
  {
    RenderAllThree(Pause("3s"), Para(QuestionsHeader), Pause("1s"));
    assert Render(Pause("3s")) == Break3s;
    assert Render(Pause("1s")) == Break1s;
  }

  // ---------------------------------------------------------------------------
  // Reading the document back
  // ---------------------------------------------------------------------------

  /** The texts of the paragraphs, in document order. */
  function SpokenTexts(es: seq<Element>): seq<string>
  {
    if es == [] then []
    else (if es[0].Para? then [es[0].text] else []) + SpokenTexts(es[1..])
  }

  lemma {:induction false} SpokenTextsAppend(a: seq<Element>, b: seq<Element>)
    ensures SpokenTexts(a + b) == SpokenTexts(a) + SpokenTexts(b)
    decreases |a|
  {
    if a == [] {
      assert a + b == b;
    } else {
      assert (a + b)[0] == a[0];
      assert (a + b)[1..] == a[1..] + b;
      SpokenTextsAppend(a[1..], b);
    }
  }

  lemma SpokenQuestion(q: Question)
    ensures SpokenTexts([Para(q.question), Pause("3s"), Para(q.answer), Pause("1s")]) == [q.question, q.answer]
  {
    var four := [Para(q.question), Pause("3s"), Para(q.answer), Pause("1s")];
    assert four[1..] == [Pause("3s"), Para(q.answer), Pause("1s")];
    assert four[1..][1..] == [Para(q.answer), Pause("1s")];
    assert four[1..][1..][1..] == [Pause("1s")];
    assert [Pause("1s")][1..] == [];
    assert SpokenTexts([Pause("1s")]) == [];
    assert SpokenTexts([Para(q.answer), Pause("1s")]) == [q.answer];
    assert SpokenTexts(four[1..]) == [q.answer];
  }

  lemma {:induction false} SpokenParagraphs(ps: seq<string>)
    ensures SpokenTexts(ParagraphElements(ps)) == ps
    decreases |ps|
  {
    if ps != [] {
      assert ParagraphElements(ps) == [Para(ps[0])] + ParagraphElements(ps[1..]);
      SpokenTextsAppend([Para(ps[0])], ParagraphElements(ps[1..]));
      SpokenParagraphs(ps[1..]);
    }
  }

  lemma {:induction false} SpokenQuestions(qs: seq<Question>)
    ensures SpokenTexts(QuestionElements(qs)) == QuestionTexts(qs)
    decreases |qs|
  {
    if qs != [] {
      var q := qs[0];
      var four := [Para(q.question), Pause("3s"), Para(q.answer), Pause("1s")];
      SpokenTextsAppend(four, QuestionElements(qs[1..]));
      SpokenQuestions(qs[1..]);
      SpokenQuestion(q);
    }
  }

  /**
   * The document speaks exactly the texts the plain transcript lays out, in
   * the same order: both use the same split of the story into paragraphs.
   */
  lemma SsmlSpeaksTranscriptSegments(s: Story)
    ensures SpokenTexts(Elements(s)) == Segments(s)
  {
    var head := [Para(s.title), Pause("2s")];
    var ps := ParagraphElements(Paragraphs(s));
    var middle := [Pause("3s"), Para(QuestionsHeader), Pause("1s")];
    var qs := QuestionElements(s.questions);
    SpokenTextsAppend(head + ps + middle, qs);
    SpokenTextsAppend(head + ps, middle);
    SpokenTextsAppend(head, ps);
    SpokenParagraphs(Paragraphs(s));
    SpokenQuestions(s.questions);
    SpokenHead(s.title);
    SpokenMiddle();
  }

  lemma SpokenHead(t: string)
    ensures SpokenTexts([Para(t), Pause("2s")]) == [t]
  {
    assert [Para(t), Pause("2s")][1..] == [Pause("2s")];
    assert [Pause("2s")][1..] == [];
    assert SpokenTexts([Pause("2s")]) == [];
  }

  lemma SpokenMiddle()
    ensures SpokenTexts([Pause("3s"), Para(QuestionsHeader), Pause("1s")]) == [QuestionsHeader]
  {
    assert [Pause("3s"), Para(QuestionsHeader), Pause("1s")][1..] == [Para(QuestionsHeader), Pause("1s")];
    assert [Para(QuestionsHeader), Pause("1s")][1..] == [Pause("1s")];
    assert [Pause("1s")][1..] == [];
    assert SpokenTexts([Pause("1s")]) == [];
    assert SpokenTexts([Para(QuestionsHeader), Pause("1s")]) == [QuestionsHeader];
  }

  /**
   * Reads one element that `s` starts with: the `open` tag, the text up to
   * the first `stop`, then the `close` tag. Gives the text and what follows.
   */
  function ReadTagged(s: string, open: string, stop: char, close: string): (r: Option<(string, string)>)
    requires |open| > 0
    ensures r.Some? ==> |r.value.1| < |s|
  {
    if open <= s then
      var body := s[|open|..];
      var k := IndexOf(body, stop);
      if close <= body[k..] then Some((body[..k], body[k + |close|..])) else None
    else None
  }

  /** Reads a sequence of `p` and `break` elements back from their text. */
  function ParseElements(s: string): Option<seq<Element>>
    decreases |s|
  {
    if s == [] then Some([])
    else match ReadTagged(s, POpen, '<', PClose)
      case Some((t, rest)) =>
        (match ParseElements(rest)
         case None => None
         case Some(es) => Some([Para(t)] + es))
      case None =>
        match ReadTagged(s, BreakOpen, '"', BreakClose)
        case Some((t, rest)) =>
          (match ParseElements(rest)
           case None => None
           case Some(es) => Some([Pause(t)] + es))
        case None => None
  }

  /** Reads a whole document back. */
  function ParseSsml(doc: string): Option<seq<Element>>
  {
    if |doc| >= |SpeakOpen| + |SpeakClose| && doc[..|SpeakOpen|] == SpeakOpen
       && doc[|doc| - |SpeakClose|..] == SpeakClose
    then ParseElements(doc[|SpeakOpen|..|doc| - |SpeakClose|])
    else None
  }

  /** An element whose text cannot be mistaken for markup. */
  predicate Plain(e: Element)
  {
    match e
    case Para(t) => Free(t, '<')
    case Pause(t) => Free(t, '"')
  }

  /** An element written with its tags is read back, with what follows it. */
  lemma ReadTaggedWritten(open: string, t: string, stop: char, close: string, rest: string)
    requires |open| > 0 && |close| > 0 && close[0] == stop
    requires Free(t, stop)
    ensures ReadTagged(open + t + close + rest, open, stop, close) == Some((t, rest))
  {
    var s := open + t + close + rest;
    assert s == open + (t + (close + rest));
    var body := s[|open|..];
    assert body == t + (close + rest);
    IndexOfAfter(t, close + rest, stop);
    assert body[|t|..] == close + rest;
    assert body[|t| + |close|..] == rest;
    assert body[..|t|] == t;
  }

  /** A `break` element is never taken for a `p` element. */
  lemma BreakIsNotPara(t: string, rest: string)
    ensures ReadTagged(Render(Pause(t)) + rest, POpen, '<', PClose).None?
  {
    var s := Render(Pause(t)) + rest;
    assert s[1] == BreakOpen[1];
  }

  lemma ParsePara(t: string, rest: string, es: seq<Element>)
    requires Free(t, '<')
    requires ParseElements(rest) == Some(es)
    ensures ParseElements(Render(Para(t)) + rest) == Some([Para(t)] + es)
  {
    assert PClose[0] == '<';
    ReadTaggedWritten(POpen, t, '<', PClose, rest);
  }

  lemma ParsePause(t: string, rest: string, es: seq<Element>)
    requires Free(t, '"')
    requires ParseElements(rest) == Some(es)
    ensures ParseElements(Render(Pause(t)) + rest) == Some([Pause(t)] + es)
  {
    assert BreakClose[0] == '"';
    BreakIsNotPara(t, rest);
    ReadTaggedWritten(BreakOpen, t, '"', BreakClose, rest);
  }

  /** Rendering is undone by reading back, as long as no text looks like markup. */
  lemma {:induction false} ParseRenderAll(es: seq<Element>)
    requires forall e :: e in es ==> Plain(e)
    ensures ParseElements(RenderAll(es)) == Some(es)
    decreases |es|
  {
    if es != [] {
      assert Plain(es[0]);
      assert forall e :: e in es[1..] ==> e in es;
      ParseRenderAll(es[1..]);
      assert es == [es[0]] + es[1..];
      match es[0]
      case Para(t) => ParsePara(t, RenderAll(es[1..]), es[1..]);
      case Pause(t) => ParsePause(t, RenderAll(es[1..]), es[1..]);
    }
  }

  /** A story whose texts hold no `<`. */
  predicate PlainStory(s: Story)
  {
    && Free(s.title, '<')
    && Free(s.story, '<')
    && forall q :: q in s.questions ==> Free(q.question, '<') && Free(q.answer, '<')
  }

  lemma {:induction false} PlainQuestionElements(qs: seq<Question>)
    requires forall q :: q in qs ==> Free(q.question, '<') && Free(q.answer, '<')
    ensures forall e :: e in QuestionElements(qs) ==> Plain(e)
    decreases |qs|
  {
    if qs != [] {
      assert qs[0] in qs;
      assert forall q :: q in qs[1..] ==> q in qs;
      PlainQuestionElements(qs[1..]);
    }
  }

  /**
   * For a story whose texts hold no `<`, the document reads back to its
   * elements, and the paragraphs it speaks are the transcript's segments.
   */
  lemma SsmlRoundTrip(s: Story)
    requires PlainStory(s)
    ensures ParseSsml(Ssml(s)) == Some(Elements(s))
    ensures SpokenTexts(ParseSsml(Ssml(s)).value) == Segments(s)
  {
    SplitKeepsFree(s.story, '\n', '<');
    PlainQuestionElements(s.questions);
    var es := Elements(s);
    forall e | e in es
      ensures Plain(e)
    {
    }
    ParseRenderAll(es);
    Framed(SpeakOpen, RenderAll(es), SpeakClose);
    SsmlSpeaksTranscriptSegments(s);
  }
}
