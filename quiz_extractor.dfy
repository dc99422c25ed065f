/**
 * The per-question normalisation of `collectQuiz` (CanvasQuizReplay.js): how
 * one question container of a Canvas quiz page becomes one QuestionRecord,
 * and the pass that does this for every container in document order.
 *
 * The DOM is abstracted: every `querySelector` the extractor makes becomes an
 * `Option<Element>` field holding the element it returned (None for `null`),
 * and an element is reduced to the properties the extractor reads from it.
 * `parseFloat` is a parameter: the extractor only asks whether it gave a
 * number or NaN, and stores what it gave.
 */
module QuizExtractor {
  import opened Options
  import opened JsText
  import opened RegexWords
  import opened ClassTokens
  import opened Markup

  // ---------------------------------------------------------------------------
  // Inputs: what the selectors return
  // ---------------------------------------------------------------------------

  /** A JavaScript number that is not NaN. */
  datatype Num = Finite(value: real) | Infinite(negative: bool)

  /** An element a selector matched, reduced to what the extractor reads:
      `innerHTML` and `textContent` (always strings on an element), `innerText`
      (undefined on elements that are not HTML elements), the `value` property
      (undefined on elements that are not form controls) and
      `getAttribute('value')` (null when the attribute is absent). */
  datatype Element = Element(
    innerHTML: string,
    innerText: Option<string>,
    textContent: string,
    value: Option<string>,
    valueAttr: Option<string>)

  /** One `.answer` element of a question. */
  datatype AnswerElement = AnswerElement(
    className: string,              // aEl.className
    innerText: Option<string>,      // aEl.innerText
    htmlEl: Option<Element>,        // .answer_html
    textEl: Option<Element>,        // .answer_text
    textInput: Option<Element>,     // input[name="answer_text"]
    weightEl: Option<Element>)      // .answer_weight

  /** One `[aria-label="Question"]` container. */
  datatype QuestionElement = QuestionElement(
    className: string,              // question.className, from which classList is parsed
    enhancedText: Option<Element>,  // .question_text.user_content.enhanced
    plainText: Option<Element>,     // .question_text
    typeLabel: Option<Element>,     // .question_type
    answers: seq<AnswerElement>,    // every .answer, in document order
    shortInput: Option<Element>,    // .question_input, input[name="answer_text"], .answer_type.short_answer input, input.question_input
    answerTextEl: Option<Element>,  // .answer .answer_text, .answer_text
    exact: Option<Element>,         // .numerical_exact_answer .answer_exact
    errorMargin: Option<Element>,   // .numerical_exact_answer .answer_error_margin
    toleranceEl: Option<Element>,   // .numerical_exact_answer .answer_tolerance
    equation: Option<Element>,      // .numerical_range_answer .answer_equation
    rangeStart: Option<Element>,    // .numerical_range_answer .answer_range_start
    rangeEnd: Option<Element>)      // .numerical_range_answer .answer_range_end

  // ---------------------------------------------------------------------------
  // Output: the normalised record
  // ---------------------------------------------------------------------------

  datatype AnswerOption = AnswerOption(text: string, html: Option<string>, isCorrect: bool, weight: Option<string>)

  /** `{start, end}`; a bound that did not parse is null. */
  datatype Range = Range(start: Option<Num>, end: Option<Num>)

  /** The expected-answer fields of a record. */
  datatype Expectation = Expectation(
    expected: Option<string>,
    expectedHtml: Option<string>,
    tolerance: Option<Num>,
    expectedRange: Option<Range>)

  /** The record built for one question; `kind` is the record's `type`. */
  datatype QuestionRecord = QuestionRecord(
    question: string,
    rawType: string,
    kind: string,
    multiple: bool,
    answers: seq<AnswerOption>,
    expected: Option<string>,
    expectedHtml: Option<string>,
    tolerance: Option<Num>,
    expectedRange: Option<Range>)

  // ---------------------------------------------------------------------------
  // Optional chaining on a matched element
  // ---------------------------------------------------------------------------

  /** `e?.innerText` */
  function InnerText(e: Option<Element>): Option<string> {
    if e.Some? then e.value.innerText else None
  }

  /** `e?.innerHTML.trim()` */
  function TrimmedHtml(e: Option<Element>): Option<string> {
    if e.Some? then Some(Trim(e.value.innerHTML)) else None
  }

  /** `e?.value?.trim()` */
  function TrimmedValue(e: Option<Element>): Option<string> {
    if e.Some? && e.value.value.Some? then Some(Trim(e.value.value.value)) else None
  }

  /** `(e.innerText || e.textContent || '').trim()` */
  function TrimmedText(e: Element): (r: string)
    ensures IsTrimmed(r)
    ensures Truthy(e.innerText) ==> r == Trim(e.innerText.value)
    ensures !Truthy(e.innerText) ==> r == Trim(e.textContent)
  {
    if Truthy(e.innerText) then Trim(e.innerText.value) else Trim(e.textContent)
  }

  // ---------------------------------------------------------------------------
  // Question text
  // ---------------------------------------------------------------------------

  /** The label used when a question has no text of its own. */
  function Placeholder(index: nat): string {
    "Question " + Decimal(index + 1)
  }

  /** The question's markup: the enhanced rendition when it is not blank, else
      the plain one when it is not blank, else the placeholder. Never empty. */
  function QuestionText(q: QuestionElement, index: nat): (r: string)
    ensures r != ""
    ensures Truthy(TrimmedHtml(q.enhancedText)) ==> r == Trim(q.enhancedText.value.innerHTML)
    ensures !Truthy(TrimmedHtml(q.enhancedText)) && Truthy(TrimmedHtml(q.plainText)) ==>
              r == Trim(q.plainText.value.innerHTML)
    ensures !Truthy(TrimmedHtml(q.enhancedText)) && !Truthy(TrimmedHtml(q.plainText)) ==>
              r == Placeholder(index)
  {
    JsOr([TrimmedHtml(q.enhancedText), TrimmedHtml(q.plainText)], Placeholder(index))
  }

  // ---------------------------------------------------------------------------
  // Raw type
  // ---------------------------------------------------------------------------

  /** The class-name fragments tried, in priority order, when there is no label. */
  const ClassTypes: seq<string> :=
    ["numerical_question", "true_false_question", "multiple_choice_question",
     "essay_question", "short_answer_question"]

  /** The raw type inferred from the class string: the first fragment of
      ClassTypes it contains, or `unknown`. */
  function TypeFromClasses(cls: string): (r: string)
    ensures r in ClassTypes || r == "unknown"
    ensures r != "unknown" ==> Contains(cls, r)
  {
    if Contains(cls, "numerical_question") then "numerical_question"
    else if Contains(cls, "true_false_question") then "true_false_question"
    else if Contains(cls, "multiple_choice_question") then "multiple_choice_question"
    else if Contains(cls, "essay_question") then "essay_question"
    else if Contains(cls, "short_answer_question") then "short_answer_question"
    else "unknown"
  }

  /** `qTypeNode?.innerText?.trim() || ''` */
  function TypeLabel(q: QuestionElement): (r: string)
    ensures IsTrimmed(r)
    ensures InnerText(q.typeLabel).Some? ==> r == Trim(InnerText(q.typeLabel).value)
    ensures InnerText(q.typeLabel).None? ==> r == ""
  {
    var t := InnerText(q.typeLabel);
    if t.Some? then Trim(t.value) else ""
  }

  /** The raw type: the label when it is not blank, otherwise inferred from
      the class list. Never empty. */
  function RawType(q: QuestionElement): (r: string)
    ensures r != ""
    ensures TypeLabel(q) != "" ==> r == TypeLabel(q)
    ensures TypeLabel(q) == "" ==> r == TypeFromClasses(ClassListString(q.className))
  {
    var given := TypeLabel(q);
    if given != "" then given else TypeFromClasses(ClassListString(q.className))
  }

  // ---------------------------------------------------------------------------
  // Answers
  // ---------------------------------------------------------------------------

  /** `/\b(correct_answer|correct)\b/.test(cls)` */
  predicate IsCorrect(cls: string) {
    WholeWordOccurs(cls, "correct_answer") || WholeWordOccurs(cls, "correct")
  }

  /** `aEl.querySelector('.answer_html')?.innerHTML?.trim() || null` */
  function AnswerHtml(a: AnswerElement): (r: Option<string>)
    ensures r.Some? ==> r.value != "" && IsTrimmed(r.value)
    ensures r.Some? <==> a.htmlEl.Some? && Trim(a.htmlEl.value.innerHTML) != ""
    ensures r.Some? ==> r.value == Trim(a.htmlEl.value.innerHTML)
  {
    var h := TrimmedHtml(a.htmlEl);
    if Truthy(h) then h else None
  }

  /** The answer's plain text: the `.answer_text` element's text when that
      element exists (even if blank); otherwise the answer input's value when
      it is not blank, otherwise the answer element's own text. Always trimmed. */
  function AnswerText(a: AnswerElement): (r: string)
    ensures IsTrimmed(r)
    ensures a.textEl.Some? ==> r == TrimmedText(a.textEl.value)
    ensures a.textEl.None? && Truthy(TrimmedValue(a.textInput)) ==> r == TrimmedValue(a.textInput).value
    ensures a.textEl.None? && !Truthy(TrimmedValue(a.textInput)) ==> r == Trim(JsOr([a.innerText], ""))
  {
    if a.textEl.Some? then TrimmedText(a.textEl.value)
    else JsOr([TrimmedValue(a.textInput)], Trim(JsOr([a.innerText], "")))
  }

  /** `aEl.querySelector('.answer_weight')?.innerText || null` */
  function Weight(a: AnswerElement): (r: Option<string>)
    ensures r.Some? ==> r.value != ""
    ensures r.Some? <==> a.weightEl.Some? && Truthy(a.weightEl.value.innerText)
    ensures r.Some? ==> r == a.weightEl.value.innerText
  {
    var w := InnerText(a.weightEl);
    if Truthy(w) then w else None
  }

  /** The option recorded for one `.answer` element. */
  function AnswerOf(a: AnswerElement): AnswerOption {
    AnswerOption(AnswerText(a), AnswerHtml(a), IsCorrect(a.className), Weight(a))
  }

  /** The question's options, one per `.answer` element, in document order. */
  function Answers(q: QuestionElement): (r: seq<AnswerOption>)
    ensures |r| == |q.answers|
  {
    seq(|q.answers|, j requires 0 <= j < |q.answers| => AnswerOf(q.answers[j]))
  }

  // ---------------------------------------------------------------------------
  // Multiplicity
  // ---------------------------------------------------------------------------

  /** `answers.filter(a => a.isCorrect).length` */
  function CountCorrect(answers: seq<AnswerOption>): (n: nat)
    ensures n <= |answers|
  {
    if answers == [] then 0
    else (if answers[0].isCorrect then 1 else 0) + CountCorrect(answers[1..])
  }

  /** `correctCount > 1 || /\bmultiple_answers_question\b/.test(question.className)` */
  predicate Multiple(q: QuestionElement, answers: seq<AnswerOption>) {
    CountCorrect(answers) > 1 || WholeWordOccurs(q.className, "multiple_answers_question")
  }

  // ---------------------------------------------------------------------------
  // Expected value
  // ---------------------------------------------------------------------------

  /** The text of the first short-answer input the selector matches:
      `(value || getAttribute('value') || innerText || textContent || '').trim()`,
      or "" when the selector matched nothing. */
  function InputProbe(q: QuestionElement): (v: string)
    ensures IsTrimmed(v)
    ensures q.shortInput.None? ==> v == ""
    ensures q.shortInput.Some? ==>
              var e := q.shortInput.value;
              && (Truthy(e.value) ==> v == Trim(e.value.value))
              && (!Truthy(e.value) && Truthy(e.valueAttr) ==> v == Trim(e.valueAttr.value))
              && (!Truthy(e.value) && !Truthy(e.valueAttr) && Truthy(e.innerText) ==>
                    v == Trim(e.innerText.value))
              && (!Truthy(e.value) && !Truthy(e.valueAttr) && !Truthy(e.innerText) ==>
                    v == Trim(e.textContent))
  {
    if q.shortInput.None? then ""
    else
      var e := q.shortInput.value;
      if Truthy(e.value) then Trim(e.value.value)
      else if Truthy(e.valueAttr) then Trim(e.valueAttr.value)
      else if Truthy(e.innerText) then Trim(e.innerText.value)
      else Trim(e.textContent)
  }

  /** The `.answer_text` fallback of the short-answer probe: the candidate
      ("" for none) and the markup it records. A non-blank text is the
      candidate; blank text gives the markup with its tags stripped; the
      markup is recorded exactly when it is not blank. */
  function AnswerTextProbe(at: Element): (p: (string, Option<string>))
    ensures TrimmedText(at) != "" ==> p.0 == TrimmedText(at)
    ensures TrimmedText(at) == "" ==> p.0 == Trim(StripTags(Trim(at.innerHTML)))
    ensures p.1.Some? <==> Trim(at.innerHTML) != ""
    ensures p.1.Some? ==> p.1.value == Trim(at.innerHTML)
  {
    var html := Trim(at.innerHTML);
    var txt := TrimmedText(at);
    if html != "" then (JsOr([Some(txt)], Trim(StripTags(html))), Some(html))
    else (txt, None)
  }

  /** The short-answer probe: the candidate it settles on ("" for none) and the
      markup it records. The input's text wins; otherwise the `.answer_text`
      element decides, when there is one. */
  function ShortAnswerProbe(q: QuestionElement): (p: (string, Option<string>))
    ensures p.1.Some? ==> p.1.value != ""
    ensures InputProbe(q) != "" ==> p == (InputProbe(q), None)
    ensures InputProbe(q) == "" && q.answerTextEl.None? ==> p == ("", None)
    ensures InputProbe(q) == "" && q.answerTextEl.Some? ==> p == AnswerTextProbe(q.answerTextEl.value)
  {
    var v := InputProbe(q);
    if v != "" then (v, None)
    else if q.answerTextEl.None? then ("", None)
    else AnswerTextProbe(q.answerTextEl.value)
  }

  /** `(a.html && a.html.trim() !== '') || (a.text && a.text.trim() !== '')` */
  predicate ShowsSomething(a: AnswerOption) {
    (Truthy(a.html) && Trim(a.html.value) != "") || (a.text != "" && Trim(a.text) != "")
  }

  /** The markup taken from the first option that shows something:
      `a.html || a.text`. */
  function AnswerHtmlFallback(answers: seq<AnswerOption>): (r: Option<string>)
    ensures r.None? <==> forall j :: 0 <= j < |answers| ==> !ShowsSomething(answers[j])
    ensures r.Some? ==> r.value != ""
    ensures r.Some? ==> exists j :: FirstWhere(answers, ShowsSomething, j)
                                    && r.value == (if Truthy(answers[j].html) then answers[j].html.value
                                                   else answers[j].text)
  {
    var a := Find(answers, ShowsSomething);
    if a.Some? then Some(JsOr([a.value.html], a.value.text)) else None
  }

  /** `numMargin`: the error-margin text, else the tolerance text, "" for none. */
  function MarginText(q: QuestionElement): (r: string)
    ensures Truthy(InnerText(q.errorMargin)) ==> r == q.errorMargin.value.innerText.value
    ensures !Truthy(InnerText(q.errorMargin)) && Truthy(InnerText(q.toleranceEl)) ==>
              r == q.toleranceEl.value.innerText.value
    ensures !Truthy(InnerText(q.errorMargin)) && !Truthy(InnerText(q.toleranceEl)) ==> r == ""
  {
    var margin := InnerText(q.errorMargin);
    var tolerance := InnerText(q.toleranceEl);
    if Truthy(margin) then margin.value
    else if Truthy(tolerance) then tolerance.value
    else ""
  }

  /** `text ? parseFloat(text) : NaN` */
  function ParseBound(text: Option<string>, parseFloat: string -> Option<Num>): Option<Num> {
    if Truthy(text) then parseFloat(text.value) else None
  }

  /** The numeric fields, consulted when the short-answer probe found nothing:
      the exact field (with the margin, when it parses, as tolerance), else the
      equation field, else the range fields. */
  function NumericExpectation(q: QuestionElement, parseFloat: string -> Option<Num>): (x: Expectation)
    ensures x.expectedHtml.None?
    ensures Truthy(InnerText(q.exact)) ==>
              x.expected == Some(Trim(InnerText(q.exact).value)) && x.expectedRange.None?
                  && x.tolerance == (if MarginText(q) != "" then parseFloat(MarginText(q)) else None)
    ensures !Truthy(InnerText(q.exact)) && Truthy(InnerText(q.equation)) ==>
              x.expected == Some(Trim(InnerText(q.equation).value)) && x.tolerance.None? && x.expectedRange.None?
    ensures !Truthy(InnerText(q.exact)) && !Truthy(InnerText(q.equation)) ==>
              && x.expected.None? && x.tolerance.None?
              && (x.expectedRange.Some? <==>
                    ParseBound(InnerText(q.rangeStart), parseFloat).Some?
                    || ParseBound(InnerText(q.rangeEnd), parseFloat).Some?)
    ensures x.expectedRange.Some? ==>
              && x.expected.None? && x.tolerance.None?
              && (x.expectedRange.value.start.Some? || x.expectedRange.value.end.Some?)
              && x.expectedRange.value.start == ParseBound(InnerText(q.rangeStart), parseFloat)
              && x.expectedRange.value.end == ParseBound(InnerText(q.rangeEnd), parseFloat)
  {
    var exact := InnerText(q.exact);
    var equation := InnerText(q.equation);
    if Truthy(exact) then
      var margin := MarginText(q);
      Expectation(Some(Trim(exact.value)), None, if margin != "" then parseFloat(margin) else None, None)
    else if Truthy(equation) then
      Expectation(Some(Trim(equation.value)), None, None, None)
    else
      var s := ParseBound(InnerText(q.rangeStart), parseFloat);
      var e := ParseBound(InnerText(q.rangeEnd), parseFloat);
      Expectation(None, None, None, if s.Some? || e.Some? then Some(Range(s, e)) else None)
  }

  /** The expected-answer fields of a record. A short-answer candidate, when
      there is one, is the expected value and the numeric fields are ignored;
      otherwise the numeric fields decide, and any markup the probe recorded
      is kept. A range never comes with an expected value or a tolerance. */
  function ExpectationOf(q: QuestionElement, answers: seq<AnswerOption>, parseFloat: string -> Option<Num>)
    : (x: Expectation)
    ensures ShortAnswerProbe(q).0 != "" ==>
              x.expected == Some(ShortAnswerProbe(q).0) && x.tolerance.None? && x.expectedRange.None?
    ensures ShortAnswerProbe(q).0 != "" ==>
              x.expectedHtml == (if ShortAnswerProbe(q).1.Some? then ShortAnswerProbe(q).1
                                 else AnswerHtmlFallback(answers))
    ensures ShortAnswerProbe(q).0 == "" ==>
              x == NumericExpectation(q, parseFloat).(expectedHtml := ShortAnswerProbe(q).1)
    ensures x.expectedRange.Some? ==> x.expected.None? && x.tolerance.None?
  {
    var (candidate, probeHtml) := ShortAnswerProbe(q);
    if candidate != "" then
      var html := if probeHtml.Some? then probeHtml else AnswerHtmlFallback(answers);
      Expectation(Some(candidate), html, None, None)
    else
      NumericExpectation(q, parseFloat).(expectedHtml := probeHtml)
  }

  /** The `.answer_text` fallback as the source writes it (lines 61-72):
      the candidate and the markup assigned step by step. */
  method ProbeAnswerText(at: Element) returns (candidate: Option<string>, markup: Option<string>)
    ensures candidate.GetOr("") == AnswerTextProbe(at).0
    ensures markup == AnswerTextProbe(at).1
  {
    candidate, markup := None, None;
    var html := Trim(at.innerHTML);
    var txt := TrimmedText(at);
    if html != "" {
      candidate := Some(JsOr([Some(txt)], Trim(StripTags(html))));
      markup := Some(html);
    } else if txt != "" {
      candidate := Some(txt);
    }
  }

  /** The short-answer probe as the source writes it: `shortCandidate` and
      `expectedHtml` assigned step by step. `shortCandidate` may end up as
      the empty string, which later tests treat like null. */
  method ProbeShortAnswer(q: QuestionElement) returns (shortCandidate: Option<string>, expectedHtml: Option<string>)
    ensures shortCandidate.GetOr("") == ShortAnswerProbe(q).0
    ensures expectedHtml == ShortAnswerProbe(q).1
  {
    shortCandidate, expectedHtml := None, None;
    var v := InputProbe(q);
    if v != "" {
      shortCandidate := Some(v);
    }
    if !Truthy(shortCandidate) {
      if q.answerTextEl.Some? {
        shortCandidate, expectedHtml := ProbeAnswerText(q.answerTextEl.value);
      }
    }
  }

  /** The numeric chain as the source writes it: the exact field with its
      margin, else the equation field, else the range bounds. */
  method ExtractNumeric(q: QuestionElement, parseFloat: string -> Option<Num>)
    returns (expected: Option<string>, tolerance: Option<Num>, expectedRange: Option<Range>)
    ensures Expectation(expected, None, tolerance, expectedRange) == NumericExpectation(q, parseFloat)
  {
    expected, tolerance, expectedRange := None, None, None;
    var numExact := InnerText(q.exact);
    var numMargin := MarginText(q);
    var numEquation := InnerText(q.equation);
    var numRangeStart := InnerText(q.rangeStart);
    var numRangeEnd := InnerText(q.rangeEnd);
    if Truthy(numExact) {
      expected := Some(Trim(numExact.value));
      if numMargin != "" {
        var parsed := parseFloat(numMargin);
        if parsed.Some? {
          tolerance := parsed;
        }
      }
    } else if Truthy(numEquation) {
      expected := Some(Trim(numEquation.value));
    } else if Truthy(numRangeStart) || Truthy(numRangeEnd) {
      var s := if Truthy(numRangeStart) then parseFloat(numRangeStart.value) else None;
      var e := if Truthy(numRangeEnd) then parseFloat(numRangeEnd.value) else None;
      if s.Some? || e.Some? {
        expectedRange := Some(Range(s, e));
      }
    }
  }

  /** Lines 41-118 as the source writes them: local variables assigned step by
      step across the short-answer probe, its markup fallback and, when no
      candidate was adopted, the numeric chain. The outcome is ExpectationOf. */
  method ExtractExpected(q: QuestionElement, answers: seq<AnswerOption>, parseFloat: string -> Option<Num>)
    returns (x: Expectation)
    ensures x == ExpectationOf(q, answers, parseFloat)
  {
    var expected: Option<string> := None;
    var tolerance: Option<Num> := None;
    var expectedRange: Option<Range> := None;
    var shortCandidate, expectedHtml := ProbeShortAnswer(q);

    if Truthy(shortCandidate) {
      expected := shortCandidate;
      if !Truthy(expectedHtml) {
        var a := Find(answers, ShowsSomething);
        if a.Some? {
          expectedHtml := Some(JsOr([a.value.html], a.value.text));
        }
      }
    }

    if !Truthy(expected) {
      expected, tolerance, expectedRange := ExtractNumeric(q, parseFloat);
    }

    x := Expectation(expected, expectedHtml, tolerance, expectedRange);
  }

  // ---------------------------------------------------------------------------
  // Final type
  // ---------------------------------------------------------------------------

  /** The values the record's `type` can take. */
  const FinalTypes: set<string> := {"numerical", "text", "true_false", "short_answer", "multiple_choice"}

  /** No option has any text (including: there are no options). */
  predicate NoOptionText(answers: seq<AnswerOption>) {
    |answers| == 0 || forall j :: 0 <= j < |answers| ==> answers[j].text == ""
  }

  /** The normalised type: an input-style question (no option text but a
      non-empty expected value) is `numerical` or `text`; otherwise the raw
      type decides between `true_false`, `numerical` and `short_answer`, and
      everything else is `multiple_choice`. */
  function FinalType(rawType: string, answers: seq<AnswerOption>, expected: Option<string>): (r: string)
    ensures r in FinalTypes
    ensures NoOptionText(answers) && Truthy(expected) ==>
              r == (if Contains(rawType, "numerical") then "numerical" else "text")
    ensures !(NoOptionText(answers) && Truthy(expected)) ==>
              && (rawType == "true_false_question" ==> r == "true_false")
              && (rawType != "true_false_question" && Contains(rawType, "numerical") ==> r == "numerical")
              && (rawType != "true_false_question" && !Contains(rawType, "numerical") && Contains(rawType, "short_answer") ==>
                    r == "short_answer")
              && (rawType != "true_false_question" && !Contains(rawType, "numerical") && !Contains(rawType, "short_answer") ==>
                    r == "multiple_choice")
    ensures r == "text" ==> NoOptionText(answers) && Truthy(expected)
    ensures r == "true_false" ==> rawType == "true_false_question"
    ensures r == "numerical" ==> Contains(rawType, "numerical")
    ensures r == "short_answer" ==> Contains(rawType, "short_answer")
  {
    if NoOptionText(answers) && Truthy(expected) then
      (if Contains(rawType, "numerical") then "numerical" else "text")
    else if rawType == "true_false_question" then "true_false"
    else if Contains(rawType, "numerical") then "numerical"
    else if Contains(rawType, "short_answer") then "short_answer"
    else "multiple_choice"
  }

  // ---------------------------------------------------------------------------
  // The record and the pass
  // ---------------------------------------------------------------------------

  /** The record built for the container `q` found at position `index`. */
  function Record(q: QuestionElement, index: nat, parseFloat: string -> Option<Num>): QuestionRecord {
    var answers := Answers(q);
    var rawType := RawType(q);
    var x := ExpectationOf(q, answers, parseFloat);
    QuestionRecord(QuestionText(q, index), rawType, FinalType(rawType, answers, x.expected),
                   Multiple(q, answers), answers, x.expected, x.expectedHtml, x.tolerance, x.expectedRange)
  }

  /** The body of the `map` callback: the record for one container. */
  method BuildRecord(q: QuestionElement, index: nat, parseFloat: string -> Option<Num>) returns (rec: QuestionRecord)
    ensures rec == Record(q, index, parseFloat)
  {
    var answers := Answers(q);
    var rawType := RawType(q);
    var x := ExtractExpected(q, answers, parseFloat);
    var multiple := Multiple(q, answers);
    var finalType := FinalType(rawType, answers, x.expected);
    rec := QuestionRecord(QuestionText(q, index), rawType, finalType, multiple, answers,
                          x.expected, x.expectedHtml, x.tolerance, x.expectedRange);
  }

  /** The extraction pass: one record per question container, in document
      order, each built from its own container and position. */
  method CollectQuiz(questions: seq<QuestionElement>, parseFloat: string -> Option<Num>)
    returns (records: seq<QuestionRecord>)
    ensures |records| == |questions|
    ensures forall i {:trigger records[i]} :: 0 <= i < |questions| ==>
              records[i] == Record(questions[i], i, parseFloat)
  {
    var build := (q, index) => Record(q, index, parseFloat);
    records := [];
    for i := 0 to |questions|
      invariant records == MapWithIndex(build, questions[..i])
    {
      var rec := BuildRecord(questions[i], i, parseFloat);
      MapWithIndexSnoc(build, questions, i);
      records := records + [rec];
    }
    assert questions[..|questions|] == questions;
    MapWithIndexAt(build, questions);
  }
}
