/**
 * What the extractor promises about the records it builds, stated over the
 * model in QuizExtractor.
 */
module QuizProperties {
  import opened Options
  import opened JsText
  import opened RegexWords
  import opened ClassTokens
  import opened Markup
  import opened QuizExtractor

  // ---------------------------------------------------------------------------
  // Question text
  // ---------------------------------------------------------------------------

  /** Two questions without text at different positions get different labels. */
  lemma PlaceholdersDistinct(i: nat, j: nat)
    requires i != j
    ensures Placeholder(i) != Placeholder(j)
  {
    var p := "Question ";
    if Placeholder(i) == Placeholder(j) {
      assert Decimal(i + 1) == Placeholder(i)[|p|..];
      assert Decimal(j + 1) == Placeholder(j)[|p|..];
      DecimalInjective(i + 1, j + 1);
    }
  }

  /** Questions with neither text element non-blank, at different positions,
      get different question texts. */
  lemma UntitledQuestionsDistinct(q1: QuestionElement, i: nat, q2: QuestionElement, j: nat,
                                  parseFloat: string -> Option<Num>)
    requires i != j
    requires !Truthy(TrimmedHtml(q1.enhancedText)) && !Truthy(TrimmedHtml(q1.plainText))
    requires !Truthy(TrimmedHtml(q2.enhancedText)) && !Truthy(TrimmedHtml(q2.plainText))
    ensures Record(q1, i, parseFloat).question != Record(q2, j, parseFloat).question
  {
    PlaceholdersDistinct(i, j);
  }

  // ---------------------------------------------------------------------------
  // Raw type
  // ---------------------------------------------------------------------------

  /** The raw type inferred from classes is the first fragment of ClassTypes,
      in list order, that the class string contains, and `unknown` exactly
      when it contains none of them. */
  lemma RawTypeIsFirstMatch(cls: string)
    ensures TypeFromClasses(cls) == "unknown" <==>
              forall j :: 0 <= j < |ClassTypes| ==> !Contains(cls, ClassTypes[j])
    ensures forall k :: 0 <= k < |ClassTypes| && Contains(cls, ClassTypes[k])
                        && (forall j :: 0 <= j < k ==> !Contains(cls, ClassTypes[j])) ==>
              TypeFromClasses(cls) == ClassTypes[k]
  {
    assert ClassTypes[0] == "numerical_question" && ClassTypes[1] == "true_false_question";
    assert ClassTypes[2] == "multiple_choice_question" && ClassTypes[3] == "essay_question";
    assert ClassTypes[4] == "short_answer_question";
  }

  /** Inferring the type from the rebuilt class list gives the same answer as
      inferring it from the class attribute directly. */
  lemma TypeFromClassListString(className: string)
    ensures TypeFromClasses(ClassListString(className)) == TypeFromClasses(className)
  {
    ClassListStringContains(className, "numerical_question");
    ClassListStringContains(className, "true_false_question");
    ClassListStringContains(className, "multiple_choice_question");
    ClassListStringContains(className, "essay_question");
    ClassListStringContains(className, "short_answer_question");
  }

  /** The raw type is the trimmed label when one is given and not blank;
      otherwise the first class-name fragment found in the class attribute. */
  lemma RawTypeOfQuestion(q: QuestionElement)
    ensures RawType(q) != ""
    ensures TypeLabel(q) != "" ==> RawType(q) == TypeLabel(q)
    ensures TypeLabel(q) == "" ==> RawType(q) == TypeFromClasses(q.className)
  {
    TypeFromClassListString(q.className);
  }

  // ---------------------------------------------------------------------------
  // Correctness of an option
  // ---------------------------------------------------------------------------

  /** For a class attribute made of class names of letters, digits and
      underscores separated by single spaces, an option is correct exactly
      when one of its class names is `correct` or `correct_answer`. */
  lemma IsCorrectIffClassName(classes: seq<string>)
    requires forall c :: c in classes ==> AllWordChars(c)
    ensures IsCorrect(JoinSpace(classes)) <==> "correct" in classes || "correct_answer" in classes
  {
    WholeWordIffClassName(classes, "correct");
    WholeWordIffClassName(classes, "correct_answer");
  }

  /** `correct` inside a longer class name does not count. */
  lemma IncorrectIsNotCorrect()
    ensures !IsCorrect("incorrect")
  {
    WholeWordInWordRun("incorrect", "correct");
    WholeWordInWordRun("incorrect", "correct_answer");
  }

  /** `correct_answer` among other class names does count. */
  lemma CorrectAnswerClassCounts()
    ensures IsCorrect("answer correct_answer")
  {
    assert JoinSpace(["answer", "correct_answer"]) == "answer correct_answer";
    IsCorrectIffClassName(["answer", "correct_answer"]);
  }

  // ---------------------------------------------------------------------------
  // Multiplicity
  // ---------------------------------------------------------------------------

  predicate TwoCorrect(answers: seq<AnswerOption>) {
    exists i, j | 0 <= i < j < |answers| :: answers[i].isCorrect && answers[j].isCorrect
  }

  predicate SomeCorrect(answers: seq<AnswerOption>) {
    exists i | 0 <= i < |answers| :: answers[i].isCorrect
  }

  lemma {:induction false} CountCorrectPositive(answers: seq<AnswerOption>)
    ensures CountCorrect(answers) > 0 <==> SomeCorrect(answers)
  {
    if answers != [] {
      CountCorrectPositive(answers[1..]);
      if SomeCorrect(answers[1..]) {
        var i :| 0 <= i < |answers[1..]| && answers[1..][i].isCorrect;
        assert answers[i + 1].isCorrect;
      }
      if SomeCorrect(answers) && !answers[0].isCorrect {
        var i :| 0 <= i < |answers| && answers[i].isCorrect;
        assert answers[1..][i - 1].isCorrect;
      }
    }
  }

  /** More than one option is counted correct exactly when two different
      options are flagged correct. */
  lemma {:induction false} CountCorrectAboveOne(answers: seq<AnswerOption>)
    ensures CountCorrect(answers) > 1 <==> TwoCorrect(answers)
  {
    if answers != [] {
      var tail := answers[1..];
      CountCorrectAboveOne(tail);
      CountCorrectPositive(tail);
      if TwoCorrect(tail) {
        var i, j :| 0 <= i < j < |tail| && tail[i].isCorrect && tail[j].isCorrect;
        assert answers[i + 1].isCorrect && answers[j + 1].isCorrect;
      }
      if answers[0].isCorrect && SomeCorrect(tail) {
        var j :| 0 <= j < |tail| && tail[j].isCorrect;
        assert answers[j + 1].isCorrect;
      }
      if TwoCorrect(answers) {
        var i, j :| 0 <= i < j < |answers| && answers[i].isCorrect && answers[j].isCorrect;
        if i == 0 {
          assert tail[j - 1].isCorrect;
        } else {
          assert tail[i - 1].isCorrect && tail[j - 1].isCorrect;
        }
      }
    }
  }

  /** A record allows several selections exactly when two different options
      are correct or the container's class attribute has the whole word
      `multiple_answers_question`. */
  lemma MultipleIff(q: QuestionElement, index: nat, parseFloat: string -> Option<Num>)
    ensures Record(q, index, parseFloat).multiple <==>
              TwoCorrect(Answers(q)) || WholeWordOccurs(q.className, "multiple_answers_question")
  {
    CountCorrectAboveOne(Answers(q));
  }

  /** A single correct option alone never makes a question multi-select. */
  lemma SingleCorrectIsNotMultiple(q: QuestionElement, index: nat, parseFloat: string -> Option<Num>, k: nat)
    requires k < |q.answers| && IsCorrect(q.answers[k].className)
    requires forall j :: 0 <= j < |q.answers| && j != k ==> !IsCorrect(q.answers[j].className)
    requires !WholeWordOccurs(q.className, "multiple_answers_question")
    ensures !Record(q, index, parseFloat).multiple
  {
    MultipleIff(q, index, parseFloat);
  }

  // ---------------------------------------------------------------------------
  // Expected value
  // ---------------------------------------------------------------------------

  /** A non-empty short-answer candidate is the expected value, whatever
      numeric fields are present, and then there is no tolerance and no range. */
  lemma ShortAnswerPrecedence(q: QuestionElement, index: nat, parseFloat: string -> Option<Num>)
    requires ShortAnswerProbe(q).0 != ""
    ensures var r := Record(q, index, parseFloat);
            r.expected == Some(ShortAnswerProbe(q).0) && r.tolerance.None? && r.expectedRange.None?
  {
  }

  /** Without a short-answer candidate: the exact field beats the equation
      field, which beats the range fields. */
  lemma NumericPriority(q: QuestionElement, index: nat, parseFloat: string -> Option<Num>)
    requires ShortAnswerProbe(q).0 == ""
    ensures var r := Record(q, index, parseFloat);
            && (Truthy(InnerText(q.exact)) ==>
                  r.expected == Some(Trim(InnerText(q.exact).value)) && r.expectedRange.None?)
            && (!Truthy(InnerText(q.exact)) && Truthy(InnerText(q.equation)) ==>
                  r.expected == Some(Trim(InnerText(q.equation).value)) && r.tolerance.None? && r.expectedRange.None?)
            && (!Truthy(InnerText(q.exact)) && !Truthy(InnerText(q.equation)) ==>
                  && r.expected.None? && r.tolerance.None?
                  && (r.expectedRange.Some? <==>
                        ParseBound(InnerText(q.rangeStart), parseFloat).Some?
                        || ParseBound(InnerText(q.rangeEnd), parseFloat).Some?))
  {
    var x := ExpectationOf(q, Answers(q), parseFloat);
    assert x == NumericExpectation(q, parseFloat).(expectedHtml := ShortAnswerProbe(q).1);
    assert Record(q, index, parseFloat).expected == x.expected;
    assert Record(q, index, parseFloat).tolerance == x.tolerance;
    assert Record(q, index, parseFloat).expectedRange == x.expectedRange;
  }

  /** With a short-answer candidate, the record's markup is the probe's markup,
      else the markup (or, lacking markup, the text) of the first option that
      shows something, else null. */
  lemma ShortAnswerMarkup(q: QuestionElement, index: nat, parseFloat: string -> Option<Num>)
    requires ShortAnswerProbe(q).0 != ""
    ensures var r := Record(q, index, parseFloat);
            && (ShortAnswerProbe(q).1.Some? ==> r.expectedHtml == ShortAnswerProbe(q).1)
            && (ShortAnswerProbe(q).1.None? ==> r.expectedHtml == AnswerHtmlFallback(r.answers))
            && (ShortAnswerProbe(q).1.None? ==>
                  (r.expectedHtml.None? <==> forall j :: 0 <= j < |r.answers| ==> !ShowsSomething(r.answers[j])))
            && (ShortAnswerProbe(q).1.None? && r.expectedHtml.Some? ==>
                  exists j :: FirstWhere(r.answers, ShowsSomething, j)
                              && r.expectedHtml.value == (if Truthy(r.answers[j].html) then r.answers[j].html.value
                                                          else r.answers[j].text))
  {
  }

  /** When the answer-text element has markup but no text, the candidate is the
      markup with its tags stripped, and it contains no tag. */
  lemma StrippedCandidateHasNoTag(q: QuestionElement)
    requires InputProbe(q) == "" && q.answerTextEl.Some?
    requires TrimmedText(q.answerTextEl.value) == ""
    ensures ShortAnswerProbe(q).0 == Trim(StripTags(Trim(q.answerTextEl.value.innerHTML)))
    ensures !HasTag(ShortAnswerProbe(q).0)
  {
    var html := Trim(q.answerTextEl.value.innerHTML);
    var stripped := StripTags(html);
    StripTagsRemovesAllTags(html);
    TrimOfTagFree(stripped);
  }

  /** Trimming tag-free text leaves it tag-free. */
  lemma TrimOfTagFree(s: string)
    requires !HasTag(s)
    ensures !HasTag(Trim(s))
  {
    var a := TrimSlice(s);
    NoTagInSlice(s, a, a + |Trim(s)|);
  }

  /** A tolerance is recorded only in the exact branch, and only when the
      margin text parses; it is what the margin parsed to. */
  lemma ToleranceOnlyFromExactMargin(q: QuestionElement, index: nat, parseFloat: string -> Option<Num>)
    ensures var r := Record(q, index, parseFloat);
            r.tolerance.Some? ==>
              && ShortAnswerProbe(q).0 == ""
              && Truthy(InnerText(q.exact))
              && MarginText(q) != ""
              && r.tolerance == parseFloat(MarginText(q))
  {
  }

  /** A range is recorded only when at least one bound parses, a bound that
      does not parse is null, and a range never comes with an expected value
      or a tolerance. */
  lemma RangeExcludesExpected(q: QuestionElement, index: nat, parseFloat: string -> Option<Num>)
    ensures var r := Record(q, index, parseFloat);
            r.expectedRange.Some? ==>
              && r.expected.None? && r.tolerance.None?
              && (r.expectedRange.value.start.Some? || r.expectedRange.value.end.Some?)
              && r.expectedRange.value.start == ParseBound(InnerText(q.rangeStart), parseFloat)
              && r.expectedRange.value.end == ParseBound(InnerText(q.rangeEnd), parseFloat)
  {
  }

  /** An exact answer of `0` is kept: presence, not numeric truthiness, decides. */
  lemma ExactZeroIsKept(q: QuestionElement, index: nat, parseFloat: string -> Option<Num>)
    requires ShortAnswerProbe(q).0 == "" && InnerText(q.exact) == Some("0")
    ensures Record(q, index, parseFloat).expected == Some("0")
  {
    assert IsTrimmed("0");
  }

  // ---------------------------------------------------------------------------
  // Final type
  // ---------------------------------------------------------------------------

  /** An input-style question (no option text, non-empty expected value) is
      `numerical` when the raw type mentions numerical, else `text`. */
  lemma InputStyleType(q: QuestionElement, index: nat, parseFloat: string -> Option<Num>)
    ensures var r := Record(q, index, parseFloat);
            NoOptionText(r.answers) && Truthy(r.expected) ==>
              r.kind == (if Contains(r.rawType, "numerical") then "numerical" else "text")
  {
  }

  /** A needle with a character the haystack lacks does not occur in it. */
  lemma MissingCharNotContained(s: string, w: string, k: nat)
    requires k < |w| && w[k] !in s
    ensures !Contains(s, w)
  {
    forall i | 0 <= i <= |s| - |w|
      ensures !OccursAt(s, w, i)
    {
      assert s[i..i + |w|][k] == s[i + k];
    }
  }

  /** Essay and unknown raw types fall through to `multiple_choice` unless the
      question is input-style. */
  lemma EssayAndUnknownAreMultipleChoice(rawType: string, answers: seq<AnswerOption>, expected: Option<string>)
    requires rawType == "essay_question" || rawType == "unknown"
    requires !(NoOptionText(answers) && Truthy(expected))
    ensures FinalType(rawType, answers, expected) == "multiple_choice"
  {
    if rawType == "essay_question" {
      MissingCharNotContained(rawType, "numerical", 2);
      MissingCharNotContained(rawType, "short_answer", 1);
    }
  }

  // ---------------------------------------------------------------------------
  // The whole record
  // ---------------------------------------------------------------------------

  /** Every record has a non-empty question text and raw type, a type among
      FinalTypes, and one option per `.answer` element, in order. */
  lemma RecordShape(q: QuestionElement, index: nat, parseFloat: string -> Option<Num>)
    ensures var r := Record(q, index, parseFloat);
            && r.question != "" && r.rawType != "" && r.kind in FinalTypes
            && |r.answers| == |q.answers|
            && forall j :: 0 <= j < |q.answers| ==> r.answers[j] == AnswerOf(q.answers[j])
  {
  }
}
