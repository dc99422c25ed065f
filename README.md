# Quiz extraction model

A Dafny model of `collectQuiz` in `CanvasQuizReplay.js`, the content script of
a browser extension that scrapes a Canvas quiz page. For each question
container on the page it builds one normalised question record. The record
holds:

- the question markup;
- the raw and normalised question types;
- whether several options may be selected;
- the answer options;
- the expected value, its markup, a tolerance and a numeric range.

The page is modelled as observations. Each `querySelector` the code issues is
one `Option<Element>` field of `QuestionElement` or `AnswerElement`. An
`Element` records what the code reads from a node: `innerHTML`,
`innerText`, `textContent`, `value` and `getAttribute('value')`.
`querySelectorAll` becomes a sequence in document order.

The JavaScript primitives the code relies on are modelled with their own
semantics:

- `String.prototype.trim` with the ECMAScript white-space and line-terminator
  set (`JsText.Trim`);
- `||` on strings, where `""` and `null` are falsy (`JsText.JsOr`, `JsText.Truthy`);
- `includes` as substring search (`JsText.Contains`);
- the regular-expression word boundary `\b` with word characters
  `[A-Za-z0-9_]` (`RegexWords`);
- `Array.from(classList).join(' ')`, split on ASCII white space with duplicates
  dropped (`ClassTokens`);
- `html.replace(/<[^>]+>/g, '')` (`Markup.StripTags`);
- the decimal rendering of `index + 1` in the placeholder (`JsText.Decimal`).

`parseFloat` is a parameter `parseFloat: string -> Option<Num>`, where `None`
stands for `NaN`. Nothing about its numerics is assumed.

Modules: `Options`, `JsText`, `RegexWords`, `ClassTokens`, `Markup`,
`QuizExtractor` (the record builder and the extraction pass) and
`QuizProperties` (what the records satisfy).

Facts about the code that the model keeps:

- An option's `text` never falls back to its markup. The markup is the
  separate `html` field, read from `.answer_html` (the comment at line 29 says
  that element is preferred for markup). The text is the `.answer_text`
  element's text whenever that element exists, even if that text is blank
  (lines 31-33).
- The correctness test at line 35 is a case-sensitive whole-word regular
  expression on the raw `className` string.
- `rawType` is never empty. It is `unknown` when no label and no class
  fragment is found (lines 15-23).
- The normalised `type` is never `essay` or `unknown`. Both fall through to
  `multiple_choice` at line 134 (`QuizProperties.EssayAndUnknownAreMultipleChoice`).
- The comments at lines 48 and 53 speak of a "visible" short-answer input.
  The code takes whatever element the selector at line 54 matches and does
  not test visibility, so the model does not either.

## Model

| member | source | states |
|---|---|---|
| QuizExtractor.CollectQuiz | CanvasQuizReplay.js:5-6 | one record per question container, in document order; record i is built from container i and position i (loop invariant over the records built so far) |
| QuizExtractor.BuildRecord | CanvasQuizReplay.js:137-147 | the record assembled by the map callback equals the function `Record` of its container and position |
| QuizExtractor.Record | CanvasQuizReplay.js:7-147 | the definition of the record built by the map callback for one container and its position; its meaning is stated by `QuizProperties.RecordShape`, `MultipleIff`, `ShortAnswerPrecedence`, `ShortAnswerMarkup`, `NumericPriority`, `ToleranceOnlyFromExactMargin`, `RangeExcludesExpected` and `InputStyleType` |
| QuizExtractor.QuestionText | CanvasQuizReplay.js:9-11 | never empty; the trimmed enhanced markup wins when not blank, then the trimmed plain markup, then the placeholder `Question N` |
| QuizExtractor.Placeholder | CanvasQuizReplay.js:11 | the definition of the template literal `Question ${index+1}`; its meaning is stated by `QuizProperties.PlaceholdersDistinct` and `JsText.Decimal` |
| QuizExtractor.TrimmedText | CanvasQuizReplay.js:32 | the text of an element, as lines 32 and 65 read it: the trimmed `innerText` when it is non-empty, else the trimmed `textContent` |
| QuizProperties.PlaceholdersDistinct | CanvasQuizReplay.js:11 | the placeholders of two different positions differ (the decimal rendering of `index+1` is injective) |
| QuizProperties.UntitledQuestionsDistinct | CanvasQuizReplay.js:9-11 | two containers without text at different positions get different question texts |
| QuizExtractor.TypeLabel | CanvasQuizReplay.js:14-15 | the trimmed `innerText` of `.question_type` when that element exists and has `innerText`, and empty otherwise |
| QuizExtractor.TypeFromClasses | CanvasQuizReplay.js:17-23 | the inferred type is one of the five class fragments or `unknown`, and a fragment is returned only when the class string contains it |
| QuizExtractor.RawType | CanvasQuizReplay.js:14-24 | never empty; a non-blank label wins; otherwise the type inferred from the joined class list |
| QuizProperties.RawTypeIsFirstMatch | CanvasQuizReplay.js:18-23 | the inferred type is the first fragment in priority order that occurs, and `unknown` exactly when none occurs |
| QuizProperties.TypeFromClassListString | CanvasQuizReplay.js:17 | rebuilding the class string from the class list does not change which fragments it contains |
| QuizProperties.RawTypeOfQuestion | CanvasQuizReplay.js:14-24 | with no label, the raw type is the first fragment found in the container's class attribute |
| JsText.Trim | CanvasQuizReplay.js:9 | the result has no leading or trailing white space, is empty exactly when the input is all white space, and leaves trimmed strings unchanged |
| JsText.TrimPadded | CanvasQuizReplay.js:9 | trimming a trimmed, non-blank core padded with white space gives back the core |
| JsText.JsOr | CanvasQuizReplay.js:9-11 | the JavaScript or-chain over the candidates yields the first non-empty candidate, and `last` when every candidate is empty or null |
| JsText.Contains | CanvasQuizReplay.js:18-22 | the definition of `s.includes(w)`: w occurs at some index of s; its behaviour on class lists is stated by `ContainsJoinSpace` and `ClassTokens.ClassListStringContains` |
| JsText.JoinSpace | CanvasQuizReplay.js:17 | the definition of `join(' ')`; its meaning for substring search is stated by `ContainsJoinSpace` and for word boundaries by `RegexWords.WholeWordIffClassName` |
| JsText.ContainsJoinSpace | CanvasQuizReplay.js:17 | a needle without a space occurs in the space-joined class list exactly when it occurs in one class name |
| ClassTokens.SplitTokens | CanvasQuizReplay.js:17 | the class list has only non-empty class names without white space |
| ClassTokens.Dedup | CanvasQuizReplay.js:17 | the class list keeps every class name once and no other |
| ClassTokens.ClassListStringContains | CanvasQuizReplay.js:17 | a needle without white space occurs in the joined class list exactly when it occurs in the class attribute |
| ClassTokens.ClassList | CanvasQuizReplay.js:17 | the definition of `Array.from(question.classList)`: the class attribute split on ASCII white space, duplicates dropped; its meaning is stated by `SplitTokens` and `Dedup` |
| ClassTokens.ClassListString | CanvasQuizReplay.js:17 | the definition of the joined class list; its meaning is stated by `ClassListStringContains` |
| RegexWords.WholeWordIffClassName | CanvasQuizReplay.js:35 | for class names of word characters, `\bw\b` matches the space-joined list exactly when w is one of the class names |
| RegexWords.WholeWordOccurs | CanvasQuizReplay.js:35 | the definition of `/\bw\b/.test(s)`: w occurs with a word boundary (word characters `[A-Za-z0-9_]`) on each side; its meaning for class strings is stated by `RegexWords.WholeWordIffClassName` |
| QuizExtractor.IsCorrect | CanvasQuizReplay.js:35 | the definition of the correctness test (whole word `correct_answer` or `correct`); its meaning is stated by `QuizProperties.IsCorrectIffClassName` and `IncorrectIsNotCorrect` |
| QuizProperties.IsCorrectIffClassName | CanvasQuizReplay.js:35 | when the class attribute is class names made only of letters, digits and underscores, joined by single spaces, an option is correct exactly when one of its class names is `correct` or `correct_answer` (other class strings, such as `answer not-correct`, are decided by the word-boundary test itself) |
| QuizProperties.IncorrectIsNotCorrect | CanvasQuizReplay.js:35 | the class `incorrect` does not mark an option correct |
| QuizProperties.CorrectAnswerClassCounts | CanvasQuizReplay.js:34-35 | the class `correct_answer` next to another class marks an option correct |
| QuizExtractor.AnswerHtml | CanvasQuizReplay.js:30 | the option markup is the trimmed `innerHTML` of `.answer_html` when that element exists and its trimmed markup is not empty, and null otherwise |
| QuizExtractor.AnswerText | CanvasQuizReplay.js:31-33 | the option text is the `.answer_text` element's text when that element exists, else the non-blank answer input value, else the option's own text; always trimmed |
| QuizExtractor.Weight | CanvasQuizReplay.js:37 | the weight is the untrimmed `innerText` of `.answer_weight` when that element exists and its text is not empty, and null otherwise |
| QuizExtractor.Answers | CanvasQuizReplay.js:27-39 | one option per `.answer` element |
| QuizExtractor.AnswerOf | CanvasQuizReplay.js:28-39 | the definition of the option object returned for one `.answer` element; its fields are stated by `AnswerText`, `AnswerHtml`, `IsCorrect` and `Weight` |
| QuizProperties.RecordShape | CanvasQuizReplay.js:27-39 | the record's options are the `.answer` elements' options in order; question and raw type are non-empty; the type is one of the five final types |
| QuizExtractor.CountCorrect | CanvasQuizReplay.js:120 | the number of correct options is at most the number of options |
| QuizProperties.CountCorrectAboveOne | CanvasQuizReplay.js:120-121 | more than one option counts as correct exactly when two different options are correct |
| QuizExtractor.Multiple | CanvasQuizReplay.js:120-121 | the definition of the multi-select flag; its meaning is stated by `QuizProperties.MultipleIff` and `SingleCorrectIsNotMultiple` |
| QuizProperties.MultipleIff | CanvasQuizReplay.js:120-121 | a record is multi-select exactly when two options are correct or the class attribute has the whole word `multiple_answers_question` |
| QuizProperties.SingleCorrectIsNotMultiple | CanvasQuizReplay.js:120-121 | a single correct option without the class marker never makes the record multi-select |
| QuizExtractor.InputProbe | CanvasQuizReplay.js:54-57 | empty when no input matches; otherwise the trimmed first non-empty of the input's value, its `value` attribute, its `innerText`, its `textContent` |
| QuizExtractor.ShortAnswerProbe | CanvasQuizReplay.js:51-76 | a non-blank input value is the candidate and records no markup; otherwise, with no `.answer_text` element there is no candidate and no markup, and with one the outcome is `AnswerTextProbe` of it; any markup recorded is non-empty |
| QuizExtractor.AnswerTextProbe | CanvasQuizReplay.js:61-72 | the `.answer_text` fallback: a non-blank text is the candidate, blank text gives the trimmed tag-stripped markup, and the markup is recorded exactly when it is not blank |
| QuizExtractor.ProbeAnswerText | CanvasQuizReplay.js:61-72 | the fallback's locals, assigned step by step, end as `AnswerTextProbe` |
| QuizExtractor.ProbeShortAnswer | CanvasQuizReplay.js:51-76 | the step-by-step probe ends with the candidate and markup of `ShortAnswerProbe` |
| Markup.StripTags | CanvasQuizReplay.js:67 | stripping tags never lengthens the markup and keeps only characters of the input |
| Markup.StripTagsPlainText | CanvasQuizReplay.js:67 | text without `<` is unchanged |
| Markup.StripTagsRemovesAllTags | CanvasQuizReplay.js:67 | the stripped text contains no `<...>` tag |
| Markup.NoTagInSlice | CanvasQuizReplay.js:67 | a piece cut out of tag-free text is tag-free |
| QuizProperties.TrimOfTagFree | CanvasQuizReplay.js:67 | trimming tag-free text keeps it tag-free |
| QuizProperties.StrippedCandidateHasNoTag | CanvasQuizReplay.js:64-68 | when the `.answer_text` element has markup but no text, the candidate is its trimmed tag-stripped markup and contains no tag |
| QuizExtractor.AnswerHtmlFallback | CanvasQuizReplay.js:81-84 | null exactly when no option shows markup or text; otherwise the non-empty markup, or lacking markup the text, of the first option that shows something |
| JsText.Find | CanvasQuizReplay.js:82 | `answers.find(p)` yields the first element satisfying p, and none exactly when no element does; used with `QuizExtractor.ShowsSomething` (non-blank markup or text) |
| QuizExtractor.ShowsSomething | CanvasQuizReplay.js:82 | the definition of the `find` predicate: non-blank markup or non-blank text; its use is stated by `AnswerHtmlFallback` and `QuizProperties.ShortAnswerMarkup` |
| QuizExtractor.NumericExpectation | CanvasQuizReplay.js:88-114 | exact beats equation beats range; a tolerance only in the exact branch, and there exactly the parsed margin; with neither exact nor equation, a range is recorded exactly when a bound parses, with each unparsed bound null, and then no expected value or tolerance |
| QuizExtractor.MarginText | CanvasQuizReplay.js:90-91 | the error-margin text when it is non-empty, else the tolerance text when it is non-empty, else empty |
| QuizExtractor.ParseBound | CanvasQuizReplay.js:106-107 | the definition of a range bound: `parseFloat` of the text when the text is non-empty, else NaN; its use is stated by `NumericExpectation` and `RangeExcludesExpected` |
| QuizExtractor.ExtractNumeric | CanvasQuizReplay.js:88-114 | the numeric chain's locals, assigned step by step, end as `NumericExpectation` |
| QuizExtractor.ExpectationOf | CanvasQuizReplay.js:42-118 | a non-empty short-answer candidate is the expected value with no tolerance or range, and its markup is the probe's markup or else the first showing option's; otherwise the numeric fields decide and the probe's markup is kept |
| QuizExtractor.ExtractExpected | CanvasQuizReplay.js:41-118 | the locals assigned step by step end as `ExpectationOf` |
| QuizProperties.ShortAnswerPrecedence | CanvasQuizReplay.js:78-88 | a short-answer candidate overrides every numeric field of the record |
| QuizProperties.NumericPriority | CanvasQuizReplay.js:96-114 | without a candidate: exact, then equation, then a range, recorded exactly when one of its bounds parses |
| QuizProperties.ShortAnswerMarkup | CanvasQuizReplay.js:78-85 | with a candidate, the record's markup is the probe's markup; when the probe recorded none, it is `AnswerHtmlFallback` of the options: set exactly when some option shows markup or text, and then the markup (or, lacking markup, the text) of the first such option |
| QuizProperties.ToleranceOnlyFromExactMargin | CanvasQuizReplay.js:96-101 | a recorded tolerance means no candidate, a non-empty exact field, and a margin that parsed to it |
| QuizProperties.RangeExcludesExpected | CanvasQuizReplay.js:104-113 | a recorded range has at least one parsed bound, an unparsed bound is null, and there is no expected value or tolerance |
| QuizProperties.ExactZeroIsKept | CanvasQuizReplay.js:96-97 | an exact answer `0` is kept as the expected value |
| QuizExtractor.FinalType | CanvasQuizReplay.js:124-135 | the normalised type is one of five values; input-style questions get `numerical` or `text`; otherwise `true_false_question` gives `true_false`, then a raw type containing `numerical` gives `numerical`, then one containing `short_answer` gives `short_answer`, else `multiple_choice`; and each type is given only under its condition |
| QuizExtractor.NoOptionText | CanvasQuizReplay.js:125 | the definition of "no options, or every option has empty text"; its use is stated by `FinalType` and `QuizProperties.InputStyleType` |
| QuizProperties.InputStyleType | CanvasQuizReplay.js:125-126 | a record without option text and with an expected value is `numerical` when its raw type mentions numerical, else `text` |
| QuizProperties.EssayAndUnknownAreMultipleChoice | CanvasQuizReplay.js:124-135 | `essay_question` and `unknown` become `multiple_choice` unless the question is input-style |
| JsText.DecimalRoundTrip | CanvasQuizReplay.js:11 | reading back the decimal digits of n gives n |
| JsText.Decimal | CanvasQuizReplay.js:11 | the rendering of `index+1` is non-empty, all digits, and starts with `0` only for 0 (no leading zero) |
| JsText.MapWithIndexAt | CanvasQuizReplay.js:6 | mapping with the index keeps the length and applies the callback to each element and its position |
| JsText.MapWithIndex | CanvasQuizReplay.js:6 | the definition of `xs.map((x, index) => f(x, index))`; its meaning is stated by `MapWithIndexAt` |

## Left out

- The `try`/`catch` around the whole pass (lines 4 and 169-172) and the one around the short-answer probe (lines 52 and 74-76). Reading the modelled observations cannot throw.
- Console logging (lines 1, 115, 117 and 150).
- Sending the records to the background page and storing them (lines 150-166). This is messaging and browser storage.
- `replay.js` (rendering and grading) and `background.js` (message relay and storage) are not part of this model.
- CSS selector matching is not modelled. Each selector's match is an input observation, so which node `querySelector` finds is the page's business.
- How the browser computes `innerText` and `textContent` from the node tree is not modelled. `innerText` is a given optional string (absent on nodes that lack it), and `textContent` is a given string.
- `parseFloat` is a parameter. Its numerics and floating-point values are not modelled (`Num` holds a real or an infinity).
- ClassTokens.ClassList: the browser's `DOMTokenList` is modelled as the class attribute split on ASCII white space with duplicates removed. Other token-list details are not modelled.
