# Student Bonding page logic, modelled in Dafny

`script.js` of the Student Bonding site is mostly DOM glue. This project models
the parts of it that decide something and proves what the site promises about
them:

- **Purity-score calculator** (module `PurityTest`, `purity_test.dfy`). The
  checkboxes of the Rice Purity Test form each carry an optional `data-weight`.
  The score is `max(0, 100 - sum of effective weights of the checked boxes)`,
  where the effective weight is `parseInt(weight) || 5`. The score maps to one
  of four interpretation texts and is embedded in a share sentence as
  `<score>/100`. The reset unchecks every box in place. The form is a class
  with a checkbox `array<bool>`; the score is computed by a loop proved
  equal to the function `Score`.
- **Contact-form validator** (module `ContactForm`, `contact_form.dfy`). It
  checks four fields (name, email, subject, message). Each check gives at most
  one error message. The email pattern `^[^\s@]+@[^\s@]+\.[^\s@]+$` is stated
  twice, once as a direct shape predicate and once as a split into three runs,
  and the two are proved equal. The class `ErrorSlots` holds the four error
  elements. Its `Validate` runs every check and writes the error slots, as the
  script does.
- **Navigation rules** (module `Navigation`, `navigation.dfy`):
  - The focus trap of the mobile menu: Tab on the last element goes to the
    first, and Shift+Tab on the first goes to the last.
  - The header shrinks once the page is scrolled more than 100 pixels.
- **Text support** (module `Text`, `text.dfy`):
  - ECMAScript white space, `String.prototype.trim`, and `length` counted in
    UTF-16 code units.
  - Decimal rendering of a score.
- `Wrappers` (`wrappers.dfy`) holds the `Option` type.

Strings are sequences of Unicode scalar values. A character outside the Basic
Multilingual Plane counts as two code units of `length`, as in JavaScript.
One white-space predicate serves both `trim` and the regular-expression
class `\s`. The two use the same set in ECMAScript: WhiteSpace plus
LineTerminator.

Two behaviours of `script.js` the model keeps exactly:

- **Weights.** The code accepts any integer weight and replaces a parsed 0
  by 5, as it does NaN (`|| 5`, script.js:143). A negative weight can lift
  the score above 100, which it does when the effective weights of the
  checked boxes sum to less than 0 (`PurityTest.NegativeWeightExceedsFull`).
  The 0..100 bound holds for non-negative weights (`PurityTest.ScoreInRange`).
- **Email.** The emptiness test trims the email (script.js:258); the pattern
  test does not (script.js:261). So a white-space-only email gets "Email is
  required", and a valid address behind a leading space gets "Please enter a
  valid email address".

## Model

| member | source | states |
|---|---|---|
| PurityTest.EffectiveWeight | script.js:143 | the parsed weight, or 5 when it is NaN or 0; the contract states the effective weight is never 0, and is positive unless the parsed weight is negative (the default 5 itself is stated by `ZeroOrMissingWeightDeductsDefault`) |
| PurityTest.Deduction | script.js:140-145 | computes `totalDeduction`: the sum of the effective weights of the checked boxes, in document order |
| PurityTest.Score | script.js:147 | computes `Math.max(0, 100 - totalDeduction)`; its properties are the lemmas below |
| PurityTest.PurityForm.ComputeScore | script.js:139-147 | the loop over the checkbox array returns exactly `Score`: `max(0, 100 - sum of effective weights of the checked boxes)` |
| PurityTest.NothingCheckedScoresFull | script.js:140-147 | with no box checked the score is 100 |
| PurityTest.NothingCheckedIsHighPurity | script.js:195-196 | with no box checked the interpretation is the high-purity text |
| PurityTest.DeductionCoversEachCheckedBox | script.js:142-145 | with non-negative weights the deduction is non-negative and at least the weight of every checked box |
| PurityTest.ScoreInRange | script.js:147 | with non-negative weights the score lies in 0..100 |
| PurityTest.CheckedBoxLowersScore | script.js:143-147 | with non-negative weights any checked box brings the score below 100 |
| PurityTest.ScoreMonotone | script.js:142-147 | with non-negative weights, checking more boxes never lowers the deduction nor raises the score |
| PurityTest.NegativeWeightExceedsFull | script.js:143-147 | a single checked box of weight -10 scores 110: the top is not clamped |
| PurityTest.ZeroOrMissingWeightDeductsDefault | script.js:143 | a weight of 0 and a missing weight each deduct 5 |
| PurityTest.TierOf | script.js:194-204 | scores at or above 80, in [50,80), in [20,50) and below 20 fall in the four tiers, each exactly when in its interval |
| PurityTest.TierMonotone | script.js:194-204 | a higher score never falls in a less pure tier |
| PurityTest.Interpretation | script.js:194-204 | `getScoreInterpretation`: the text of the score's tier, each text the source's own literal |
| PurityTest.InterpretationTellsTier | script.js:194-204 | two scores get the same interpretation text exactly when they fall in the same tier |
| PurityTest.ShareText | script.js:184 | the share sentence: "I scored ", the score's decimal digits, then "/100 on the Rice Purity Test! ..." |
| PurityTest.ReadAfterPrefix | script.js:184 | digits right after "I scored " and before a non-digit are read back as their value |
| PurityTest.ShareTextRoundTrip | script.js:184 | the score can be read back exactly out of the share sentence |
| PurityTest.ShareTextShowsOutOf | script.js:184 | right after "I scored " the sentence reads the score's digits followed by "/100" |
| PurityTest.PurityForm.DisplayResults | script.js:176-191 | the interpretation and share texts are written for the score and the results region is shown |
| PurityTest.PurityForm.Calculate | script.js:138-149 | the checkbox states are unchanged, the score is `Score` of them, and the results show that score |
| PurityTest.PurityForm.Reset | script.js:206-214 | every box is unchecked in place, the results region is hidden, the written texts stay, and the form now scores 100 |
| PurityTest.WorkedExample | script.js:138-149 | boxes weighted 10, 15 and 5 score 70, the moderate tier, and the share sentence reads "70/100" |
| ContactForm.EmailShape | script.js:257 | the accepted address shape stated directly: no white space, exactly one '@' not at the start, and after it a domain with a '.' that is neither its first nor its last character |
| ContactForm.MatchesEmailPattern | script.js:257 | what the regular expression accepts, read off the pattern: three non-empty `[^\s@]` runs joined by '@' and '.' |
| ContactForm.ShapeMatchesPattern | script.js:257 | an address of the direct shape splits into the three runs of the pattern |
| ContactForm.PatternHasShape | script.js:257 | a string matching the pattern has the direct shape: no white space, one '@', an inner '.' in the domain |
| ContactForm.EmailShapeIsPattern | script.js:257 | the direct shape and the pattern accept exactly the same strings |
| ContactForm.NameError | script.js:251-254 | "Name is required" when the trimmed name is empty, otherwise no error |
| ContactForm.EmailError | script.js:258-264 | "Email is required" when the trimmed email is empty, else the invalid-address message when the untrimmed value fails the pattern, otherwise no error |
| ContactForm.SubjectError | script.js:267-270 | "Please select a subject" when the untrimmed subject is empty, otherwise no error |
| ContactForm.MessageError | script.js:273-279 | "Message is required" when the trimmed message is empty, else the length message when its trimmed `length` is below 10, otherwise no error |
| ContactForm.Check | script.js:245-281 | all four field checks, each run on its own field, collected into one report |
| ContactForm.MessagesAreFailedChecks | script.js:245-281 | the filled error slots are exactly the failed checks, each with its own message, and the form passes exactly when none is filled |
| ContactForm.ChecksAreIndependent | script.js:250-279 | each field's verdict depends on that field's value alone: no check is skipped because of another |
| ContactForm.ValidIffAllChecksPass | script.js:245-281 | the form is valid exactly when the name is not blank, the email matches the pattern, a subject is selected and the trimmed message has length of at least 10 |
| ContactForm.NameRule | script.js:251-254 | the name fails exactly when it is white space only, and then with "Name is required" |
| ContactForm.EmailRequiredRule | script.js:258-260 | the email gets "Email is required" exactly when it is white space only |
| ContactForm.EmailAccepted | script.js:257-264 | the email passes exactly when the untrimmed value matches the pattern; a non-blank non-matching one gets the invalid-address message |
| ContactForm.LeadingSpaceEmailRejected | script.js:258-263 | a valid address behind a leading space passes the emptiness test but is rejected as invalid |
| ContactForm.SubjectRule | script.js:267-270 | the subject fails exactly when it is empty (it is not trimmed), and then with "Please select a subject" |
| ContactForm.MessageRequiredRule | script.js:273-275 | the message gets "Message is required" exactly when it is white space only |
| ContactForm.MessageAccepted | script.js:273-279 | the message passes exactly when its trimmed length is at least 10; a non-blank shorter one gets the length message |
| ContactForm.MessageLengthBoundary | script.js:276-278 | a trimmed length of 9 gives the length error, and a trimmed length of 10 passes |
| ContactForm.NameDependsOnTrim | script.js:251 | two names with the same trimmed value get the same verdict |
| ContactForm.MessageDependsOnTrim | script.js:273-276 | two messages with the same trimmed value get the same verdict |
| ContactForm.PaddingIsIgnored | script.js:251-276 | white space around a name or message never changes its verdict |
| ContactForm.LongPlainMessageAccepted | script.js:276 | a trimmed text of at least 10 Basic Multilingual Plane characters is a long enough message |
| ContactForm.AstralMessageAccepted | script.js:276 | five or more characters outside the Basic Multilingual Plane are long enough, since each counts twice |
| ContactForm.EmptyFormFailsEverywhere | script.js:245-281 | the empty form gets the four required-field messages at once |
| ContactForm.ExampleNamePasses | script.js:251 | "Jo" is an acceptable name |
| ContactForm.ExampleEmailPasses | script.js:257-264 | "jo@x.com" is an acceptable email |
| ContactForm.ExampleMessagePasses | script.js:273-279 | "Hello there!" is an acceptable message |
| ContactForm.WellFormedSubmissionIsValid | script.js:245-281 | a complete, well-formed submission passes every check |
| ContactForm.ErrorSlots.ClearErrors | script.js:292-297 | every error slot is hidden and keeps its text |
| ContactForm.ErrorSlots.ShowError | script.js:284-290 | exactly the one named slot gets the message and is shown |
| ContactForm.ErrorSlots.CheckName | script.js:250-254 | reports success exactly when the name check passes, fills the name slot on failure, leaves the other slots |
| ContactForm.ErrorSlots.CheckEmail | script.js:256-264 | reports success exactly when the email check passes, fills the email slot on failure, leaves the other slots |
| ContactForm.ErrorSlots.CheckSubject | script.js:266-270 | reports success exactly when the subject check passes, fills the subject slot on failure, leaves the other slots |
| ContactForm.ErrorSlots.CheckMessage | script.js:272-279 | reports success exactly when the message check passes, fills the message slot on failure, leaves the other slots |
| ContactForm.ErrorSlots.Validate | script.js:239-282 | returns true exactly when all four checks pass; each slot ends filled and shown with its failed check's message, or hidden with its old text; the shown slots are exactly the keys of `Check(v).Messages()`, each holding its message |
| Navigation.TrapRedirect | script.js:86-100 | a redirect only happens for Tab with focus on a menu element, and always lands inside the menu |
| Navigation.TabOnLastGoesToFirst | script.js:93-97 | Tab on the last element moves focus to the first |
| Navigation.ShiftTabOnFirstGoesToLast | script.js:88-92 | Shift+Tab on the first element moves focus to the last |
| Navigation.NoRedirectElsewhere | script.js:86-100 | there is a redirect exactly for those two cases; every other key and position is left to the browser |
| Navigation.DefaultStep | script.js:86-100 | the browser's own Tab step that the handler leaves alone: the next element, or with Shift the previous one (an assumption about the browser, not script code) |
| Navigation.RedirectExactlyAtTheEdge | script.js:86-100 | the trap steps in exactly when the browser's own step would leave the menu, and sends focus to the other end |
| Navigation.FocusAfterTab | script.js:86-100 | one Tab or Shift+Tab press keeps focus inside the menu |
| Navigation.TabPresses | script.js:86-100 | any number of presses keeps focus inside the menu |
| Navigation.TabPressesCompose | script.js:86-100 | pressing a times and then b times is the same as pressing a + b times |
| Navigation.TabWalksForward | script.js:93-97 | before the last element, each Tab moves one element forward |
| Navigation.ShiftTabWalksBack | script.js:88-92 | after the first element, each Shift+Tab moves one element back |
| Navigation.TabCyclesThroughMenu | script.js:93-97 | as many Tab presses as there are elements bring focus back to where it started |
| Navigation.ShiftTabCyclesThroughMenu | script.js:88-92 | as many Shift+Tab presses as there are elements bring focus back to where it started |
| Navigation.AfterListeners | script.js:21-24 | focus after that many copies of the keydown handler of lines 86-100 have run in turn on one key press |
| Navigation.RedirectIsStable | script.js:86-100 | after a redirect, running the handler again for the same key moves focus nowhere new |
| Navigation.AfterStableFocus | script.js:86-100 | when the handler would leave the focus alone, any number of handlers leave it alone |
| Navigation.StackedListenersActAsOne | script.js:21-24 | however many handlers repeated menu openings have attached, a key press moves focus as one handler would |
| Navigation.ShouldShrink | script.js:54 | the listener's test: the offset is strictly above 100 |
| Navigation.ShrunkAfter | script.js:51-58 | whether the header carries `shrink` after the listener has run once per offset, in order |
| Navigation.ShrunkFollowsLastOffset | script.js:51-58 | after any run of scroll events the header is shrunk exactly when the last offset is above 100 |
| Navigation.ShrinkBoundary | script.js:54 | an offset of exactly 100 keeps the full header, 100.5 shrinks it, and shrinking is monotone in the offset |
| Text.IsWhitespace | script.js:251-261 | the ECMAScript WhiteSpace and LineTerminator characters, the one set both `trim` and `\s` use |
| Text.Trim | script.js:251 | the result is trimmed: empty, or starting and ending with a visible character |
| Text.TrimIsInfix | script.js:251 | the result is a slice of the input with only white space cut from the two ends |
| Text.TrimOfPadded | script.js:251 | any white space around a trimmed core is removed exactly, leaving that core |
| Text.TrimOfTrimmed | script.js:251 | trimming an already trimmed string changes nothing |
| Text.TrimOfNoWhitespace | script.js:251 | trimming a string without white space changes nothing |
| Text.BlankIffAllWhitespace | script.js:251 | a string trims to empty exactly when all of it is white space |
| Text.NotBlankWhenVisible | script.js:258 | one visible character keeps a string from trimming to empty |
| Text.Utf16Length | script.js:276 | `length` lies between the character count and twice it |
| Text.Utf16LengthOfBasicPlane | script.js:276 | for Basic Multilingual Plane text, `length` is the character count |
| Text.Utf16LengthOfAstral | script.js:276 | for text of characters outside the Basic Multilingual Plane, `length` is twice the character count |
| Text.AstralHasNoWhitespace | script.js:257 | no white-space character lies outside the Basic Multilingual Plane |
| Text.Decimal | script.js:184 | the rendering is a non-empty run of digits without a leading zero, except for 0 itself |
| Text.DecimalRoundTrip | script.js:184 | reading the digits back gives the number rendered |
| Text.LeadingDigits | script.js:184 | the result is the longest run of digits at the front of the string |
| Text.LeadingDigitsOf | script.js:184 | digits followed by a non-digit are read back as exactly those digits |

## Left out

- `parseInt` itself: a weight reaches the model already parsed, `Some(w)` for an integer result and `None` for NaN. Leading-digit parsing, signs and radix prefixes are not modelled, and `-0` counts as the integer 0.
- JavaScript numbers are IEEE doubles; the model uses unbounded integers, so huge weight sums and the exponent notation of very large scores are not modelled.
- The score count-up animation, the 500 ms progress-bar timer, and the smooth `scrollIntoView` calls of the results and the reset: these are timers, floating point and browser effects.
- Missing page elements: the script's guards that return when an element is absent (no score display, no result region, no error element) are not modelled; all elements are taken to exist.
- `Navigation.TrapRedirect`: the element list itself is not modelled. That covers the `querySelectorAll` selector and what counts as focusable, and it includes `firstElement.focus()` on opening. With no focusable element that call throws a TypeError after the handler is attached; this is not modelled.
- `Navigation.FocusAfterTab`: the browser's own Tab step is taken to move to the next or previous focusable element of the menu in list order. That step is browser behaviour, not part of the script.
- The header offset is a `real` (`window.pageYOffset` may be fractional). `lastScroll` is written on every scroll event and never read, so it is not modelled.
- Strings are sequences of Unicode scalar values: lone surrogate code units, which a JavaScript string may hold, are not modelled.
- Scroll reveal through IntersectionObserver, smooth scrolling of anchor links, clipboard copying and its fallback, the feedback-notice timers, opening and closing the modal and the mobile menu, `form.reset()`, the Escape key and Alt+M shortcut, feature detection and the injected CSS keyframes: these are browser effects with no decision to model.
