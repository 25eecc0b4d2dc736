/**
  The contact-form validator of `initializeContactForm`: four field values in,
  at most one error message per field out, and the form is valid exactly when
  no field check failed. All four checks run on every submission.
*/
module ContactForm {
  import opened Wrappers
  import Text

  datatype Field = Name | Email | Subject | Message

  /** Current values of the four form controls; `subject` is the value of
      the selected option, the empty string for the placeholder. */
  datatype FormValues = FormValues(name: string, email: string, subject: string, message: string)

  const NameRequired: string := "Name is required"
  const EmailRequired: string := "Email is required"
  const EmailInvalid: string := "Please enter a valid email address"
  const SubjectRequired: string := "Please select a subject"
  const MessageRequired: string := "Message is required"
  const MessageTooShort: string := "Message must be at least 10 characters long"

  /** Minimum trimmed message `length`, counted in UTF-16 code units. */
  const MinMessageLength: nat := 10

  /** A character of the class `[^\s@]`. */
  predicate PlainChar(c: char) {
    !Text.IsWhitespace(c) && c != '@'
  }

  predicate PlainRun(s: string) {
    forall k :: 0 <= k < |s| ==> PlainChar(s[k])
  }

  /** The only '@' of `s` is at index `i`. */
  predicate OnlyAtSignAt(s: string, i: int) {
    forall p :: 0 <= p < |s| && s[p] == '@' ==> p == i
  }

  /** A '.' that is neither the first nor the last character. */
  predicate HasInnerDot(d: string) {
    exists k :: 0 < k < |d| - 1 && d[k] == '.'
  }

  /** The accepted address shape, stated directly: no white space, exactly
      one '@', a non-empty part before it, and after it a domain holding a
      '.' that is neither its first nor its last character. */
  predicate EmailShape(s: string) {
    && Text.NoWhitespace(s)
    && exists i :: 0 < i < |s| && s[i] == '@' && OnlyAtSignAt(s, i) && HasInnerDot(s[i + 1..])
  }

  /** What `/^[^\s@]+@[^\s@]+\.[^\s@]+$/` accepts, read off the pattern:
      a split of the whole string into three non-empty `[^\s@]` runs
      separated by '@' and by '.'. */
  ghost predicate MatchesEmailPattern(s: string) {
    exists i, j :: && 0 < i && i + 1 < j && j + 1 < |s|
                   && s[i] == '@' && s[j] == '.'
                   && PlainRun(s[..i]) && PlainRun(s[i + 1..j]) && PlainRun(s[j + 1..])
  }

  /** A stretch of a white-space-free string that avoids the one '@' is a
      `[^\s@]` run. */
  lemma PlainSlice(s: string, i: int, lo: int, hi: int)
    requires Text.NoWhitespace(s) && OnlyAtSignAt(s, i)
    requires 0 <= lo <= hi <= |s| && (i < lo || hi <= i)
    ensures PlainRun(s[lo..hi])
  {
    forall k | 0 <= k < hi - lo ensures PlainChar(s[lo..hi][k]) {
      assert s[lo..hi][k] == s[lo + k];
    }
  }

  /** Splitting at the one '@' and an inner '.' of the domain gives the
      three runs of the pattern. */
  lemma MatchFromSplit(s: string, i: int, j: int)
    requires Text.NoWhitespace(s) && OnlyAtSignAt(s, i)
    requires 0 < i && i + 1 < j && j + 1 < |s| && s[i] == '@' && s[j] == '.'
    ensures MatchesEmailPattern(s)
  {
    PlainSlice(s, i, 0, i);
    PlainSlice(s, i, i + 1, j);
    PlainSlice(s, i, j + 1, |s|);
    assert s[..i] == s[0..i];
    assert s[j + 1..] == s[j + 1..|s|];
  }

  lemma ShapeMatchesPattern(s: string)
    requires EmailShape(s)
    ensures MatchesEmailPattern(s)
  {
    var i :| 0 < i < |s| && s[i] == '@' && OnlyAtSignAt(s, i) && HasInnerDot(s[i + 1..]);
    var d := s[i + 1..];
    var k :| 0 < k < |d| - 1 && d[k] == '.';
    assert s[i + 1 + k] == d[k];
    MatchFromSplit(s, i, i + 1 + k);
  }

  lemma PatternHasShape(s: string)
    requires MatchesEmailPattern(s)
    ensures EmailShape(s)
  {
    var i, j :| && 0 < i && i + 1 < j && j + 1 < |s|
                && s[i] == '@' && s[j] == '.'
                && PlainRun(s[..i]) && PlainRun(s[i + 1..j]) && PlainRun(s[j + 1..]);
    forall p | 0 <= p < |s| && p != i && p != j ensures PlainChar(s[p]) {
      if p < i { assert s[p] == s[..i][p]; }
      else if p < j { assert s[p] == s[i + 1..j][p - i - 1]; }
      else { assert s[p] == s[j + 1..][p - j - 1]; }
    }
    var d := s[i + 1..];
    assert d[j - i - 1] == '.';
    assert HasInnerDot(d);
    assert OnlyAtSignAt(s, i);
  }

  /** The direct statement of the shape and the pattern accept the same strings. */
  lemma EmailShapeIsPattern(s: string)
    ensures EmailShape(s) <==> MatchesEmailPattern(s)
  {
    if EmailShape(s) { ShapeMatchesPattern(s); }
    if MatchesEmailPattern(s) { PatternHasShape(s); }
  }

  function NameError(name: string): Option<string> {
    if Text.IsBlank(name) then Some(NameRequired) else None
  }

  /** The emptiness test trims the value; the pattern is tested on the
      value as typed. */
  function EmailError(email: string): Option<string> {
    if Text.IsBlank(email) then Some(EmailRequired)
    else if !EmailShape(email) then Some(EmailInvalid)
    else None
  }

  /** The subject is not trimmed: only the empty value fails. */
  function SubjectError(subject: string): Option<string> {
    if subject == [] then Some(SubjectRequired) else None
  }

  function MessageError(message: string): Option<string> {
    if Text.IsBlank(message) then Some(MessageRequired)
    else if Text.Utf16Length(Text.Trim(message)) < MinMessageLength then Some(MessageTooShort)
    else None
  }

  function FieldValue(v: FormValues, f: Field): string {
    match f
    case Name => v.name
    case Email => v.email
    case Subject => v.subject
    case Message => v.message
  }

  /** The check applied to the field `f`, given that field's value alone. */
  function FieldCheck(f: Field, value: string): Option<string> {
    match f
    case Name => NameError(value)
    case Email => EmailError(value)
    case Subject => SubjectError(value)
    case Message => MessageError(value)
  }

  /** The slot of field `f`: filled with the message when its check failed. */
  function Slot(f: Field, e: Option<string>): map<Field, string> {
    if e.Some? then map[f := e.value] else map[]
  }

  /** The outcome of one validation: at most one message per field. */
  datatype Report = Report(name: Option<string>, email: Option<string>, subject: Option<string>, message: Option<string>) {

    function Get(f: Field): Option<string> {
      match f
      case Name => name
      case Email => email
      case Subject => subject
      case Message => message
    }

    /** `isValid` at the end of `validateContactForm`. */
    predicate Passed() {
      name.None? && email.None? && subject.None? && message.None?
    }

    /** The filled error slots, keyed by field. */
    function Messages(): map<Field, string> {
      Slot(Name, name) + Slot(Email, email) + Slot(Subject, subject) + Slot(Message, message)
    }
  }

  /** The filled slots are exactly the failed checks, and the report passes
      exactly when no slot is filled. */
  lemma MessagesAreFailedChecks(r: Report)
    ensures forall f :: f in r.Messages() <==> r.Get(f).Some?
    ensures forall f :: f in r.Messages() ==> r.Messages()[f] == r.Get(f).value
    ensures r.Passed() <==> r.Messages() == map[]
  {
    forall f ensures (f in r.Messages() <==> r.Get(f).Some?) && (f in r.Messages() ==> r.Messages()[f] == r.Get(f).value) {
      match f
      case Name =>
      case Email =>
      case Subject =>
      case Message =>
    }
    if !r.Passed() {
      if r.name.Some? { assert Name in r.Messages(); }
      else if r.email.Some? { assert Email in r.Messages(); }
      else if r.subject.Some? { assert Subject in r.Messages(); }
      else { assert Message in r.Messages(); }
    }
  }

  /** `validateContactForm`'s four checks, all of them run. */
  function Check(v: FormValues): Report {
    Report(NameError(v.name), EmailError(v.email), SubjectError(v.subject), MessageError(v.message))
  }

  /** No short-circuit: the verdict on a field depends on that field's value
      alone, whatever the other fields hold. */
  lemma ChecksAreIndependent(v: FormValues, w: FormValues, f: Field)
    requires FieldValue(v, f) == FieldValue(w, f)
    ensures Check(v).Get(f) == Check(w).Get(f) == FieldCheck(f, FieldValue(v, f))
  {
  }

  /** The form is valid exactly when every one of the four checks passes. */
  lemma ValidIffAllChecksPass(v: FormValues)
    ensures Check(v).Passed() <==>
              && !Text.AllWhitespace(v.name)
              && MatchesEmailPattern(v.email)
              && v.subject != []
              && Text.Utf16Length(Text.Trim(v.message)) >= MinMessageLength
  {
    NameRule(v.name);
    EmailAccepted(v.email);
    MessageAccepted(v.message);
  }

  /** The name fails, with "Name is required", exactly when it is white space only (or empty). */
  lemma NameRule(name: string)
    ensures NameError(name).Some? <==> Text.AllWhitespace(name)
    ensures NameError(name).Some? ==> NameError(name) == Some(NameRequired)
  {
    Text.BlankIffAllWhitespace(name);
  }

  /** Email: a white-space-only value gives "Email is required". */
  lemma EmailRequiredRule(email: string)
    ensures EmailError(email) == Some(EmailRequired) <==> Text.AllWhitespace(email)
  {
    Text.BlankIffAllWhitespace(email);
    assert EmailRequired != EmailInvalid by { assert EmailRequired[0] != EmailInvalid[0]; }
  }

  /** Email: any other value, taken as typed, is accepted exactly when it
      matches the pattern, and rejected as invalid otherwise. */
  lemma EmailAccepted(email: string)
    ensures EmailError(email).None? <==> MatchesEmailPattern(email)
    ensures !Text.AllWhitespace(email) && !MatchesEmailPattern(email) ==> EmailError(email) == Some(EmailInvalid)
  {
    Text.BlankIffAllWhitespace(email);
    EmailShapeIsPattern(email);
    if EmailShape(email) {
      var i :| 0 < i < |email| && email[i] == '@' && OnlyAtSignAt(email, i) && HasInnerDot(email[i + 1..]);
      Text.NotBlankWhenVisible(email, i);
    }
  }

  /** A well-formed address behind a leading space: the emptiness test trims
      it and passes, the pattern sees the space and fails. */
  lemma LeadingSpaceEmailRejected(address: string)
    requires MatchesEmailPattern(address)
    ensures EmailError(" " + address) == Some(EmailInvalid)
  {
    var email := " " + address;
    assert email[0] == ' ';
    EmailShapeIsPattern(address);
    var i :| 0 < i < |address| && address[i] == '@' && OnlyAtSignAt(address, i) && HasInnerDot(address[i + 1..]);
    assert email[i + 1] == '@';
    Text.NotBlankWhenVisible(email, i + 1);
    assert !EmailShape(email);
  }

  /** The subject fails, with "Please select a subject", exactly when no option is selected. */
  lemma SubjectRule(subject: string)
    ensures SubjectError(subject).Some? <==> subject == []
    ensures SubjectError(subject).Some? ==> SubjectError(subject) == Some(SubjectRequired)
  {
  }

  /** Message: a white-space-only value gives "Message is required". */
  lemma MessageRequiredRule(message: string)
    ensures MessageError(message) == Some(MessageRequired) <==> Text.AllWhitespace(message)
  {
    Text.BlankIffAllWhitespace(message);
    assert MessageRequired != MessageTooShort by { assert MessageRequired[8] != MessageTooShort[8]; }
  }

  /** Message: it passes exactly when its trimmed `length` is at least 10,
      and a non-blank shorter one gets the length error. */
  lemma MessageAccepted(message: string)
    ensures MessageError(message).None? <==> Text.Utf16Length(Text.Trim(message)) >= MinMessageLength
    ensures !Text.AllWhitespace(message) && Text.Utf16Length(Text.Trim(message)) < MinMessageLength ==>
              MessageError(message) == Some(MessageTooShort)
  {
    Text.BlankIffAllWhitespace(message);
  }

  /** The length boundary: 9 code units fail, 10 pass. */
  lemma MessageLengthBoundary(message: string)
    ensures Text.Utf16Length(Text.Trim(message)) == 9 ==> MessageError(message) == Some(MessageTooShort)
    ensures Text.Utf16Length(Text.Trim(message)) == 10 ==> MessageError(message).None?
  {
  }

  /** A name is judged on its trimmed value alone. */
  lemma NameDependsOnTrim(x: string, y: string)
    requires Text.Trim(x) == Text.Trim(y)
    ensures NameError(x) == NameError(y)
  {}

  /** A message is judged on its trimmed value alone. */
  lemma MessageDependsOnTrim(x: string, y: string)
    requires Text.Trim(x) == Text.Trim(y)
    ensures MessageError(x) == MessageError(y)
  {}

  /** White space around a value never changes the verdict on a name or a
      message. */
  lemma PaddingIsIgnored(a: string, core: string, b: string)
    requires Text.AllWhitespace(a) && Text.AllWhitespace(b) && Text.Trimmed(core)
    ensures NameError(a + core + b) == NameError(core)
    ensures MessageError(a + core + b) == MessageError(core)
  {
    Text.TrimOfPadded(a, core, b);
    Text.TrimOfTrimmed(core);
    NameDependsOnTrim(a + core + b, core);
    MessageDependsOnTrim(a + core + b, core);
  }

  /** A trimmed text of ten or more characters of the Basic Multilingual
      Plane is a long enough message. */
  lemma LongPlainMessageAccepted(message: string)
    requires Text.Trimmed(message) && Text.InBasicPlane(message) && |message| >= MinMessageLength
    ensures MessageError(message).None?
  {
    Text.TrimOfTrimmed(message);
    Text.Utf16LengthOfBasicPlane(message);
  }

  /** A character outside the Basic Multilingual Plane (an emoji, say)
      counts twice: five of them make a long enough message. */
  lemma AstralMessageAccepted(message: string)
    requires Text.AllAstral(message) && |message| >= 5
    ensures MessageError(message).None?
  {
    Text.AstralHasNoWhitespace(message);
    Text.TrimOfNoWhitespace(message);
    Text.Utf16LengthOfAstral(message);
  }

  /** An empty form gets all four errors at once. */
  lemma EmptyFormFailsEverywhere()
    ensures Check(FormValues("", "", "", "")) ==
              Report(Some(NameRequired), Some(EmailRequired), Some(SubjectRequired), Some(MessageRequired))
  {
  }

  lemma ExampleEmailPasses()
    ensures EmailError("jo@x.com").None?
  {
    var email := "jo@x.com";
    assert email[2] == '@' && OnlyAtSignAt(email, 2);
    assert email[3..][1] == '.';
    assert EmailShape(email);
    Text.NotBlankWhenVisible(email, 2);
  }

  lemma ExampleNamePasses()
    ensures NameError("Jo").None?
  {
    Text.TrimOfNoWhitespace("Jo");
  }

  lemma ExampleMessagePasses()
    ensures MessageError("Hello there!").None?
  {
    assert Text.Trimmed("Hello there!") && Text.InBasicPlane("Hello there!");
    LongPlainMessageAccepted("Hello there!");
  }

  /** A complete, well-formed submission passes every check. */
  lemma WellFormedSubmissionIsValid()
    ensures Check(FormValues("Jo", "jo@x.com", "general", "Hello there!")).Passed()
  {
    ExampleNamePasses();
    ExampleEmailPasses();
    ExampleMessagePasses();
  }

  /** One error element of the form: its text and whether it carries the `show` class. */
  datatype ErrorSlot = ErrorSlot(text: string, shown: bool)

  /** A slot after `clearErrors` and the check of its field: the failed
      check's message, shown; otherwise hidden, keeping the earlier text. */
  function AfterCheck(before: ErrorSlot, e: Option<string>): ErrorSlot {
    if e.Some? then ErrorSlot(e.value, true) else before.(shown := false)
  }

  /** A slot after `showError` was or was not called for it. */
  function Reported(before: ErrorSlot, e: Option<string>): ErrorSlot {
    if e.Some? then ErrorSlot(e.value, true) else before
  }

  /**
    The four error elements of the contact form (`name-error`,
    `email-error`, `subject-error`, `message-error`).
  */
  class ErrorSlots {
    var nameSlot: ErrorSlot
    var emailSlot: ErrorSlot
    var subjectSlot: ErrorSlot
    var messageSlot: ErrorSlot

    constructor ()
      ensures nameSlot == emailSlot == subjectSlot == messageSlot == ErrorSlot([], false)
    {
      nameSlot, emailSlot, subjectSlot, messageSlot := ErrorSlot([], false), ErrorSlot([], false), ErrorSlot([], false), ErrorSlot([], false);
    }

    /** The error element of field `f`. */
    function SlotOf(f: Field): ErrorSlot
      reads this
    {
      match f
      case Name => nameSlot
      case Email => emailSlot
      case Subject => subjectSlot
      case Message => messageSlot
    }

    /** `clearErrors`: hides every slot and keeps its text. */
    method ClearErrors()
      modifies this
      ensures nameSlot == old(nameSlot).(shown := false) && emailSlot == old(emailSlot).(shown := false)
      ensures subjectSlot == old(subjectSlot).(shown := false) && messageSlot == old(messageSlot).(shown := false)
    {
      nameSlot := nameSlot.(shown := false);
      emailSlot := emailSlot.(shown := false);
      subjectSlot := subjectSlot.(shown := false);
      messageSlot := messageSlot.(shown := false);
    }

    /** `showError`: writes the text of one slot and shows it. */
    method ShowError(f: Field, message: string)
      modifies this
      ensures nameSlot == if f == Name then ErrorSlot(message, true) else old(nameSlot)
      ensures emailSlot == if f == Email then ErrorSlot(message, true) else old(emailSlot)
      ensures subjectSlot == if f == Subject then ErrorSlot(message, true) else old(subjectSlot)
      ensures messageSlot == if f == Message then ErrorSlot(message, true) else old(messageSlot)
    {
      match f
      case Name => nameSlot := ErrorSlot(message, true);
      case Email => emailSlot := ErrorSlot(message, true);
      case Subject => subjectSlot := ErrorSlot(message, true);
      case Message => messageSlot := ErrorSlot(message, true);
    }

    /** The name block of `validateContactForm`. */
    method CheckName(name: string) returns (ok: bool)
      modifies this
      ensures ok <==> NameError(name).None?
      ensures nameSlot == Reported(old(nameSlot), NameError(name))
      ensures emailSlot == old(emailSlot) && subjectSlot == old(subjectSlot) && messageSlot == old(messageSlot)
    {
      ok := true;
      if Text.IsBlank(name) {
        ShowError(Name, NameRequired);
        ok := false;
      }
    }

    /** The email block: the emptiness test trims, the pattern does not. */
    method CheckEmail(email: string) returns (ok: bool)
      modifies this
      ensures ok <==> EmailError(email).None?
      ensures emailSlot == Reported(old(emailSlot), EmailError(email))
      ensures nameSlot == old(nameSlot) && subjectSlot == old(subjectSlot) && messageSlot == old(messageSlot)
    {
      ok := true;
      if Text.IsBlank(email) {
        ShowError(Email, EmailRequired);
        ok := false;
      } else if !EmailShape(email) {
        ShowError(Email, EmailInvalid);
        ok := false;
      }
    }

    /** The subject block. */
    method CheckSubject(subject: string) returns (ok: bool)
      modifies this
      ensures ok <==> SubjectError(subject).None?
      ensures subjectSlot == Reported(old(subjectSlot), SubjectError(subject))
      ensures nameSlot == old(nameSlot) && emailSlot == old(emailSlot) && messageSlot == old(messageSlot)
    {
      ok := true;
      if subject == [] {
        ShowError(Subject, SubjectRequired);
        ok := false;
      }
    }

    /** The message block: required first, then the trimmed length. */
    method CheckMessage(message: string) returns (ok: bool)
      modifies this
      ensures ok <==> MessageError(message).None?
      ensures messageSlot == Reported(old(messageSlot), MessageError(message))
      ensures nameSlot == old(nameSlot) && emailSlot == old(emailSlot) && subjectSlot == old(subjectSlot)
    {
      ok := true;
      if Text.IsBlank(message) {
        ShowError(Message, MessageRequired);
        ok := false;
      } else if Text.Utf16Length(Text.Trim(message)) < MinMessageLength {
        ShowError(Message, MessageTooShort);
        ok := false;
      }
    }

    /** `validateContactForm`: every check runs, each failing one fills and
        shows its slot, the others are hidden, and the result is true
        exactly when none failed. */
    method Validate(v: FormValues) returns (isValid: bool)
      modifies this
      ensures isValid <==> Check(v).Passed()
      ensures nameSlot == AfterCheck(old(nameSlot), Check(v).name)
      ensures emailSlot == AfterCheck(old(emailSlot), Check(v).email)
      ensures subjectSlot == AfterCheck(old(subjectSlot), Check(v).subject)
      ensures messageSlot == AfterCheck(old(messageSlot), Check(v).message)
      ensures forall f :: SlotOf(f).shown <==> f in Check(v).Messages()
      ensures forall f :: f in Check(v).Messages() ==> SlotOf(f).text == Check(v).Messages()[f]
    {
      ClearErrors();
      var nameOk := CheckName(v.name);
      var emailOk := CheckEmail(v.email);
      var subjectOk := CheckSubject(v.subject);
      var messageOk := CheckMessage(v.message);
      isValid := nameOk && emailOk && subjectOk && messageOk;
      MessagesAreFailedChecks(Check(v));
      forall f ensures SlotOf(f) == AfterCheck(old(SlotOf(f)), Check(v).Get(f)) {
        match f
        case Name =>
        case Email =>
        case Subject =>
        case Message =>
      }
    }
  }
}
