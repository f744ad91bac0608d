/** The contact form: four text fields, a validator that produces one error
    per failing field, and the component state driven by three events
    (a field edit, a submit, and the expiry of the success banner). */
module Contact {
  import opened JsString

  datatype Option<T> = None | Some(value: T)

  /** The four inputs of the form, by their `name` attribute. */
  datatype Field = Name | Phone | Email | Message

  const AllFields: set<Field> := {Name, Phone, Email, Message}

  datatype FormData = FormData(name: string, phone: string, email: string, message: string)
  {
    /** The value of one field. */
    function Get(f: Field): string {
      match f
      case Name => name
      case Phone => phone
      case Email => email
      case Message => message
    }

    /** The record with one field replaced, as `{ ...prev, [name]: value }`. */
    function With(f: Field, v: string): (d: FormData)
      ensures d.Get(f) == v
      ensures forall g :: g != f ==> d.Get(g) == Get(g)
    {
      match f
      case Name => this.(name := v)
      case Phone => this.(phone := v)
      case Email => this.(email := v)
      case Message => this.(message := v)
    }
  }

  const EmptyForm: FormData := FormData("", "", "", "")

  /** One constructor per message the form can show. */
  datatype Error =
    | NameMissing
    | PhoneMissing | PhoneInvalid
    | EmailMissing | EmailInvalid
    | MessageMissing | MessageTooShort
  {
    /** The field the message is shown under. */
    function Field(): Field {
      match this
      case NameMissing => Name
      case PhoneMissing | PhoneInvalid => Phone
      case EmailMissing | EmailInvalid => Email
      case MessageMissing | MessageTooShort => Message
    }

    /** The "missing" messages, as opposed to "invalid" and "too short". */
    predicate IsMissing() {
      NameMissing? || PhoneMissing? || EmailMissing? || MessageMissing?
    }

    /** The text shown to the user; never empty. */
    function Text(): (t: string)
      ensures t != []
    {
      match this
      case NameMissing => "נא להזין שם מלא"
      case PhoneMissing => "נא להזין מספר טלפון"
      case PhoneInvalid => "נא להזין מספר טלפון תקין"
      case EmailMissing => "נא להזין כתובת אימייל"
      case EmailInvalid => "נא להזין כתובת אימייל תקינה"
      case MessageMissing => "נא להזין הודעה"
      case MessageTooShort => "ההודעה קצרה מדי, אנא הרחב/י"
    }
  }

  /** No two errors share a text, so the message on screen tells which
      rule failed. */
  lemma TextsDistinct(a: Error, b: Error)
    requires a != b
    ensures a.Text() != b.Text()
  {
  }

  /** The error record: a field is a key exactly when it has an error. */
  type FormErrors = map<Field, Error>

  /** Every recorded error belongs to the field it is recorded under. */
  predicate WellFiled(e: FormErrors) {
    forall f :: f in e ==> e[f].Field() == f
  }

  // ----- the per-field rules -----

  /** `/^0[2-9]\d{7,8}$/`: a '0', a digit from 2 to 9, then seven or eight
      ASCII digits, and nothing else. */
  function PhoneMatches(s: string): (b: bool)
    ensures b ==> !Blank(s)
  {
    9 <= |s| <= 10 && s[0] == '0' && '2' <= s[1] <= '9' &&
    forall i :: 2 <= i < |s| ==> IsAsciiDigit(s[i])
  }

  /** `[^\s@]`: neither whitespace nor '@'. */
  predicate IsAddressChar(c: char) {
    !IsWhitespace(c) && c != '@'
  }

  predicate AllAddressChars(s: string) {
    forall i :: 0 <= i < |s| ==> IsAddressChar(s[i])
  }

  /** `s` splits as `local '@' domain '.' top` at the given positions, with
      each of the three parts non-empty and made of `[^\s@]`. */
  predicate EmailSplit(s: string, at: int, dot: int) {
    0 < at && at + 1 < dot < |s| - 1 && s[at] == '@' && s[dot] == '.' &&
    AllAddressChars(s[..at]) && AllAddressChars(s[at + 1..dot]) && AllAddressChars(s[dot + 1..])
  }

  /** `/^[^\s@]+@[^\s@]+\.[^\s@]+$/`: some choice of the '@' and of the '.'
      makes the pattern match (the regex engine backtracks over the '.'). */
  function EmailMatches(s: string): (b: bool)
    ensures b ==> 5 <= |s| && '@' in s && !Blank(s)
  {
    EmailMatchesSomething(s);
    exists at, dot {:trigger EmailSplit(s, at, dot)} | 0 <= at < |s| && 0 <= dot < |s| :: EmailSplit(s, at, dot)
  }

  lemma EmailMatchesSomething(s: string)
    ensures (exists at, dot {:trigger EmailSplit(s, at, dot)} | 0 <= at < |s| && 0 <= dot < |s| :: EmailSplit(s, at, dot))
      ==> 5 <= |s| && '@' in s && !Blank(s)
  {
    if exists at, dot {:trigger EmailSplit(s, at, dot)} | 0 <= at < |s| && 0 <= dot < |s| :: EmailSplit(s, at, dot) {
      var at, dot :| 0 <= at < |s| && 0 <= dot < |s| && EmailSplit(s, at, dot);
      assert s[0] == s[..at][0];
    }
  }

  /** The minimum untrimmed length of a message, in UTF-16 code units. */
  const MinMessageLength := 10

  /** The error a field's value gets, if any. A value that is empty after
      trimming gets the "missing" error before any format or length rule is
      looked at; the format rules test the untrimmed value. */
  function FieldError(f: Field, v: string): (r: Option<Error>)
    ensures r.Some? ==> r.value.Field() == f
  {
    match f
    case Name =>
      if Trim(v) == [] then Some(NameMissing) else None
    case Phone =>
      if Trim(v) == [] then Some(PhoneMissing)
      else if !PhoneMatches(v) then Some(PhoneInvalid)
      else None
    case Email =>
      if Trim(v) == [] then Some(EmailMissing)
      else if !EmailMatches(v) then Some(EmailInvalid)
      else None
    case Message =>
      if Trim(v) == [] then Some(MessageMissing)
      else if Utf16Length(v) < MinMessageLength then Some(MessageTooShort)
      else None
  }

  /** Records a field's error, if it has one. */
  function Put(e: FormErrors, f: Field, r: Option<Error>): FormErrors {
    match r
    case Some(x) => e[f := x]
    case None => e
  }

  /** The record `validateForm` builds: the rules applied field by field,
      starting from an empty record. */
  function Validate(d: FormData): (e: FormErrors)
    ensures WellFiled(e)
  {
    var e1 := Put(map[], Name, FieldError(Name, d.name));
    var e2 := Put(e1, Phone, FieldError(Phone, d.phone));
    var e3 := Put(e2, Email, FieldError(Email, d.email));
    Put(e3, Message, FieldError(Message, d.message))
  }

  /** A field has an entry exactly when its value fails its rule, and the
      entry is the error that rule gives; no earlier record is consulted. */
  lemma {:induction false} ValidateAt(d: FormData, f: Field)
    ensures f in Validate(d) <==> FieldError(f, d.Get(f)).Some?
    ensures f in Validate(d) ==> Some(Validate(d)[f]) == FieldError(f, d.Get(f))
  {
  }

  // ----- what the rules mean -----

  /** A name is rejected exactly when it is blank, and then as missing. */
  lemma NameRule(d: FormData)
    ensures Name in Validate(d) <==> Blank(d.name)
    ensures Name in Validate(d) ==> Validate(d)[Name] == NameMissing
  {
  }

  /** An accepted phone is all ASCII digits, 9 or 10 long, starting with '0'
      and then a digit other than '0' or '1'; and every such string is
      accepted. */
  lemma PhoneShape(s: string)
    ensures PhoneMatches(s) <==>
      (|s| == 9 || |s| == 10) && (forall i :: 0 <= i < |s| ==> IsAsciiDigit(s[i])) &&
      s[0] == '0' && s[1] != '0' && s[1] != '1'
  {
  }

  /** A phone is rejected as missing exactly when it is blank, and as
      invalid exactly when it is not blank but does not match the pattern. */
  lemma PhoneRule(d: FormData)
    ensures Phone in Validate(d) <==> !PhoneMatches(d.phone)
    ensures Phone in Validate(d) ==>
      (Validate(d)[Phone] == PhoneMissing <==> Blank(d.phone))
  {
    if PhoneMatches(d.phone) {
      assert !IsWhitespace(d.phone[0]);
    }
  }

  /** The pattern tests the untrimmed value, so a phone with any whitespace
      around (or in) it is rejected as invalid, not as missing. */
  lemma PaddedPhoneIsInvalid(d: FormData, k: nat)
    requires k < |d.phone| && IsWhitespace(d.phone[k]) && !Blank(d.phone)
    ensures Validate(d)[Phone] == PhoneInvalid
  {
    assert !IsAsciiDigit(d.phone[k]);
  }

  /** The shape of an accepted address, without split points: no whitespace
      anywhere, exactly one '@', not at the start, and a '.' in what follows
      it other than right after the '@' or at the very end. */
  predicate EmailShape(s: string) {
    var at := IndexOf(s, '@');
    NoWhitespace(s) && multiset(s)['@'] == 1 && 0 < at && at + 3 <= |s| && '.' in s[at + 2..|s| - 1]
  }

  /** The email pattern matches exactly the strings of that shape; in
      particular an accepted address holds exactly one '@'. */
  lemma {:induction false} EmailMatchesIffShape(s: string)
    ensures EmailMatches(s) <==> EmailShape(s)
    ensures EmailMatches(s) ==> multiset(s)['@'] == 1
  {
    if EmailMatches(s) {
      var at, dot :| 0 <= at < |s| && 0 <= dot < |s| && EmailSplit(s, at, dot);
      EmailSplitShape(s, at, dot);
    }
    if EmailShape(s) {
      var at := IndexOf(s, '@');
      var k :| 0 <= k < |s[at + 2..|s| - 1]| && s[at + 2..|s| - 1][k] == '.';
      var dot := at + 2 + k;
      assert s[dot] == '.';
      ShapeEmailSplit(s, at, dot);
    }
  }

  lemma EmailSplitShape(s: string, at: int, dot: int)
    requires EmailSplit(s, at, dot)
    ensures EmailShape(s)
  {
    forall i | 0 <= i < |s| ensures !IsWhitespace(s[i]) && (i != at ==> s[i] != '@') {
      if i < at {
        assert s[i] == s[..at][i];
      } else if at < i < dot {
        assert s[i] == s[at + 1..dot][i - at - 1];
      } else if dot < i {
        assert s[i] == s[dot + 1..][i - dot - 1];
      }
    }
    assert '@' !in s[..at];
    assert '@' !in s[at + 1..];
    assert s == s[..at] + [s[at]] + s[at + 1..];
    assert multiset(s) == multiset(s[..at]) + multiset{'@'} + multiset(s[at + 1..]);
    IndexOfFirst(s, '@', at);
    assert s[at + 2..|s| - 1][dot - at - 2] == '.';
  }

  /** With a single '@' in `s`, no position other than its first
      occurrence holds one. */
  lemma OnlyOneAt(s: string)
    requires multiset(s)['@'] == 1
    ensures IndexOf(s, '@') < |s|
    ensures forall i :: 0 <= i < |s| && i != IndexOf(s, '@') ==> s[i] != '@'
  {
    var at := IndexOf(s, '@');
    var rest := s[at + 1..];
    assert s == s[..at] + [s[at]] + rest;
    assert multiset(s) == multiset(s[..at]) + multiset{'@'} + multiset(rest);
    assert multiset(rest)['@'] == 0;
    assert '@' !in rest;
    forall i | 0 <= i < |s| && i != at ensures s[i] != '@' {
      if i < at {
        assert s[i] == s[..at][i];
      } else {
        assert s[i] == rest[i - at - 1];
      }
    }
  }

  lemma ShapeEmailSplit(s: string, at: int, dot: int)
    requires EmailShape(s) && at == IndexOf(s, '@') && at + 1 < dot < |s| - 1 && s[dot] == '.'
    ensures EmailSplit(s, at, dot)
  {
    OnlyOneAt(s);
    var local, domain, top := s[..at], s[at + 1..dot], s[dot + 1..];
    forall j | 0 <= j < |local| ensures IsAddressChar(local[j]) {
      assert local[j] == s[j];
    }
    forall j | 0 <= j < |domain| ensures IsAddressChar(domain[j]) {
      assert domain[j] == s[at + 1 + j];
    }
    forall j | 0 <= j < |top| ensures IsAddressChar(top[j]) {
      assert top[j] == s[dot + 1 + j];
    }
  }

  /** An address is rejected as missing exactly when it is blank, and as
      invalid exactly when it is not blank but does not match the pattern. */
  lemma EmailRule(d: FormData)
    ensures Email in Validate(d) <==> !EmailMatches(d.email)
    ensures Email in Validate(d) ==>
      (Validate(d)[Email] == EmailMissing <==> Blank(d.email))
  {
    if EmailMatches(d.email) {
      var at, dot :| 0 <= at < |d.email| && 0 <= dot < |d.email| && EmailSplit(d.email, at, dot);
      assert d.email[0] == d.email[..at][0];
    }
  }

  /** A blank message is rejected as missing; otherwise one whose untrimmed
      length, counted in UTF-16 code units, is under ten is rejected as too
      short. */
  lemma MessageRule(d: FormData)
    ensures Message in Validate(d) <==> Blank(d.message) || Utf16Length(d.message) < MinMessageLength
    ensures Message in Validate(d) ==>
      (Validate(d)[Message] == MessageMissing <==> Blank(d.message))
  {
  }

  /** The length rule counts padding: "hi" followed by eight spaces passes,
      although it trims to two characters. */
  lemma PaddedShortMessageAccepted(d: FormData)
    requires d.message == "hi        "
    ensures Message !in Validate(d)
    ensures |Trim(d.message)| == 2
  {
    assert d.message == "hi" + "        ";
    TrimEndBlankSuffix("hi", "        ");
    assert TrimStart(d.message) == d.message;
    assert TrimEnd("hi") == "hi";
    assert Utf16Length(d.message) == 10 by {
      assert forall i :: 0 <= i < |d.message| ==> d.message[i] as int < 0x1_0000;
      Utf16LengthBmp(d.message);
    }
  }

  /** The length rule counts UTF-16 code units: five characters from above
      the Basic Multilingual Plane make a length of ten and pass, although
      the message has only five characters. */
  lemma FiveAstralCharactersAccepted(d: FormData)
    requires d.message == "\U{1F600}\U{1F600}\U{1F600}\U{1F600}\U{1F600}"
    ensures Message !in Validate(d)
    ensures |d.message| == 5 && Utf16Length(d.message) == 10
  {
    var m := d.message;
    assert !IsWhitespace(m[0]);
    assert Utf16Length(m[4..]) == 2 by { assert m[4..][1..] == []; }
    assert Utf16Length(m[3..]) == 4 by { assert m[3..][1..] == m[4..]; }
    assert Utf16Length(m[2..]) == 6 by { assert m[2..][1..] == m[3..]; }
    assert Utf16Length(m[1..]) == 8 by { assert m[1..][1..] == m[2..]; }
    assert Trim(d.message) != [];
  }

  /** A blank value gets the "missing" error of its field whatever the
      format and length rules would say. */
  lemma MissingTakesPrecedence(f: Field, v: string)
    requires Blank(v)
    ensures FieldError(f, v).Some? && FieldError(f, v).value.IsMissing()
    ensures FieldError(f, v).value.Field() == f
  {
  }

  /** The form is valid, that is the error record has no entries, exactly
      when every field passes its rule. */
  lemma ValidateEmptyIff(d: FormData)
    ensures |Validate(d)| == 0 <==>
      !Blank(d.name) && PhoneMatches(d.phone) && EmailMatches(d.email) &&
      !Blank(d.message) && Utf16Length(d.message) >= MinMessageLength
  {
    NameRule(d);
    PhoneRule(d);
    EmailRule(d);
    MessageRule(d);
    if |Validate(d)| == 0 {
      assert Validate(d).Keys == {};
    }
  }

  /** Changing one field changes no other field's entry in the record. */
  lemma ValidateFieldsIndependent(d: FormData, f: Field, v: string)
    ensures Validate(d.With(f, v)) - {f} == Validate(d) - {f}
  {
  }

  // ----- the component -----

  class ContactForm {
    var formData: FormData
    var errors: FormErrors
    var isSubmitting: bool
    /** `null` before any submit and after the banner expires. */
    var submitSuccess: Option<bool>

    /** The state between events: no submit in progress, the failure
        banner never shown, and every error on display is the error the
        field's current value really has (none is stale). */
    ghost predicate Valid()
      reads this
    {
      !isSubmitting && submitSuccess != Some(false) &&
      forall f :: f in errors ==> FieldError(f, formData.Get(f)) == Some(errors[f])
    }

    constructor ()
      ensures Valid()
      ensures formData == EmptyForm && errors == map[]
      ensures !isSubmitting && submitSuccess == None
    {
      formData := EmptyForm;
      errors := map[];
      isSubmitting := false;
      submitSuccess := None;
    }

    /** `handleChange`: store the new value of one field and clear that
        field's error, if it has one. */
    method HandleChange(f: Field, v: string)
      requires Valid()
      modifies this
      ensures Valid()
      ensures formData == old(formData).With(f, v)
      ensures errors == old(errors) - {f}
      ensures isSubmitting == old(isSubmitting) && submitSuccess == old(submitSuccess)
    {
      formData := formData.With(f, v);
      if f in errors {
        errors := errors - {f};
      }
    }

    /** `validateForm`: replace the whole error record by the one the
        current values call for, and report whether it is empty. */
    method ValidateForm() returns (ok: bool)
      requires Valid()
      modifies this
      ensures Valid()
      ensures errors == Validate(formData)
      ensures ok <==> |errors| == 0
      ensures formData == old(formData)
      ensures isSubmitting == old(isSubmitting) && submitSuccess == old(submitSuccess)
    {
      var newErrors: FormErrors := map[];
      if Trim(formData.name) == [] {
        newErrors := newErrors[Name := NameMissing];
      }
      assert newErrors == Put(map[], Name, FieldError(Name, formData.name));
      ghost var e2 := Put(newErrors, Phone, FieldError(Phone, formData.phone));
      if Trim(formData.phone) == [] {
        newErrors := newErrors[Phone := PhoneMissing];
      } else if !PhoneMatches(formData.phone) {
        newErrors := newErrors[Phone := PhoneInvalid];
      }
      assert newErrors == e2;
      ghost var e3 := Put(newErrors, Email, FieldError(Email, formData.email));
      if Trim(formData.email) == [] {
        newErrors := newErrors[Email := EmailMissing];
      } else if !EmailMatches(formData.email) {
        newErrors := newErrors[Email := EmailInvalid];
      }
      assert newErrors == e3;
      ghost var e4 := Put(newErrors, Message, FieldError(Message, formData.message));
      if Trim(formData.message) == [] {
        newErrors := newErrors[Message := MessageMissing];
      } else if Utf16Length(formData.message) < MinMessageLength {
        newErrors := newErrors[Message := MessageTooShort];
      }
      assert newErrors == e4;
      errors := newErrors;
      ok := |newErrors| == 0;
      forall f | f in errors ensures FieldError(f, formData.Get(f)) == Some(errors[f]) {
        ValidateAt(formData, f);
      }
    }

    /** `handleSubmit`: validate; on a valid form mark the send as under
        way, report success, empty every field, and end the send. */
    method HandleSubmit() returns (ok: bool)
      requires Valid()
      modifies this
      ensures Valid()
      ensures ok <==> |Validate(old(formData))| == 0
      ensures errors == Validate(old(formData))
      ensures !ok ==> formData == old(formData) && submitSuccess == old(submitSuccess)
      ensures ok ==> formData == EmptyForm && submitSuccess == Some(true)
      ensures !isSubmitting
    {
      ok := ValidateForm();
      if ok {
        isSubmitting := true;
        submitSuccess := Some(true);
        formData := EmptyForm;
        isSubmitting := false;
      }
    }

    /** The success banner's timer has run out. */
    method SuccessTimeoutElapsed()
      requires Valid()
      modifies this
      ensures Valid()
      ensures submitSuccess == None
      ensures formData == old(formData) && errors == old(errors) && isSubmitting == old(isSubmitting)
    {
      submitSuccess := None;
    }
  }
}
