/** The contact form: the field check run when a field loses focus
    (validateField), and the decision taken when the form is submitted
    (the submit listener of initFormValidation). */
module ContactForm {
  import opened Optional

  /** `\s` of ECMAScript regular expressions, which is also the set that
      String.prototype.trim removes: the WhiteSpace and LineTerminator code points. */
  predicate IsJsSpace(c: char) {
    || c == '\t' || c == '\n' || c == '\U{B}' || c == '\U{C}' || c == '\r' || c == ' '
    || c == '\U{A0}' || c == '\U{1680}' || ('\U{2000}' <= c <= '\U{200A}')
    || c == '\U{2028}' || c == '\U{2029}' || c == '\U{202F}' || c == '\U{205F}'
    || c == '\U{3000}' || c == '\U{FEFF}'
  }

  /** Every character is whitespace (the empty string included). */
  predicate Blank(s: string) { forall k :: 0 <= k < |s| ==> IsJsSpace(s[k]) }

  /** Drops leading whitespace. */
  function TrimStart(s: string): (r: string)
    ensures |r| <= |s| && r == s[|s| - |r|..]
    ensures forall k :: 0 <= k < |s| - |r| ==> IsJsSpace(s[k])
    ensures r == [] || !IsJsSpace(r[0])
  {
    if |s| > 0 && IsJsSpace(s[0]) then TrimStart(s[1..]) else s
  }

  /** Drops trailing whitespace. */
  function TrimEnd(s: string): (r: string)
    ensures |r| <= |s| && r == s[..|r|]
    ensures forall k :: |r| <= k < |s| ==> IsJsSpace(s[k])
    ensures r == [] || !IsJsSpace(r[|r| - 1])
  {
    if |s| > 0 && IsJsSpace(s[|s| - 1]) then TrimEnd(s[..|s| - 1]) else s
  }

  /** String.prototype.trim. */
  function Trim(s: string): string { TrimEnd(TrimStart(s)) }

  /** A value trims to nothing exactly when it is blank. */
  lemma TrimEmptyIffBlank(s: string)
    ensures Trim(s) == "" <==> Blank(s)
  {
    var t := TrimStart(s);
    if !Blank(s) {
      var k :| 0 <= k < |s| && !IsJsSpace(s[k]);
      assert t[k - (|s| - |t|)] == s[k];
    }
  }

  /** A character the class `[^\s@]` accepts. */
  predicate Plain(c: char) { !IsJsSpace(c) && c != '@' }

  predicate AllPlain(s: string) { forall k :: 0 <= k < |s| ==> Plain(s[k]) }

  /** The five pieces of the pattern, split at `at` and `dot`: a plain run, `@`,
      a non-empty plain run, `.`, a non-empty plain run, covering the whole string. */
  predicate PatternAt(s: string, at: int, dot: int) {
    && 0 < at < |s| && at + 1 < dot < |s| - 1
    && s[at] == '@' && s[dot] == '.'
    && AllPlain(s[..at]) && AllPlain(s[at + 1..dot]) && AllPlain(s[dot + 1..])
  }

  /** The language of `/^[^\s@]+@[^\s@]+\.[^\s@]+$/`: some split into its five pieces. */
  predicate EmailPattern(s: string) {
    exists at, dot | 0 <= at < |s| && 0 <= dot < |s| :: PatternAt(s, at, dot)
  }

  predicate NoAt(s: string) { forall k :: 0 <= k < |s| ==> s[k] != '@' }

  /** The domain has a dot with text on either side of it. */
  predicate InnerDot(d: string) { exists k | 0 < k < |d| - 1 :: d[k] == '.' }

  /** The same language in words: `L@D` without whitespace anywhere, with a
      non-empty L, no second `@`, and a dot inside D. */
  predicate EmailShape(s: string) {
    && (forall k :: 0 <= k < |s| ==> !IsJsSpace(s[k]))
    && exists at | 0 < at < |s| ::
         s[at] == '@' && NoAt(s[..at]) && NoAt(s[at + 1..]) && InnerDot(s[at + 1..])
  }

  lemma PatternNoSpace(s: string, at: int, dot: int)
    requires PatternAt(s, at, dot)
    ensures forall k :: 0 <= k < |s| ==> !IsJsSpace(s[k])
  {
    forall k | 0 <= k < |s| ensures !IsJsSpace(s[k]) {
      if k < at {
        assert s[..at][k] == s[k];
      } else if at < k < dot {
        assert s[at + 1..dot][k - at - 1] == s[k];
      } else if dot < k {
        assert s[dot + 1..][k - dot - 1] == s[k];
      }
    }
  }

  lemma PatternDomain(s: string, at: int, dot: int)
    requires PatternAt(s, at, dot)
    ensures NoAt(s[at + 1..]) && InnerDot(s[at + 1..])
  {
    var d := s[at + 1..];
    forall k | 0 <= k < |d| ensures d[k] != '@' {
      if k < dot - at - 1 {
        assert s[at + 1..dot][k] == d[k];
      } else if k > dot - at - 1 {
        assert s[dot + 1..][k - (dot - at)] == d[k];
      }
    }
    assert d[dot - at - 1] == '.';
  }

  lemma PatternIsShape(s: string)
    requires EmailPattern(s)
    ensures EmailShape(s)
  {
    var at, dot :| PatternAt(s, at, dot);
    PatternNoSpace(s, at, dot);
    PatternDomain(s, at, dot);
    assert NoAt(s[..at]) by {
      forall k | 0 <= k < at ensures s[..at][k] != '@' {
        assert Plain(s[..at][k]);
      }
    }
  }

  lemma ShapeIsPattern(s: string)
    requires EmailShape(s)
    ensures EmailPattern(s)
  {
    var at :| 0 < at < |s| && s[at] == '@' && NoAt(s[..at]) && NoAt(s[at + 1..]) && InnerDot(s[at + 1..]);
    var d := s[at + 1..];
    var k :| 0 < k < |d| - 1 && d[k] == '.';
    var dot := at + 1 + k;
    assert s[dot] == '.';
    assert AllPlain(s[..at]) by {
      forall m | 0 <= m < at ensures Plain(s[..at][m]) {
        assert s[..at][m] == s[m];
      }
    }
    assert AllPlain(s[at + 1..dot]) by {
      forall m | at + 1 <= m < dot ensures Plain(s[m]) {
        assert s[m] == d[m - at - 1];
      }
    }
    assert AllPlain(s[dot + 1..]) by {
      forall m | dot + 1 <= m < |s| ensures Plain(s[m]) {
        assert s[m] == d[m - at - 1];
      }
    }
    assert PatternAt(s, at, dot);
  }

  /** The pattern accepts exactly the strings of the shape `L@D` described above. */
  lemma EmailPatternIff(s: string)
    ensures EmailPattern(s) <==> EmailShape(s)
  {
    if EmailPattern(s) { PatternIsShape(s); }
    if EmailShape(s) { ShapeIsPattern(s); }
  }

  /** An input as validateField sees it: its `type`, its `name` and its `value`. */
  datatype Field = Field(kind: string, name: string, value: string)

  /** The outcome of a field check: the error cleared, or the message shown. */
  datatype Verdict = Accepted | Rejected(message: string)

  const EmailMessage: string := "Please enter a valid email address"
  const NameMessage: string := "Please enter your name"

  /** validateField: a non-empty email value must match the pattern; the field
      named `Name` must not be blank after trimming; otherwise the error is cleared. */
  function ValidateField(f: Field): Verdict
  {
    if f.kind == "email" && f.value != "" && !EmailPattern(f.value) then Rejected(EmailMessage)
    else if f.name == "Name" && Trim(f.value) == "" then Rejected(NameMessage)
    else Accepted
  }

  /** What validateField accepts, in both directions, and which message each
      rejection shows: the email check comes first, and an empty email is not checked. */
  lemma ValidateFieldMeaning(f: Field)
    ensures ValidateField(f) == Accepted <==>
      && (f.kind == "email" && f.value != "" ==> EmailShape(f.value))
      && (f.name == "Name" ==> !Blank(f.value))
    ensures ValidateField(f) == Rejected(EmailMessage) <==>
      f.kind == "email" && f.value != "" && !EmailShape(f.value)
    ensures ValidateField(f) == Rejected(NameMessage) <==>
      && (f.kind == "email" && f.value != "" ==> EmailShape(f.value))
      && f.name == "Name" && Blank(f.value)
  {
    EmailPatternIff(f.value);
    TrimEmptyIffBlank(f.value);
  }

  /** The form's inputs: each may be absent from the page. */
  datatype Form = Form(
    honeypot: Option<string>, email: Option<string>, name: Option<string>,
    date: Option<string>, venue: Option<string>, details: Option<string>)

  /** What a submit does: nothing at all (a bot filled the honeypot), the field
      errors, a TypeError (a missing input is read), or navigation to a mailto URL. */
  datatype Submission =
    | Ignored
    | ShowErrors(emailError: bool, nameError: bool)
    | ScriptError
    | Navigate(url: string)

  predicate HoneypotFilled(form: Form) { form.honeypot.Some? && form.honeypot.value != "" }

  predicate EmailError(form: Form) {
    form.email.Some? && form.email.value != "" && !EmailPattern(form.email.value)
  }

  predicate NameError(form: Form) { form.name.Some? && Trim(form.name.value) == "" }

  /** The address is assembled from its two halves so that it is not in the markup. */
  const Recipient: string := "whistlersmother1" + "@" + "hotmail.com"

  /** The sanitizer: the empty string stays empty; anything else goes through the
      browser's text escaping, which is `escape` here. */
  function Sanitize(escape: string -> string, s: string): string
  {
    if s == "" then "" else escape(s)
  }

  /** The mailto URL; `encode` stands for encodeURIComponent. */
  function MailtoUrl(escape: string -> string, encode: string -> string,
                     name: string, email: string, date: string, venue: string, details: string): string
  {
    var n, e, d, v, t :=
      Sanitize(escape, name), Sanitize(escape, email), Sanitize(escape, date),
      Sanitize(escape, venue), Sanitize(escape, details);
    "mailto:" + Recipient
      + "?subject=" + encode("Enquiry from " + n + " - " + (if d == "" then "No Date" else d))
      + "&body=" + encode("Name: " + n + "\nEmail: " + e + "\nDate: " + d + "\nVenue: " + v
                          + "\n\nDetails:\n" + t)
  }

  /** The submit listener. */
  function Submit(form: Form, escape: string -> string, encode: string -> string): Submission
  {
    if HoneypotFilled(form) then Ignored
    else if EmailError(form) || NameError(form) then ShowErrors(EmailError(form), NameError(form))
    else if form.name.None? || form.email.None? || form.date.None? || form.venue.None?
         || form.details.None? then ScriptError
    else Navigate(MailtoUrl(escape, encode, form.name.value, form.email.value,
                            form.date.value, form.venue.value, form.details.value))
  }

  /** A filled honeypot silences the submit, whatever the other fields hold. */
  lemma HoneypotSilences(form: Form, escape: string -> string, encode: string -> string)
    requires HoneypotFilled(form)
    ensures Submit(form, escape, encode) == Ignored
  {
  }

  /** The submit check agrees with the focus-loss check of each field: the email
      input (type `email`, any other name) and the `Name` input (any other type). */
  lemma SubmitAgreesWithFieldCheck(form: Form, escape: string -> string, encode: string -> string,
                                   emailName: string, nameKind: string)
    requires !HoneypotFilled(form) && emailName != "Name" && nameKind != "email"
    ensures var emailRejected := form.email.Some? && ValidateField(Field("email", emailName, form.email.value)).Rejected?;
            var nameRejected := form.name.Some? && ValidateField(Field(nameKind, "Name", form.name.value)).Rejected?;
            Submit(form, escape, encode).ShowErrors? <==> emailRejected || nameRejected
    ensures Submit(form, escape, encode).ShowErrors? ==>
      && Submit(form, escape, encode).emailError == (form.email.Some? && ValidateField(Field("email", emailName, form.email.value)).Rejected?)
      && Submit(form, escape, encode).nameError == (form.name.Some? && ValidateField(Field(nameKind, "Name", form.name.value)).Rejected?)
  {
  }

  /** Every mailto URL is addressed to the fixed recipient. */
  lemma MailtoAddressed(escape: string -> string, encode: string -> string,
                        name: string, email: string, date: string, venue: string, details: string)
    ensures var url := MailtoUrl(escape, encode, name, email, date, venue, details);
      |url| >= 7 + |Recipient| && url[..7 + |Recipient|] == "mailto:" + Recipient
  {
    var url := MailtoUrl(escape, encode, name, email, date, venue, details);
    var head := "mailto:" + Recipient;
    assert url == head + url[|head|..];
  }

  /** A mailto navigation happens only when no bot was detected, every input is
      present, the email is empty or well formed and the name is not blank. */
  lemma NavigateOnlyWhenValid(form: Form, escape: string -> string, encode: string -> string)
    requires Submit(form, escape, encode).Navigate?
    ensures !HoneypotFilled(form)
    ensures form.name.Some? && form.email.Some? && form.date.Some? && form.venue.Some? && form.details.Some?
    ensures form.email.value == "" || EmailShape(form.email.value)
    ensures !Blank(form.name.value)
  {
    EmailPatternIff(form.email.value);
    TrimEmptyIffBlank(form.name.value);
  }

  /** The converse: with no bot detected, every input present, the email empty or
      well formed and the name not blank, the submit navigates to the mail composed
      from the five values. */
  lemma NavigateWhenValid(form: Form, escape: string -> string, encode: string -> string)
    requires !HoneypotFilled(form)
    requires form.name.Some? && form.email.Some? && form.date.Some? && form.venue.Some? && form.details.Some?
    requires form.email.value == "" || EmailShape(form.email.value)
    requires !Blank(form.name.value)
    ensures Submit(form, escape, encode) == Navigate(MailtoUrl(escape, encode,
      form.name.value, form.email.value, form.date.value, form.venue.value, form.details.value))
  {
    EmailPatternIff(form.email.value);
    TrimEmptyIffBlank(form.name.value);
  }

  /** Once the fields pass, the submit throws exactly when one of the five inputs
      it reads is missing from the page. */
  lemma MissingInputThrows(form: Form, escape: string -> string, encode: string -> string)
    requires !HoneypotFilled(form) && !EmailError(form) && !NameError(form)
    ensures Submit(form, escape, encode) == ScriptError <==>
      form.name.None? || form.email.None? || form.date.None? || form.venue.None? || form.details.None?
  {
  }

  /** The recipient itself matches the email pattern. */
  lemma RecipientIsAnEmail()
    ensures EmailPattern(Recipient)
  {
    var s := Recipient;
    assert s[16] == '@' && s[24] == '.';
    assert AllPlain(s[..16]);
    assert AllPlain(s[17..24]);
    assert AllPlain(s[25..]);
    assert PatternAt(s, 16, 24);
  }
}
