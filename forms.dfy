/** The three forms of the demo page, their fields, and what each submit
    handler decides about each field: the chain of tests in
    `handleRegistrationSubmit`, `handleContactSubmit` and
    `handleCheckoutSubmit`, the messages it shows, the entries it pushes to
    its `errors` list, and the summary it reports. */
module Forms {
  import opened JsText
  import opened Validators
  import opened Presenter

  datatype Form = Registration | Contact | Checkout

  /** The forms in page order (`querySelectorAll('.demo-form')`). */
  const AllForms: seq<Form> := [Registration, Contact, Checkout]

  datatype FieldId =
    | FirstName | LastName | Email | Password | ConfirmPassword | Age | Terms
    | ContactName | ContactEmail | Subject | Message
    | CardNumber | ExpiryDate | Cvv | CardName | BillingAddress

  function FormOf(f: FieldId): Form {
    match f
    case FirstName | LastName | Email | Password | ConfirmPassword | Age | Terms => Registration
    case ContactName | ContactEmail | Subject | Message => Contact
    case CardNumber | ExpiryDate | Cvv | CardName | BillingAddress => Checkout
  }

  /** The fields of each form, in the order its submit handler checks them. */
  function FieldsOf(form: Form): seq<FieldId> {
    match form
    case Registration => [FirstName, LastName, Email, Password, ConfirmPassword, Age, Terms]
    case Contact => [ContactName, ContactEmail, Subject, Message]
    case Checkout => [CardNumber, ExpiryDate, Cvv, CardName, BillingAddress]
  }

  /** Every field belongs to exactly one form and appears there once. */
  lemma FieldsOfPartition(form: Form)
    ensures forall f :: f in FieldsOf(form) <==> FormOf(f) == form
    ensures forall i, j :: 0 <= i < j < |FieldsOf(form)| ==> FieldsOf(form)[i] != FieldsOf(form)[j]
  {
  }

  /** The field a handler checks `i`-th belongs to its form and was not
      checked before. */
  lemma FieldOfForm(form: Form, i: nat)
    requires i < |FieldsOf(form)|
    ensures FieldsOf(form)[i] !in FieldsOf(form)[..i]
    ensures FormOf(FieldsOf(form)[i]) == form
  {
    FieldsOfPartition(form);
  }

  /** The text of every field but the terms checkbox, whose state is a
      separate boolean. */
  predicate Complete(values: map<FieldId, string>) {
    forall f :: f != Terms ==> f in values
  }

  /** What `new Date()` yields that the expiry check uses: the year modulo
      100 and the month, 1 to 12. */
  datatype Today = Today(year: int, month: int)

  predicate ValidToday(today: Today) {
    1 <= today.month <= 12
  }

  /** A handler's decision about one field: it passes, or it fails with the
      message shown under the field and the entry pushed to `errors`. */
  datatype Verdict = Pass | Fail(message: string, entry: string)

  /** The handler's "required" test: the checkbox unchecked, the raw text
      empty for the password, age and subject, the trimmed text empty for
      every other field. The confirmation has no such test. Only a blank
      text is ever missing, and an empty one always is. */
  predicate Missing(f: FieldId, values: map<FieldId, string>, termsChecked: bool): (missing: bool)
    requires Complete(values)
    ensures missing && f != Terms ==> f != ConfirmPassword && IsBlank(values[f])
    ensures f != Terms && f != ConfirmPassword && values[f] == "" ==> missing
  {
    match f
    case Terms => !termsChecked
    case ConfirmPassword => false
    case Password | Age | Subject => values[f] == ""
    case _ => TrimEmptyIffBlank(values[f]); Trim(values[f]) == ""
  }

  /** The failure a handler reports for a missing field. */
  function Required(f: FieldId): (r: Verdict)
    requires f != ConfirmPassword
    ensures r.Fail? && r.message != "" && r.entry != ""
  {
    match f
    case FirstName => Fail("El nombre es requerido", "Nombre requerido")
    case LastName => Fail("El apellido es requerido", "Apellido requerido")
    case Email => Fail("El email es requerido", "Email requerido")
    case Password => Fail("La contraseña es requerida", "Contraseña requerida")
    case Age => Fail("La edad es requerida", "Edad requerida")
    case Terms => Fail("Debes aceptar los términos y condiciones", "Términos no aceptados")
    case ContactName => Fail("El nombre es requerido", "Nombre requerido")
    case ContactEmail => Fail("El email es requerido", "Email requerido")
    case Subject => Fail("Debes seleccionar un asunto", "Asunto requerido")
    case Message => Fail("El mensaje es requerido", "Mensaje requerido")
    case CardNumber => Fail("El número de tarjeta es requerido", "Número de tarjeta requerido")
    case ExpiryDate => Fail("La fecha de vencimiento es requerida", "Fecha de vencimiento requerida")
    case Cvv => Fail("El CVV es requerido", "CVV requerido")
    case CardName => Fail("El nombre en la tarjeta es requerido", "Nombre en tarjeta requerido")
    case BillingAddress => Fail("La dirección de facturación es requerida", "Dirección requerida")
  }

  /** `a > b` for a number that may be NaN (NaN compares false). */
  predicate NumGreater(a: Option<int>, b: int) {
    a.Some? && a.value > b
  }

  /** The failure a handler reports for a present but wrong field, if any:
      e-mail format (on the untrimmed text), password length, the
      confirmation against the password, age outside 18..100 (`parseInt`;
      NaN passes), message shorter than 10, card number, expiry date and CVV
      checks. */
  function Wrong(f: FieldId, values: map<FieldId, string>, today: Today): (r: Verdict)
    requires Complete(values) && ValidToday(today)
    ensures r.Fail? ==> r.message != "" && r.entry != ""
  {
    match f
    case Email | ContactEmail =>
      if !ValidateEmail(values[f]) then Fail("Formato de email inválido", "Email inválido") else Pass
    case Password =>
      if !ValidatePassword(values[f])
      then Fail("La contraseña debe tener al menos 8 caracteres", "Contraseña muy corta")
      else Pass
    case ConfirmPassword =>
      if values[Password] != values[ConfirmPassword]
      then Fail("Las contraseñas no coinciden", "Contraseñas no coinciden")
      else Pass
    case Age =>
      var age := ParseInt(values[f]);
      if NumLess(age, 18) || NumGreater(age, 100)
      then Fail("La edad debe estar entre 18 y 100 años", "Edad inválida")
      else Pass
    case Message =>
      if |values[f]| < 10
      then Fail("El mensaje debe tener al menos 10 caracteres", "Mensaje muy corto")
      else Pass
    case CardNumber =>
      if !CardNumberValid(values[f]) then Fail("Número de tarjeta inválido", "Número de tarjeta inválido") else Pass
    case ExpiryDate =>
      if !ValidateExpiryDate(values[f], today.year, today.month)
      then Fail("Fecha de vencimiento inválida o expirada", "Fecha de vencimiento inválida")
      else Pass
    case Cvv =>
      if !ValidateCVV(values[f]) then Fail("CVV inválido (3-4 dígitos)", "CVV inválido") else Pass
    case _ => Pass
  }

  /** The handler's whole chain of tests for one field: "required" first,
      then the field's own check. */
  function Check(f: FieldId, values: map<FieldId, string>, termsChecked: bool, today: Today): (r: Verdict)
    requires Complete(values) && ValidToday(today)
    ensures r.Fail? ==> r.message != "" && r.entry != ""
  {
    if Missing(f, values, termsChecked) then Required(f) else Wrong(f, values, today)
  }

  /** A field reads as missing exactly when it holds only white space (for
      the fields whose text is trimmed), is empty (password, age, subject), or
      is the unchecked checkbox; and the handler then reports exactly the
      field's "required" failure. */
  lemma RequiredExactlyWhenMissing(f: FieldId, values: map<FieldId, string>, termsChecked: bool, today: Today)
    requires Complete(values) && ValidToday(today) && f != ConfirmPassword
    ensures Check(f, values, termsChecked, today) == Required(f) <==> Missing(f, values, termsChecked)
    ensures f !in {Terms, Password, Age, Subject} ==> (Missing(f, values, termsChecked) <==> IsBlank(values[f]))
  {
    if f != Terms {
      TrimEmptyIffBlank(values[f]);
    }
    if !Missing(f, values, termsChecked) {
      WrongIsNotRequired(f, values, today);
    }
  }

  /** No failure of a field's own check reads like its "required" failure. */
  lemma WrongIsNotRequired(f: FieldId, values: map<FieldId, string>, today: Today)
    requires Complete(values) && ValidToday(today) && f != ConfirmPassword
    ensures Wrong(f, values, today) != Required(f)
  {
    var r := Wrong(f, values, today);
    if r.Fail? {
      assert r.entry != Required(f).entry;
    }
  }

  /** Whether a field of a form fails depends only on that form's fields:
      typing into another form never changes a handler's verdicts. */
  lemma CheckReadsOwnForm(f: FieldId, v1: map<FieldId, string>, v2: map<FieldId, string>,
                          t1: bool, t2: bool, today: Today)
    requires Complete(v1) && Complete(v2) && ValidToday(today)
    requires forall g :: g != Terms && FormOf(g) == FormOf(f) ==> v1[g] == v2[g]
    requires FormOf(f) == Registration ==> t1 == t2
    ensures Check(f, v1, t1, today) == Check(f, v2, t2, today)
  {
    if f != Terms {
      assert v1[f] == v2[f];
    }
    if f == ConfirmPassword {
      assert v1[Password] == v2[Password];
    }
    CheckReadsOwnEntries(f, v1, v2, t1, t2, today);
  }

  /** A field's verdict reads only its own entry, the password's (for the
      confirmation) and the checkbox (for the terms). */
  lemma CheckReadsOwnEntries(f: FieldId, v1: map<FieldId, string>, v2: map<FieldId, string>,
                             t1: bool, t2: bool, today: Today)
    requires Complete(v1) && Complete(v2) && ValidToday(today)
    requires f != Terms ==> v1[f] == v2[f]
    requires f == ConfirmPassword ==> v1[Password] == v2[Password]
    requires f == Terms ==> t1 == t2
    ensures Check(f, v1, t1, today) == Check(f, v2, t2, today)
  {
  }

  // ---------------------------------------------------------------------
  // A handler's pass over its form
  // ---------------------------------------------------------------------

  /** A verdict for every field, each failure with a message and an entry. */
  predicate Verdicted(vs: map<FieldId, Verdict>) {
    forall f :: f in vs && (vs[f].Fail? ==> vs[f].message != "" && vs[f].entry != "")
  }

  /** Every field of the page, form by form. */
  const AllFields: seq<FieldId> := FieldsOf(Registration) + FieldsOf(Contact) + FieldsOf(Checkout)

  /** Every form is on the page. */
  lemma AllFormsListed()
    ensures forall form :: form in AllForms
  {
    forall form
      ensures form in AllForms
    {
      assert form == Registration || form == Contact || form == Checkout;
    }
  }

  /** Every field is on the page. */
  lemma AllFieldsListed()
    ensures forall f :: f in AllFields
  {
    forall f
      ensures f in AllFields
    {
      FieldsOfPartition(FormOf(f));
    }
  }

  /** The verdicts the handlers reach on the page as it stands. */
  function Verdicts(values: map<FieldId, string>, termsChecked: bool, today: Today): (vs: map<FieldId, Verdict>)
    requires Complete(values) && ValidToday(today)
    ensures Verdicted(vs)
  {
    AllFieldsListed();
    map f | f in AllFields :: Check(f, values, termsChecked, today)
  }

  /** Each field's entry in the verdict map is that field's chain of tests. */
  lemma VerdictsAgree(f: FieldId, values: map<FieldId, string>, termsChecked: bool, today: Today)
    requires Complete(values) && ValidToday(today)
    ensures f in Verdicts(values, termsChecked, today)
    ensures Verdicts(values, termsChecked, today)[f] == Check(f, values, termsChecked, today)
  {
    AllFieldsListed();
  }

  /** `showError` on a failing field, `clearError` on a passing one. */
  function Marked(v: FieldView, verdict: Verdict): (w: FieldView)
    requires verdict.Fail? ==> verdict.message != ""
    ensures WellMarked(w)
    ensures StatusOf(w) == if verdict.Fail? then Invalid(verdict.message) else Valid
  {
    match verdict
    case Pass => ClearError(v)
    case Fail(message, _) => ShowError(v, message)
  }

  /** The views after the handler has marked the fields `fs`; every other
      field is left alone. */
  function MarkFields(views: map<FieldId, FieldView>, fs: seq<FieldId>, vs: map<FieldId, Verdict>): map<FieldId, FieldView>
    requires Verdicted(vs)
  {
    map f | f in views :: if f in fs then Marked(views[f], vs[f]) else views[f]
  }

  /** The views after one submit handler has run over all of its form's fields. */
  function MarkForm(views: map<FieldId, FieldView>, form: Form, vs: map<FieldId, Verdict>): map<FieldId, FieldView>
    requires Verdicted(vs)
  {
    MarkFields(views, FieldsOf(form), vs)
  }

  /** Marking one more field is one map update. */
  lemma MarkFieldsStep(views: map<FieldId, FieldView>, done: seq<FieldId>, f: FieldId, vs: map<FieldId, Verdict>)
    requires Verdicted(vs)
    requires f in views && f !in done
    ensures MarkFields(views, done + [f], vs) == MarkFields(views, done, vs)[f := Marked(views[f], vs[f])]
  {
    var a := MarkFields(views, done + [f], vs);
    var b := MarkFields(views, done, vs)[f := Marked(views[f], vs[f])];
    assert a.Keys == b.Keys;
    forall g | g in a.Keys
      ensures a[g] == b[g]
    {
      assert g in done + [f] <==> g in done || g == f;
    }
  }

  /** Before a handler has marked any field, every view is as it was. */
  lemma MarkFieldsNone(views: map<FieldId, FieldView>, vs: map<FieldId, Verdict>)
    requires Verdicted(vs)
    ensures MarkFields(views, [], vs) == views
  {
  }

  /** A handler that has marked `done` and now marks `f` with its verdict
      has marked `done + [f]`. */
  lemma MarkStep(start: map<FieldId, FieldView>, done: seq<FieldId>, f: FieldId, vs: map<FieldId, Verdict>,
                 views: map<FieldId, FieldView>)
    requires Verdicted(vs) && f in start && f !in done
    requires views == MarkFields(start, done, vs)
    ensures f in views && views[f] == start[f]
    ensures MarkFields(start, done + [f], vs) == views[f := Marked(views[f], vs[f])]
  {
    MarkFieldsStep(start, done, f, vs);
  }

  /** After a submit handler, each field of the submitted form shows exactly
      its verdict (its message when failing, `valid` when passing) and every
      field of the other forms is untouched. */
  lemma MarkFormStatus(views: map<FieldId, FieldView>, form: Form, vs: map<FieldId, Verdict>, f: FieldId)
    requires Verdicted(vs) && f in views
    ensures var after := MarkForm(views, form, vs);
            f in after
            && (FormOf(f) == form ==>
                  WellMarked(after[f])
                  && StatusOf(after[f]) == if vs[f].Fail? then Invalid(vs[f].message) else Valid)
            && (FormOf(f) != form ==> after[f] == views[f])
  {
    FieldsOfPartition(form);
  }

  /** A handler keeps every field's classes and message in agreement. */
  lemma MarkFormWellMarked(views: map<FieldId, FieldView>, form: Form, vs: map<FieldId, Verdict>)
    requires Verdicted(vs)
    requires forall f :: f in views ==> WellMarked(views[f])
    ensures var after := MarkForm(views, form, vs);
            after.Keys == views.Keys && forall f :: f in after ==> WellMarked(after[f])
  {
  }

  /** Submitting an unchanged form again marks its fields exactly as before. */
  lemma MarkFormIdempotent(views: map<FieldId, FieldView>, form: Form, vs: map<FieldId, Verdict>)
    requires Verdicted(vs)
    ensures MarkForm(MarkForm(views, form, vs), form, vs) == MarkForm(views, form, vs)
  {
    var once := MarkForm(views, form, vs);
    var twice := MarkForm(once, form, vs);
    forall f | f in twice
      ensures twice[f] == once[f]
    {
      if f in FieldsOf(form) && vs[f].Fail? {
        MarkingIdempotent(views[f], vs[f].message);
      }
    }
  }

  // ---------------------------------------------------------------------
  // Each field's chain of tests, as the handlers write it
  // ---------------------------------------------------------------------

  lemma FirstNameVerdict(values: map<FieldId, string>, termsChecked: bool, today: Today)
    requires Complete(values) && ValidToday(today)
    ensures Verdicts(values, termsChecked, today)[FirstName]
            == if Trim(values[FirstName]) == "" then Fail("El nombre es requerido", "Nombre requerido")
              else Pass
  {
    VerdictsAgree(FirstName, values, termsChecked, today);
  }

  lemma LastNameVerdict(values: map<FieldId, string>, termsChecked: bool, today: Today)
    requires Complete(values) && ValidToday(today)
    ensures Verdicts(values, termsChecked, today)[LastName]
            == if Trim(values[LastName]) == "" then Fail("El apellido es requerido", "Apellido requerido")
              else Pass
  {
    VerdictsAgree(LastName, values, termsChecked, today);
  }

  lemma EmailVerdict(values: map<FieldId, string>, termsChecked: bool, today: Today)
    requires Complete(values) && ValidToday(today)
    ensures Verdicts(values, termsChecked, today)[Email]
            == if Trim(values[Email]) == "" then Fail("El email es requerido", "Email requerido")
              else if !ValidateEmail(values[Email]) then Fail("Formato de email inválido", "Email inválido")
              else Pass
  {
    VerdictsAgree(Email, values, termsChecked, today);
  }

  lemma PasswordVerdict(values: map<FieldId, string>, termsChecked: bool, today: Today)
    requires Complete(values) && ValidToday(today)
    ensures Verdicts(values, termsChecked, today)[Password]
            == if values[Password] == "" then Fail("La contraseña es requerida", "Contraseña requerida")
              else if !ValidatePassword(values[Password]) then Fail("La contraseña debe tener al menos 8 caracteres", "Contraseña muy corta")
              else Pass
  {
    VerdictsAgree(Password, values, termsChecked, today);
  }

  lemma ConfirmPasswordVerdict(values: map<FieldId, string>, termsChecked: bool, today: Today)
    requires Complete(values) && ValidToday(today)
    ensures Verdicts(values, termsChecked, today)[ConfirmPassword]
            == if values[Password] != values[ConfirmPassword] then Fail("Las contraseñas no coinciden", "Contraseñas no coinciden")
              else Pass
  {
    VerdictsAgree(ConfirmPassword, values, termsChecked, today);
  }

  lemma AgeVerdict(values: map<FieldId, string>, termsChecked: bool, today: Today)
    requires Complete(values) && ValidToday(today)
    ensures Verdicts(values, termsChecked, today)[Age]
            == if values[Age] == "" then Fail("La edad es requerida", "Edad requerida")
              else if NumLess(ParseInt(values[Age]), 18) || NumGreater(ParseInt(values[Age]), 100) then Fail("La edad debe estar entre 18 y 100 años", "Edad inválida")
              else Pass
  {
    VerdictsAgree(Age, values, termsChecked, today);
  }

  lemma TermsVerdict(values: map<FieldId, string>, termsChecked: bool, today: Today)
    requires Complete(values) && ValidToday(today)
    ensures Verdicts(values, termsChecked, today)[Terms]
            == if !termsChecked then Fail("Debes aceptar los términos y condiciones", "Términos no aceptados")
              else Pass
  {
    VerdictsAgree(Terms, values, termsChecked, today);
  }

  lemma ContactNameVerdict(values: map<FieldId, string>, termsChecked: bool, today: Today)
    requires Complete(values) && ValidToday(today)
    ensures Verdicts(values, termsChecked, today)[ContactName]
            == if Trim(values[ContactName]) == "" then Fail("El nombre es requerido", "Nombre requerido")
              else Pass
  {
    VerdictsAgree(ContactName, values, termsChecked, today);
  }

  lemma ContactEmailVerdict(values: map<FieldId, string>, termsChecked: bool, today: Today)
    requires Complete(values) && ValidToday(today)
    ensures Verdicts(values, termsChecked, today)[ContactEmail]
            == if Trim(values[ContactEmail]) == "" then Fail("El email es requerido", "Email requerido")
              else if !ValidateEmail(values[ContactEmail]) then Fail("Formato de email inválido", "Email inválido")
              else Pass
  {
    VerdictsAgree(ContactEmail, values, termsChecked, today);
  }

  lemma SubjectVerdict(values: map<FieldId, string>, termsChecked: bool, today: Today)
    requires Complete(values) && ValidToday(today)
    ensures Verdicts(values, termsChecked, today)[Subject]
            == if values[Subject] == "" then Fail("Debes seleccionar un asunto", "Asunto requerido")
              else Pass
  {
    VerdictsAgree(Subject, values, termsChecked, today);
  }

  lemma MessageVerdict(values: map<FieldId, string>, termsChecked: bool, today: Today)
    requires Complete(values) && ValidToday(today)
    ensures Verdicts(values, termsChecked, today)[Message]
            == if Trim(values[Message]) == "" then Fail("El mensaje es requerido", "Mensaje requerido")
              else if |values[Message]| < 10 then Fail("El mensaje debe tener al menos 10 caracteres", "Mensaje muy corto")
              else Pass
  {
    VerdictsAgree(Message, values, termsChecked, today);
  }

  lemma CardNumberVerdict(values: map<FieldId, string>, termsChecked: bool, today: Today)
    requires Complete(values) && ValidToday(today)
    ensures Verdicts(values, termsChecked, today)[CardNumber]
            == if Trim(values[CardNumber]) == "" then Fail("El número de tarjeta es requerido", "Número de tarjeta requerido")
              else if !CardNumberValid(values[CardNumber]) then Fail("Número de tarjeta inválido", "Número de tarjeta inválido")
              else Pass
  {
    VerdictsAgree(CardNumber, values, termsChecked, today);
  }

  lemma ExpiryDateVerdict(values: map<FieldId, string>, termsChecked: bool, today: Today)
    requires Complete(values) && ValidToday(today)
    ensures Verdicts(values, termsChecked, today)[ExpiryDate]
            == if Trim(values[ExpiryDate]) == "" then Fail("La fecha de vencimiento es requerida", "Fecha de vencimiento requerida")
              else if !ValidateExpiryDate(values[ExpiryDate], today.year, today.month) then Fail("Fecha de vencimiento inválida o expirada", "Fecha de vencimiento inválida")
              else Pass
  {
    VerdictsAgree(ExpiryDate, values, termsChecked, today);
  }

  lemma CvvVerdict(values: map<FieldId, string>, termsChecked: bool, today: Today)
    requires Complete(values) && ValidToday(today)
    ensures Verdicts(values, termsChecked, today)[Cvv]
            == if Trim(values[Cvv]) == "" then Fail("El CVV es requerido", "CVV requerido")
              else if !ValidateCVV(values[Cvv]) then Fail("CVV inválido (3-4 dígitos)", "CVV inválido")
              else Pass
  {
    VerdictsAgree(Cvv, values, termsChecked, today);
  }

  lemma CardNameVerdict(values: map<FieldId, string>, termsChecked: bool, today: Today)
    requires Complete(values) && ValidToday(today)
    ensures Verdicts(values, termsChecked, today)[CardName]
            == if Trim(values[CardName]) == "" then Fail("El nombre en la tarjeta es requerido", "Nombre en tarjeta requerido")
              else Pass
  {
    VerdictsAgree(CardName, values, termsChecked, today);
  }

  lemma BillingAddressVerdict(values: map<FieldId, string>, termsChecked: bool, today: Today)
    requires Complete(values) && ValidToday(today)
    ensures Verdicts(values, termsChecked, today)[BillingAddress]
            == if Trim(values[BillingAddress]) == "" then Fail("La dirección de facturación es requerida", "Dirección requerida")
              else Pass
  {
    VerdictsAgree(BillingAddress, values, termsChecked, today);
  }

  // ---------------------------------------------------------------------
  // The `errors` list and the summary
  // ---------------------------------------------------------------------

  /** The fields among `fs` that fail, in order. */
  function Failing(fs: seq<FieldId>, vs: map<FieldId, Verdict>): (r: seq<FieldId>)
    requires Verdicted(vs)
    ensures |r| <= |fs|
    decreases |fs|
  {
    if fs == [] then []
    else
      var last := fs[|fs| - 1];
      Failing(fs[..|fs| - 1], vs) + (if vs[last].Fail? then [last] else [])
  }

  /** The failing fields are exactly the fields whose verdict is a failure. */
  lemma {:induction false} FailingMembers(fs: seq<FieldId>, vs: map<FieldId, Verdict>)
    requires Verdicted(vs)
    ensures forall f :: f in Failing(fs, vs) <==> f in fs && vs[f].Fail?
    decreases |fs|
  {
    if fs != [] {
      FailingMembers(fs[..|fs| - 1], vs);
      assert fs == fs[..|fs| - 1] + [fs[|fs| - 1]];
    }
  }

  /** The `errors` list a handler builds: one entry per failing field, in order. */
  function Entries(fs: seq<FieldId>, vs: map<FieldId, Verdict>): (r: seq<string>)
    requires Verdicted(vs)
    ensures |r| == |Failing(fs, vs)|
    decreases |fs|
  {
    if fs == [] then []
    else
      var last := fs[|fs| - 1];
      Entries(fs[..|fs| - 1], vs) + (if vs[last].Fail? then [vs[last].entry] else [])
  }

  /** Checking one more field appends it, and its entry, when it fails. */
  lemma FailingSnoc(fs: seq<FieldId>, f: FieldId, vs: map<FieldId, Verdict>)
    requires Verdicted(vs)
    ensures Failing(fs + [f], vs) == Failing(fs, vs) + (if vs[f].Fail? then [f] else [])
    ensures Entries(fs + [f], vs) == Entries(fs, vs) + (if vs[f].Fail? then [vs[f].entry] else [])
  {
    assert (fs + [f])[..|fs|] == fs;
  }

  /** Checking two runs of fields one after the other fails on the failing
      fields of the first run, then on those of the second. */
  lemma {:induction false} FailingAppend(a: seq<FieldId>, b: seq<FieldId>, vs: map<FieldId, Verdict>)
    requires Verdicted(vs)
    ensures Failing(a + b, vs) == Failing(a, vs) + Failing(b, vs)
    decreases |b|
  {
    if b == [] {
      assert a + b == a;
    } else {
      var init, last := b[..|b| - 1], b[|b| - 1];
      var tail := if vs[last].Fail? then [last] else [];
      FailingAppend(a, init, vs);
      assert (a + b)[..|a + b| - 1] == a + init;
      assert (a + b)[|a + b| - 1] == last;
      assert Failing(a + b, vs) == Failing(a + init, vs) + tail;
      assert Failing(b, vs) == Failing(init, vs) + tail;
    }
  }

  /** When every field of `fs` fails, all of them are reported, in order. */
  lemma {:induction false} FailingAll(fs: seq<FieldId>, vs: map<FieldId, Verdict>)
    requires Verdicted(vs)
    requires forall i :: 0 <= i < |fs| ==> vs[fs[i]].Fail?
    ensures Failing(fs, vs) == fs
    decreases |fs|
  {
    if fs != [] {
      FailingAll(fs[..|fs| - 1], vs);
      assert fs[..|fs| - 1] + [fs[|fs| - 1]] == fs;
    }
  }

  /** The fields among `fs` whose view is marked `error`, in order. */
  function ErrorFields(views: map<FieldId, FieldView>, fs: seq<FieldId>): (r: seq<FieldId>)
    requires forall f :: f in fs ==> f in views
    ensures forall f :: f in r <==> f in fs && views[f].error
    decreases |fs|
  {
    if fs == [] then []
    else
      var last := fs[|fs| - 1];
      assert fs == fs[..|fs| - 1] + [last];
      ErrorFields(views, fs[..|fs| - 1]) + (if views[last].error then [last] else [])
  }

  lemma {:induction false} ErrorFieldsAreFailing(views: map<FieldId, FieldView>, fs: seq<FieldId>, marked: seq<FieldId>,
                                                 vs: map<FieldId, Verdict>)
    requires Verdicted(vs)
    requires forall f :: f in fs ==> f in views && f in marked
    ensures ErrorFields(MarkFields(views, marked, vs), fs) == Failing(fs, vs)
    decreases |fs|
  {
    if fs != [] {
      ErrorFieldsAreFailing(views, fs[..|fs| - 1], marked, vs);
    }
  }

  /** The count a handler reports is the number of its form's fields that
      it leaves marked `error`, and they are exactly its failing fields. */
  lemma ErrorCountMatchesMarks(views: map<FieldId, FieldView>, form: Form, vs: map<FieldId, Verdict>)
    requires Verdicted(vs)
    requires forall f :: f in views
    ensures var after := MarkForm(views, form, vs);
            ErrorFields(after, FieldsOf(form)) == Failing(FieldsOf(form), vs)
            && |Entries(FieldsOf(form), vs)| == |ErrorFields(after, FieldsOf(form))|
  {
    ErrorFieldsAreFailing(views, FieldsOf(form), FieldsOf(form), vs);
  }

  /** The summary `showResult('error', ...)` displays for `n` errors: a fixed
      prefix, the count in decimal, then a fixed sentence. */
  function ErrorSummary(n: nat): (s: string)
    ensures |s| > 15 && s[..15] == "Se encontraron "
    ensures s[|s| - 1] == '.'
  {
    "Se encontraron " + NatToString(n) + " " + "errores. Por favor, corrígelos antes de continuar."
  }

  /** The summary names the count: its prefix is fixed and `parseInt` of the
      rest reads `n` back, so two different counts never give the same text. */
  lemma ErrorSummaryReadsBack(n: nat)
    ensures ErrorSummary(n)[..15] == "Se encontraron "
    ensures ParseInt(ErrorSummary(n)[15..]) == Some(n)
  {
    var digits := NatToString(n);
    var rest := " " + "errores. Por favor, corrígelos antes de continuar.";
    assert ErrorSummary(n) == "Se encontraron " + (digits + rest);
    assert ErrorSummary(n)[15..] == digits + rest;
    NatToStringRoundTrip(n);
    assert rest[0] == ' ';
    ParseIntDigitsThenSpace(digits, rest);
  }

  /** Different counts give different summaries, and no summary is the
      success message of any form. */
  lemma ResultMessagesDiffer(n: nat, m: nat, form: Form)
    ensures ErrorSummary(n) == ErrorSummary(m) ==> n == m
    ensures ErrorSummary(n) != SuccessMessage(form)
  {
    ErrorSummaryReadsBack(n);
    ErrorSummaryReadsBack(m);
  }

  /** The message a successful submission shows; it never starts like an
      error summary. */
  function SuccessMessage(form: Form): (m: string)
    ensures |m| > 15 && m[..15] != "Se encontraron "
  {
    var m := match form
      case Registration => "Registro " + "exitoso! Bienvenido a nuestra plataforma."
      case Contact => "Mensaje " + "enviado exitosamente. Te responderemos pronto."
      case Checkout => "Pago " + "procesado exitosamente. ¡Gracias por tu compra!";
    assert m[..15][0] in {'R', 'M', 'P'};
    m
  }

  // ---------------------------------------------------------------------
  // Scenarios
  // ---------------------------------------------------------------------

  /** Every text field empty. */
  const EmptyValues: map<FieldId, string> := map f: FieldId | f != Terms :: ""

  /** On an untouched page every field but the confirmation reports its
      "required" failure. */
  lemma EmptyFieldIsMissing(f: FieldId, today: Today)
    requires ValidToday(today) && f != ConfirmPassword
    ensures Check(f, EmptyValues, false, today) == Required(f)
  {
    if f != Terms {
      assert EmptyValues[f] == "";
      assert TrimStart("") == "";
    }
  }

  /** On an untouched page the verdict map holds every field's "required"
      failure, and a pass for the confirmation. */
  lemma EmptyVerdicts(today: Today)
    requires ValidToday(today)
    ensures var vs := Verdicts(EmptyValues, false, today);
            Verdicted(vs)
            && (forall f :: f != ConfirmPassword ==> vs[f] == Required(f))
            && vs[ConfirmPassword] == Pass
  {
    var vs := Verdicts(EmptyValues, false, today);
    forall f | f != ConfirmPassword
      ensures vs[f] == Required(f)
    {
      VerdictsAgree(f, EmptyValues, false, today);
      EmptyFieldIsMissing(f, today);
    }
    VerdictsAgree(ConfirmPassword, EmptyValues, false, today);
    assert EmptyValues[Password] == EmptyValues[ConfirmPassword];
  }

  /** Any run of fields other than the confirmation fails everywhere on an
      untouched page. */
  lemma EmptyFieldsFail(fs: seq<FieldId>, today: Today)
    requires ValidToday(today) && ConfirmPassword !in fs
    ensures Verdicted(Verdicts(EmptyValues, false, today))
    ensures Failing(fs, Verdicts(EmptyValues, false, today)) == fs
  {
    var vs := Verdicts(EmptyValues, false, today);
    EmptyVerdicts(today);
    FailingAll(fs, vs);
  }

  /** Submitting the untouched registration form fails on six fields (each
      with its "required" message, as `EmptyVerdicts` states): the two empty
      passwords agree, so the confirmation passes. */
  lemma EmptyRegistrationFails(today: Today)
    requires ValidToday(today)
    ensures Verdicted(Verdicts(EmptyValues, false, today))
    ensures Failing(FieldsOf(Registration), Verdicts(EmptyValues, false, today))
            == [FirstName, LastName, Email, Password, Age, Terms]
  {
    EmptyVerdicts(today);
    RegistrationFailures(Verdicts(EmptyValues, false, today));
  }

  /** When every registration field but the confirmation fails and the
      confirmation passes, the handler reports those six fields in order. */
  lemma RegistrationFailures(vs: map<FieldId, Verdict>)
    requires Verdicted(vs) && vs[ConfirmPassword].Pass?
    requires forall f :: f != ConfirmPassword && FormOf(f) == Registration ==> vs[f].Fail?
    ensures Failing(FieldsOf(Registration), vs) == [FirstName, LastName, Email, Password, Age, Terms]
  {
    RegistrationFailingParts(vs);
    FailingAll([FirstName, LastName, Email, Password], vs);
    FailingAll([Age, Terms], vs);
    assert [ConfirmPassword][..0] == [];
  }

  /** The registration handler's failures are those of the four fields
      before the confirmation, then the confirmation's, then those of the
      age and the checkbox. */
  lemma RegistrationFailingParts(vs: map<FieldId, Verdict>)
    requires Verdicted(vs)
    ensures Failing(FieldsOf(Registration), vs)
            == Failing([FirstName, LastName, Email, Password], vs) + Failing([ConfirmPassword], vs)
               + Failing([Age, Terms], vs)
  {
    var names := [FirstName, LastName, Email, Password];
    var confirmation := [ConfirmPassword];
    var rest := [Age, Terms];
    assert FieldsOf(Registration) == names + confirmation + rest;
    FailingAppend(names, confirmation, vs);
    FailingAppend(names + confirmation, rest, vs);
  }

  /** Submitting the untouched contact form fails on all four fields. */
  lemma EmptyContactFails(today: Today)
    requires ValidToday(today)
    ensures Verdicted(Verdicts(EmptyValues, false, today))
    ensures Failing(FieldsOf(Contact), Verdicts(EmptyValues, false, today)) == FieldsOf(Contact)
  {
    EmptyFieldsFail(FieldsOf(Contact), today);
  }

  /** Submitting the untouched checkout form fails on all five fields. */
  lemma EmptyCheckoutFails(today: Today)
    requires ValidToday(today)
    ensures Verdicted(Verdicts(EmptyValues, false, today))
    ensures Failing(FieldsOf(Checkout), Verdicts(EmptyValues, false, today)) == FieldsOf(Checkout)
  {
    EmptyFieldsFail(FieldsOf(Checkout), today);
  }
}
