/** The `FormValidator` object of the demo page as a state machine: the text
    of every field, the classes and messages the handlers leave on them, the
    active tab, the result banner, the message counter, the submit buttons
    and the submissions waiting on their simulated network delay. Each
    listener and each method of the object is a method here that changes
    exactly the state the browser would. */
module App {
  import opened JsText
  import opened Validators
  import opened Inputs
  import opened Presenter
  import opened Forms

  datatype ResultKind = Success | Error

  /** The text of `#resultMessage` and its `success` or `error` class. */
  datatype Banner = Banner(kind: ResultKind, message: string)

  /** A submit button: its text, its `disabled` flag and its `loading` class. */
  datatype Button = Button(text: string, disabled: bool, loading: bool)

  /** A submission waiting on its 2000 ms delay: the button text to put
      back and the message to show once the delay is over. */
  datatype Pending = Pending(originalText: string, successMessage: string)

  /** The text of a submit button while its submission is pending. */
  const ProcessingLabel: string := "Procesando..."

  /** Every field but the checkbox has a text, and every field a view
      whose classes and message agree. */
  predicate FieldsOk(values: map<FieldId, string>, views: map<FieldId, FieldView>) {
    (forall f :: f in values <==> f != Terms)
    && Complete(values)
    && (forall f :: f in views && WellMarked(views[f]))
  }

  /** Exactly one tab button and its panel are active: those of `active`. */
  predicate TabsOk(tabActive: map<Form, bool>, panelActive: map<Form, bool>, active: Form) {
    (forall t :: t in tabActive && t in panelActive)
    && (forall t :: tabActive[t] <==> t == active)
    && (forall t :: panelActive[t] <==> t == active)
  }

  /** Once every tab and panel is inactive, activating those of `target`
      leaves exactly them active. */
  lemma ActivateOne(tabActive: map<Form, bool>, panelActive: map<Form, bool>, target: Form)
    requires forall t :: t in tabActive && t in panelActive && !tabActive[t] && !panelActive[t]
    ensures TabsOk(tabActive[target := true], panelActive[target := true], target)
  {
  }

  /** A button is disabled, loading and reads "Procesando..." exactly while
      its form's submission is pending, and otherwise shows its label, which
      the pending submission remembers. */
  predicate ButtonAgrees(button: Button, p: Option<Pending>, caption: string) {
    match p
    case None => button == Button(caption, false, false)
    case Some(q) => button == Button(ProcessingLabel, true, true) && q.originalText == caption
  }

  predicate ButtonsOk(buttons: map<Form, Button>, pending: map<Form, Option<Pending>>, labels: map<Form, string>) {
    forall t :: t in buttons && t in pending && t in labels && ButtonAgrees(buttons[t], pending[t], labels[t])
  }

  /** `form.reset()` on each form of `forms`: the fields of those forms
      get their markup default, the empty text. */
  function ResetValues(values: map<FieldId, string>, forms: seq<Form>): map<FieldId, string> {
    map f | f in values :: if FormOf(f) in forms then "" else values[f]
  }

  /** The marks and messages of the fields of `forms` removed. */
  function ResetViews(views: map<FieldId, FieldView>, forms: seq<Form>): map<FieldId, FieldView> {
    map f | f in views :: if FormOf(f) in forms then ResetView(views[f]) else views[f]
  }

  /** The marks and messages of the fields `fs` removed. */
  function ResetFieldViews(views: map<FieldId, FieldView>, fs: seq<FieldId>): map<FieldId, FieldView> {
    map f | f in views :: if f in fs then ResetView(views[f]) else views[f]
  }

  /** Resetting the views of one more field is one map update. */
  lemma ResetFieldStep(views: map<FieldId, FieldView>, done: seq<FieldId>, f: FieldId)
    requires f in views && f !in done
    ensures f in ResetFieldViews(views, done) && ResetFieldViews(views, done)[f] == views[f]
    ensures ResetFieldViews(views, done + [f]) == ResetFieldViews(views, done)[f := ResetView(views[f])]
  {
    var a, b := ResetFieldViews(views, done + [f]), ResetFieldViews(views, done)[f := ResetView(views[f])];
    forall g | g in a
      ensures a[g] == b[g]
    {
      assert g in done + [f] <==> g in done || g == f;
    }
  }

  /** Resetting the forms `a` and then the form `b` resets the forms `a + [b]`. */
  lemma ResetOneMore(values: map<FieldId, string>, views: map<FieldId, FieldView>, a: seq<Form>, b: Form)
    ensures ResetValues(ResetValues(values, a), [b]) == ResetValues(values, a + [b])
    ensures ResetViews(ResetViews(views, a), [b]) == ResetViews(views, a + [b])
  {
    var v1, v2 := ResetViews(ResetViews(views, a), [b]), ResetViews(views, a + [b]);
    forall f | f in v1
      ensures v1[f] == v2[f]
    {
      if FormOf(f) in a && FormOf(f) == b {
        assert ResetView(ResetView(views[f])) == ResetView(views[f]);
      }
    }
  }

  /** Going over all fields of `form` resets exactly that form's views. */
  lemma ResetFormViews(views: map<FieldId, FieldView>, form: Form)
    ensures ResetFieldViews(views, FieldsOf(form)) == ResetViews(views, [form])
  {
    FieldsOfPartition(form);
  }

  /** A reset keeps every text in place and every view well marked. */
  lemma ResetKeepsFieldsOk(values: map<FieldId, string>, views: map<FieldId, FieldView>, forms: seq<Form>)
    requires FieldsOk(values, views)
    ensures FieldsOk(ResetValues(values, forms), ResetViews(views, forms))
  {
  }

  /** Once all three forms are reset, every text is empty and no field is
      marked: each one reads as neutral. */
  lemma ResetEverything(values: map<FieldId, string>, views: map<FieldId, FieldView>)
    requires forall f :: f in values <==> f != Terms
    ensures ResetValues(values, AllForms) == EmptyValues
    ensures ResetViews(views, AllForms).Keys == views.Keys
    ensures forall f :: f in ResetViews(views, AllForms) ==>
              ResetViews(views, AllForms)[f] == ResetView(views[f])
              && StatusOf(ResetViews(views, AllForms)[f]) == Neutral
  {
    AllFormsListed();
  }

  /** How a submit handler ends after finding `n` errors: with none, the
      form's submission is pending with the button's `caption` and the form's
      success message, and its button reads "Procesando...", disabled and
      loading; otherwise the banner reports the `n` errors. Apart from
      these, the results, buttons and pending submissions (`pending0`,
      `buttons0`, `result0`, `visible0` before) are as they were. */
  predicate Concluded(form: Form, n: nat, caption: string,
                      pending0: map<Form, Option<Pending>>, buttons0: map<Form, Button>,
                      result0: Option<Banner>, visible0: bool,
                      pending: map<Form, Option<Pending>>, buttons: map<Form, Button>,
                      result: Option<Banner>, visible: bool)
  {
    (n == 0 ==>
       pending == pending0[form := Some(Pending(caption, SuccessMessage(form)))]
       && buttons == buttons0[form := Button(ProcessingLabel, true, true)]
       && result == result0 && visible == visible0)
    && (n > 0 ==>
          result == Some(Banner(Error, ErrorSummary(n))) && visible
          && pending == pending0 && buttons == buttons0)
  }

  /** A prefix one element longer is the prefix followed by that element. */
  lemma TakeOneMore<T>(s: seq<T>, i: nat)
    requires i < |s|
    ensures s[..i + 1] == s[..i] + [s[i]]
  {
  }

  class FormValidator {
    /** The text of every field but the terms checkbox. */
    var values: map<FieldId, string>
    /** Whether the terms checkbox is ticked. */
    var termsChecked: bool
    /** The classes and error message of every field. */
    var views: map<FieldId, FieldView>
    /** The `active` class of each tab button and of each tab panel. */
    var tabActive: map<Form, bool>
    var panelActive: map<Form, bool>
    /** The tab the user last selected. */
    ghost var active: Form
    /** Whether `#results` is displayed, and what it last showed. */
    var resultVisible: bool
    var result: Option<Banner>
    /** The text of `#messageCount` and its colour. */
    var counter: nat
    var counterBand: CounterBand
    /** The submit button of each form, and its pending submission, if any. */
    var buttons: map<Form, Button>
    var pending: map<Form, Option<Pending>>
    /** The text each submit button has in the page's markup. */
    ghost var labels: map<Form, string>
    /** What `new Date()` currently yields. */
    var today: Today

    /** The state the page keeps between two events. */
    ghost predicate Valid()
      reads this
    {
      FieldsOk(values, views) && TabsOk(tabActive, panelActive, active)
      && ButtonsOk(buttons, pending, labels) && ValidToday(today)
    }

    /** The page as it loads: every field empty and unmarked, the tab the
        markup makes active, no result, the counter at zero, every button
        showing its label. */
    constructor (initial: Form, buttonLabels: map<Form, string>, now: Today)
      requires forall t :: t in buttonLabels
      requires ValidToday(now)
      ensures Valid() && active == initial && labels == buttonLabels && today == now
      ensures values == EmptyValues && !termsChecked
      ensures forall f :: views[f] == Pristine
      ensures !resultVisible && result == None && counter == 0 && counterBand == Normal
      ensures forall t :: pending[t] == None && buttons[t] == Button(buttonLabels[t], false, false)
    {
      values := EmptyValues;
      termsChecked := false;
      AllFieldsListed();
      AllFormsListed();
      views := map f | f in AllFields :: Pristine;
      tabActive := map t | t in AllForms :: t == initial;
      panelActive := map t | t in AllForms :: t == initial;
      active := initial;
      resultVisible := false;
      result := None;
      counter := 0;
      counterBand := Normal;
      buttons := map t | t in AllForms :: Button(buttonLabels[t], false, false);
      pending := map t | t in AllForms :: None;
      labels := buttonLabels;
      today := now;
    }

    /** The clock moves on: `new Date()` now yields `now`. */
    method ClockTick(now: Today)
      requires Valid() && ValidToday(now)
      modifies this`today
      ensures Valid() && today == now
    {
      today := now;
    }

    // -------------------------------------------------------------------
    // Tabs
    // -------------------------------------------------------------------

    /** A click on the tab button of `target`: `active` is removed from every
        tab and panel, put on the chosen ones, and the results are hidden.
        No field, button or submission changes. */
    method SelectTab(target: Form)
      requires Valid()
      modifies this`tabActive, this`panelActive, this`active, this`resultVisible
      ensures Valid() && active == target && !resultVisible
      ensures forall t :: (tabActive[t] <==> t == target) && (panelActive[t] <==> t == target)
    {
      DeactivateTabs();
      DeactivatePanels();
      ActivateOne(tabActive, panelActive, target);
      tabActive := tabActive[target := true];
      panelActive := panelActive[target := true];
      active := target;
      resultVisible := false;
    }

    /** The first loop of a tab click: every tab button loses `active`. */
    method DeactivateTabs()
      requires forall t :: t in tabActive
      modifies this`tabActive
      ensures forall t :: t in tabActive && !tabActive[t]
    {
      for i := 0 to |AllForms|
        invariant forall t :: t in tabActive
        invariant forall t :: t in AllForms[..i] ==> !tabActive[t]
      {
        TakeOneMore(AllForms, i);
        tabActive := tabActive[AllForms[i] := false];
      }
      assert AllForms[..|AllForms|] == AllForms;
      AllFormsListed();
    }

    /** The second loop of a tab click: every tab panel loses `active`. */
    method DeactivatePanels()
      requires forall t :: t in panelActive
      modifies this`panelActive
      ensures forall t :: t in panelActive && !panelActive[t]
    {
      for i := 0 to |AllForms|
        invariant forall t :: t in panelActive
        invariant forall t :: t in AllForms[..i] ==> !panelActive[t]
      {
        TakeOneMore(AllForms, i);
        panelActive := panelActive[AllForms[i] := false];
      }
      assert AllForms[..|AllForms|] == AllForms;
      AllFormsListed();
    }

    // -------------------------------------------------------------------
    // Typing
    // -------------------------------------------------------------------

    /** The user edits a field that has no listener of its own. */
    method Type(f: FieldId, text: string)
      requires Valid() && f !in {Terms, ConfirmPassword, Message, CardNumber, ExpiryDate, Cvv}
      modifies this`values
      ensures Valid() && values == old(values)[f := text]
    {
      values := values[f := text];
    }

    /** The user ticks or unticks the terms checkbox. */
    method SetTerms(checked: bool)
      requires Valid()
      modifies this`termsChecked
      ensures Valid() && termsChecked == checked
    {
      termsChecked := checked;
    }

    /** The user edits the confirmation: its listener checks it against the
        password at once. */
    method TypeConfirmation(text: string)
      requires Valid()
      modifies this`values, this`views
      ensures Valid() && values == old(values)[ConfirmPassword := text]
      ensures views == old(views)[ConfirmPassword := Marked(old(views)[ConfirmPassword],
                                                              Verdicts(values, termsChecked, today)[ConfirmPassword])]
    {
      values := values[ConfirmPassword := text];
      var _ := ValidatePasswordMatch();
    }

    /** The message listener: the counter shows the length of the message,
        red beyond 500 characters, orange beyond 400. */
    method TypeMessage(text: string)
      requires Valid()
      modifies this`values, this`counter, this`counterBand
      ensures Valid() && values == old(values)[Message := text]
      ensures counter == |text| && counterBand == Band(counter)
    {
      values := values[Message := text];
      var count := |text|;
      counter := count;
      if count > 500 {
        counterBand := Over;
      } else if count > 400 {
        counterBand := Warning;
      } else {
        counterBand := Normal;
      }
    }

    /** The card-number listener rewrites what was typed. */
    method TypeCardNumber(text: string)
      requires Valid()
      modifies this`values
      ensures Valid() && values == old(values)[CardNumber := FormatCardNumber(text)]
    {
      var value := KeepDigits(RemoveSpaces(text));
      var formatted := if value == [] then value else GroupsOfFour(value);
      values := values[CardNumber := formatted];
    }

    /** The expiry listener rewrites what was typed. */
    method TypeExpiry(text: string)
      requires Valid()
      modifies this`values
      ensures Valid() && values == old(values)[ExpiryDate := FormatExpiry(text)]
    {
      var value := KeepDigits(text);
      if |value| >= 2 {
        value := value[..2] + "/" + value[2..Min(4, |value|)];
      }
      values := values[ExpiryDate := value];
    }

    /** The CVV listener drops everything but digits. */
    method TypeCvv(text: string)
      requires Valid()
      modifies this`values
      ensures Valid() && values == old(values)[Cvv := FormatCvv(text)]
    {
      values := values[Cvv := KeepDigits(text)];
    }

    // -------------------------------------------------------------------
    // Marking fields
    // -------------------------------------------------------------------

    /** `showError`: the field is marked `error`, shows `message` and shakes. */
    method ShowError(f: FieldId, message: string)
      requires Valid() && message != ""
      modifies this`views
      ensures Valid() && views == old(views)[f := Presenter.ShowError(old(views)[f], message)]
    {
      views := views[f := Presenter.ShowError(views[f], message)];
    }

    /** `clearError`: the field is marked `valid` and its message emptied. */
    method ClearError(f: FieldId)
      requires Valid()
      modifies this`views
      ensures Valid() && views == old(views)[f := Presenter.ClearError(old(views)[f])]
    {
      views := views[f := Presenter.ClearError(views[f])];
    }

    /** The 500 ms timer `showError` starts has run out. */
    method ShakeElapsed(f: FieldId)
      requires Valid()
      modifies this`views
      ensures Valid() && views == old(views)[f := StopShake(old(views)[f])]
    {
      views := views[f := StopShake(views[f])];
    }

    /** `validatePasswordMatch`: the confirmation is marked as the
        registration handler's verdict on it says, and the answer is whether
        the two passwords agree. */
    method ValidatePasswordMatch() returns (ok: bool)
      requires Valid()
      modifies this`views
      ensures Valid()
      ensures ok <==> values[Password] == values[ConfirmPassword]
      ensures ok <==> Verdicts(values, termsChecked, today)[ConfirmPassword].Pass?
      ensures views == old(views)[ConfirmPassword := Marked(old(views)[ConfirmPassword],
                                                              Verdicts(values, termsChecked, today)[ConfirmPassword])]
    {
      ConfirmPasswordVerdict(values, termsChecked, today);
      if values[Password] != values[ConfirmPassword] {
        ShowError(ConfirmPassword, "Las contraseñas no coinciden");
        return false;
      } else {
        ClearError(ConfirmPassword);
        return true;
      }
    }

    // -------------------------------------------------------------------
    // Results and submissions
    // -------------------------------------------------------------------

    /** `showResult`: the banner shows `message` with the class of `kind`. */
    method ShowResult(kind: ResultKind, message: string)
      requires Valid()
      modifies this`result, this`resultVisible
      ensures Valid() && result == Some(Banner(kind, message)) && resultVisible
    {
      result := Some(Banner(kind, message));
      resultVisible := true;
    }

    /** The first half of `simulateSubmission`: the button remembers its
        text, reads "Procesando...", is disabled and shows `loading`; the
        2000 ms delay starts. */
    method SimulateSubmission(form: Form, successMessage: string)
      requires Valid() && pending[form].None?
      modifies this`buttons, this`pending
      ensures Valid()
      ensures pending == old(pending)[form := Some(Pending(old(buttons)[form].text, successMessage))]
      ensures buttons == old(buttons)[form := Button(ProcessingLabel, true, true)]
    {
      var originalText := buttons[form].text;
      buttons := buttons[form := Button(ProcessingLabel, true, true)];
      pending := pending[form := Some(Pending(originalText, successMessage))];
    }

    /** The second half of `simulateSubmission`, once the delay is over: the
        button gets its label back and is enabled again, and the success
        message is shown. */
    method CompleteSubmission(form: Form)
      requires Valid() && pending[form].Some?
      modifies this`buttons, this`pending, this`result, this`resultVisible
      ensures Valid()
      ensures buttons == old(buttons)[form := Button(labels[form], false, false)]
      ensures pending == old(pending)[form := None]
      ensures result == Some(Banner(Success, old(pending)[form].value.successMessage)) && resultVisible
    {
      var p := pending[form].value;
      buttons := buttons[form := Button(p.originalText, false, false)];
      pending := pending[form := None];
      ShowResult(Success, p.successMessage);
    }

    /** The end of every submit handler: with no error the submission is
        simulated, otherwise the number of errors is reported. */
    method Conclude(form: Form, errorCount: nat)
      requires Valid() && pending[form].None?
      modifies this`buttons, this`pending, this`result, this`resultVisible
      ensures Valid()
      ensures Concluded(form, errorCount, labels[form], old(pending), old(buttons), old(result), old(resultVisible),
                        pending, buttons, result, resultVisible)
    {
      if errorCount == 0 {
        SimulateSubmission(form, SuccessMessage(form));
      } else {
        ShowResult(Error, ErrorSummary(errorCount));
      }
    }

    // -------------------------------------------------------------------
    // Submit handlers
    // -------------------------------------------------------------------

    /** What a handler does with one field once its tests have decided:
        `showError` and an entry pushed to `errors` on a failure,
        `clearError` on a pass. The ghost parameters record that the fields
        `done` were handled the same way before. */
    method Record(f: FieldId, verdict: Verdict, errors: seq<string>,
                  ghost start: map<FieldId, FieldView>, ghost done: seq<FieldId>, ghost vs: map<FieldId, Verdict>)
      returns (errors': seq<string>)
      requires Valid() && Verdicted(vs) && f in start && f !in done && vs[f] == verdict
      requires views == MarkFields(start, done, vs) && errors == Entries(done, vs)
      modifies this`views
      ensures Valid()
      ensures views == MarkFields(start, done + [f], vs) && errors' == Entries(done + [f], vs)
    {
      MarkStep(start, done, f, vs, views);
      FailingSnoc(done, f, vs);
      match verdict
      case Fail(message, entry) =>
        ShowError(f, message);
        errors' := errors + [entry];
      case Pass =>
        ClearError(f);
        errors' := errors;
    }

    /** The tests `handleRegistrationSubmit` runs on the first name. */
    method TestFirstName() returns (verdict: Verdict)
      requires Complete(values) && ValidToday(today)
      ensures verdict == Verdicts(values, termsChecked, today)[FirstName]
    {
      FirstNameVerdict(values, termsChecked, today);
      if Trim(values[FirstName]) == "" {
        verdict := Fail("El nombre es requerido", "Nombre requerido");
      } else {
        verdict := Pass;
      }
    }

    /** The tests `handleRegistrationSubmit` runs on the last name. */
    method TestLastName() returns (verdict: Verdict)
      requires Complete(values) && ValidToday(today)
      ensures verdict == Verdicts(values, termsChecked, today)[LastName]
    {
      LastNameVerdict(values, termsChecked, today);
      if Trim(values[LastName]) == "" {
        verdict := Fail("El apellido es requerido", "Apellido requerido");
      } else {
        verdict := Pass;
      }
    }

    /** The tests `handleRegistrationSubmit` runs on the registration e-mail. */
    method TestEmail() returns (verdict: Verdict)
      requires Complete(values) && ValidToday(today)
      ensures verdict == Verdicts(values, termsChecked, today)[Email]
    {
      EmailVerdict(values, termsChecked, today);
      if Trim(values[Email]) == "" {
        verdict := Fail("El email es requerido", "Email requerido");
      } else if !ValidateEmail(values[Email]) {
        verdict := Fail("Formato de email inválido", "Email inválido");
      } else {
        verdict := Pass;
      }
    }

    /** The tests `handleRegistrationSubmit` runs on the password. */
    method TestPassword() returns (verdict: Verdict)
      requires Complete(values) && ValidToday(today)
      ensures verdict == Verdicts(values, termsChecked, today)[Password]
    {
      PasswordVerdict(values, termsChecked, today);
      if values[Password] == "" {
        verdict := Fail("La contraseña es requerida", "Contraseña requerida");
      } else if !ValidatePassword(values[Password]) {
        verdict := Fail("La contraseña debe tener al menos 8 caracteres", "Contraseña muy corta");
      } else {
        verdict := Pass;
      }
    }

    /** The tests `handleRegistrationSubmit` runs on the confirmation (the test of `validatePasswordMatch`). */
    method TestConfirmPassword() returns (verdict: Verdict)
      requires Complete(values) && ValidToday(today)
      ensures verdict == Verdicts(values, termsChecked, today)[ConfirmPassword]
    {
      ConfirmPasswordVerdict(values, termsChecked, today);
      if values[Password] != values[ConfirmPassword] {
        verdict := Fail("Las contraseñas no coinciden", "Contraseñas no coinciden");
      } else {
        verdict := Pass;
      }
    }

    /** The tests `handleRegistrationSubmit` runs on the age. */
    method TestAge() returns (verdict: Verdict)
      requires Complete(values) && ValidToday(today)
      ensures verdict == Verdicts(values, termsChecked, today)[Age]
    {
      AgeVerdict(values, termsChecked, today);
      var ageValue := ParseInt(values[Age]);
      if values[Age] == "" {
        verdict := Fail("La edad es requerida", "Edad requerida");
      } else if NumLess(ageValue, 18) || NumGreater(ageValue, 100) {
        verdict := Fail("La edad debe estar entre 18 y 100 años", "Edad inválida");
      } else {
        verdict := Pass;
      }
    }

    /** The tests `handleRegistrationSubmit` runs on the terms checkbox. */
    method TestTerms() returns (verdict: Verdict)
      requires Complete(values) && ValidToday(today)
      ensures verdict == Verdicts(values, termsChecked, today)[Terms]
    {
      TermsVerdict(values, termsChecked, today);
      if !termsChecked {
        verdict := Fail("Debes aceptar los términos y condiciones", "Términos no aceptados");
      } else {
        verdict := Pass;
      }
    }

    /** The tests `handleContactSubmit` runs on the contact name. */
    method TestContactName() returns (verdict: Verdict)
      requires Complete(values) && ValidToday(today)
      ensures verdict == Verdicts(values, termsChecked, today)[ContactName]
    {
      ContactNameVerdict(values, termsChecked, today);
      if Trim(values[ContactName]) == "" {
        verdict := Fail("El nombre es requerido", "Nombre requerido");
      } else {
        verdict := Pass;
      }
    }

    /** The tests `handleContactSubmit` runs on the contact e-mail. */
    method TestContactEmail() returns (verdict: Verdict)
      requires Complete(values) && ValidToday(today)
      ensures verdict == Verdicts(values, termsChecked, today)[ContactEmail]
    {
      ContactEmailVerdict(values, termsChecked, today);
      if Trim(values[ContactEmail]) == "" {
        verdict := Fail("El email es requerido", "Email requerido");
      } else if !ValidateEmail(values[ContactEmail]) {
        verdict := Fail("Formato de email inválido", "Email inválido");
      } else {
        verdict := Pass;
      }
    }

    /** The tests `handleContactSubmit` runs on the subject. */
    method TestSubject() returns (verdict: Verdict)
      requires Complete(values) && ValidToday(today)
      ensures verdict == Verdicts(values, termsChecked, today)[Subject]
    {
      SubjectVerdict(values, termsChecked, today);
      if values[Subject] == "" {
        verdict := Fail("Debes seleccionar un asunto", "Asunto requerido");
      } else {
        verdict := Pass;
      }
    }

    /** The tests `handleContactSubmit` runs on the message. */
    method TestMessage() returns (verdict: Verdict)
      requires Complete(values) && ValidToday(today)
      ensures verdict == Verdicts(values, termsChecked, today)[Message]
    {
      MessageVerdict(values, termsChecked, today);
      if Trim(values[Message]) == "" {
        verdict := Fail("El mensaje es requerido", "Mensaje requerido");
      } else if |values[Message]| < 10 {
        verdict := Fail("El mensaje debe tener al menos 10 caracteres", "Mensaje muy corto");
      } else {
        verdict := Pass;
      }
    }

    /** The tests `handleCheckoutSubmit` runs on the card number. */
    method TestCardNumber() returns (verdict: Verdict)
      requires Complete(values) && ValidToday(today)
      ensures verdict == Verdicts(values, termsChecked, today)[CardNumber]
    {
      CardNumberVerdict(values, termsChecked, today);
      if Trim(values[CardNumber]) == "" {
        verdict := Fail("El número de tarjeta es requerido", "Número de tarjeta requerido");
      } else {
        var cardOk := ValidateCardNumber(values[CardNumber]);
        if !cardOk {
          verdict := Fail("Número de tarjeta inválido", "Número de tarjeta inválido");
        } else {
          verdict := Pass;
        }
      }
    }

    /** The tests `handleCheckoutSubmit` runs on the expiry date. */
    method TestExpiryDate() returns (verdict: Verdict)
      requires Complete(values) && ValidToday(today)
      ensures verdict == Verdicts(values, termsChecked, today)[ExpiryDate]
    {
      ExpiryDateVerdict(values, termsChecked, today);
      if Trim(values[ExpiryDate]) == "" {
        verdict := Fail("La fecha de vencimiento es requerida", "Fecha de vencimiento requerida");
      } else if !ValidateExpiryDate(values[ExpiryDate], today.year, today.month) {
        verdict := Fail("Fecha de vencimiento inválida o expirada", "Fecha de vencimiento inválida");
      } else {
        verdict := Pass;
      }
    }

    /** The tests `handleCheckoutSubmit` runs on the CVV. */
    method TestCvv() returns (verdict: Verdict)
      requires Complete(values) && ValidToday(today)
      ensures verdict == Verdicts(values, termsChecked, today)[Cvv]
    {
      CvvVerdict(values, termsChecked, today);
      if Trim(values[Cvv]) == "" {
        verdict := Fail("El CVV es requerido", "CVV requerido");
      } else if !ValidateCVV(values[Cvv]) {
        verdict := Fail("CVV inválido (3-4 dígitos)", "CVV inválido");
      } else {
        verdict := Pass;
      }
    }

    /** The tests `handleCheckoutSubmit` runs on the name on the card. */
    method TestCardName() returns (verdict: Verdict)
      requires Complete(values) && ValidToday(today)
      ensures verdict == Verdicts(values, termsChecked, today)[CardName]
    {
      CardNameVerdict(values, termsChecked, today);
      if Trim(values[CardName]) == "" {
        verdict := Fail("El nombre en la tarjeta es requerido", "Nombre en tarjeta requerido");
      } else {
        verdict := Pass;
      }
    }

    /** The tests `handleCheckoutSubmit` runs on the billing address. */
    method TestBillingAddress() returns (verdict: Verdict)
      requires Complete(values) && ValidToday(today)
      ensures verdict == Verdicts(values, termsChecked, today)[BillingAddress]
    {
      BillingAddressVerdict(values, termsChecked, today);
      if Trim(values[BillingAddress]) == "" {
        verdict := Fail("La dirección de facturación es requerida", "Dirección requerida");
      } else {
        verdict := Pass;
      }
    }

    /** The tests the submit handler of `f`'s form runs on `f`. */
    method TestField(f: FieldId) returns (verdict: Verdict)
      requires Complete(values) && ValidToday(today)
      ensures verdict == Verdicts(values, termsChecked, today)[f]
    {
      match f
      case FirstName => verdict := TestFirstName();
      case LastName => verdict := TestLastName();
      case Email => verdict := TestEmail();
      case Password => verdict := TestPassword();
      case ConfirmPassword => verdict := TestConfirmPassword();
      case Age => verdict := TestAge();
      case Terms => verdict := TestTerms();
      case ContactName => verdict := TestContactName();
      case ContactEmail => verdict := TestContactEmail();
      case Subject => verdict := TestSubject();
      case Message => verdict := TestMessage();
      case CardNumber => verdict := TestCardNumber();
      case ExpiryDate => verdict := TestExpiryDate();
      case Cvv => verdict := TestCvv();
      case CardName => verdict := TestCardName();
      case BillingAddress => verdict := TestBillingAddress();
    }

    /** One field's step of a submit handler: its tests, then its marking. */
    method CheckField(f: FieldId, errors: seq<string>,
                      ghost start: map<FieldId, FieldView>, ghost done: seq<FieldId>, ghost vs: map<FieldId, Verdict>)
      returns (errors': seq<string>)
      requires Valid() && vs == Verdicts(values, termsChecked, today) && f in start && f !in done
      requires views == MarkFields(start, done, vs) && errors == Entries(done, vs)
      modifies this`views
      ensures Valid()
      ensures views == MarkFields(start, done + [f], vs) && errors' == Entries(done + [f], vs)
    {
      var verdict := TestField(f);
      errors' := Record(f, verdict, errors, start, done, vs);
    }

    /** The fields `fields` checked one after the other, from the views
        `start` the handler began with and under the verdicts `vs`. */
    method CheckFields(fields: seq<FieldId>, ghost start: map<FieldId, FieldView>, ghost vs: map<FieldId, Verdict>)
      returns (errors: seq<string>)
      requires Valid() && vs == Verdicts(values, termsChecked, today) && views == start
      requires forall i :: 0 <= i < |fields| ==> fields[i] !in fields[..i]
      modifies this`views
      ensures Valid()
      ensures views == MarkFields(start, fields, vs) && errors == Entries(fields, vs)
    {
      MarkFieldsNone(start, vs);
      errors := [];
      for i := 0 to |fields|
        invariant Valid()
        invariant views == MarkFields(start, fields[..i], vs)
        invariant errors == Entries(fields[..i], vs)
      {
        var f := fields[i];
        ghost var done := fields[..i];
        TakeOneMore(fields, i);
        errors := CheckField(f, errors, start, done, vs);
      }
      assert fields[..|fields|] == fields;
    }

    /** The body of a submit handler: the tests of every field of `form`
        run in the order of the page; each failing field is marked with its
        message and its entry is pushed to `errors`, each passing one is
        marked `valid`. Every field of the other forms is left as it was. */
    method CheckForm(form: Form) returns (errors: seq<string>)
      requires Valid()
      modifies this`views
      ensures Valid()
      ensures views == MarkForm(old(views), form, Verdicts(values, termsChecked, today))
      ensures errors == Entries(FieldsOf(form), Verdicts(values, termsChecked, today))
      ensures |errors| == |Failing(FieldsOf(form), Verdicts(values, termsChecked, today))|
    {
      FieldsOfPartition(form);
      errors := CheckFields(FieldsOf(form), views, Verdicts(values, termsChecked, today));
    }

    /** `handleRegistrationSubmit`, `handleContactSubmit` and
        `handleCheckoutSubmit`: the form's fields are checked and marked;
        with no error the submission starts, otherwise the number of failing
        fields is reported. */
    method HandleSubmit(form: Form)
      requires Valid() && pending[form].None?
      modifies this`views, this`buttons, this`pending, this`result, this`resultVisible
      ensures Valid()
      ensures views == MarkForm(old(views), form, Verdicts(values, termsChecked, today))
      ensures Concluded(form, |Failing(FieldsOf(form), Verdicts(values, termsChecked, today))|, labels[form],
                        old(pending), old(buttons), old(result), old(resultVisible),
                        pending, buttons, result, resultVisible)
    {
      var errors := CheckForm(form);
      Conclude(form, |errors|);
    }

    // -------------------------------------------------------------------
    // Reset
    // -------------------------------------------------------------------

    /** The two loops of `resetAllForms` over one form's inputs and error
        elements: every field of `form` loses `error` and `valid` and its
        message; its shake class, and every other form, are left alone. */
    method ClearMarks(form: Form)
      requires forall f :: f in views
      modifies this`views
      ensures views == ResetViews(old(views), [form])
    {
      var fields := FieldsOf(form);
      ghost var start := views;
      for i := 0 to |fields|
        invariant views == ResetFieldViews(start, fields[..i])
      {
        var f := fields[i];
        TakeOneMore(fields, i);
        FieldOfForm(form, i);
        ResetFieldStep(start, fields[..i], f);
        views := views[f := ResetView(views[f])];
      }
      assert fields[..|fields|] == fields;
      ResetFormViews(start, form);
    }

    /** One form of `resetAllForms`: `form.reset()` empties its texts and
        unticks its checkbox, then every one of its fields loses `error`
        and `valid` and its message. Every other form is left as it was. */
    method ResetForm(form: Form)
      requires Valid()
      modifies this`values, this`termsChecked, this`views
      ensures Valid()
      ensures values == ResetValues(old(values), [form])
      ensures termsChecked == (old(termsChecked) && form != Registration)
      ensures views == ResetViews(old(views), [form])
    {
      ResetKeepsFieldsOk(values, views, [form]);
      values := ResetValues(values, [form]);
      if form == Registration {
        termsChecked := false;
      }
      ClearMarks(form);
    }

    /** The loop of `resetAllForms` over the forms `forms`, one after the other. */
    method ResetForms(forms: seq<Form>)
      requires Valid()
      modifies this`values, this`termsChecked, this`views
      ensures Valid()
      ensures values == ResetValues(old(values), forms) && views == ResetViews(old(views), forms)
      ensures termsChecked == (old(termsChecked) && Registration !in forms)
    {
      for i := 0 to |forms|
        invariant Valid()
        invariant values == ResetValues(old(values), forms[..i])
        invariant views == ResetViews(old(views), forms[..i])
        invariant termsChecked == (old(termsChecked) && Registration !in forms[..i])
      {
        TakeOneMore(forms, i);
        ResetOneMore(old(values), old(views), forms[..i], forms[i]);
        ResetForm(forms[i]);
      }
      assert forms[..|forms|] == forms;
    }

    /** `resetAllForms`: every form is reset, the results are hidden and the
        counter reads 0. Tabs, buttons and pending submissions are left as
        they were. */
    method ResetAllForms()
      requires Valid()
      modifies this`values, this`termsChecked, this`views, this`resultVisible, this`counter
      ensures Valid()
      ensures values == EmptyValues && !termsChecked
      ensures views.Keys == old(views).Keys
      ensures forall f :: f in views ==> views[f] == ResetView(old(views)[f]) && StatusOf(views[f]) == Neutral
      ensures !resultVisible && counter == 0
    {
      ghost var startValues, startViews := values, views;
      ResetForms(AllForms);
      ResetEverything(startValues, startViews);
      resultVisible := false;
      counter := 0;
    }
  }
}
