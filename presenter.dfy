/** How the form validator shows a field's state: the `error`, `valid` and
    `shake` classes of the input element and the text of the error element
    next to it. `showError` and `clearError` are the only writers during
    validation; the shake timer and the reset button are the others. */
module Presenter {

  /** One input element with its error element. */
  datatype FieldView = FieldView(error: bool, valid: bool, shake: bool, message: string)

  /** A field as the page loads: no class, no message. */
  const Pristine := FieldView(false, false, false, "")

  /** What a reader of the page sees of a field. */
  datatype Status = Neutral | Invalid(message: string) | Valid

  /** The classes and the message agree: a field is never both `error` and
      `valid`, and it shows a message exactly when it is marked `error`. */
  predicate WellMarked(v: FieldView) {
    !(v.error && v.valid) && (v.error <==> v.message != "")
  }

  function StatusOf(v: FieldView): (s: Status)
    ensures s.Invalid? <==> v.error
    ensures s.Invalid? ==> s.message == v.message
  {
    if v.error then Invalid(v.message) else if v.valid then Valid else Neutral
  }

  /** `showError(input, errorElement, message)`: the field becomes `error`
      (and not `valid`), shows `message`, and starts shaking. */
  function ShowError(v: FieldView, message: string): (w: FieldView)
    requires message != ""
    ensures WellMarked(w) && StatusOf(w) == Invalid(message) && w.shake
  {
    FieldView(true, false, true, message)
  }

  /** `clearError(input, errorElement)`: the field becomes `valid` and its
      message is emptied; a shake already running goes on. */
  function ClearError(v: FieldView): (w: FieldView)
    ensures WellMarked(w) && StatusOf(w) == Valid && w.shake == v.shake
  {
    FieldView(false, true, v.shake, "")
  }

  /** The 500 ms timer `showError` starts: it removes `shake` and nothing else. */
  function StopShake(v: FieldView): (w: FieldView)
    ensures !w.shake && StatusOf(w) == StatusOf(v) && (WellMarked(v) ==> WellMarked(w))
  {
    v.(shake := false)
  }

  /** What the reset button does to one field: the `error` and `valid`
      classes are removed and the message is emptied; `shake` is left as it
      was. */
  function ResetView(v: FieldView): (w: FieldView)
    ensures WellMarked(w) && StatusOf(w) == Neutral && w.shake == v.shake
  {
    FieldView(false, false, v.shake, "")
  }

  /** Showing the same error twice, or clearing twice, is the same as doing
      it once: repeating a validation pass changes nothing on the page. */
  lemma MarkingIdempotent(v: FieldView, message: string)
    requires message != ""
    ensures ShowError(ShowError(v, message), message) == ShowError(v, message)
    ensures ClearError(ClearError(v)) == ClearError(v)
  {
  }
}
