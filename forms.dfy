/** Submitted HTML forms as the handlers see them through echo's context. */
module Forms {
  /** The submitted fields of a form, by name. */
  type Form = map<string, string>

  /** echo's FormValue: a missing field reads as "". */
  function FormValue(form: Form, key: string): string {
    if key in form then form[key] else ""
  }
}
