/**
 * The server action behind the contact page: it validates the posted form
 * data with the contact schema and answers with a fresh form state, either
 * the per-field error messages or the thank-you message. The state it was
 * handed is not consulted.
 */
module ContactAction {
  import opened Js
  import opened Zod
  import ContactForm

  /** A form-data entry: text, or an uploaded file. */
  datatype FormEntry = Text(s: string) | File(name: string)

  /** What `formData.get(name)` sees: the first entry under each name. */
  type FormData = map<string, FormEntry>

  datatype Status = Success | Error | Idle

  datatype ContactFormState = ContactFormState(
    message: string,
    status: Status,
    errors: Option<map<string, seq<string>>>)

  const FieldNames: set<string> := {"name", "email", "subject", "message"}

  const ValidationFailed := "Validation failed. Please check your input."
  const ThankYou := "Thank you for your message! We will get back to you shortly."

  /** The messages Zod reports for one string field: a type error when the
      entry is missing (`null`) or a file, else the field's own check. */
  function FieldErrors(entry: Option<FormEntry>, check: string -> bool, message: string): seq<string> {
    match entry
    case None => ["Expected string, received null"]
    case Some(File(_)) => ["Expected string, received object"]
    case Some(Text(s)) => if check(s) then [] else [message]
  }

  function Get(formData: FormData, name: string): Option<FormEntry> {
    if name in formData then Some(formData[name]) else None
  }

  /** `error.flatten().fieldErrors`: each field with at least one message. */
  function FieldErrorMap(formData: FormData, z: Checks): map<string, seq<string>> {
    var nameErrors := FieldErrors(Get(formData, "name"), s => MinLength(s, 2), "Name must be at least 2 characters.");
    var emailErrors := FieldErrors(Get(formData, "email"), z.isEmail, "Please enter a valid email.");
    var subjectErrors := FieldErrors(Get(formData, "subject"), s => MinLength(s, 5), "Subject must be at least 5 characters.");
    var messageErrors := FieldErrors(Get(formData, "message"), s => MinLength(s, 10), "Message must be at least 10 characters.");
    map k | k in FieldNames && (k == "name" ==> nameErrors != []) && (k == "email" ==> emailErrors != [])
                            && (k == "subject" ==> subjectErrors != []) && (k == "message" ==> messageErrors != [])
      :: if k == "name" then nameErrors
         else if k == "email" then emailErrors
         else if k == "subject" then subjectErrors
         else messageErrors
  }

  /** The four fields, when all four are text. */
  function AsValues(formData: FormData): Option<ContactForm.ContactValues> {
    match (Get(formData, "name"), Get(formData, "email"), Get(formData, "subject"), Get(formData, "message"))
    case (Some(Text(n)), Some(Text(e)), Some(Text(s)), Some(Text(m))) => Some(ContactForm.ContactValues(n, e, s, m))
    case _ => None
  }

  /** `submitContactForm`. */
  function SubmitContactForm(prevState: ContactFormState, formData: FormData, z: Checks): (r: ContactFormState)
    ensures r.status != Idle
    ensures r.status == Success <==> r.errors.None?
  {
    var errors := FieldErrorMap(formData, z);
    if errors != map[] then ContactFormState(ValidationFailed, Error, Some(errors))
    else ContactFormState(ThankYou, Success, None)
  }

  /** Field errors are keyed only by the four schema fields, a field is listed
      exactly when its entry fails, and a listed field has a message. */
  lemma ErrorKeys(formData: FormData, z: Checks, k: string)
    ensures FieldErrorMap(formData, z).Keys <= FieldNames
    ensures k in FieldErrorMap(formData, z) ==> FieldErrorMap(formData, z)[k] != []
    ensures "name" in FieldErrorMap(formData, z) <==>
      !(Get(formData, "name").Some? && Get(formData, "name").value.Text? && MinLength(Get(formData, "name").value.s, 2))
    ensures "email" in FieldErrorMap(formData, z) <==>
      !(Get(formData, "email").Some? && Get(formData, "email").value.Text? && z.isEmail(Get(formData, "email").value.s))
    ensures "subject" in FieldErrorMap(formData, z) <==>
      !(Get(formData, "subject").Some? && Get(formData, "subject").value.Text? && MinLength(Get(formData, "subject").value.s, 5))
    ensures "message" in FieldErrorMap(formData, z) <==>
      !(Get(formData, "message").Some? && Get(formData, "message").value.Text? && MinLength(Get(formData, "message").value.s, 10))
  {
  }

  /** The action succeeds exactly when all four fields are text that passes
      the same schema as the contact form's; success carries the thank-you
      message and no errors, failure the validation message and the errors. */
  lemma SuccessIffValid(prevState: ContactFormState, formData: FormData, z: Checks)
    ensures var r := SubmitContactForm(prevState, formData, z);
      && (r.status == Success <==> AsValues(formData).Some? && ContactForm.Valid(AsValues(formData).value, z))
      && (r.status == Success ==> r.message == ThankYou && r.errors.None?)
      && (r.status == Error ==> r.message == ValidationFailed && r.errors == Some(FieldErrorMap(formData, z)))
  {
    var errors := FieldErrorMap(formData, z);
    if AsValues(formData).Some? && ContactForm.Valid(AsValues(formData).value, z) {
      forall k | k in FieldNames ensures k !in errors {
        ErrorKeys(formData, z, k);
      }
    } else if AsValues(formData).None? {
      ErrorKeys(formData, z, "name");
      if "name" !in errors { ErrorKeys(formData, z, "email"); }
      if "name" !in errors && "email" !in errors { ErrorKeys(formData, z, "subject"); }
      if "name" !in errors && "email" !in errors && "subject" !in errors {
        ErrorKeys(formData, z, "message");
      }
      assert errors != map[];
    } else {
      ErrorKeys(formData, z, "name");
      assert errors != map[];
    }
  }

  /** The answer depends on the form data alone. */
  lemma PrevStateIgnored(p: ContactFormState, q: ContactFormState, formData: FormData, z: Checks)
    ensures SubmitContactForm(p, formData, z) == SubmitContactForm(q, formData, z)
  {
  }

  /** A missing field and a file in its place are reported as type errors. */
  lemma NonTextReported(formData: FormData, z: Checks)
    requires "email" !in formData
    requires "message" in formData && formData["message"].File?
    ensures FieldErrorMap(formData, z)["email"] == ["Expected string, received null"]
    ensures FieldErrorMap(formData, z)["message"] == ["Expected string, received object"]
  {
  }
}
