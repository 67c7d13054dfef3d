/**
 * The public contact form: its schema, the submission record it builds, and
 * the submit handler, which hands the record to the store without waiting,
 * thanks the visitor and clears the form.
 */
module ContactForm {
  import opened Js
  import opened Zod
  import opened Ui
  import opened Firestore

  const Collection := "contact_submissions"

  const SentDescription := "Thank you for your message! We will get back to you shortly."

  datatype ContactValues = ContactValues(fullName: string, email: string, subject: string, message: string)

  /** `defaultValues`, which `form.reset()` also restores. */
  const Empty := ContactValues("", "", "", "")

  /** `contactFormSchema`. */
  predicate Valid(v: ContactValues, z: Checks) {
    && MinLength(v.fullName, 2)
    && z.isEmail(v.email)
    && MinLength(v.subject, 5)
    && MinLength(v.message, 10)
  }

  /** `submission`: the values with the server's time and an unread flag. */
  function Submission(v: ContactValues): Record {
    map[
      "fullName" := Str(v.fullName), "email" := Str(v.email),
      "subject" := Str(v.subject), "message" := Str(v.message),
      "submissionDate" := ServerTimestamp,
      "isRead" := Flag(false)
    ]
  }

  /** The form values a stored submission carries, when it carries all four. */
  function ValuesOf(r: Record): Option<ContactValues> {
    if && "fullName" in r && r["fullName"].Str?
       && "email" in r && r["email"].Str?
       && "subject" in r && r["subject"].Str?
       && "message" in r && r["message"].Str?
    then Some(ContactValues(r["fullName"].s, r["email"].s, r["subject"].s, r["message"].s))
    else None
  }

  /** A submission holds exactly the four fields as entered, the server time
      and `isRead = false`, so the values can be read back from it unchanged. */
  lemma SubmissionShape(v: ContactValues)
    ensures Submission(v).Keys == {"fullName", "email", "subject", "message", "submissionDate", "isRead"}
    ensures Submission(v)["isRead"] == Flag(false)
    ensures Submission(v)["submissionDate"] == ServerTimestamp
    ensures ValuesOf(Submission(v)) == Some(v)
  {
  }

  /** The empty form never passes the schema. */
  lemma EmptyInvalid(z: Checks)
    ensures !Valid(Empty, z)
  {
  }

  class ContactForm {
    var values: ContactValues

    constructor ()
      ensures values == Empty
    {
      values := Empty;
    }

    /** The submit button. Values that fail the schema never reach `onSubmit`;
        otherwise the record is queued for `contact_submissions` and, without
        waiting for the store, the thank-you toast is shown and the form reset. */
    method Submit(db: Store?, z: Checks) returns (effects: seq<Effect>)
      modifies this, db
      ensures !Valid(old(values), z) ==>
        && effects == [] && values == old(values)
        && (db != null ==> db.collections == old(db.collections) && db.pending == old(db.pending))
      ensures Valid(old(values), z) && db == null ==>
        && effects == [ShowToast(Toast(true, "An error occurred", Some("Database service is not available.")))]
        && values == old(values)
      ensures Valid(old(values), z) && db != null ==>
        && db.pending == old(db.pending) + [PendingAdd(Collection, Submission(old(values)))]
        && db.collections == old(db.collections)
        && effects == [ShowToast(Toast(false, "Message Sent!", Some(SentDescription))), ResetForm]
        && values == Empty
    {
      if !Valid(values, z) {
        return [];
      }
      if db == null {
        return [ShowToast(Toast(true, "An error occurred", Some("Database service is not available.")))];
      }
      db.AddDocNonBlocking(Collection, Submission(values));
      effects := [ShowToast(Toast(false, "Message Sent!", Some(SentDescription))), ResetForm];
      values := Empty;
    }
  }
}
