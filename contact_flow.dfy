/**
 * From the contact form to the notification email: the record the page
 * builds is the body the notification function receives, so what the email
 * shows can be stated in terms of what the visitor typed and selected.
 */
module ContactFlow {
  import opened Wrappers
  import LandingPage
  import ContactEmail

  /** The fields of a submission record as the function reads them from its
      JSON body (the creation time is sent but not read). */
  function PayloadOf(s: LandingPage.Submission): (p: ContactEmail.Payload)
    ensures p.painPoints == Some(s.painPoints)
    ensures p.phone == s.phone && p.note == s.note
    ensures p.name == s.name && p.company == s.company
    ensures p.email == s.email && p.preferredSolution == s.preferredSolution
  {
    ContactEmail.Payload(s.name, s.company, s.email, s.phone, s.preferredSolution, Some(s.painPoints), s.note)
  }

  /** The email's phone line, notes block and pain-point line, in terms of the form. */
  lemma EmailReflectsForm(form: LandingPage.FormData, selection: seq<string>, now: string)
    ensures var p := PayloadOf(LandingPage.BuildSubmission(form, selection, now));
      && ContactEmail.PhoneDisplay(p.phone) == (if form.phone == "" then ContactEmail.NoPhone else form.phone)
      && (ContactEmail.NotesBlock(p.note) == "" <==> form.note == "")
      && ContactEmail.PainPointSummary(p.painPoints)
         == (if selection == [] then ContactEmail.NoPainPoints else ContactEmail.Join(selection, ContactEmail.PainPointSeparator))
  {
  }

  /** The email request sent for a submission: fixed sender and recipients,
      and a subject naming the visitor and the company as typed. */
  lemma EmailRequestForForm(form: LandingPage.FormData, selection: seq<string>, now: string, submittedAt: string)
    ensures var r := ContactEmail.BuildEmailRequest(PayloadOf(LandingPage.BuildSubmission(form, selection, now)), submittedAt);
      && r.from == ContactEmail.Sender
      && r.to == ContactEmail.Recipients
      && r.subject == ContactEmail.Subject(form.name, form.company)
  {
  }

  /** A note typed into the form appears in the email body; an empty one adds nothing. */
  lemma EmailBodyShowsNote(form: LandingPage.FormData, selection: seq<string>, now: string, submittedAt: string)
    ensures var p := PayloadOf(LandingPage.BuildSubmission(form, selection, now));
      && (form.note != "" ==> ContactEmail.Contains(ContactEmail.EmailBody(p, submittedAt), form.note))
      && (form.note == "" <==> ContactEmail.EmailBody(p, submittedAt) == ContactEmail.EmailBody(p.(note := None), submittedAt))
  {
    var p := PayloadOf(LandingPage.BuildSubmission(form, selection, now));
    ContactEmail.BodyNotesIffTruthy(p, submittedAt);
  }

  /** Every value the visitor typed or selected is listed in the email body
      under its label, and the submission time follows its label. */
  lemma EmailBodyShowsForm(form: LandingPage.FormData, selection: seq<string>, now: string, submittedAt: string)
    ensures var body := ContactEmail.EmailBody(PayloadOf(LandingPage.BuildSubmission(form, selection, now)), submittedAt);
      && ContactEmail.OccursAt(body, submittedAt, |ContactEmail.Opening|)
      && ContactEmail.Contains(body, ContactEmail.Item("Name", form.name))
      && ContactEmail.Contains(body, ContactEmail.Item("Company/Organisation", form.company))
      && ContactEmail.Contains(body, ContactEmail.Item("Email", form.email))
      && ContactEmail.Contains(body, ContactEmail.Item("Phone", if form.phone == "" then ContactEmail.NoPhone else form.phone))
      && ContactEmail.Contains(body, ContactEmail.Item("Preferred Solution", form.preferredSolution))
      && ContactEmail.Contains(body, ContactEmail.Item("Pain Points Selected",
           if selection == [] then ContactEmail.NoPainPoints else ContactEmail.Join(selection, ContactEmail.PainPointSeparator)))
  {
    var p := PayloadOf(LandingPage.BuildSubmission(form, selection, now));
    EmailReflectsForm(form, selection, now);
    ContactEmail.BodyShowsContactLines(p, submittedAt);
    ContactEmail.BodyShowsPhoneAndPreferences(p, submittedAt);
  }
}
