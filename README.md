# HyperArch landing page — Dafny model

This project models the two pieces of the HyperArch landing page that hold
logic:

- **The landing-page component** (`src/App.tsx`). Its state is the class
  `LandingPage.LandingPageState`: the title index, the active tab, the two
  slideshow image lists and their indices, the selected pain points, the
  contact-form fields and the success flag. Each transition is a method:
  the title timer's swap, the slideshow tick, a tab click, a pain-point
  click, a field edit, the mount-time image fetch, the form submission and
  the delayed reset that follows a successful submission. The expressions
  the component passes to its state setters (the title and slide modulo,
  the toggle's `filter`/append, the one-field spread update, the
  submission record) are pure functions with lemmas about them.
- **The notification function** (`supabase/functions/send-contact-email/index.ts`).
  Module `ContactEmail` holds the email builder: the pain-point summary,
  the phone line, the optional notes block, the HTML body, the subject,
  and the fixed sender and recipients. It also models the handler as a
  function from the HTTP method, the parsed body and the provider's answer
  to the response and the email request sent.
- Module `ContactFlow` links the two. The record the page builds is the body
  the function receives. So the email's phone line, notes block,
  pain-point line and subject can be stated in terms of what the visitor
  typed and selected.

Timers are explicit method calls. A field `pendingResets` counts the
five-second reset timers that successful submissions have scheduled and
that have not fired yet. External services are never called. Each
service's outcome is a parameter, and the methods return the sequence of
service calls they made. That is how "the notification is never invoked
after a failed insert" is stated. Clock readings (`toISOString`,
`toLocaleString`) are opaque string parameters.

Each method's precondition is the page's own enabling condition. The image
fetch is a mount effect, so it runs once, while the lists are still empty.
The form (its pain-point buttons, fields and submit button) is rendered only
while the success message is not shown. The class invariant `Valid` follows
from these: every slide index lies within its own list, and a reset timer is
pending exactly while the success message shows.

Files: `wrappers.dfy` (an `Option` type standing for `null`),
`landing_page.dfy`, `contact_email.dfy`, `contact_flow.dfy`.

### Where the code and its description differ (the model follows the code)

- **Notification failure.** The page awaits `supabase.functions.invoke`
  and discards what it resolves with. Only a *rejected* invocation reaches
  the `catch`. An invocation that resolves with an error still shows the
  success message. The model's `InvokeOutcome` is therefore
  `InvokeSettled | InvokeRejected`. A description of the page that says
  any notification failure is reported to the visitor does not match the
  code.
- **Image fetch.** A query that *resolves* with `data: null` (which is how
  the client reports query errors) gives an empty list through
  `data || []`. Only a *thrown* error brings in the placeholder lists. If
  the first query throws, the second is never issued (`QueriesIssued`).
- **Double toggle.** Toggling the same label twice restores the selection
  exactly only when the label was unselected, or was the last one
  selected. A selected label that is not last moves to the end
  (`ToggleTwiceRestores`, `ToggleTwicePresent`). A claim that a double
  toggle always restores contents *and order* is too strong.

## Model

| member | source | states |
|---|---|---|
| LandingPage.NextTitle | src/App.tsx:95 | the next title index is always a valid index into the two titles; it is `prev + 1` below the end and wraps to 0 at the end |
| LandingPage.TitleRotationTwiceIsIdentity | src/App.tsx:95 | two rotations from a valid index return to it |
| LandingPage.TitleAfterRotations | src/App.tsx:89-101 | from the initial index 0, `n` rotations show title `n mod 2` |
| LandingPage.SlideModulus | src/App.tsx:107-108 | the length, or 1 for an empty list (JavaScript's logical or): at least 1, and the length itself for a non-empty list |
| LandingPage.NextSlide | src/App.tsx:107 | after an advance the index lies in `[0, max(k,1))` whatever it was before; it is 0 for an empty list; it steps by one below the end and wraps to 0 at the end |
| LandingPage.AdvanceSlides | src/App.tsx:106-109 | each category's new index depends only on its own previous index and its own list, and lies within range |
| LandingPage.SlideAfterTicks | src/App.tsx:104-112 | from index 0, `n` ticks over `k > 0` images show slide `n mod k`; over an empty list the index stays 0 |
| LandingPage.RemoveAll | src/App.tsx:135 | the filtered selection never holds the label, holds every other label it held before, and is no longer |
| LandingPage.RemoveAllConcat | src/App.tsx:135 | filtering distributes over concatenation, so the order of the remaining labels is kept |
| LandingPage.RemoveAllAbsent | src/App.tsx:135 | filtering out an absent label leaves the selection unchanged |
| LandingPage.RemoveAllKeepsNoDuplicates | src/App.tsx:135 | filtering a duplicate-free selection leaves it duplicate-free |
| LandingPage.Toggle | src/App.tsx:132-138 | after a toggle the label is selected iff it was not before; no other label changes membership; an absent label is appended at the end |
| LandingPage.ToggleKeepsNoDuplicates | src/App.tsx:132-138 | toggling preserves "no duplicates" |
| LandingPage.ToggleTwiceAbsent | src/App.tsx:132-138 | toggling an unselected label twice restores the selection exactly |
| LandingPage.ToggleTwicePresent | src/App.tsx:132-138 | toggling a selected label twice moves it to the end of the filtered selection |
| LandingPage.ToggleTwiceRestores | src/App.tsx:132-138 | on a duplicate-free selection, a double toggle restores it iff the label was unselected or was the last one selected |
| LandingPage.ToggleStaysWithinPainPoints | src/App.tsx:333-338 | if only the page's seven labels are toggled, the selection stays among them |
| LandingPage.UpdateField | src/App.tsx:140-143 | the named field takes the new value and every other field keeps its value |
| LandingPage.UpdateFieldLaws | src/App.tsx:142 | writing back a field's current value changes nothing; of two writes to one field the later wins |
| LandingPage.OrNull | src/App.tsx:154 | the logical-or of the value with null is null exactly for the empty string and otherwise the value itself |
| LandingPage.BuildSubmission | src/App.tsx:150-159 | `phone` and `note` are null exactly when empty; `pain_points` is the current selection; the timestamp is the clock reading |
| LandingPage.SubmissionKeepsForm | src/App.tsx:150-159 | every form field can be read back from the record (name, company, email, preferred solution copied; null read as empty) |
| LandingPage.Placeholders | src/App.tsx:68-81 | each category's placeholder list has exactly 4 entries, each with an empty image URL |
| LandingPage.RowsOrEmpty | src/App.tsx:62-63 | a resolved query gives its rows, and a resolved `null` result becomes the empty list |
| LandingPage.ImagesAfterFetch | src/App.tsx:46-86 | a thrown error in either query gives both categories their placeholders; otherwise each category gets its rows, or the empty list for a null result |
| LandingPage.QueriesIssued | src/App.tsx:49-59 | the compliance query is issued first; the documentation query is issued iff the first did not throw |
| LandingPage.PlaceholderSlidesCycle | src/App.tsx:68-81 | after a failed fetch, each slideshow shows slide `n mod 4` after `n` ticks |
| LandingPage.SubmissionCalls | src/App.tsx:161-172 | the insert comes first; a notification is invoked iff the insert succeeded, and then with the same record |
| LandingPage.LandingPageState.constructor | src/App.tsx:30-43 | the initial state: title 0, compliance tab, empty image lists, slides at 0, no selection, default form, not submitted |
| LandingPage.LandingPageState.RotateTitle | src/App.tsx:94-97 | the title index advances by the title updater and stays in range; nothing else changes |
| LandingPage.LandingPageState.TickSlideshow | src/App.tsx:104-112 | both slide indices advance over the lists currently stored and land in range (so an index never points past its list); nothing else changes |
| LandingPage.LandingPageState.SelectTab | src/App.tsx:235-245 | the active tab becomes the clicked one; slides, selection and form are untouched |
| LandingPage.LandingPageState.TogglePainPoint | src/App.tsx:132-138 | while the form is shown, the selection becomes its toggle, stays duplicate-free, and stays among the seven labels if only they are clicked |
| LandingPage.LandingPageState.ChangeField | src/App.tsx:140-143 | while the form is shown, only the named form field changes; all other state is unchanged |
| LandingPage.LandingPageState.FetchImages | src/App.tsx:46-86 | the fetch runs once, while both slideshows are at their first slide; the stored lists become the fetch result, the queries issued are returned in order, and every slide index stays within its list |
| LandingPage.LandingPageState.Submit | src/App.tsx:145-193 | only while the form is shown (src/App.tsx:328): the record is built from the current form and selection; the notification is invoked only after a successful insert; success sets `isSubmitted` and schedules the one reset; any failure leaves the form shown, no reset pending, and the form and selection unchanged |
| LandingPage.LandingPageState.ResetAfterSubmit | src/App.tsx:177-188 | the pending reset clears the success flag, restores the default form (preferred solution "Compliance Checker") and empties the selection, leaving no reset pending |
| ContactEmail.JoinPartAt | supabase/functions/send-contact-email/index.ts:18 | in `parts.join(sep)` every part stands at its offset, followed by the separator unless it is the last |
| ContactEmail.JoinLength | supabase/functions/send-contact-email/index.ts:18 | the joined string ends right after the last part |
| ContactEmail.Join | supabase/functions/send-contact-email/index.ts:18 | `parts.join(sep)`; no contract of its own, it is characterised by JoinPartAt and JoinLength |
| ContactEmail.PainPointSummary | supabase/functions/send-contact-email/index.ts:17-19 | a null or empty list is summarised as "None selected" |
| ContactEmail.SummaryListsPoints | supabase/functions/send-contact-email/index.ts:17-19 | a non-empty list is summarised by its labels in order, separated by ", " |
| ContactEmail.PhoneDisplay | supabase/functions/send-contact-email/index.ts:31 | a truthy phone is shown as is; a null or empty phone shows "Not provided" |
| ContactEmail.Truthy | supabase/functions/send-contact-email/index.ts:31 | JavaScript truthiness of a string or null (used for `phone ||` and `note ?`); no contract of its own, used in the contracts of PhoneDisplay and NotesBlock |
| ContactEmail.NotesBlock | supabase/functions/send-contact-email/index.ts:40 | the notes block is empty iff the note is not truthy, and otherwise contains the note text after the heading |
| ContactEmail.Item | supabase/functions/send-contact-email/index.ts:28-37 | each list line of the template is the bold label and colon, then the value, then the closing tag: its length, its opening text and the position of the value |
| ContactEmail.BodyBeforeNotes | supabase/functions/send-contact-email/index.ts:22-39 | the template up to the notes block; no contract of its own, stated by BodyShowsContactLines, BodyShowsPhoneAndPreferences and BodyNotesIffTruthy (which shows it does not depend on the note) |
| ContactEmail.EmailBody | supabase/functions/send-contact-email/index.ts:22-44 | the whole HTML template; no contract of its own, stated by BodyShowsContactLines, BodyShowsPhoneAndPreferences and BodyNotesIffTruthy |
| ContactEmail.BodyShowsContactLines | supabase/functions/send-contact-email/index.ts:22-30 | the submission time follows its label, and the body holds the "Name", "Company/Organisation" and "Email" lines with the submitted values |
| ContactEmail.BodyShowsPhoneAndPreferences | supabase/functions/send-contact-email/index.ts:31-37 | the body holds the "Phone" line (with the phone or "Not provided"), the "Preferred Solution" line and the "Pain Points Selected" line (with the summary) |
| ContactEmail.NotesSection | supabase/functions/send-contact-email/index.ts:40-44 | whatever precedes it, the notes block plus footer differs from the note-less one iff the note is truthy, and then the note stands right after the notes heading |
| ContactEmail.BodyNotesIffTruthy | supabase/functions/send-contact-email/index.ts:40 | the body differs from the same submission's body without a note iff the note is truthy, and then contains the note |
| ContactEmail.Subject | supabase/functions/send-contact-email/index.ts:57 | the subject is "New HyperArch Contact: ", then the name, then " from ", then the company |
| ContactEmail.BuildEmailRequest | supabase/functions/send-contact-email/index.ts:54-59 | the sender is the fixed HyperArch address; the recipients are exactly the two fixed addresses, in order; the subject and body are those built from the payload |
| ContactEmail.Respond | supabase/functions/send-contact-email/index.ts:8-83 | OPTIONS returns "ok" with the CORS headers; otherwise status is 200 iff the body parsed and the provider answered OK, else 400; a non-OK answer gives "Failed to send email", a parse or network error gives its own message; every response carries the CORS headers |
| ContactEmail.Handle | supabase/functions/send-contact-email/index.ts:8-83 | the response is the one above; an email is sent iff the method is not OPTIONS and the body parsed, and it is the request built from that body |
| ContactFlow.PayloadOf | supabase/functions/send-contact-email/index.ts:14 | the function reads the record's name, company, email, phone, preferred solution, note and selection unchanged |
| ContactFlow.EmailReflectsForm | supabase/functions/send-contact-email/index.ts:17-40 | for a record built by the page, the phone line shows "Not provided" if the phone field was empty and the typed phone otherwise; the notes block is empty iff the note field was; the pain-point line is "None selected" if nothing was selected and the selection joined by ", " otherwise |
| ContactFlow.EmailRequestForForm | supabase/functions/send-contact-email/index.ts:54-57 | the email for a page submission goes from the fixed sender to the two fixed recipients, with a subject naming the typed name and company |
| ContactFlow.EmailBodyShowsNote | supabase/functions/send-contact-email/index.ts:40 | a typed note appears in the email body; an empty one leaves the body as if there were no note |
| ContactFlow.EmailBodyShowsForm | supabase/functions/send-contact-email/index.ts:22-37 | for a record built by the page, the body shows the submission time and lists the typed name, company, email and preferred solution, the phone or "Not provided", and the selection joined by ", " or "None selected", each under its label |

## Left out

- Rendering, the title fade (`style.opacity`) and the parallax transforms: presentational DOM writes. The parallax also uses floating-point speeds.
- Real timers, intervals and their cleanup. Each timer firing is a method call. `RotateTitle` is the 500 ms inner timeout, which runs only when the title element exists; the element is always rendered.
- The network calls themselves: the image queries, the insert, the function invocation and the email provider `fetch`. Their outcomes are parameters. The `order('order_index')` ordering is the database's, so the rows are taken as given.
- `Deno.env` and the bearer credential, `req.json()` parsing (modelled as a parsed payload or a parse-error message), and `console.error` and `alert`.
- Overlapping submissions. A submission is one atomic step; the interleaving of two pending submissions is not modelled.
- The exact JSON text of response bodies. Bodies are the datatype `ResponseBody`, and JSON string escaping is not modelled.
- ContactEmail.Payload: the body is taken to have the types the page sends: name, company, email and preferred_solution are strings, phone and note are strings or null, and pain_points is a list of strings or null. A missing field, which the template would print as "undefined", is not modelled; nor is a truthy `pain_points` that is not an array, for which `.join` throws and the handler answers 400 without sending an email.
- ContactEmail.Handle: "an email is sent iff the method is not OPTIONS and the body parsed" holds for bodies of the types above; a body that parses as JSON but makes the template code throw (see the line above) is not modelled.
- ContactEmail.PainPointSummary: its contract covers the null and empty cases. The non-empty case is stated by SummaryListsPoints and JoinLength rather than on the function itself.
