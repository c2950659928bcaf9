/**
 * The notification function: it receives a contact submission, builds an
 * HTML email from it and hands that email to an email-sending API.
 *
 * The email is built by pure functions. The handler is a function from the
 * HTTP method, the parsed request body, the provider's answer and the
 * clock reading to the response and the email request it sent (if any).
 * The provider call, the credential lookup and the clock are not performed:
 * their results are parameters.
 */
module ContactEmail {
  import opened Wrappers

  // ---------------------------------------------------------------------
  // Fixed values
  // ---------------------------------------------------------------------

  const CorsHeaders: seq<(string, string)> := [
    ("Access-Control-Allow-Origin", "*"),
    ("Access-Control-Allow-Headers", "authorization, x-client-info, apikey, content-type")
  ]

  const JsonHeaders: seq<(string, string)> := CorsHeaders + [("Content-Type", "application/json")]

  const Sender: string := "HyperArch <noreply@hyperarch.com>"
  const Recipients: seq<string> := ["cqizhi@u.nus.edu", "joelleo@comp.nus.edu.sg"]
  const SubjectPrefix: string := "New HyperArch Contact: "
  const SubjectJoiner: string := " from "
  const PainPointSeparator: string := ", "
  const NoPainPoints: string := "None selected"
  const NoPhone: string := "Not provided"
  const NotesHeading: string := "<h3>Additional Notes:</h3><p>"
  const NotesEnd: string := "</p>"
  const SendFailure: string := "Failed to send email"
  const SentMessage: string := "Email sent successfully"

  // ---------------------------------------------------------------------
  // Data model
  // ---------------------------------------------------------------------

  /** The fields the handler reads from the JSON body; `None` is `null` or absent. */
  datatype Payload = Payload(
    name: string,
    company: string,
    email: string,
    phone: Option<string>,
    preferredSolution: string,
    painPoints: Option<seq<string>>,
    note: Option<string>)

  datatype EmailRequest = EmailRequest(from: string, to: seq<string>, subject: string, html: string)

  /** The request body: parsed, or the message of the parse error. */
  datatype RequestBody = Parsed(payload: Payload) | Unparseable(message: string)

  /** The provider's answer: a response with its `ok` flag, or the message of a thrown network error. */
  datatype ProviderResult = Responded(ok: bool) | Unreachable(message: string)

  /** A response body: plain text, `{success: true, message}` or `{error}`. */
  datatype ResponseBody = Text(text: string) | SuccessBody(message: string) | ErrorBody(error: string)

  datatype Response = Response(status: nat, headers: seq<(string, string)>, body: ResponseBody)

  /** What one invocation produces: the response, and the email request it sent, if any. */
  datatype Handled = Handled(response: Response, emailSent: Option<EmailRequest>)

  // ---------------------------------------------------------------------
  // Strings
  // ---------------------------------------------------------------------

  /** JavaScript truthiness of an optional string: present and non-empty. */
  predicate Truthy(s: Option<string>)
  {
    s.Some? && s.value != ""
  }

  predicate OccursAt(s: string, part: string, i: nat)
  {
    i + |part| <= |s| && s[i..i + |part|] == part
  }

  ghost predicate Contains(s: string, part: string)
  {
    exists i: nat :: OccursAt(s, part, i)
  }

  lemma ContainsMiddle(a: string, part: string, b: string)
    ensures OccursAt(a + part + b, part, |a|)
    ensures Contains(a + part + b, part)
  {
    assert (a + part + b)[|a|..|a| + |part|] == part;
    assert OccursAt(a + part + b, part, |a|);
  }

  /** An occurrence survives appending text after it. */
  lemma OccursExtend(s: string, part: string, i: nat, t: string)
    requires OccursAt(s, part, i)
    ensures OccursAt(s + t, part, i)
  {
    assert (s + t)[i..i + |part|] == s[i..i + |part|];
  }

  /** An occurrence moves right by the length of text put before it. */
  lemma OccursShift(pre: string, s: string, part: string, i: nat)
    requires OccursAt(s, part, i)
    ensures OccursAt(pre + s, part, |pre| + i)
  {
    assert (pre + s)[|pre| + i..|pre| + i + |part|] == s[i..i + |part|];
  }

  /** `parts.join(sep)`. */
  function Join(parts: seq<string>, sep: string): string
  {
    if |parts| == 0 then ""
    else if |parts| == 1 then parts[0]
    else parts[0] + sep + Join(parts[1..], sep)
  }

  /** Where `parts[i]` starts in `Join(parts, sep)`: after every earlier part and its separator. */
  function Offset(parts: seq<string>, sep: string, i: nat): nat
    requires i < |parts|
  {
    if i == 0 then 0 else |parts[0]| + |sep| + Offset(parts[1..], sep, i - 1)
  }

  /** A string occurs in itself at 0. */
  lemma OccursSelf(s: string)
    ensures OccursAt(s, s, 0)
  {
    assert s[0..|s|] == s;
  }

  /** The first part opens the joined string, followed by a separator if more parts come. */
  lemma JoinFirstPart(parts: seq<string>, sep: string)
    requires |parts| > 0
    ensures OccursAt(Join(parts, sep), parts[0], 0)
    ensures |parts| > 1 ==> OccursAt(Join(parts, sep), sep, |parts[0]|)
  {
    OccursSelf(parts[0]);
    if |parts| > 1 {
      var rest := Join(parts[1..], sep);
      OccursExtend(parts[0], parts[0], 0, sep);
      OccursExtend(parts[0] + sep, parts[0], 0, rest);
      OccursSelf(sep);
      OccursShift(parts[0], sep, sep, 0);
      OccursExtend(parts[0] + sep, sep, |parts[0]|, rest);
    }
  }

  /** Each part stands at its offset, and a separator follows every part but the last. */
  lemma {:induction false} JoinPartAt(parts: seq<string>, sep: string, i: nat)
    requires i < |parts|
    ensures OccursAt(Join(parts, sep), parts[i], Offset(parts, sep, i))
    ensures i + 1 < |parts| ==> OccursAt(Join(parts, sep), sep, Offset(parts, sep, i) + |parts[i]|)
  {
    if i == 0 {
      JoinFirstPart(parts, sep);
    } else {
      var rest := Join(parts[1..], sep);
      var head := parts[0] + sep;
      assert Join(parts, sep) == head + rest;
      JoinPartAt(parts[1..], sep, i - 1);
      assert parts[1..][i - 1] == parts[i];
      var o := Offset(parts[1..], sep, i - 1);
      OccursShift(head, rest, parts[i], o);
      if i + 1 < |parts| {
        OccursShift(head, rest, sep, o + |parts[i]|);
      }
    }
  }

  /** The joined string ends right after the last part. */
  lemma {:induction false} JoinLength(parts: seq<string>, sep: string)
    requires |parts| > 0
    ensures |Join(parts, sep)| == Offset(parts, sep, |parts| - 1) + |parts[|parts| - 1]|
  {
    if |parts| > 1 {
      JoinLength(parts[1..], sep);
      assert parts[1..][|parts| - 2] == parts[|parts| - 1];
    }
  }

  // ---------------------------------------------------------------------
  // The email
  // ---------------------------------------------------------------------

  /** The pain-point line's value: the joined list, or a fixed text when there is none. */
  function PainPointSummary(points: Option<seq<string>>): (r: string)
    ensures points.None? || points.value == [] ==> r == NoPainPoints
  {
    if points.Some? && |points.value| > 0 then Join(points.value, PainPointSeparator) else NoPainPoints
  }

  /** A non-empty list is summarised by its labels, in order, separated by `", "`. */
  lemma SummaryListsPoints(points: seq<string>, i: nat)
    requires i < |points|
    ensures OccursAt(PainPointSummary(Some(points)), points[i], Offset(points, PainPointSeparator, i))
    ensures i + 1 < |points| ==>
              OccursAt(PainPointSummary(Some(points)), PainPointSeparator, Offset(points, PainPointSeparator, i) + |points[i]|)
  {
    JoinPartAt(points, PainPointSeparator, i);
  }

  /** The phone line's value. */
  function PhoneDisplay(phone: Option<string>): (r: string)
    ensures Truthy(phone) ==> r == phone.value
    ensures !Truthy(phone) ==> r == NoPhone
  {
    if Truthy(phone) then phone.value else NoPhone
  }

  /** The notes block: empty unless there is a note, and then it wraps the note. */
  function NotesBlock(note: Option<string>): (r: string)
    ensures r == "" <==> !Truthy(note)
    ensures Truthy(note) ==> OccursAt(r, note.value, |NotesHeading|)
  {
    if Truthy(note) then
      ContainsMiddle(NotesHeading, note.value, NotesEnd);
      NotesHeading + note.value + NotesEnd
    else ""
  }

  // The fixed text of the HTML template around its list items.
  const Opening: string := "\n      <h2>New Contact Form Submission - HyperArch</h2>\n      <p><strong>Submission Time:</strong> "
  const ContactHeading: string := "</p>\n      \n      <h3>Contact Information:</h3>\n      <ul>\n"
  const PreferencesHeading: string := "      </ul>\n      \n      <h3>Preferences:</h3>\n      <ul>\n"
  const BeforeNotes: string := "      </ul>\n      \n      "
  const BodyFooter: string := "\n      \n      <hr>\n      <p><em>This email was automatically generated from the HyperArch landing page contact form.</em></p>\n    "
  const ItemOpen: string := "        <li><strong>"
  const ItemColon: string := ":</strong> "
  const ItemClose: string := "</li>\n"

  /** One line of the template's lists: a bold label, then the value. */
  function Item(caption: string, value: string): (r: string)
    ensures |r| == |ItemOpen| + |caption| + |ItemColon| + |value| + |ItemClose|
    ensures r[..|ItemOpen| + |caption| + |ItemColon|] == ItemOpen + caption + ItemColon
    ensures OccursAt(r, value, |ItemOpen| + |caption| + |ItemColon|)
  {
    ContainsMiddle(ItemOpen + caption + ItemColon, value, ItemClose);
    ItemOpen + caption + ItemColon + value + ItemClose
  }

  /** Everything in the body before the notes block; it does not depend on the note. */
  function BodyBeforeNotes(p: Payload, submittedAt: string): string
  {
    Opening + submittedAt + ContactHeading
    + Item("Name", p.name)
    + Item("Company/Organisation", p.company)
    + Item("Email", p.email)
    + Item("Phone", PhoneDisplay(p.phone))
    + PreferencesHeading
    + Item("Preferred Solution", p.preferredSolution)
    + Item("Pain Points Selected", PainPointSummary(p.painPoints))
    + BeforeNotes
  }

  /** The HTML body of the notification email. */
  function EmailBody(p: Payload, submittedAt: string): string
  {
    BodyBeforeNotes(p, submittedAt) + NotesBlock(p.note) + BodyFooter
  }

  /** A string ends with what was appended to it. */
  lemma OccursEnd(s: string, part: string)
    ensures OccursAt(s + part, part, |s|)
  {
    assert (s + part)[|s|..|s| + |part|] == part;
  }

  /** What stands in the text before the notes block stands in the body. */
  lemma BeforeNotesInBody(p: Payload, submittedAt: string, part: string, i: nat)
    requires OccursAt(BodyBeforeNotes(p, submittedAt), part, i)
    ensures OccursAt(EmailBody(p, submittedAt), part, i)
  {
    var before := BodyBeforeNotes(p, submittedAt);
    OccursExtend(before, part, i, NotesBlock(p.note));
    OccursExtend(before + NotesBlock(p.note), part, i, BodyFooter);
  }

  /** The body shows the submission time after its label, and lists the
      name, the company and the email, each under its label. */
  lemma BodyShowsContactLines(p: Payload, submittedAt: string)
    ensures OccursAt(EmailBody(p, submittedAt), submittedAt, |Opening|)
    ensures Contains(EmailBody(p, submittedAt), Item("Name", p.name))
    ensures Contains(EmailBody(p, submittedAt), Item("Company/Organisation", p.company))
    ensures Contains(EmailBody(p, submittedAt), Item("Email", p.email))
  {
    var name := Item("Name", p.name);
    var company := Item("Company/Organisation", p.company);
    var email := Item("Email", p.email);
    var s0 := Opening + submittedAt;
    OccursEnd(Opening, submittedAt);
    var s1 := s0 + ContactHeading;
    OccursExtend(s0, submittedAt, |Opening|, ContactHeading);
    var s2 := s1 + name;
    OccursEnd(s1, name);
    OccursExtend(s1, submittedAt, |Opening|, name);
    var s3 := s2 + company;
    OccursEnd(s2, company);
    OccursExtend(s2, submittedAt, |Opening|, company);
    OccursExtend(s2, name, |s1|, company);
    var s4 := s3 + email;
    OccursEnd(s3, email);
    OccursExtend(s3, submittedAt, |Opening|, email);
    OccursExtend(s3, name, |s1|, email);
    OccursExtend(s3, company, |s2|, email);
    var phone := Item("Phone", PhoneDisplay(p.phone));
    var solution := Item("Preferred Solution", p.preferredSolution);
    var points := Item("Pain Points Selected", PainPointSummary(p.painPoints));
    ContactLinesStay(s4, submittedAt, |Opening|, name, |s1|, company, |s2|, email, |s3|,
                     phone, PreferencesHeading, solution, points, BeforeNotes);
    assert s4 + phone + PreferencesHeading + solution + points + BeforeNotes == BodyBeforeNotes(p, submittedAt);
    BeforeNotesInBody(p, submittedAt, submittedAt, |Opening|);
    BeforeNotesInBody(p, submittedAt, name, |s1|);
    BeforeNotesInBody(p, submittedAt, company, |s2|);
    BeforeNotesInBody(p, submittedAt, email, |s3|);
  }

  /** Four occurrences survive five appended pieces. */
  lemma ContactLinesStay(s: string, a: string, i: nat, b: string, j: nat, c: string, k: nat, d: string, l: nat,
                         t0: string, t1: string, t2: string, t3: string, t4: string)
    requires OccursAt(s, a, i) && OccursAt(s, b, j) && OccursAt(s, c, k) && OccursAt(s, d, l)
    ensures var u := s + t0 + t1 + t2 + t3 + t4;
      OccursAt(u, a, i) && OccursAt(u, b, j) && OccursAt(u, c, k) && OccursAt(u, d, l)
  {
    var u := s + t0 + t1 + t2 + t3 + t4;
    assert u == s + (t0 + t1 + t2 + t3 + t4);
    OccursExtend(s, a, i, t0 + t1 + t2 + t3 + t4);
    OccursExtend(s, b, j, t0 + t1 + t2 + t3 + t4);
    OccursExtend(s, c, k, t0 + t1 + t2 + t3 + t4);
    OccursExtend(s, d, l, t0 + t1 + t2 + t3 + t4);
  }

  /** The body lists the phone, the preferred solution and the pain points,
      each under its label. */
  lemma BodyShowsPhoneAndPreferences(p: Payload, submittedAt: string)
    ensures Contains(EmailBody(p, submittedAt), Item("Phone", PhoneDisplay(p.phone)))
    ensures Contains(EmailBody(p, submittedAt), Item("Preferred Solution", p.preferredSolution))
    ensures Contains(EmailBody(p, submittedAt), Item("Pain Points Selected", PainPointSummary(p.painPoints)))
  {
    var contact := Opening + submittedAt + ContactHeading
      + Item("Name", p.name) + Item("Company/Organisation", p.company) + Item("Email", p.email);
    var phone := Item("Phone", PhoneDisplay(p.phone));
    var solution := Item("Preferred Solution", p.preferredSolution);
    var points := Item("Pain Points Selected", PainPointSummary(p.painPoints));
    OccursEnd(contact, phone);
    OccursExtend(contact + phone, phone, |contact|, PreferencesHeading);
    var heading := contact + phone + PreferencesHeading;
    OccursEnd(heading, solution);
    OccursExtend(heading, phone, |contact|, solution);
    var preferences := heading + solution;
    OccursEnd(preferences, points);
    OccursExtend(preferences, phone, |contact|, points);
    OccursExtend(preferences, solution, |heading|, points);
    var before := preferences + points + BeforeNotes;
    OccursExtend(preferences + points, phone, |contact|, BeforeNotes);
    OccursExtend(preferences + points, solution, |heading|, BeforeNotes);
    OccursExtend(preferences + points, points, |preferences|, BeforeNotes);
    assert before == BodyBeforeNotes(p, submittedAt);
    BeforeNotesInBody(p, submittedAt, phone, |contact|);
    BeforeNotesInBody(p, submittedAt, solution, |heading|);
    BeforeNotesInBody(p, submittedAt, points, |preferences|);
  }

  /** The notes block followed by the footer, after any text: it changes the
      result iff the note is truthy, and then the note stands after the heading. */
  lemma NotesSection(before: string, note: Option<string>)
    ensures before + NotesBlock(note) + BodyFooter != before + NotesBlock(None) + BodyFooter <==> Truthy(note)
    ensures Truthy(note) ==> OccursAt(before + NotesBlock(note) + BodyFooter, note.value, |before| + |NotesHeading|)
  {
    var block := NotesBlock(note);
    if Truthy(note) {
      assert |before + block + BodyFooter| != |before + NotesBlock(None) + BodyFooter|;
      OccursShift(before, block, note.value, |NotesHeading|);
      OccursExtend(before + block, note.value, |before| + |NotesHeading|, BodyFooter);
    }
  }

  /** The notes block is in the body exactly when the note is truthy: the body
      differs from the same submission's body without a note, and then it
      holds the note text. */
  lemma BodyNotesIffTruthy(p: Payload, submittedAt: string)
    ensures EmailBody(p, submittedAt) != EmailBody(p.(note := None), submittedAt) <==> Truthy(p.note)
    ensures Truthy(p.note) ==> Contains(EmailBody(p, submittedAt), p.note.value)
  {
    var before := BodyBeforeNotes(p, submittedAt);
    assert BodyBeforeNotes(p.(note := None), submittedAt) == before;
    NotesSection(before, p.note);
  }

  /** The subject line names the submitter and the company. */
  function Subject(name: string, company: string): (r: string)
    ensures |r| == |SubjectPrefix| + |name| + |SubjectJoiner| + |company|
    ensures r[..|SubjectPrefix|] == SubjectPrefix
    ensures OccursAt(r, name, |SubjectPrefix|)
    ensures OccursAt(r, SubjectJoiner, |SubjectPrefix| + |name|)
    ensures r[|r| - |company|..] == company
  {
    var r := SubjectPrefix + name + SubjectJoiner + company;
    assert r[|SubjectPrefix|..|SubjectPrefix| + |name|] == name;
    assert r[|SubjectPrefix| + |name|..|SubjectPrefix| + |name| + |SubjectJoiner|] == SubjectJoiner;
    r
  }

  /** The request sent to the email API: fixed sender and recipients. */
  function BuildEmailRequest(p: Payload, submittedAt: string): (r: EmailRequest)
    ensures r.from == Sender
    ensures |r.to| == 2 && r.to[0] == "cqizhi@u.nus.edu" && r.to[1] == "joelleo@comp.nus.edu.sg"
    ensures r.subject == Subject(p.name, p.company)
    ensures r.html == EmailBody(p, submittedAt)
  {
    EmailRequest(Sender, Recipients, Subject(p.name, p.company), EmailBody(p, submittedAt))
  }

  // ---------------------------------------------------------------------
  // The handler
  // ---------------------------------------------------------------------

  /** The response of one invocation. `provider` is the email API's answer;
      it is only consulted once the body has been parsed and a request sent. */
  function Respond(httpMethod: string, body: RequestBody, provider: ProviderResult): (r: Response)
    ensures httpMethod == "OPTIONS" ==> r == Response(200, CorsHeaders, Text("ok"))
    ensures r.status == 200 <==> httpMethod == "OPTIONS" || (body.Parsed? && provider == Responded(true))
    ensures r.status == 200 || r.status == 400
    ensures forall h :: h in CorsHeaders ==> h in r.headers
    ensures httpMethod != "OPTIONS" && body.Parsed? && provider == Responded(true) ==>
              r == Response(200, JsonHeaders, SuccessBody(SentMessage))
    ensures httpMethod != "OPTIONS" && body.Parsed? && provider == Responded(false) ==>
              r == Response(400, JsonHeaders, ErrorBody(SendFailure))
    ensures httpMethod != "OPTIONS" && body.Parsed? && provider.Unreachable? ==>
              r == Response(400, JsonHeaders, ErrorBody(provider.message))
    ensures httpMethod != "OPTIONS" && body.Unparseable? ==> r == Response(400, JsonHeaders, ErrorBody(body.message))
  {
    if httpMethod == "OPTIONS" then
      Response(200, CorsHeaders, Text("ok"))
    else
      match body
      case Unparseable(message) => Response(400, JsonHeaders, ErrorBody(message))
      case Parsed(_) =>
        match provider
        case Unreachable(message) => Response(400, JsonHeaders, ErrorBody(message))
        case Responded(ok) =>
          if ok then Response(200, JsonHeaders, SuccessBody(SentMessage))
          else Response(400, JsonHeaders, ErrorBody(SendFailure))
  }

  /** One invocation of the function: its response, and the email request it
      sent, which is the one built from the parsed body. */
  function Handle(httpMethod: string, body: RequestBody, provider: ProviderResult, submittedAt: string): (r: Handled)
    ensures r.response == Respond(httpMethod, body, provider)
    ensures r.emailSent.Some? <==> httpMethod != "OPTIONS" && body.Parsed?
    ensures r.emailSent.Some? ==> r.emailSent.value == BuildEmailRequest(body.payload, submittedAt)
  {
    if httpMethod == "OPTIONS" then
      Handled(Respond(httpMethod, body, provider), None)
    else
      match body
      case Unparseable(_) => Handled(Respond(httpMethod, body, provider), None)
      case Parsed(p) => Handled(Respond(httpMethod, body, provider), Some(BuildEmailRequest(p, submittedAt)))
  }
}
