/**
 * The landing-page component: its constant content, the pure updater
 * expressions it hands to its state setters, and the component state itself
 * as a class whose methods are the page's transitions (timer ticks, clicks,
 * field edits, the image fetch and the contact-form submission).
 *
 * Timers are not modelled as time: each timer firing is an explicit method
 * call. External services (the image table, the submission table and the
 * notification function) are not called: their outcome is a parameter.
 */
module LandingPage {
  import opened Wrappers

  // ---------------------------------------------------------------------
  // Content constants
  // ---------------------------------------------------------------------

  const RotatingTitles: seq<string> := [
    "You Design. Let Us Handle This Mess.",
    "Never Again Lose a Great Idea to All These Compliances."
  ]

  const PainPoints: seq<string> := [
    "Constant Drawing Revision",
    "No Centralised Documentation Hub",
    "Version Control",
    "Translation Between Software",
    "Mismatched Drawings & Site Work",
    "Coordination Issues",
    "Others"
  ]

  // ---------------------------------------------------------------------
  // Data model
  // ---------------------------------------------------------------------

  /** The two content groupings; they name both the tabs and the image lists. */
  datatype Category = Compliance | Documentation

  datatype SlideshowImage = SlideshowImage(imageUrl: string, altText: string)

  datatype SlideshowImages = SlideshowImages(compliance: seq<SlideshowImage>, documentation: seq<SlideshowImage>)

  /** Per-category slide index. JavaScript numbers that start at 0 and only ever
      pass through the slide updater, so never negative. */
  datatype CurrentSlides = CurrentSlides(compliance: nat, documentation: nat)

  /** The `name` attributes of the form's six controls. */
  datatype Field = Name | Company | Email | Phone | PreferredSolution | Note

  datatype FormData = FormData(
    name: string,
    company: string,
    email: string,
    phone: string,
    preferredSolution: string,
    note: string)

  const DefaultForm: FormData := FormData("", "", "", "", "Compliance Checker", "")

  /** The record written to the submission table and passed, unchanged, as the
      notification function's body. `None` stands for `null`. */
  datatype Submission = Submission(
    name: string,
    company: string,
    email: string,
    phone: Option<string>,
    preferredSolution: string,
    painPoints: seq<string>,
    note: Option<string>,
    createdAt: string)

  /** What one awaited image query gives: rows, a resolved `data: null`, or a thrown error. */
  datatype QueryResult = Rows(rows: seq<SlideshowImage>) | NoData | Threw

  /** The insert either succeeds, or reports (or throws) an error. */
  datatype InsertOutcome = Inserted | InsertFailed

  /** The awaited invocation either settles (whatever it resolves with is
      discarded by the page) or rejects. */
  datatype InvokeOutcome = InvokeSettled | InvokeRejected

  /** A call the page makes to an external service. */
  datatype ServiceCall =
    | SelectImages(category: Category)
    | InsertSubmission(record: Submission)
    | InvokeNotification(body: Submission)

  function ImagesOf(images: SlideshowImages, c: Category): seq<SlideshowImage>
  {
    match c
    case Compliance => images.compliance
    case Documentation => images.documentation
  }

  function SlideOf(slides: CurrentSlides, c: Category): nat
  {
    match c
    case Compliance => slides.compliance
    case Documentation => slides.documentation
  }

  // ---------------------------------------------------------------------
  // Title rotation
  // ---------------------------------------------------------------------

  /** The title updater: the next index, wrapping over the title list. */
  function NextTitle(prev: nat): (r: nat)
    ensures r < |RotatingTitles|
    ensures prev + 1 < |RotatingTitles| ==> r == prev + 1
    ensures prev + 1 == |RotatingTitles| ==> r == 0
  {
    (prev + 1) % |RotatingTitles|
  }

  /** The title index after `n` rotations from `start`. */
  function TitleAfter(start: nat, n: nat): nat
  {
    if n == 0 then start else NextTitle(TitleAfter(start, n - 1))
  }

  lemma TitleRotationTwiceIsIdentity(t: nat)
    requires t < |RotatingTitles|
    ensures NextTitle(NextTitle(t)) == t
  {
  }

  /** From the initial index 0, `n` rotations show title `n mod 2`. */
  lemma {:induction false} TitleAfterRotations(n: nat)
    ensures TitleAfter(0, n) == n % |RotatingTitles|
  {
    if n > 0 {
      TitleAfterRotations(n - 1);
    }
  }

  // ---------------------------------------------------------------------
  // Slideshow advance
  // ---------------------------------------------------------------------

  /** JavaScript's `count || 1`: an empty list counts as length 1. */
  function SlideModulus(count: nat): (m: nat)
    ensures m >= 1
    ensures count > 0 ==> m == count
    ensures count == 0 ==> m == 1
  {
    if count == 0 then 1 else count
  }

  /** The slide updater for one category whose list has `count` images. */
  function NextSlide(prev: nat, count: nat): (r: nat)
    ensures r < SlideModulus(count)
    ensures count == 0 ==> r == 0
    ensures prev + 1 < count ==> r == prev + 1
    ensures prev + 1 == count ==> r == 0
  {
    (prev + 1) % SlideModulus(count)
  }

  /** One slideshow tick: each category advances over its own list only. */
  function AdvanceSlides(slides: CurrentSlides, images: SlideshowImages): (r: CurrentSlides)
    ensures forall c :: SlideOf(r, c) == NextSlide(SlideOf(slides, c), |ImagesOf(images, c)|)
    ensures forall c :: SlideOf(r, c) < SlideModulus(|ImagesOf(images, c)|)
  {
    CurrentSlides(
      NextSlide(slides.compliance, |images.compliance|),
      NextSlide(slides.documentation, |images.documentation|))
  }

  /** The slide index after `n` ticks from `start` over a list of `count` images. */
  function SlideAfter(start: nat, count: nat, n: nat): nat
  {
    if n == 0 then start else NextSlide(SlideAfter(start, count, n - 1), count)
  }

  /** From index 0, `n` ticks show slide `n mod count`, or 0 forever when the list is empty. */
  lemma {:induction false} SlideAfterTicks(count: nat, n: nat)
    ensures SlideAfter(0, count, n) == if count == 0 then 0 else n % count
  {
    if n > 0 {
      SlideAfterTicks(count, n - 1);
      if count > 0 {
        ModSucc(n - 1, count);
      }
    }
  }

  /** Arithmetic helper: `d * k` is at least `k` for a positive `d`. */
  lemma {:induction false} MulAtLeast(d: nat, k: nat)
    requires d >= 1
    ensures d * k >= k
  {
    if d > 1 {
      MulAtLeast(d - 1, k);
      assert d * k == (d - 1) * k + k;
    }
  }

  /** Arithmetic helper: quotient and remainder are unique. */
  lemma ModUnique(a: int, k: int, q: int, r: int)
    requires k > 0 && 0 <= r < k && a == q * k + r
    ensures a % k == r
  {
    var q', r' := a / k, a % k;
    assert q * k + r == q' * k + r';
    assert (q - q') * k == r' - r;
    if q > q' {
      MulAtLeast(q - q', k);
    } else if q < q' {
      assert (q' - q) * k == r - r';
      MulAtLeast(q' - q, k);
    }
  }

  /** Arithmetic helper: the remainder of a successor wraps at `k`. */
  lemma ModSucc(m: nat, k: nat)
    requires k > 0
    ensures (m + 1) % k == if m % k + 1 == k then 0 else m % k + 1
  {
    var q, r := m / k, m % k;
    assert m == q * k + r;
    if r + 1 == k {
      assert m + 1 == (q + 1) * k + 0;
      ModUnique(m + 1, k, q + 1, 0);
    } else {
      ModUnique(m + 1, k, q, r + 1);
    }
  }

  // ---------------------------------------------------------------------
  // Pain-point selection
  // ---------------------------------------------------------------------

  ghost predicate NoDuplicates(s: seq<string>)
  {
    forall i, j :: 0 <= i < j < |s| ==> s[i] != s[j]
  }

  /** `s.filter(p => p !== point)`. */
  function RemoveAll(s: seq<string>, point: string): (r: seq<string>)
    ensures point !in r
    ensures forall y :: y in r <==> y in s && y != point
    ensures |r| <= |s|
  {
    if s == [] then []
    else (if s[0] == point then [] else [s[0]]) + RemoveAll(s[1..], point)
  }

  /** The toggle updater: drop a selected point, append an unselected one. */
  function Toggle(selection: seq<string>, point: string): (r: seq<string>)
    ensures point in r <==> point !in selection
    ensures forall y :: y != point ==> (y in r <==> y in selection)
    ensures point !in selection ==> |r| == |selection| + 1 && r[..|selection|] == selection
  {
    if point in selection then RemoveAll(selection, point) else selection + [point]
  }

  /** Filtering keeps the order of what remains: it distributes over concatenation. */
  lemma {:induction false} RemoveAllConcat(a: seq<string>, b: seq<string>, point: string)
    ensures RemoveAll(a + b, point) == RemoveAll(a, point) + RemoveAll(b, point)
  {
    if a == [] {
      assert a + b == b;
    } else {
      var head := if a[0] == point then [] else [a[0]];
      assert (a + b)[0] == a[0];
      assert (a + b)[1..] == a[1..] + b;
      RemoveAllConcat(a[1..], b, point);
      calc {
        RemoveAll(a + b, point);
        head + RemoveAll(a[1..] + b, point);
        head + (RemoveAll(a[1..], point) + RemoveAll(b, point));
        (head + RemoveAll(a[1..], point)) + RemoveAll(b, point);
        RemoveAll(a, point) + RemoveAll(b, point);
      }
    }
  }

  /** Filtering out an absent point changes nothing. */
  lemma {:induction false} RemoveAllAbsent(s: seq<string>, point: string)
    requires point !in s
    ensures RemoveAll(s, point) == s
  {
    if s != [] {
      RemoveAllAbsent(s[1..], point);
    }
  }

  lemma {:induction false} RemoveAllKeepsNoDuplicates(s: seq<string>, point: string)
    requires NoDuplicates(s)
    ensures NoDuplicates(RemoveAll(s, point))
  {
    if s != [] {
      RemoveAllKeepsNoDuplicates(s[1..], point);
      assert s[0] !in s[1..] by {
        forall k | 0 <= k < |s[1..]| ensures s[1..][k] != s[0] {
          assert s[1..][k] == s[k + 1];
        }
      }
    }
  }

  /** Toggling keeps the selection free of duplicates. */
  lemma ToggleKeepsNoDuplicates(s: seq<string>, point: string)
    requires NoDuplicates(s)
    ensures NoDuplicates(Toggle(s, point))
  {
    if point in s {
      RemoveAllKeepsNoDuplicates(s, point);
    }
  }

  /** Toggling an unselected point twice restores the selection exactly. */
  lemma ToggleTwiceAbsent(s: seq<string>, point: string)
    requires point !in s
    ensures Toggle(Toggle(s, point), point) == s
  {
    assert Toggle(s, point) == s + [point];
    RemoveAllConcat(s, [point], point);
    RemoveAllAbsent(s, point);
    assert RemoveAll([point], point) == [];
  }

  /** Toggling a selected point twice moves it to the end of the selection. */
  lemma ToggleTwicePresent(s: seq<string>, point: string)
    requires point in s
    ensures Toggle(Toggle(s, point), point) == RemoveAll(s, point) + [point]
  {
  }

  /** A point that is the last entry of a duplicate-free selection occurs nowhere before it. */
  lemma LastOnly(s: seq<string>)
    requires NoDuplicates(s) && |s| > 0
    ensures s[|s| - 1] !in s[..|s| - 1]
  {
    var front := s[..|s| - 1];
    forall k | 0 <= k < |front| ensures front[k] != s[|s| - 1] {
      assert front[k] == s[k];
    }
  }

  /** Toggling the last entry of a duplicate-free selection twice restores it. */
  lemma ToggleTwiceLast(s: seq<string>, point: string)
    requires NoDuplicates(s) && |s| > 0 && s[|s| - 1] == point
    ensures Toggle(Toggle(s, point), point) == s
  {
    var front := s[..|s| - 1];
    assert s == front + [point];
    LastOnly(s);
    ToggleTwiceAbsent(front, point);
  }

  /** On a duplicate-free selection, toggling the same point twice restores
      the selection exactly when the point was unselected or was the last one
      selected; otherwise the point moves to the end. */
  lemma ToggleTwiceRestores(s: seq<string>, point: string)
    requires NoDuplicates(s)
    ensures Toggle(Toggle(s, point), point) == s <==> point !in s || s[|s| - 1] == point
  {
    if point !in s {
      ToggleTwiceAbsent(s, point);
    } else if s[|s| - 1] == point {
      ToggleTwiceLast(s, point);
    } else {
      ToggleTwicePresent(s, point);
      var twice := Toggle(Toggle(s, point), point);
      assert twice[|twice| - 1] == point;
    }
  }

  /** Clicking only the page's own labels keeps the selection among them. */
  lemma ToggleStaysWithinPainPoints(s: seq<string>, point: string)
    requires forall y :: y in s ==> y in PainPoints
    requires point in PainPoints
    ensures forall y :: y in Toggle(s, point) ==> y in PainPoints
  {
  }

  // ---------------------------------------------------------------------
  // Form fields and the submission record
  // ---------------------------------------------------------------------

  function FieldValue(form: FormData, field: Field): string
  {
    match field
    case Name => form.name
    case Company => form.company
    case Email => form.email
    case Phone => form.phone
    case PreferredSolution => form.preferredSolution
    case Note => form.note
  }

  /** The spread update `{ ...prev, [name]: value }`: only the named field changes. */
  function UpdateField(form: FormData, field: Field, value: string): (r: FormData)
    ensures FieldValue(r, field) == value
    ensures forall other :: other != field ==> FieldValue(r, other) == FieldValue(form, other)
  {
    match field
    case Name => form.(name := value)
    case Company => form.(company := value)
    case Email => form.(email := value)
    case Phone => form.(phone := value)
    case PreferredSolution => form.(preferredSolution := value)
    case Note => form.(note := value)
  }

  /** Two forms that agree on every field are the same form. */
  lemma FieldsDetermineForm(a: FormData, b: FormData)
    requires forall field :: FieldValue(a, field) == FieldValue(b, field)
    ensures a == b
  {
    assert FieldValue(a, Name) == FieldValue(b, Name);
    assert FieldValue(a, Company) == FieldValue(b, Company);
    assert FieldValue(a, Email) == FieldValue(b, Email);
    assert FieldValue(a, Phone) == FieldValue(b, Phone);
    assert FieldValue(a, PreferredSolution) == FieldValue(b, PreferredSolution);
    assert FieldValue(a, Note) == FieldValue(b, Note);
  }

  /** Writing a field's current value back leaves the form as it was; of two
      writes to the same field the later one wins. */
  lemma UpdateFieldLaws(form: FormData, field: Field, v: string, w: string)
    ensures UpdateField(form, field, FieldValue(form, field)) == form
    ensures UpdateField(UpdateField(form, field, v), field, w) == UpdateField(form, field, w)
  {
    FieldsDetermineForm(UpdateField(form, field, FieldValue(form, field)), form);
    FieldsDetermineForm(UpdateField(UpdateField(form, field, v), field, w), UpdateField(form, field, w));
  }

  /** JavaScript's `value || null` on a string. */
  function OrNull(value: string): (r: Option<string>)
    ensures r == None <==> value == ""
    ensures r.Some? ==> r.value == value
  {
    if value == "" then None else Some(value)
  }

  /** The submission record built from the form, the selection and the clock reading. */
  function BuildSubmission(form: FormData, selection: seq<string>, now: string): (r: Submission)
    ensures r.phone == None <==> form.phone == ""
    ensures r.note == None <==> form.note == ""
    ensures r.painPoints == selection
    ensures r.createdAt == now
  {
    Submission(
      form.name, form.company, form.email, OrNull(form.phone),
      form.preferredSolution, selection, OrNull(form.note), now)
  }

  /** Reading a record back into form fields: `null` becomes the empty string. */
  function FormOf(s: Submission): FormData
  {
    FormData(
      s.name, s.company, s.email,
      if s.phone.Some? then s.phone.value else "",
      s.preferredSolution,
      if s.note.Some? then s.note.value else "")
  }

  /** The record loses nothing of the form: every field can be read back. */
  lemma SubmissionKeepsForm(form: FormData, selection: seq<string>, now: string)
    ensures FormOf(BuildSubmission(form, selection, now)) == form
  {
  }

  // ---------------------------------------------------------------------
  // Image fetch
  // ---------------------------------------------------------------------

  /** The fixed placeholder list used for a category when the fetch throws. */
  function Placeholders(c: Category): (r: seq<SlideshowImage>)
    ensures |r| == 4
    ensures forall i :: 0 <= i < |r| ==> r[i].imageUrl == ""
  {
    match c
    case Compliance => [
      SlideshowImage("", "Compliance Check Interface"),
      SlideshowImage("", "AI Rule Analysis Dashboard"),
      SlideshowImage("", "Code Validation Results"),
      SlideshowImage("", "Smart Suggestion Panel")]
    case Documentation => [
      SlideshowImage("", "Format Transformation View"),
      SlideshowImage("", "Automated Drawing Generator"),
      SlideshowImage("", "Multi-Output Preview"),
      SlideshowImage("", "Custom Template Builder")]
  }

  /** `data || []` for a query that resolved. */
  function RowsOrEmpty(q: QueryResult): (r: seq<SlideshowImage>)
    requires !q.Threw?
    ensures q.Rows? ==> r == q.rows
    ensures q.NoData? ==> r == []
  {
    if q.Rows? then q.rows else []
  }

  /** The lists stored by the fetch, given the outcome of each query. The
      documentation query is only awaited once the compliance query resolved. */
  function ImagesAfterFetch(compliance: QueryResult, documentation: QueryResult): (r: SlideshowImages)
    ensures compliance.Threw? || documentation.Threw? ==>
              forall c :: ImagesOf(r, c) == Placeholders(c)
    ensures compliance.Rows? && !documentation.Threw? ==> r.compliance == compliance.rows
    ensures compliance.NoData? && !documentation.Threw? ==> r.compliance == []
    ensures documentation.Rows? && !compliance.Threw? ==> r.documentation == documentation.rows
    ensures documentation.NoData? && !compliance.Threw? ==> r.documentation == []
  {
    if compliance.Threw? || documentation.Threw? then
      SlideshowImages(Placeholders(Compliance), Placeholders(Documentation))
    else
      SlideshowImages(RowsOrEmpty(compliance), RowsOrEmpty(documentation))
  }

  /** The queries issued, in order: a throw in the first stops the second. */
  function QueriesIssued(compliance: QueryResult): (r: seq<ServiceCall>)
    ensures |r| >= 1 && r[0] == SelectImages(Compliance)
    ensures SelectImages(Documentation) in r <==> !compliance.Threw?
  {
    if compliance.Threw? then [SelectImages(Compliance)]
    else [SelectImages(Compliance), SelectImages(Documentation)]
  }

  /** After a failed fetch every category cycles through its four placeholders. */
  lemma PlaceholderSlidesCycle(compliance: QueryResult, documentation: QueryResult, c: Category, n: nat)
    requires compliance.Threw? || documentation.Threw?
    ensures SlideAfter(0, |ImagesOf(ImagesAfterFetch(compliance, documentation), c)|, n) == n % 4
  {
    SlideAfterTicks(4, n);
  }

  // ---------------------------------------------------------------------
  // Submission procedure
  // ---------------------------------------------------------------------

  /** The service calls one submission makes, in order: the insert, and the
      notification only once the insert succeeded. */
  function SubmissionCalls(record: Submission, insert: InsertOutcome): (r: seq<ServiceCall>)
    ensures |r| >= 1 && r[0] == InsertSubmission(record)
    ensures (exists body :: InvokeNotification(body) in r) <==> insert == Inserted
    ensures insert == Inserted ==> r == [InsertSubmission(record), InvokeNotification(record)]
  {
    if insert == Inserted then [InsertSubmission(record), InvokeNotification(record)]
    else [InsertSubmission(record)]
  }

  // ---------------------------------------------------------------------
  // The component's state
  // ---------------------------------------------------------------------

  class LandingPageState {
    var currentTitle: nat
    var activeTab: Category
    var slideshowImages: SlideshowImages
    var currentSlides: CurrentSlides
    var selectedPainPoints: seq<string>
    var formData: FormData
    var isSubmitted: bool
    /** Five-second reset timers scheduled by successful submissions and not yet fired. */
    var pendingResets: nat
    /** Whether the mount effect has fetched the image lists; it runs once. */
    var fetched: bool

    /** The states the page can reach: the title index is valid, the selection
        has no duplicates, the lists stay empty until the fetch, each slide
        index lies within its own list, and a reset is pending exactly while
        the success message shows (the form, and with it a second submission,
        is hidden until then). */
    ghost predicate Valid()
      reads this
    {
      && currentTitle < |RotatingTitles|
      && NoDuplicates(selectedPainPoints)
      && (!fetched ==> slideshowImages == SlideshowImages([], []))
      && (forall c :: SlideOf(currentSlides, c) < SlideModulus(|ImagesOf(slideshowImages, c)|))
      && pendingResets == (if isSubmitted then 1 else 0)
    }

    /** The mounted component's initial state. */
    constructor ()
      ensures Valid()
      ensures currentTitle == 0 && activeTab == Compliance
      ensures slideshowImages == SlideshowImages([], [])
      ensures currentSlides == CurrentSlides(0, 0)
      ensures selectedPainPoints == [] && formData == DefaultForm
      ensures !isSubmitted && pendingResets == 0 && !fetched
    {
      currentTitle := 0;
      activeTab := Compliance;
      slideshowImages := SlideshowImages([], []);
      currentSlides := CurrentSlides(0, 0);
      selectedPainPoints := [];
      formData := DefaultForm;
      isSubmitted := false;
      pendingResets := 0;
      fetched := false;
    }

    /** The title timer's delayed swap: show the next title. */
    method RotateTitle()
      requires Valid()
      modifies this`currentTitle
      ensures Valid()
      ensures currentTitle == NextTitle(old(currentTitle))
    {
      currentTitle := NextTitle(currentTitle);
    }

    /** The slideshow timer's tick, over the lists currently stored. */
    method TickSlideshow()
      requires Valid()
      modifies this`currentSlides
      ensures Valid()
      ensures currentSlides == AdvanceSlides(old(currentSlides), slideshowImages)
    {
      currentSlides := AdvanceSlides(currentSlides, slideshowImages);
    }

    /** A click on a tab. */
    method SelectTab(tab: Category)
      requires Valid()
      modifies this`activeTab
      ensures Valid()
      ensures activeTab == tab
    {
      activeTab := tab;
    }

    /** A click on a pain-point button. */
    method TogglePainPoint(point: string)
      requires Valid() && !isSubmitted
      modifies this`selectedPainPoints
      ensures Valid()
      ensures selectedPainPoints == Toggle(old(selectedPainPoints), point)
      ensures point in PainPoints && (forall y :: y in old(selectedPainPoints) ==> y in PainPoints) ==>
                forall y :: y in selectedPainPoints ==> y in PainPoints
    {
      ToggleKeepsNoDuplicates(selectedPainPoints, point);
      selectedPainPoints := Toggle(selectedPainPoints, point);
    }

    /** A change event from the control whose `name` is `field`. */
    method ChangeField(field: Field, value: string)
      requires Valid() && !isSubmitted
      modifies this`formData
      ensures Valid()
      ensures formData == UpdateField(old(formData), field, value)
    {
      formData := UpdateField(formData, field, value);
    }

    /** The mount-time fetch of both image lists. The effect has no
        dependencies, so it runs once; the slideshows are still at their first
        slide when it does. */
    method FetchImages(compliance: QueryResult, documentation: QueryResult) returns (calls: seq<ServiceCall>)
      requires Valid() && !fetched
      modifies this`slideshowImages, this`fetched
      ensures Valid() && fetched
      ensures currentSlides == CurrentSlides(0, 0)
      ensures slideshowImages == ImagesAfterFetch(compliance, documentation)
      ensures calls == QueriesIssued(compliance)
    {
      assert SlideOf(currentSlides, Compliance) < 1 && SlideOf(currentSlides, Documentation) < 1;
      fetched := true;
      calls := [SelectImages(Compliance)];
      if compliance.Threw? {
        slideshowImages := SlideshowImages(Placeholders(Compliance), Placeholders(Documentation));
        return;
      }
      calls := calls + [SelectImages(Documentation)];
      if documentation.Threw? {
        slideshowImages := SlideshowImages(Placeholders(Compliance), Placeholders(Documentation));
        return;
      }
      slideshowImages := SlideshowImages(RowsOrEmpty(compliance), RowsOrEmpty(documentation));
    }

    /** The form's submit handler: build the record, insert it, notify only
        after a successful insert, then show the success message and schedule
        the reset. Any failure leaves the whole state as it was. */
    method Submit(now: string, insert: InsertOutcome, invoke: InvokeOutcome)
      returns (record: Submission, calls: seq<ServiceCall>, ok: bool)
      requires Valid() && !isSubmitted
      modifies this`isSubmitted, this`pendingResets
      ensures Valid()
      ensures record == BuildSubmission(formData, selectedPainPoints, now)
      ensures calls == SubmissionCalls(record, insert)
      ensures ok <==> insert == Inserted && invoke == InvokeSettled
      ensures ok ==> isSubmitted && pendingResets == old(pendingResets) + 1 == 1
      ensures !ok ==> !isSubmitted && pendingResets == old(pendingResets) == 0
      ensures formData == old(formData) && selectedPainPoints == old(selectedPainPoints)
    {
      record := BuildSubmission(formData, selectedPainPoints, now);
      calls := [InsertSubmission(record)];
      ok := false;
      if insert == InsertFailed {
        return;
      }
      calls := calls + [InvokeNotification(record)];
      if invoke == InvokeRejected {
        return;
      }
      isSubmitted := true;
      pendingResets := pendingResets + 1;
      ok := true;
    }

    /** The reset timer scheduled by a successful submission fires. */
    method ResetAfterSubmit()
      requires Valid()
      requires pendingResets > 0
      modifies this`isSubmitted, this`formData, this`selectedPainPoints, this`pendingResets
      ensures Valid()
      ensures !isSubmitted && formData == DefaultForm && selectedPainPoints == []
      ensures pendingResets == old(pendingResets) - 1 == 0
    {
      isSubmitted := false;
      formData := DefaultForm;
      selectedPainPoints := [];
      pendingResets := pendingResets - 1;
    }
  }

  /** A visitor types a name, picks a pain point and submits; both calls go
      through, and five seconds later the form is cleared. */
  method SubmissionScenario()
  {
    var page := new LandingPageState();
    page.ChangeField(Name, "Jane Tan");
    page.TogglePainPoint("Version Control");
    var record, calls, ok := page.Submit("2025-01-01T00:00:00.000Z", Inserted, InvokeSettled);
    assert record.name == "Jane Tan" && record.painPoints == ["Version Control"];
    assert record.phone == None && record.note == None;
    assert calls == [InsertSubmission(record), InvokeNotification(record)];
    assert ok && page.isSubmitted;
    page.ResetAfterSubmit();
    assert !page.isSubmitted && page.formData == DefaultForm && page.selectedPainPoints == [];
  }
}
