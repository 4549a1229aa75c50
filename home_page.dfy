/**
 * The home page: a carousel of the four visualisations, two per slide, that
 * loads the iframes of the current and neighbouring items only, and a
 * contact form that posts to the contact endpoint and shows its outcome.
 */
module HomePage {
  import opened Js
  import Contact

  /** Tension canvas, motif constellation, counterpoint weave, Tonnetz
      pathway. */
  const VisualizationCount: nat := 4

  // ---------------------------------------------------------------------
  // The carousel

  /** `Math.ceil(len / 2) - 1`: the last slide when each slide holds two
      items; the slides `0..m` hold every item and the last one is not
      empty. */
  function MaxSlide(len: nat): (m: int)
    ensures len == 0 ==> m == -1
    ensures len > 0 ==> 0 <= m && 2 * m < len <= 2 * m + 2
  {
    (len + 1) / 2 - 1
  }

  /** `Math.abs(i - currentSlide * 2) <= 2`. */
  predicate IframeLoaded(i: int, slide: int) {
    -2 <= i - 2 * slide <= 2
  }

  /** The items whose iframe is loaded on a slide. */
  function LoadedItems(len: nat, slide: int): set<int> {
    set i | 0 <= i < len && IframeLoaded(i, slide)
  }

  /** On slide `s` both items of the slide and both of the previous slide are
      loaded, but of the next slide only its first item; at most five
      iframes are ever loaded. */
  lemma LoadedWindow(len: nat, s: int)
    ensures forall i :: 2 * s - 2 <= i <= 2 * s + 2 ==> IframeLoaded(i, s)
    ensures !IframeLoaded(2 * s + 3, s) && !IframeLoaded(2 * s - 3, s)
    ensures |LoadedItems(len, s)| <= 5
  {
    var window := {2 * s - 2, 2 * s - 1, 2 * s, 2 * s + 1, 2 * s + 2};
    assert LoadedItems(len, s) <= window;
    SubsetCard(LoadedItems(len, s), window);
  }

  lemma SubsetCard(a: set<int>, b: set<int>)
    requires a <= b
    ensures |a| <= |b|
  {
    assert b == a + (b - a);
  }

  /** For the page's four items: the first slide loads items 0 to 2 and the
      second loads all four. */
  lemma FourItemWindow()
    ensures MaxSlide(VisualizationCount) == 1
    ensures LoadedItems(VisualizationCount, 0) == {0, 1, 2}
    ensures LoadedItems(VisualizationCount, 1) == {0, 1, 2, 3}
  {
    assert LoadedItems(VisualizationCount, 0) == {0, 1, 2} by {
      forall i | i in LoadedItems(VisualizationCount, 0)
        ensures i in {0, 1, 2}
      {
      }
    }
  }

  /** The slide index of the visualisation carousel. */
  class Carousel {
    const maxSlide: int
    var currentSlide: int

    ghost predicate Valid()
      reads this
    {
      0 <= currentSlide <= maxSlide
    }

    constructor ()
      ensures Valid()
      ensures maxSlide == MaxSlide(VisualizationCount) && currentSlide == 0
    {
      maxSlide := MaxSlide(VisualizationCount);
      currentSlide := 0;
    }

    /** `disabled={currentSlide === 0}`. */
    predicate PrevDisabled()
      reads this
    {
      currentSlide == 0
    }

    /** `disabled={currentSlide === maxSlide}`. */
    predicate NextDisabled()
      reads this
    {
      currentSlide == maxSlide
    }

    /** `setCurrentSlide(prev => Math.max(0, prev - 1))`: one slide back,
        never before the first; it moves exactly when the button is
        enabled. */
    method Prev()
      requires Valid()
      modifies this
      ensures Valid()
      ensures currentSlide == if old(currentSlide) > 0 then old(currentSlide) - 1 else 0
      ensures currentSlide != old(currentSlide) <==> !old(PrevDisabled())
    {
      currentSlide := if currentSlide - 1 >= 0 then currentSlide - 1 else 0;
    }

    /** `setCurrentSlide(prev => Math.min(maxSlide, prev + 1))`: one slide
        on, never past the last; it moves exactly when the button is
        enabled. */
    method Next()
      requires Valid()
      modifies this
      ensures Valid()
      ensures currentSlide == if old(currentSlide) < maxSlide then old(currentSlide) + 1 else maxSlide
      ensures currentSlide != old(currentSlide) <==> !old(NextDisabled())
    {
      currentSlide := if currentSlide + 1 <= maxSlide then currentSlide + 1 else maxSlide;
    }

    /** A dot click: one dot is drawn per slide, `0..maxSlide`. */
    method GoTo(i: int)
      requires Valid() && 0 <= i <= maxSlide
      modifies this
      ensures Valid() && currentSlide == i
    {
      currentSlide := i;
    }
  }

  // ---------------------------------------------------------------------
  // The contact form

  datatype FormData = FormData(name: string, email: string, message: string)

  /** The `name` attribute of the input that fired `onChange`. */
  datatype Field = NameField | EmailField | MessageField

  function Get(d: FormData, f: Field): string {
    match f
    case NameField => d.name
    case EmailField => d.email
    case MessageField => d.message
  }

  /** `{ ...prev, [e.target.name]: e.target.value }`: the named field takes
      the new value and the other two keep theirs. */
  function Update(d: FormData, f: Field, value: string): (r: FormData)
    ensures Get(r, f) == value
    ensures forall g :: g != f ==> Get(r, g) == Get(d, g)
  {
    match f
    case NameField => d.(name := value)
    case EmailField => d.(email := value)
    case MessageField => d.(message := value)
  }

  /** Changing a field and changing it back restores the form. */
  lemma UpdateRestores(d: FormData, f: Field, value: string)
    ensures Update(Update(d, f, value), f, Get(d, f)) == d
  {
  }

  datatype SubmitStatus = Idle | Loading | Success | Failed

  /** What a `throw` handed to `catch`: an `Error` with its message, or any
      other value. */
  datatype Thrown = ErrorObject(message: string) | OtherThrown

  /** How the `fetch` ended: a response (`ok` for a 2xx status) or a
      rejection. */
  datatype SubmitResult = Responded(ok: bool) | Rejected(thrown: Thrown)

  const SendFailed := "\U{C804}\U{C1A1}\U{C5D0} \U{C2E4}\U{D328}\U{D588}\U{C2B5}\U{B2C8}\U{B2E4}."
  const UnknownError := "\U{C624}\U{B958}\U{AC00} \U{BC1C}\U{C0DD}\U{D588}\U{C2B5}\U{B2C8}\U{B2E4}."

  /** The message shown for a failed submission: a non-ok response throws
      an `Error` with the fixed send-failure text; a thrown `Error` shows its
      own message; anything else the generic text. */
  function FailureMessage(r: SubmitResult): (m: string)
    requires r != Responded(true)
    ensures r == Responded(false) ==> m == SendFailed
    ensures r.Rejected? && r.thrown.ErrorObject? ==> m == r.thrown.message
    ensures r == Rejected(OtherThrown) ==> m == UnknownError
  {
    match r
    case Responded(_) => SendFailed
    case Rejected(ErrorObject(msg)) => msg
    case Rejected(OtherThrown) => UnknownError
  }

  /** `JSON.stringify(formData)` as the endpoint receives it. */
  function Payload(d: FormData): Contact.Body {
    Contact.Json(Some(d.name), Str(d.email), Str(d.message))
  }

  /** What the endpoint answers the form: 200 exactly when the address has
      the accepted shape and the message is not empty, 400 otherwise; a
      form never causes a 500. */
  lemma FormAnswer(d: FormData, smtp: bool, sent: bool)
    ensures Contact.Status(Contact.Handle(Payload(d), smtp, sent)) == 200 <==>
              d.message != "" && Contact.EmailShape(d.email)
    ensures Contact.Status(Contact.Handle(Payload(d), smtp, sent)) != 200 ==>
              Contact.Status(Contact.Handle(Payload(d), smtp, sent)) == 400
  {
    Contact.HandleSpec(Payload(d), smtp, sent);
  }

  /** The form state: the three fields, the submission status and the
      error text. */
  class ContactForm {
    var formData: FormData
    var status: SubmitStatus
    var errorMessage: string

    constructor ()
      ensures formData == FormData("", "", "") && status == Idle && errorMessage == ""
    {
      formData := FormData("", "", "");
      status := Idle;
      errorMessage := "";
    }

    /** `disabled={status === "loading"}` on every input and on the button. */
    predicate Enabled()
      reads this
    {
      status != Loading
    }

    /** `handleChange`: the inputs are disabled while loading. */
    method HandleChange(f: Field, value: string)
      requires Enabled()
      modifies this
      ensures formData == Update(old(formData), f, value)
      ensures status == old(status) && errorMessage == old(errorMessage)
    {
      formData := Update(formData, f, value);
    }

    /** The synchronous part of `handleSubmit`: status to loading, the error
        cleared, and the current fields posted. */
    method BeginSubmit() returns (payload: Contact.Body)
      requires Enabled()
      modifies this
      ensures status == Loading && errorMessage == ""
      ensures formData == old(formData)
      ensures payload == Payload(formData)
    {
      status := Loading;
      errorMessage := "";
      payload := Payload(formData);
    }

    /** The rest of `handleSubmit` once the request has settled: success
        empties the form; any failure keeps it and shows the failure's
        message. It runs whatever the status is by then: a success timer
        left over from an earlier submission may already have set it back
        to idle, and the outcome still overwrites it. */
    method FinishSubmit(r: SubmitResult)
      modifies this
      ensures r == Responded(true) ==> status == Success && formData == FormData("", "", "")
      ensures r == Responded(true) ==> errorMessage == old(errorMessage)
      ensures r != Responded(true) ==> status == Failed && formData == old(formData)
      ensures r != Responded(true) ==> errorMessage == FailureMessage(r)
    {
      if r == Responded(true) {
        status := Success;
        formData := FormData("", "", "");
      } else {
        status := Failed;
        errorMessage := FailureMessage(r);
      }
    }

    /** The `setTimeout` set on success: three seconds later the status goes
        back to idle, whatever it is by then. */
    method ResetTimerFires()
      modifies this
      ensures status == Idle
      ensures formData == old(formData) && errorMessage == old(errorMessage)
    {
      status := Idle;
    }
  }
}
