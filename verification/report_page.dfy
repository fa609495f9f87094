/** The report wizard: a step counter over Location, Category, Details and Review,
    the form fields, and the submission guard. */
module ReportPage {
  import opened Common
  import opened Types

  const Steps: seq<string> := ["Location", "Category", "Details", "Review"]

  /** The index of the Review step. */
  const LastStep: nat := |Steps| - 1

  /** `nextStep`: one step forward, except at the last step. */
  function NextStep(step: nat): (r: nat)
    ensures step < LastStep ==> r == step + 1
    ensures step >= LastStep ==> r == step
  {
    if step < LastStep then step + 1 else step
  }

  /** `prevStep`: one step back, except at the first step. */
  function PrevStep(step: nat): (r: nat)
    ensures step > 0 ==> r == step - 1
    ensures step == 0 ==> r == 0
  {
    if step > 0 then step - 1 else step
  }

  /** Both moves keep the step within the wizard, and a step forward from before
      Review is undone by a step back. */
  lemma StepMovesStayInRange(step: nat)
    requires step <= LastStep
    ensures NextStep(step) <= LastStep && PrevStep(step) <= LastStep
    ensures step < LastStep ==> PrevStep(NextStep(step)) == step
    ensures step > 0 ==> NextStep(PrevStep(step)) == step
  {
  }

  /** `getIcon`: the emoji shown for each category. */
  function Icon(c: Category): (icon: string)
    ensures |icon| > 0
  {
    match c
    case Roads => "\U{1F6A7}"
    case Waste => "\U{1F5D1}\U{FE0F}"
    case Safety => "\U{26A0}\U{FE0F}"
    case Lighting => "\U{1F4A1}"
    case Other => "\U{1F4DD}"
  }

  /** No two categories share an icon. */
  lemma IconsAreDistinct(a: Category, b: Category)
    requires a != b
    ensures Icon(a) != Icon(b)
  {
  }

  class ReportWizard {
    var step: nat
    var loading: bool
    var lat: real
    var lng: real
    var address: string
    var category: Category
    var title: string
    var description: string
    var imageData: string
    var audioData: string
    var anonymous: bool

    predicate Valid()
      reads this
    {
      step <= LastStep
    }

    /** The wizard opens at Location, on a default map position, with an empty form. */
    constructor ()
      ensures step == 0 && !loading
      ensures lat == 40.7589 && lng == -73.9851
      ensures address == "" && category == Roads && title == "" && description == ""
      ensures imageData == "" && audioData == "" && !anonymous
      ensures Valid()
    {
      step, loading := 0, false;
      lat, lng := 40.7589, -73.9851;
      address, category, title, description := "", Roads, "", "";
      imageData, audioData, anonymous := "", "", false;
    }

    method Next()
      requires Valid()
      modifies this
      ensures step == NextStep(old(step)) && Valid()
      ensures old(ShowsNext()) ==> step == old(step) + 1
      ensures old(ShowsSubmit()) ==> step == old(step)
      ensures ShowsSubmit() <==> old(step) + 1 >= LastStep
      ensures title == old(title) && description == old(description) && anonymous == old(anonymous)
      ensures loading == old(loading) && category == old(category)
      ensures lat == old(lat) && lng == old(lng) && address == old(address)
      ensures imageData == old(imageData) && audioData == old(audioData)
    {
      if step < |Steps| - 1 {
        step := step + 1;
      }
    }

    method Prev()
      requires Valid()
      modifies this
      ensures step == PrevStep(old(step)) && Valid()
      ensures old(PrevDisabled()) ==> step == 0
      ensures !old(PrevDisabled()) ==> step == old(step) - 1
      ensures ShowsNext()
      ensures title == old(title) && description == old(description) && anonymous == old(anonymous)
      ensures loading == old(loading) && category == old(category)
      ensures lat == old(lat) && lng == old(lng) && address == old(address)
      ensures imageData == old(imageData) && audioData == old(audioData)
    {
      if step > 0 {
        step := step - 1;
      }
    }

    /** The Next button is offered before Review, the Submit button only at it. */
    predicate ShowsNext()
      reads this
    {
      step < |Steps| - 1
    }

    predicate ShowsSubmit()
      reads this
    {
      !ShowsNext()
    }

    /** The Previous button is disabled at the first step. */
    predicate PrevDisabled()
      reads this
    {
      step == 0
    }

    /** `handleSubmit`: sends nothing unless title and description are filled in; a
        visitor who is not signed in always submits anonymously. */
    method Submit(isAuthenticated: bool) returns (sent: Option<CreateReportRequest>)
      modifies this
      ensures title == "" || description == "" ==> sent == None
      ensures sent.Some? <==> title != "" && description != ""
      ensures sent.Some? ==> sent.value == CreateReportRequest(title, description, CategoryName(category), lat, lng,
                                                               address, Some(imageData), Some(audioData),
                                                               Some(!isAuthenticated || anonymous))
      ensures sent.Some? && !isAuthenticated ==> sent.value.anonymous == Some(true)
      ensures sent.Some? ==> !loading
      ensures sent.None? ==> loading == old(loading)
      ensures step == old(step) && title == old(title) && description == old(description)
      ensures category == old(category) && anonymous == old(anonymous)
      ensures lat == old(lat) && lng == old(lng) && address == old(address)
      ensures imageData == old(imageData) && audioData == old(audioData)
    {
      if title == "" || description == "" {
        return None;
      }
      loading := true;
      sent := Some(CreateReportRequest(title, description, CategoryName(category), lat, lng, address,
                                       Some(imageData), Some(audioData), Some(!isAuthenticated || anonymous)));
      loading := false;
    }
  }

  /** The wizard's step counter stays within 0..3 whatever sequence of moves is
      made: `moves[i]` is true for Next and false for Prev. */
  function Walk(step: nat, moves: seq<bool>): nat
    decreases |moves|
  {
    if moves == [] then step
    else Walk(if moves[0] then NextStep(step) else PrevStep(step), moves[1..])
  }

  lemma {:induction false} WalkStaysInRange(step: nat, moves: seq<bool>)
    requires step <= LastStep
    ensures Walk(step, moves) <= LastStep
    decreases |moves|
  {
    if moves != [] {
      WalkStaysInRange(if moves[0] then NextStep(step) else PrevStep(step), moves[1..]);
    }
  }
}
