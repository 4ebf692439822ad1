/** The guest-facing check-in wizard: which steps it shows, how "next", a
    click in the step menu and a finished registration move it along, and
    the updates of its guest list. */
module AppWizard {
  import opened Prelude
  import opened FormValidation
  import opened AppSteps

  // ---------------------------------------------------------------------
  // The steps on screen
  // ---------------------------------------------------------------------

  predicate StepEnabled(s: Step) { s.enabled }

  /** The enabled steps of the configured list. */
  function ActiveSteps(config: seq<Step>): seq<Step> { Filter(config, StepEnabled) }

  /** The steps the wizard walks through: the enabled configured steps, or
      the language's built-in list when nothing is configured or nothing
      configured is enabled. The list is never empty and every step on it
      is enabled. */
  function EffectiveSteps(config: seq<Step>, lang: string): (r: seq<Step>)
    ensures |r| > 0 && forall i :: 0 <= i < |r| ==> r[i].enabled
    ensures |ActiveSteps(config)| > 0 ==> r == ActiveSteps(config)
    ensures |ActiveSteps(config)| == 0 ==> r == BuildDefaultSteps(lang)
  {
    var active := if |config| > 0 then ActiveSteps(config) else BuildDefaultSteps(lang);
    var r := if |active| > 0 then active else BuildDefaultSteps(lang);
    assert forall i :: 0 <= i < |ActiveSteps(config)| ==> ActiveSteps(config)[i] in ActiveSteps(config);
    r
  }

  /** A `rules` step makes the agreement box mandatory. */
  predicate RequiresAgreement(steps: seq<Step>) {
    exists i :: 0 <= i < |steps| && steps[i].id == "rules"
  }

  predicate OnStep(steps: seq<Step>, current: nat, id: string) {
    current < |steps| && steps[current].id == id
  }

  // ---------------------------------------------------------------------
  // The guest list
  // ---------------------------------------------------------------------

  /** The guests not yet sent to the server (`isEditable !== false`). */
  function PendingGuests(guests: seq<Guest>): seq<Guest> { Filter(guests, (g: Guest) => g.isEditable) }

  function IdsOf(guests: seq<Guest>): (ids: set<string>)
    ensures forall i :: 0 <= i < |guests| ==> guests[i].id in ids
    ensures forall id :: id in ids ==> exists i :: 0 <= i < |guests| && guests[i].id == id
  {
    set i | 0 <= i < |guests| :: guests[i].id
  }

  /** The merge after a successful submission: guests whose id was
      submitted become read-only, every other guest is kept as it was. */
  function MarkSubmitted(guests: seq<Guest>, ids: set<string>): (r: seq<Guest>)
    ensures |r| == |guests|
    ensures forall i :: 0 <= i < |r| && guests[i].id in ids ==>
      !r[i].isEditable && r[i].(isEditable := guests[i].isEditable) == guests[i]
    ensures forall i :: 0 <= i < |r| && guests[i].id !in ids ==> r[i] == guests[i]
  {
    seq(|guests|, i requires 0 <= i < |guests| =>
      if guests[i].id in ids then guests[i].(isEditable := false) else guests[i])
  }

  /** Once the pending guests are submitted and merged, none is pending. */
  lemma SubmittedLeavesNonePending(guests: seq<Guest>)
    ensures PendingGuests(MarkSubmitted(guests, IdsOf(PendingGuests(guests)))) == []
  {
    var pending := PendingGuests(guests);
    var r := MarkSubmitted(guests, IdsOf(pending));
    forall i | 0 <= i < |r|
      ensures !r[i].isEditable
    {
      if guests[i].isEditable {
        assert guests[i] in pending;
      }
    }
    NoneEditable(r);
  }

  lemma {:induction false} NoneEditable(guests: seq<Guest>)
    requires forall i :: 0 <= i < |guests| ==> !guests[i].isEditable
    ensures PendingGuests(guests) == []
  {
    if guests != [] {
      NoneEditable(guests[1..]);
    }
  }

  /** `addGuest`: a fresh adult guest at the end; `id` is the random id. */
  function AddGuest(guests: seq<Guest>, id: string): (r: seq<Guest>)
    ensures |r| == |guests| + 1 && r[..|guests|] == guests && r[|guests|] == GuestTemplate(id, "adult")
  {
    guests + [GuestTemplate(id, "adult")]
  }

  predicate GuestIdIsNot(id: string, g: Guest) { g.id != id }

  /** `removeGuest`: drop the guests with id `id`, keep the others in order. */
  function RemoveGuest(guests: seq<Guest>, id: string): (r: seq<Guest>)
    ensures forall g :: g in r ==> g in guests && g.id != id
    ensures forall g :: g in guests && g.id != id ==> g in r
  {
    Filter(guests, g => GuestIdIsNot(id, g))
  }

  /** Removing distributes over concatenation, so the kept guests stay in
      their order, and removing an id no guest has changes nothing. */
  lemma RemoveGuestOrder(a: seq<Guest>, b: seq<Guest>, id: string)
    ensures RemoveGuest(a + b, id) == RemoveGuest(a, id) + RemoveGuest(b, id)
    ensures (forall g :: g in a ==> g.id != id) ==> RemoveGuest(a, id) == a
  {
    FilterAppend(a, b, g => GuestIdIsNot(id, g));
    if forall g :: g in a ==> g.id != id {
      FilterKeepsAll(a, g => GuestIdIsNot(id, g));
    }
  }

  /** The text fields an input of the registration form can set. */
  datatype TextField = Name | Age | Phone | Address | PostalCode | Nationality | PassportNumber
                     | GuardianName | GuardianPhone | OcrStatus | OcrMessage

  /** One `updateGuest(id, field, value)` call. */
  datatype GuestEdit = SetText(field: TextField, value: string) | SetResident(resident: bool) | SetPhoto(photo: Option<string>)

  function ApplyEdit(g: Guest, e: GuestEdit): (r: Guest)
    ensures r.id == g.id && r.kind == g.kind && r.isEditable == g.isEditable
  {
    match e
    case SetResident(b) => g.(isResident := b)
    case SetPhoto(p) => g.(passportPhoto := p)
    case SetText(f, v) =>
      match f
      case Name => g.(name := v)
      case Age => g.(age := v)
      case Phone => g.(phone := v)
      case Address => g.(address := v)
      case PostalCode => g.(postalCode := v)
      case Nationality => g.(nationality := v)
      case PassportNumber => g.(passportNumber := v)
      case GuardianName => g.(guardianName := v)
      case GuardianPhone => g.(guardianPhone := v)
      case OcrStatus => g.(passportOcrStatus := v)
      case OcrMessage => g.(passportOcrMessage := v)
  }

  /** `updateGuest`: only the guests with id `id` change, and their id,
      kind and submitted state stay. */
  function UpdateGuest(guests: seq<Guest>, id: string, e: GuestEdit): (r: seq<Guest>)
    ensures |r| == |guests|
    ensures forall i :: 0 <= i < |r| && guests[i].id != id ==> r[i] == guests[i]
    ensures forall i :: 0 <= i < |r| && guests[i].id == id ==> r[i] == ApplyEdit(guests[i], e)
    ensures IdsOf(r) == IdsOf(guests)
  {
    var r := seq(|guests|, i requires 0 <= i < |guests| => if guests[i].id == id then ApplyEdit(guests[i], e) else guests[i]);
    assert forall i :: 0 <= i < |r| ==> r[i].id == guests[i].id;
    r
  }

  // ---------------------------------------------------------------------
  // The state machine
  // ---------------------------------------------------------------------

  /** The state the wizard's handlers change. */
  datatype Flow = Flow(currentStep: nat, isCompleted: bool, guests: seq<Guest>, petCount: nat,
                       hasAgreed: bool, hasHistory: bool)

  datatype Submitted = Submitted(flow: Flow, ok: bool)

  /** `handleGuestSubmit(data)`; `serverOk` is the server's answer. */
  function SubmitGuests(f: Flow, data: seq<Guest>, serverOk: bool): (r: Submitted)
    ensures data == [] ==> r == Submitted(f, true)
    ensures !r.ok ==> r.flow == f
    ensures data != [] ==> (r.ok <==> serverOk)
    ensures data != [] && serverOk ==>
      r.flow == f.(guests := MarkSubmitted(f.guests, IdsOf(data)), hasHistory := true)
  {
    if data == [] then Submitted(f, true)
    else if !serverOk then Submitted(f, false)
    else Submitted(f.(guests := MarkSubmitted(f.guests, IdsOf(data)), hasHistory := true), true)
  }

  /** `handleNext`. On the registration step the pending guests are
      submitted first, and the wizard only moves on when that succeeds. */
  function Next(f: Flow, steps: seq<Step>, serverOk: bool): Flow {
    var isLast := f.currentStep == |steps| - 1;
    if OnStep(steps, f.currentStep, "registration") then
      var r := SubmitGuests(f, PendingGuests(f.guests), serverOk);
      if !r.ok then f
      else if isLast then r.flow.(isCompleted := true)
      else r.flow.(currentStep := f.currentStep + 1)
    else if !isLast then f.(currentStep := f.currentStep + 1)
    else if RequiresAgreement(steps) && !f.hasAgreed then f
    else f.(isCompleted := true)
  }

  /** The steps a guest may open from the menu before any registration. */
  predicate OpenBeforeRegistration(id: string) { id == "welcome" || id == "count" || id == "registration" }

  /** `handleStepClick(index)`. */
  function StepClick(f: Flow, steps: seq<Step>, index: nat): (r: Flow)
    ensures r == f || r == f.(currentStep := index)
  {
    var canAccess := f.hasHistory || (index < |steps| && OpenBeforeRegistration(steps[index].id));
    if canAccess then f.(currentStep := index) else f
  }

  /** The effect that sends the wizard back to the first step when the
      enabled configured steps no longer reach the current one. */
  function Clamp(f: Flow, config: seq<Step>): (r: Flow)
    ensures |ActiveSteps(config)| > 0 ==> r.currentStep < |ActiveSteps(config)|
    ensures r == f || r == f.(currentStep := 0)
  {
    var active := ActiveSteps(config);
    if |active| > 0 && f.currentStep >= |active| then f.(currentStep := 0) else f
  }

  /** `resetCheckinProcess`; `id` is the new guest's random id. */
  function Reset(id: string): (r: Flow)
    ensures r.currentStep == 0 && !r.isCompleted && !r.hasAgreed && !r.hasHistory && r.petCount == 0
    ensures r.guests == [GuestTemplate(id, "adult")]
  {
    Flow(0, false, [GuestTemplate(id, "adult")], 0, false, false)
  }

  // ---------------------------------------------------------------------
  // Properties of the state machine
  // ---------------------------------------------------------------------

  /** Away from the registration step, "next" only moves forward, or on the
      last step completes, the latter only with the agreement when there is
      a rules step. Nothing else changes. */
  lemma NextElsewhere(f: Flow, steps: seq<Step>, serverOk: bool)
    requires !OnStep(steps, f.currentStep, "registration")
    ensures var r := Next(f, steps, serverOk);
      if f.currentStep != |steps| - 1 then r == f.(currentStep := f.currentStep + 1)
      else if RequiresAgreement(steps) && !f.hasAgreed then r == f
      else r == f.(isCompleted := true)
  {
  }

  /** On the registration step a failed submission changes nothing, and a
      successful one marks exactly the pending guests as submitted, records
      the history and moves on (or completes on the last step). */
  lemma NextOnRegistration(f: Flow, steps: seq<Step>, serverOk: bool)
    requires OnStep(steps, f.currentStep, "registration")
    ensures var r := Next(f, steps, serverOk); var pending := PendingGuests(f.guests);
      (pending != [] && !serverOk ==> r == f)
      && (pending == [] || serverOk ==>
            (r.isCompleted <==> f.isCompleted || f.currentStep == |steps| - 1)
            && r.currentStep == (if f.currentStep == |steps| - 1 then f.currentStep else f.currentStep + 1)
            && r.guests == (if pending == [] then f.guests else MarkSubmitted(f.guests, IdsOf(pending)))
            && (r.hasHistory <==> f.hasHistory || pending != []))
  {
  }

  /** "Next" completes the wizard only from the last step, and from a last
      step other than registration only with the agreement when a rules
      step exists. */
  lemma CompletionNeedsAgreement(f: Flow, steps: seq<Step>, serverOk: bool)
    requires !f.isCompleted && Next(f, steps, serverOk).isCompleted
    ensures f.currentStep == |steps| - 1
    ensures !OnStep(steps, f.currentStep, "registration") && RequiresAgreement(steps) ==> f.hasAgreed
  {
  }

  /** "Next" never loses the guests' data: every guest keeps its id and
      fields, at most its submitted flag turns off. */
  lemma NextKeepsGuests(f: Flow, steps: seq<Step>, serverOk: bool)
    ensures var r := Next(f, steps, serverOk);
      |r.guests| == |f.guests|
      && forall i :: 0 <= i < |r.guests| ==>
           r.guests[i].(isEditable := f.guests[i].isEditable) == f.guests[i]
           && (r.guests[i].isEditable ==> f.guests[i].isEditable)
  {
    var data := PendingGuests(f.guests);
    NextGuests(f, steps, serverOk);
    if OnStep(steps, f.currentStep, "registration") && data != [] && serverOk {
      MarkKeeps(f.guests, IdsOf(data));
    } else {
      SameGuests(f.guests);
    }
  }

  /** The guest list after "Next". */
  lemma NextGuests(f: Flow, steps: seq<Step>, serverOk: bool)
    ensures var data := PendingGuests(f.guests);
      Next(f, steps, serverOk).guests ==
        if OnStep(steps, f.currentStep, "registration") && data != [] && serverOk
        then MarkSubmitted(f.guests, IdsOf(data)) else f.guests
  {
  }

  lemma MarkKeeps(guests: seq<Guest>, ids: set<string>)
    ensures var r := MarkSubmitted(guests, ids);
      |r| == |guests|
      && forall i :: 0 <= i < |r| ==>
           r[i].(isEditable := guests[i].isEditable) == guests[i] && (r[i].isEditable ==> guests[i].isEditable)
  {
  }

  lemma SameGuests(guests: seq<Guest>)
    ensures forall i :: 0 <= i < |guests| ==>
      guests[i].(isEditable := guests[i].isEditable) == guests[i]
  {
  }

  /** Before any registration only the welcome, count and registration
      steps can be opened from the menu; with a history any step can. */
  lemma StepClickAccess(f: Flow, steps: seq<Step>, index: nat)
    ensures f.hasHistory ==> StepClick(f, steps, index).currentStep == index
    ensures index < |steps| && OpenBeforeRegistration(steps[index].id) ==> StepClick(f, steps, index).currentStep == index
    ensures !f.hasHistory && !(index < |steps| && OpenBeforeRegistration(steps[index].id)) ==>
      StepClick(f, steps, index) == f
  {
  }

  /** After the clamp the current step lies on the walked list whenever
      something is configured and enabled. */
  lemma ClampInRange(f: Flow, config: seq<Step>, lang: string)
    requires |ActiveSteps(config)| > 0
    ensures Clamp(f, config).currentStep < |EffectiveSteps(config, lang)|
  {
  }

  // ---------------------------------------------------------------------
  // The wizard as the component holds it
  // ---------------------------------------------------------------------

  class Wizard {
    var lang: string
    var stepsConfig: seq<Step>
    var currentStep: nat
    var isCompleted: bool
    var guests: seq<Guest>
    var petCount: nat
    var hasAgreed: bool
    var hasHistory: bool

    /** A new visit, without a stored check-in; `id` is the first guest's id. */
    constructor(lang: string, id: string)
      ensures this.lang == lang && stepsConfig == []
      ensures State() == Reset(id)
    {
      this.lang := lang;
      stepsConfig := [];
      currentStep := 0;
      isCompleted := false;
      guests := [GuestTemplate(id, "adult")];
      petCount := 0;
      hasAgreed := false;
      hasHistory := false;
    }

    function State(): Flow
      reads this
    {
      Flow(currentStep, isCompleted, guests, petCount, hasAgreed, hasHistory)
    }

    function Steps(): seq<Step>
      reads this
    {
      EffectiveSteps(stepsConfig, lang)
    }

    method HandleGuestSubmit(data: seq<Guest>, serverOk: bool) returns (ok: bool)
      modifies this
      ensures var r := SubmitGuests(old(State()), data, serverOk); ok == r.ok && State() == r.flow
      ensures lang == old(lang) && stepsConfig == old(stepsConfig)
    {
      if data == [] {
        return true;
      }
      if !serverOk {
        return false;
      }
      guests := MarkSubmitted(guests, IdsOf(data));
      hasHistory := true;
      return true;
    }

    method HandleNext(serverOk: bool)
      modifies this
      ensures State() == Next(old(State()), old(Steps()), serverOk)
      ensures lang == old(lang) && stepsConfig == old(stepsConfig)
    {
      var steps := Steps();
      var isLastStep := currentStep == |steps| - 1;
      var pending := PendingGuests(guests);
      if currentStep < |steps| && steps[currentStep].id == "registration" {
        var success := HandleGuestSubmit(pending, serverOk);
        if !success {
          return;
        }
        if isLastStep {
          isCompleted := true;
        } else {
          currentStep := currentStep + 1;
        }
        return;
      }
      if !isLastStep {
        currentStep := currentStep + 1;
        return;
      }
      if RequiresAgreement(steps) && !hasAgreed {
        return;
      }
      isCompleted := true;
    }

    method HandleStepClick(index: nat)
      modifies this
      ensures State() == StepClick(old(State()), old(Steps()), index)
      ensures lang == old(lang) && stepsConfig == old(stepsConfig)
    {
      var steps := Steps();
      var canAccess := hasHistory || (index < |steps| && OpenBeforeRegistration(steps[index].id));
      if canAccess {
        currentStep := index;
      }
    }

    method ClampStep()
      modifies this
      ensures State() == Clamp(old(State()), stepsConfig)
      ensures lang == old(lang) && stepsConfig == old(stepsConfig)
    {
      var active := ActiveSteps(stepsConfig);
      if |active| > 0 && currentStep >= |active| {
        currentStep := 0;
      }
    }

    method ResetCheckinProcess(id: string)
      modifies this
      ensures State() == Reset(id)
      ensures lang == old(lang) && stepsConfig == old(stepsConfig)
    {
      guests := [GuestTemplate(id, "adult")];
      currentStep := 0;
      isCompleted := false;
      petCount := 0;
      hasAgreed := false;
      hasHistory := false;
    }

    /** The effect that puts one guest on an empty list. */
    method EnsureGuest(id: string)
      modifies this
      ensures old(guests) == [] ==> guests == [GuestTemplate(id, "adult")]
      ensures old(guests) != [] ==> guests == old(guests)
      ensures State().(guests := old(guests)) == old(State())
      ensures lang == old(lang) && stepsConfig == old(stepsConfig)
    {
      if |guests| == 0 {
        guests := [GuestTemplate(id, "adult")];
      }
    }
  }
}
