/** The volunteer application: a five-step wizard over personal details,
    experience and skills, availability and an emergency contact, ending in
    a review that formats the chosen experience level and time slots. */
module VolunteerForm {
  import opened Wrappers
  import opened JsText
  import opened Zod
  import opened Relay
  import Wizard
  import CheckboxSelection

  datatype ExperienceLevel = FirstTime | SomeExperience | VeryExperienced

  datatype AvailabilitySlot = Setup | Morning | Afternoon | Cleanup

  datatype Skill = Registration | CrowdControl | Technical | Photography | Logistics | FirstAid | SkillOther

  datatype VolunteerField =
    | FullName | Email | Phone | Age | Occupation
    | Experience | Availability | Skills | SkillsOther | Motivation
    | EmergencyContact | EmergencyPhone | Notes

  /** The form's values. The experience select starts out unset; the checkbox
      groups hold options by construction. */
  datatype VolunteerValues = VolunteerValues(
    fullName: string, email: string, phone: string, age: string, occupation: string,
    experience: Option<ExperienceLevel>, availability: seq<AvailabilitySlot>,
    skills: seq<Skill>, skillsOther: string, motivation: string,
    emergencyContact: string, emergencyPhone: string, notes: string)

  /** `defaultValues`. */
  const Defaults := VolunteerValues("", "", "", "", "", None, [], [], "", "", "", "", "")

  /** The fields of `volunteerSchema`, in the order of its shape. */
  const Order: seq<VolunteerField> := [
    FullName, Email, Phone, Age, Occupation, Experience, Availability,
    Skills, SkillsOther, Motivation, EmergencyContact, EmergencyPhone, Notes]

  /** Where field `f` sits in the shape: every field is part of it. */
  function PositionOf(f: VolunteerField): (k: nat)
    ensures k < |Order| && Order[k] == f
  {
    match f
    case FullName => 0 case Email => 1 case Phone => 2 case Age => 3 case Occupation => 4
    case Experience => 5 case Availability => 6 case Skills => 7 case SkillsOther => 8
    case Motivation => 9 case EmergencyContact => 10 case EmergencyPhone => 11 case Notes => 12
  }

  /** The status each field's schema gives the form's value at that field;
      the optional strings and the skills array always pass. */
  function CheckOf(v: VolunteerValues, emailOk: string -> bool, f: VolunteerField): Check {
    match f
    case FullName => StringLength(v.fullName, 2, None)
    case Email => Zod.Email(v.email, emailOk)
    case Phone => StringLength(v.phone, 7, None)
    case Age => StringLength(v.age, 1, None)
    case Occupation => Pass
    case Experience => Chosen(v.experience)
    case Availability => NonEmptyArray(v.availability)
    case Skills => Pass
    case SkillsOther => Pass
    case Motivation => StringLength(v.motivation, 10, None)
    case EmergencyContact => StringLength(v.emergencyContact, 2, None)
    case EmergencyPhone => StringLength(v.emergencyPhone, 7, None)
    case Notes => Pass
  }

  /** The `superRefine` callback: "Other" skills checked with nothing specified. */
  function VolunteerRefinement(v: VolunteerValues): seq<Issue<VolunteerField>> {
    SpecifyIssue(SkillOther in v.skills, v.skillsOther, SkillsOther, "Please specify your other skills")
  }

  /** The zod resolver's parse of the form values. */
  function ParseVolunteer(v: VolunteerValues, emailOk: string -> bool): Parsed<VolunteerField> {
    Refine(ObjectShape(ShapeOf(Order, f => CheckOf(v, emailOk, f))), VolunteerRefinement(v))
  }

  /** The parse field by field: an unset experience level is the only way to
      abort, and without an abort the refinement's issue follows the fields'. */
  lemma VolunteerIssues(v: VolunteerValues, emailOk: string -> bool)
    ensures var p := ParseVolunteer(v, emailOk);
      && (p.aborted <==> v.experience.None?)
      && (forall i :: i in p.issues <==>
            || (!CheckOf(v, emailOk, i.path).Pass? && i.code == CheckOf(v, emailOk, i.path).code)
            || (v.experience.Some? && i in VolunteerRefinement(v)))
  {
    var check := f => CheckOf(v, emailOk, f);
    ShapeOfIssues(Order, check);
    forall f ensures f in Order && check(f) == CheckOf(v, emailOk, f) {
      var k := PositionOf(f);
    }
    ExperienceOnlyAbort(v, emailOk);
  }

  /** Only the experience select can abort the object. */
  lemma ExperienceOnlyAbort(v: VolunteerValues, emailOk: string -> bool)
    ensures (exists f :: CheckOf(v, emailOk, f).Abort?) <==> v.experience.None?
  {
    if v.experience.None? {
      assert CheckOf(v, emailOk, Experience).Abort?;
    }
    forall f | CheckOf(v, emailOk, f).Abort? ensures f == Experience {
    }
  }

  /** The form's values are valid exactly when every bound holds, an
      experience level is chosen, at least one slot is checked (skills may
      stay empty) and, with "Other" skills checked, something is specified. */
  lemma VolunteerSucceedsIff(v: VolunteerValues, emailOk: string -> bool)
    ensures Succeeds(ParseVolunteer(v, emailOk)) <==>
      && JsLength(v.fullName) >= 2 && emailOk(v.email) && JsLength(v.phone) >= 7 && JsLength(v.age) >= 1
      && v.experience.Some? && |v.availability| >= 1 && JsLength(v.motivation) >= 10
      && JsLength(v.emergencyContact) >= 2 && JsLength(v.emergencyPhone) >= 7
      && !(SkillOther in v.skills && AllWhitespace(v.skillsOther))
  {
    var check := f => CheckOf(v, emailOk, f);
    ShapeOfSuccess(Order, check, VolunteerRefinement(v));
    forall f ensures f in Order && check(f) == CheckOf(v, emailOk, f) {
      var k := PositionOf(f);
    }
    AllFieldsPassIff(v, emailOk);
  }

  lemma AllFieldsPassIff(v: VolunteerValues, emailOk: string -> bool)
    ensures (forall f :: CheckOf(v, emailOk, f).Pass?) <==>
      && JsLength(v.fullName) >= 2 && emailOk(v.email) && JsLength(v.phone) >= 7 && JsLength(v.age) >= 1
      && v.experience.Some? && |v.availability| >= 1 && JsLength(v.motivation) >= 10
      && JsLength(v.emergencyContact) >= 2 && JsLength(v.emergencyPhone) >= 7
  {
    if forall f :: CheckOf(v, emailOk, f).Pass? {
      assert CheckOf(v, emailOk, FullName).Pass? && CheckOf(v, emailOk, Email).Pass?;
      assert CheckOf(v, emailOk, Phone).Pass? && CheckOf(v, emailOk, Age).Pass?;
      assert CheckOf(v, emailOk, Experience).Pass? && CheckOf(v, emailOk, Availability).Pass?;
      assert CheckOf(v, emailOk, Motivation).Pass?;
      assert CheckOf(v, emailOk, EmergencyContact).Pass? && CheckOf(v, emailOk, EmergencyPhone).Pass?;
    }
  }

  /** An unset experience level aborts the object, so the "other skills"
      refinement does not run and its issue is not reported, however the
      skills are filled in; once a level is chosen the issue appears exactly
      when "Other" is checked and nothing is specified. */
  lemma SkillsOtherIssue(v: VolunteerValues, emailOk: string -> bool)
    ensures v.experience.None? ==>
      && Issue(SkillsOther, Custom("Please specify your other skills")) !in ParseVolunteer(v, emailOk).issues
      && Issue(Experience, Required) in ParseVolunteer(v, emailOk).issues
    ensures v.experience.Some? ==>
      (Issue(SkillsOther, Custom("Please specify your other skills")) in ParseVolunteer(v, emailOk).issues
       <==> SkillOther in v.skills && AllWhitespace(v.skillsOther))
  {
    VolunteerIssues(v, emailOk);
    assert CheckOf(v, emailOk, SkillsOther) == Pass;
    assert CheckOf(v, emailOk, Experience) == Chosen(v.experience);
  }

  /** `availability` is reported exactly when no slot is checked; `skills`
      is never reported, empty or not. */
  lemma AvailabilityRequiredSkillsNot(v: VolunteerValues, emailOk: string -> bool)
    ensures Issue(Availability, TooSmall(1)) in ParseVolunteer(v, emailOk).issues <==> |v.availability| == 0
    ensures forall i :: i in ParseVolunteer(v, emailOk).issues ==> i.path != Skills
  {
    VolunteerIssues(v, emailOk);
    assert CheckOf(v, emailOk, Skills) == Pass;
    assert CheckOf(v, emailOk, Availability) == NonEmptyArray(v.availability);
  }

  // ---------------------------------------------------------------------
  // Steps

  datatype VolunteerStep = Personal | ExperienceStep | AvailabilityStep | Emergency | Review

  const Steps: seq<VolunteerStep> := [Personal, ExperienceStep, AvailabilityStep, Emergency, Review]

  /** `fieldsByStep`. */
  function FieldsOf(s: VolunteerStep): seq<VolunteerField> {
    match s
    case Personal => [FullName, Email, Phone, Age, Occupation]
    case ExperienceStep => [Experience, Skills, SkillsOther, Motivation]
    case AvailabilityStep => [Availability]
    case Emergency => [EmergencyContact, EmergencyPhone, Notes]
    case Review => []
  }

  /** The step that validates field `f`: the lists of `fieldsByStep` partition
      the fields, each field in exactly one list, the review step in none. */
  function StepOf(f: VolunteerField): (s: VolunteerStep)
    ensures forall t :: f in FieldsOf(t) <==> t == s
    ensures s in Steps && s != Review
  {
    match f
    case FullName | Email | Phone | Age | Occupation => Personal
    case Experience | Skills | SkillsOther | Motivation => ExperienceStep
    case Availability => AvailabilityStep
    case EmergencyContact | EmergencyPhone | Notes => Emergency
  }

  /** Valid values pass every step, and values that pass every step are valid. */
  lemma ValidIffEveryStepPasses(v: VolunteerValues, emailOk: string -> bool)
    ensures Succeeds(ParseVolunteer(v, emailOk)) <==>
      forall s :: s in Steps ==> Wizard.TriggerOk(ParseVolunteer(v, emailOk).issues, FieldsOf(s))
  {
    Wizard.CleanIffEveryStepClean(ParseVolunteer(v, emailOk).issues, Steps, FieldsOf, StepOf);
  }

  /** The unset experience level does not hold back the first step: with the
      personal details filled in, "Next" moves on from it; the experience
      step then stops until a level is chosen. */
  lemma PersonalStepIgnoresExperience(v: VolunteerValues, emailOk: string -> bool)
    requires v.experience.None?
    requires JsLength(v.fullName) >= 2 && emailOk(v.email) && JsLength(v.phone) >= 7 && JsLength(v.age) >= 1
    ensures Wizard.TriggerOk(ParseVolunteer(v, emailOk).issues, FieldsOf(Personal))
    ensures !Wizard.TriggerOk(ParseVolunteer(v, emailOk).issues, FieldsOf(ExperienceStep))
  {
    VolunteerIssues(v, emailOk);
    forall f | f in FieldsOf(Personal) ensures CheckOf(v, emailOk, f).Pass? {
    }
    assert Issue(Experience, Required) in ParseVolunteer(v, emailOk).issues;
  }

  // ---------------------------------------------------------------------
  // Review formatting

  /** The enum value the select stores. */
  function ExperienceValue(e: ExperienceLevel): string {
    match e
    case FirstTime => "first_time"
    case SomeExperience => "some_experience"
    case VeryExperienced => "very_experienced"
  }

  function SlotValue(a: AvailabilitySlot): string {
    match a
    case Setup => "setup"
    case Morning => "morning"
    case Afternoon => "afternoon"
    case Cleanup => "cleanup"
  }

  /** `form.watch("experience")?.replace("_", " ")`, nothing when unset. */
  function ExperienceReview(e: Option<ExperienceLevel>): string {
    if e.None? then "" else ReplaceFirst(ExperienceValue(e.value), '_', ' ')
  }

  /** `form.watch("availability")?.join(", ")`. */
  function AvailabilityReview(slots: seq<AvailabilitySlot>): string {
    Join(seq(|slots|, k requires 0 <= k < |slots| => SlotValue(slots[k])), ", ")
  }

  /** The human-readable experience levels. */
  function ExperienceLabel(e: ExperienceLevel): string {
    match e
    case FirstTime => "first time"
    case SomeExperience => "some experience"
    case VeryExperienced => "very experienced"
  }

  /** Replacing only the first `_` is enough: each enum value holds a single
      `_`, and the review shows the level's readable label. */
  lemma ExperienceReviewShowsLabel(e: ExperienceLevel)
    ensures ExperienceReview(Some(e)) == ExperienceLabel(e)
  {
    match e
    case FirstTime => FirstTimeLabel();
    case SomeExperience => SomeExperienceLabel();
    case VeryExperienced => VeryExperiencedLabel();
  }

  lemma FirstTimeLabel()
    ensures ExperienceReview(Some(FirstTime)) == "first time"
  {
    var s := "first_time";
    assert s[..5] == "first";
    IndexOfIs(s, '_', 5);
    assert s[..5] + [' '] + s[6..] == "first time";
  }

  lemma SomeExperienceLabel()
    ensures ExperienceReview(Some(SomeExperience)) == "some experience"
  {
    var s := "some_experience";
    assert s[..4] == "some";
    IndexOfIs(s, '_', 4);
    assert s[..4] + [' '] + s[5..] == "some experience";
  }

  lemma VeryExperiencedLabel()
    ensures ExperienceReview(Some(VeryExperienced)) == "very experienced"
  {
    var s := "very_experienced";
    assert s[..4] == "very";
    IndexOfIs(s, '_', 4);
    assert s[..4] + [' '] + s[5..] == "very experienced";
  }

  /** The review never shows an underscore, and different levels show differently. */
  lemma ExperienceReviewReadable(e: ExperienceLevel, f: ExperienceLevel)
    ensures '_' !in ExperienceReview(Some(e))
    ensures e != f ==> ExperienceReview(Some(e)) != ExperienceReview(Some(f))
  {
    ExperienceReviewShowsLabel(e);
    ExperienceReviewShowsLabel(f);
    LabelsReadable(e, f);
  }

  lemma LabelsReadable(e: ExperienceLevel, f: ExperienceLevel)
    ensures '_' !in ExperienceLabel(e)
    ensures e != f ==> ExperienceLabel(e) != ExperienceLabel(f)
  {
    assert |ExperienceLabel(FirstTime)| == 10;
    assert |ExperienceLabel(SomeExperience)| == 15;
    assert |ExperienceLabel(VeryExperienced)| == 16;
  }

  /** The review line lists the checked slots in order and can be read back:
      cutting it at each `", "` gives the slot values again. */
  lemma AvailabilityReviewRoundTrip(slots: seq<AvailabilitySlot>)
    requires |slots| >= 1
    ensures SplitCommaSpace(AvailabilityReview(slots)) ==
      seq(|slots|, k requires 0 <= k < |slots| => SlotValue(slots[k]))
  {
    var xs := seq(|slots|, k requires 0 <= k < |slots| => SlotValue(slots[k]));
    forall k | 0 <= k < |xs| ensures ',' !in xs[k] {
      match slots[k]
      case Setup =>
      case Morning =>
      case Afternoon =>
      case Cleanup =>
    }
    SplitJoinRoundTrip(xs);
  }

  const SuccessText := "Volunteer application submitted successfully! We will contact you shortly."
  const FailureText := "Submission failed. Please try again."

  /** The component's state: the step, whether the "received" view shows, and
      the values react-hook-form holds; the zod e-mail test is a parameter. */
  class VolunteerRegistrationForm {
    var step: int
    var submitted: bool
    var values: VolunteerValues
    const emailOk: string -> bool

    ghost predicate Valid()
      reads this
    {
      0 <= step < |Steps|
    }

    constructor (emailOk: string -> bool)
      ensures Valid() && step == 0 && !submitted && values == Defaults && this.emailOk == emailOk
    {
      step := 0;
      submitted := false;
      values := Defaults;
      this.emailOk := emailOk;
    }

    /** Typing into the inputs and choosing from the selects. */
    method Edit(v: VolunteerValues)
      modifies this`values
      ensures values == v
    {
      values := v;
    }

    /** `next`: validate the current step's fields and, if none has an issue,
        move one step on without passing the last; otherwise stay. */
    method Next()
      requires Valid() && !submitted
      modifies this`step
      ensures Valid()
      ensures var ok := Wizard.TriggerOk(ParseVolunteer(values, emailOk).issues, FieldsOf(Steps[old(step)]));
        step == Wizard.Apply(old(step), |Steps|, Wizard.Next(ok))
      ensures !Wizard.TriggerOk(ParseVolunteer(values, emailOk).issues, FieldsOf(Steps[old(step)])) ==>
        step == old(step)
    {
      var fields := FieldsOf(Steps[step]);
      var issues := ParseVolunteer(values, emailOk).issues;
      var ok := forall i :: i in issues ==> i.path !in fields;
      if !ok {
        return;
      }
      step := Wizard.NextStep(step, |Steps|);
    }

    /** `back`. */
    method Back()
      requires Valid() && !submitted
      modifies this`step
      ensures Valid()
      ensures step == Wizard.BackStep(old(step))
    {
      step := Wizard.BackStep(step);
    }

    /** A click on a skills checkbox. */
    method ToggleSkill(opt: Skill, checked: bool)
      requires !submitted
      modifies this`values
      ensures values == old(values).(skills := CheckboxSelection.Toggled(Some(old(values).skills), opt, checked))
    {
      var r := CheckboxSelection.Toggle(Some(values.skills), opt, checked);
      values := values.(skills := r);
    }

    /** A click on an availability checkbox. */
    method ToggleAvailability(opt: AvailabilitySlot, checked: bool)
      requires !submitted
      modifies this`values
      ensures values == old(values).(availability :=
        CheckboxSelection.Toggled(Some(old(values).availability), opt, checked))
    {
      var r := CheckboxSelection.Toggle(Some(values.availability), opt, checked);
      values := values.(availability := r);
    }

    /** `form.handleSubmit(onSubmit)`, `reply` being what the relay would
        answer: invalid values never reach `onSubmit`; otherwise the reply
        decides the toast, and a successful one switches to the "received"
        view and resets the values. */
    method Submit(reply: RelayResult) returns (toast: Option<Toast>, relayCalled: bool)
      requires Valid() && !submitted
      modifies this`submitted, this`values
      ensures Valid()
      ensures !Succeeds(ParseVolunteer(old(values), emailOk)) ==>
        toast == None && !relayCalled && !submitted && values == old(values)
      ensures Succeeds(ParseVolunteer(old(values), emailOk)) ==>
        var o := ReplyOutcome(reply, SuccessText, FailureText);
        && relayCalled && toast == Some(o.toast) && submitted == o.submitted
        && values == (if o.submitted then Defaults else old(values))
      ensures submitted ==> Delivered(reply)
    {
      relayCalled := false;
      if ParseVolunteer(values, emailOk).issues != [] {
        toast := None;
        return;
      }
      relayCalled := true;
      var o := ReplyOutcome(reply, SuccessText, FailureText);
      toast := Some(o.toast);
      if o.submitted {
        submitted := true;
        values := Defaults;
      }
    }

    /** The button beside "Previous". */
    function SubmitButtonShown(): (shown: bool)
      requires Valid()
      reads this
      ensures shown <==> step == |Steps| - 1
    {
      Wizard.SubmitShown(step, |Steps|)
    }
  }
}
