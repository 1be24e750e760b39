/** The event registration form: a five-step wizard over the teacher coach,
    the school, the two students and some optional questions, submitted to
    the relay only inside the registration window. */
module EventForm {
  import opened Wrappers
  import opened JsText
  import opened Zod
  import opened Relay
  import Wizard
  import CheckboxSelection

  /** The options of "How did you hear about the competition?". */
  datatype HeardOption = HeardEmail | Sms | Social | Radio | HeardOther

  datatype EventField =
    | TeacherCoachName | TeacherCoachEmail | TeacherCoachPhone
    | SchoolName | SchoolAddress
    | Student1Name | Student1Email | Student1Phone
    | Student2Name | Student2Email | Student2Phone
    | HeardAbout | HeardAboutOther | Notes

  /** The form's values: every text input holds a string, the checkbox group
      an array of options. */
  datatype EventValues = EventValues(
    teacherCoachName: string, teacherCoachEmail: string, teacherCoachPhone: string,
    schoolName: string, schoolAddress: string,
    student1Name: string, student1Email: string, student1Phone: string,
    student2Name: string, student2Email: string, student2Phone: string,
    heardAbout: seq<HeardOption>, heardAboutOther: string, notes: string)

  /** `defaultValues`: every string empty, no option checked. */
  const Defaults := EventValues("", "", "", "", "", "", "", "", "", "", "", [], "", "")

  /** The field schemas of `eventSchema` for the teacher coach. */
  function CoachChecks(v: EventValues, emailOk: string -> bool): seq<(EventField, Check)> {
    [ (TeacherCoachName, StringLength(v.teacherCoachName, 2, None)),
      (TeacherCoachEmail, Zod.Email(v.teacherCoachEmail, emailOk)),
      (TeacherCoachPhone, StringLength(v.teacherCoachPhone, 7, None)) ]
  }

  function SchoolChecks(v: EventValues): seq<(EventField, Check)> {
    [ (SchoolName, StringLength(v.schoolName, 2, None)),
      (SchoolAddress, StringLength(v.schoolAddress, 5, None)) ]
  }

  function StudentChecks(v: EventValues, emailOk: string -> bool): seq<(EventField, Check)> {
    [ (Student1Name, StringLength(v.student1Name, 2, None)),
      (Student1Email, Zod.Email(v.student1Email, emailOk)),
      (Student1Phone, StringLength(v.student1Phone, 7, None)),
      (Student2Name, StringLength(v.student2Name, 2, None)),
      (Student2Email, Zod.Email(v.student2Email, emailOk)),
      (Student2Phone, StringLength(v.student2Phone, 7, None)) ]
  }

  /** The checkbox array holds options by construction, and the two strings
      are optional: these always pass. */
  function AdditionalChecks(v: EventValues): seq<(EventField, Check)> {
    [ (HeardAbout, Pass), (HeardAboutOther, Pass), (Notes, Pass) ]
  }

  /** The field schemas of `eventSchema`, in the order of its shape. */
  function EventChecks(v: EventValues, emailOk: string -> bool): seq<(EventField, Check)> {
    CoachChecks(v, emailOk) + SchoolChecks(v) + StudentChecks(v, emailOk) + AdditionalChecks(v)
  }

  /** The `superRefine` callback: "Other" checked with nothing specified. */
  function EventRefinement(v: EventValues): seq<Issue<EventField>> {
    SpecifyIssue(HeardOther in v.heardAbout, v.heardAboutOther, HeardAboutOther, "Please specify")
  }

  /** The zod resolver's parse of the form values. */
  function ParseEvent(v: EventValues, emailOk: string -> bool): Parsed<EventField> {
    Refine(ObjectShape(EventChecks(v, emailOk)), EventRefinement(v))
  }

  lemma CoachClean(v: EventValues, emailOk: string -> bool)
    ensures var p := ObjectShape(CoachChecks(v, emailOk));
      && !p.aborted
      && (p.issues == [] <==>
            JsLength(v.teacherCoachName) >= 2 && emailOk(v.teacherCoachEmail) && JsLength(v.teacherCoachPhone) >= 7)
  {
    var cs := CoachChecks(v, emailOk);
    assert forall c :: c in cs <==> c == cs[0] || c == cs[1] || c == cs[2];
  }

  lemma SchoolClean(v: EventValues)
    ensures var p := ObjectShape(SchoolChecks(v));
      && !p.aborted
      && (p.issues == [] <==> JsLength(v.schoolName) >= 2 && JsLength(v.schoolAddress) >= 5)
  {
    var cs := SchoolChecks(v);
    assert forall c :: c in cs <==> c == cs[0] || c == cs[1];
  }

  lemma StudentsClean(v: EventValues, emailOk: string -> bool)
    ensures var p := ObjectShape(StudentChecks(v, emailOk));
      && !p.aborted
      && (p.issues == [] <==>
            && JsLength(v.student1Name) >= 2 && emailOk(v.student1Email) && JsLength(v.student1Phone) >= 7
            && JsLength(v.student2Name) >= 2 && emailOk(v.student2Email) && JsLength(v.student2Phone) >= 7)
  {
    var cs := StudentChecks(v, emailOk);
    assert forall c :: c in cs <==> c == cs[0] || c == cs[1] || c == cs[2] || c == cs[3] || c == cs[4] || c == cs[5];
  }

  lemma AdditionalClean(v: EventValues)
    ensures ObjectShape(AdditionalChecks(v)) == Parsed([], false)
  {
    var cs := AdditionalChecks(v);
    assert forall c :: c in cs <==> c == cs[0] || c == cs[1] || c == cs[2];
  }

  /** The form's shape, parsed group by group. */
  lemma EventShapeByGroups(v: EventValues, emailOk: string -> bool)
    ensures ObjectShape(EventChecks(v, emailOk)) == Parsed(
      ObjectShape(CoachChecks(v, emailOk)).issues + ObjectShape(SchoolChecks(v)).issues
        + ObjectShape(StudentChecks(v, emailOk)).issues,
      false)
  {
    var a, b, c, d := CoachChecks(v, emailOk), SchoolChecks(v), StudentChecks(v, emailOk), AdditionalChecks(v);
    ObjectShapeAppend(a, b);
    ObjectShapeAppend(a + b, c);
    ObjectShapeAppend(a + b + c, d);
    CoachClean(v, emailOk);
    SchoolClean(v);
    StudentsClean(v, emailOk);
    AdditionalClean(v);
  }

  /** The form's values are valid exactly when every length bound and e-mail
      test holds and, with "Other" checked, something is specified; no field
      can abort, so the refinement always runs. */
  lemma EventSucceedsIff(v: EventValues, emailOk: string -> bool)
    ensures !ParseEvent(v, emailOk).aborted
    ensures ParseEvent(v, emailOk).issues == ObjectShape(EventChecks(v, emailOk)).issues + EventRefinement(v)
    ensures Succeeds(ParseEvent(v, emailOk)) <==>
      && JsLength(v.teacherCoachName) >= 2 && emailOk(v.teacherCoachEmail)
      && JsLength(v.teacherCoachPhone) >= 7
      && JsLength(v.schoolName) >= 2 && JsLength(v.schoolAddress) >= 5
      && JsLength(v.student1Name) >= 2 && emailOk(v.student1Email) && JsLength(v.student1Phone) >= 7
      && JsLength(v.student2Name) >= 2 && emailOk(v.student2Email) && JsLength(v.student2Phone) >= 7
      && !(HeardOther in v.heardAbout && AllWhitespace(v.heardAboutOther))
  {
    EventShapeByGroups(v, emailOk);
    CoachClean(v, emailOk);
    SchoolClean(v);
    StudentsClean(v, emailOk);
  }

  /** No field schema reports on `heardAboutOther`: only the refinement does. */
  lemma ShapeIgnoresHeardAboutOther(v: EventValues, emailOk: string -> bool)
    ensures forall i :: i in ObjectShape(EventChecks(v, emailOk)).issues ==> i.path != HeardAboutOther
  {
    var a, b, c := CoachChecks(v, emailOk), SchoolChecks(v), StudentChecks(v, emailOk);
    assert forall i :: i in ObjectShape(a).issues ==> i.path != HeardAboutOther by {
      ShapeSilentOn(a, HeardAboutOther);
    }
    assert forall i :: i in ObjectShape(b).issues ==> i.path != HeardAboutOther by {
      ShapeSilentOn(b, HeardAboutOther);
    }
    assert forall i :: i in ObjectShape(c).issues ==> i.path != HeardAboutOther by {
      ShapeSilentOn(c, HeardAboutOther);
    }
    EventShapeByGroups(v, emailOk);
  }

  /** "Other" with a blank answer is reported on `heardAboutOther`, and only
      then: otherwise `heardAboutOther` is unconstrained. */
  lemma HeardAboutOtherIff(v: EventValues, emailOk: string -> bool)
    ensures Issue(HeardAboutOther, Custom("Please specify")) in ParseEvent(v, emailOk).issues
      <==> HeardOther in v.heardAbout && AllWhitespace(v.heardAboutOther)
    ensures (exists i :: i in ParseEvent(v, emailOk).issues && i.path == HeardAboutOther)
      <==> HeardOther in v.heardAbout && AllWhitespace(v.heardAboutOther)
  {
    EventSucceedsIff(v, emailOk);
    ShapeIgnoresHeardAboutOther(v, emailOk);
  }

  // ---------------------------------------------------------------------
  // Steps

  datatype EventStep = Coach | School | Students | Additional | Review

  const Steps: seq<EventStep> := [Coach, School, Students, Additional, Review]

  /** `fieldsByStep`. */
  function FieldsOf(s: EventStep): seq<EventField> {
    match s
    case Coach => [TeacherCoachName, TeacherCoachEmail, TeacherCoachPhone]
    case School => [SchoolName, SchoolAddress]
    case Students => [Student1Name, Student1Email, Student1Phone, Student2Name, Student2Email, Student2Phone]
    case Additional => [HeardAbout, HeardAboutOther, Notes]
    case Review => []
  }

  /** The step that validates field `f`: the lists of `fieldsByStep` partition
      the fields, each field in exactly one list, the review step in none. */
  function StepOf(f: EventField): (s: EventStep)
    ensures forall t :: f in FieldsOf(t) <==> t == s
    ensures s in Steps && s != Review
  {
    match f
    case TeacherCoachName | TeacherCoachEmail | TeacherCoachPhone => Coach
    case SchoolName | SchoolAddress => School
    case Student1Name | Student1Email | Student1Phone | Student2Name | Student2Email | Student2Phone => Students
    case HeardAbout | HeardAboutOther | Notes => Additional
  }

  /** Valid values pass every step, and values that pass every step are valid. */
  lemma ValidIffEveryStepPasses(v: EventValues, emailOk: string -> bool)
    ensures Succeeds(ParseEvent(v, emailOk)) <==>
      forall s :: s in Steps ==> Wizard.TriggerOk(ParseEvent(v, emailOk).issues, FieldsOf(s))
  {
    Wizard.CleanIffEveryStepClean(ParseEvent(v, emailOk).issues, Steps, FieldsOf, StepOf);
  }

  /** A fresh form cannot leave its first step: the empty coach name is too short. */
  lemma DefaultsStopAtCoach(emailOk: string -> bool)
    ensures !Wizard.TriggerOk(ParseEvent(Defaults, emailOk).issues, FieldsOf(Coach))
  {
    var cs := EventChecks(Defaults, emailOk);
    assert cs[0] == (TeacherCoachName, Dirty(TooSmall(2)));
    assert Reports(cs[0], Issue(TeacherCoachName, TooSmall(2)));
    assert Issue(TeacherCoachName, TooSmall(2)) in ParseEvent(Defaults, emailOk).issues;
  }

  /** The relay's success message and fallback error for this form. */
  const SuccessText := "Registration submitted successfully! We will contact you shortly."
  const FailureText := "Submission failed. Please try again."

  /** `upcomingEvent.registrationWindow`, as the warning shows it. */
  const RegistrationWindowText := "1 Oct 2025 to 1 Nov 2025"
  const WindowWarningText := "Registration is only open from " + RegistrationWindowText + "."

  /** The component's state: the step, whether the "received" view shows, and
      the values react-hook-form holds. The registration window's bounds are
      instants given at construction; the zod e-mail test is a parameter. */
  class EventRegistrationForm {
    var step: int
    var submitted: bool
    var values: EventValues
    const emailOk: string -> bool
    const registrationStart: int
    const registrationEnd: int

    ghost predicate Valid()
      reads this
    {
      0 <= step < |Steps|
    }

    /** The registration window includes both of its ends. */
    predicate InWindow(now: int) {
      registrationStart <= now <= registrationEnd
    }

    constructor (emailOk: string -> bool, registrationStart: int, registrationEnd: int)
      ensures Valid() && step == 0 && !submitted && values == Defaults
      ensures this.emailOk == emailOk
      ensures this.registrationStart == registrationStart && this.registrationEnd == registrationEnd
    {
      step := 0;
      submitted := false;
      values := Defaults;
      this.emailOk := emailOk;
      this.registrationStart := registrationStart;
      this.registrationEnd := registrationEnd;
    }

    /** Typing into the inputs. */
    method Edit(v: EventValues)
      modifies this`values
      ensures values == v
    {
      values := v;
    }

    /** `next`: validate the current step's fields and, if none has an issue,
        move one step on without passing the last; otherwise stay. */
    method Next()
      requires Valid() && !submitted
      modifies this`step
      ensures Valid()
      ensures var ok := Wizard.TriggerOk(ParseEvent(values, emailOk).issues, FieldsOf(Steps[old(step)]));
        step == Wizard.Apply(old(step), |Steps|, Wizard.Next(ok))
      ensures !Wizard.TriggerOk(ParseEvent(values, emailOk).issues, FieldsOf(Steps[old(step)])) ==>
        step == old(step)
    {
      var fields := FieldsOf(Steps[step]);
      var issues := ParseEvent(values, emailOk).issues;
      var ok := forall i :: i in issues ==> i.path !in fields;
      if !ok {
        return;
      }
      step := Wizard.NextStep(step, |Steps|);
    }

    /** `back`. */
    method Back()
      requires Valid() && !submitted
      modifies this`step
      ensures Valid()
      ensures step == Wizard.BackStep(old(step))
    {
      step := Wizard.BackStep(step);
    }

    /** A click on a "How did you hear" checkbox. */
    method ToggleHeard(opt: HeardOption, checked: bool)
      requires !submitted
      modifies this`values
      ensures values == old(values).(heardAbout := CheckboxSelection.Toggled(Some(old(values).heardAbout), opt, checked))
    {
      var r := CheckboxSelection.Toggle(Some(values.heardAbout), opt, checked);
      values := values.(heardAbout := r);
    }

    /** `form.handleSubmit(onSubmit)` at instant `now`, `reply` being what the
        relay would answer. Invalid values never reach `onSubmit`; outside the
        window a warning shows and the relay is not called; otherwise the
        reply decides the toast, and a successful one switches to the
        "received" view and resets the values. */
    method Submit(now: int, reply: RelayResult) returns (toast: Option<Toast>, relayCalled: bool)
      requires Valid() && !submitted
      modifies this`submitted, this`values
      ensures Valid()
      ensures !Succeeds(ParseEvent(old(values), emailOk)) ==>
        toast == None && !relayCalled && !submitted && values == old(values)
      ensures Succeeds(ParseEvent(old(values), emailOk)) && !InWindow(now) ==>
        toast == Some(Toast(WarningToast, WindowWarningText)) && !relayCalled
        && !submitted && values == old(values)
      ensures Succeeds(ParseEvent(old(values), emailOk)) && InWindow(now) ==>
        var o := ReplyOutcome(reply, SuccessText, FailureText);
        && relayCalled && toast == Some(o.toast) && submitted == o.submitted
        && values == (if o.submitted then Defaults else old(values))
      ensures submitted ==> Delivered(reply) && relayCalled
    {
      relayCalled := false;
      if ParseEvent(values, emailOk).issues != [] {
        toast := None;
        return;
      }
      var isBeforeStart := now < registrationStart;
      var isAfterEnd := now > registrationEnd;
      if isBeforeStart || isAfterEnd {
        toast := Some(Toast(WarningToast, WindowWarningText));
        return;
      }
      relayCalled := true;
      var o := ReplyOutcome(reply, SuccessText, FailureText);
      toast := Some(o.toast);
      if o.submitted {
        submitted := true;
        values := Defaults;
      }
    }

    /** The button beside "Previous". */
    function SubmitButtonShown(): (shown: bool)
      requires Valid()
      reads this
      ensures shown <==> step == |Steps| - 1
    {
      Wizard.SubmitShown(step, |Steps|)
    }
  }
}
