/** The partnership inquiry: a single-page form with five selects, a
    checkbox group of partnership interests and two "other, please specify"
    rules. */
module PartnerForm {
  import opened Wrappers
  import opened JsText
  import opened Zod
  import opened Relay
  import CheckboxSelection

  datatype OrganizationType = Corporate | Educational | Nonprofit | Government | Foundation | TypeOther

  datatype OrganizationSize = Small | Medium | Large | Enterprise

  datatype PartnershipInterest =
    | FinancialSponsorship | PrizeDonation | VenueSupport | MarketingSupport
    | TechnicalSupport | Mentorship | Internship | InterestOther

  datatype Budget = Under100k | From100kTo500k | From500kTo1m | Over1m | NonMonetary

  datatype YesNo = Yes | No

  datatype Timeline = Immediate | ThreeMonths | SixMonths | OneYear

  datatype PartnerField =
    | ContactName | ContactTitle | Email | Phone | OrganizationName
    | OrganizationTypeField | OrganizationTypeOther | Website | OrganizationSizeField
    | PartnershipInterests | PartnershipInterestsOther | BudgetField | PreviousPartnership
    | PartnershipDetails | Goals | TimelineField | Notes

  /** The form's values: the selects start out unset, the checkbox group
      holds options by construction. */
  datatype PartnerValues = PartnerValues(
    contactName: string, contactTitle: string, email: string, phone: string,
    organizationName: string, organizationType: Option<OrganizationType>,
    organizationTypeOther: string, website: string, organizationSize: Option<OrganizationSize>,
    partnershipInterests: seq<PartnershipInterest>, partnershipInterestsOther: string,
    budget: Option<Budget>, previousPartnership: Option<YesNo>, partnershipDetails: string,
    goals: string, timeline: Option<Timeline>, notes: string)

  /** `defaultValues`. */
  const Defaults := PartnerValues("", "", "", "", "", None, "", "", None, [], "", None, None, "", "", None, "")

  /** The fields of `partnerSchema`, in the order of its shape. */
  const Order: seq<PartnerField> := [
    ContactName, ContactTitle, Email, Phone, OrganizationName, OrganizationTypeField,
    OrganizationTypeOther, Website, OrganizationSizeField, PartnershipInterests,
    PartnershipInterestsOther, BudgetField, PreviousPartnership, PartnershipDetails,
    Goals, TimelineField, Notes]

  /** Where field `f` sits in the shape: every field is part of it. */
  function PositionOf(f: PartnerField): (k: nat)
    ensures k < |Order| && Order[k] == f
  {
    match f
    case ContactName => 0 case ContactTitle => 1 case Email => 2 case Phone => 3
    case OrganizationName => 4 case OrganizationTypeField => 5 case OrganizationTypeOther => 6
    case Website => 7 case OrganizationSizeField => 8 case PartnershipInterests => 9
    case PartnershipInterestsOther => 10 case BudgetField => 11 case PreviousPartnership => 12
    case PartnershipDetails => 13 case Goals => 14 case TimelineField => 15 case Notes => 16
  }

  /** The status each field's schema gives the form's value at that field;
      the optional strings always pass. */
  function CheckOf(v: PartnerValues, emailOk: string -> bool, f: PartnerField): Check {
    match f
    case ContactName => StringLength(v.contactName, 2, None)
    case ContactTitle => StringLength(v.contactTitle, 2, None)
    case Email => Zod.Email(v.email, emailOk)
    case Phone => StringLength(v.phone, 7, None)
    case OrganizationName => StringLength(v.organizationName, 2, None)
    case OrganizationTypeField => Chosen(v.organizationType)
    case OrganizationTypeOther => Pass
    case Website => Pass
    case OrganizationSizeField => Chosen(v.organizationSize)
    case PartnershipInterests => NonEmptyArray(v.partnershipInterests)
    case PartnershipInterestsOther => Pass
    case BudgetField => Chosen(v.budget)
    case PreviousPartnership => Chosen(v.previousPartnership)
    case PartnershipDetails => Pass
    case Goals => StringLength(v.goals, 10, None)
    case TimelineField => Chosen(v.timeline)
    case Notes => Pass
  }

  /** Every select has a value: only then can the object not abort. */
  predicate AllSelected(v: PartnerValues) {
    && v.organizationType.Some? && v.organizationSize.Some? && v.budget.Some?
    && v.previousPartnership.Some? && v.timeline.Some?
  }

  const TypeOtherMessage := "Please specify organization type"
  const InterestsOtherMessage := "Please specify other partnership interests"

  /** The two rules of the `superRefine` callback, each independent of the other. */
  function PartnerRefinement(v: PartnerValues): seq<Issue<PartnerField>> {
    SpecifyIssue(v.organizationType == Some(TypeOther), v.organizationTypeOther,
                 OrganizationTypeOther, TypeOtherMessage)
    + SpecifyIssue(InterestOther in v.partnershipInterests, v.partnershipInterestsOther,
                   PartnershipInterestsOther, InterestsOtherMessage)
  }

  /** The `superRefine` callback, adding its issues one rule at a time. */
  method RefinePartner(data: PartnerValues) returns (issues: seq<Issue<PartnerField>>)
    ensures issues == PartnerRefinement(data)
  {
    var first := [];
    if data.organizationType == Some(TypeOther) && Trim(data.organizationTypeOther) == [] {
      first := [Issue(OrganizationTypeOther, Custom(TypeOtherMessage))];
    }
    assert first == SpecifyIssue(data.organizationType == Some(TypeOther), data.organizationTypeOther,
                                 OrganizationTypeOther, TypeOtherMessage);
    issues := first;
    if InterestOther in data.partnershipInterests && Trim(data.partnershipInterestsOther) == [] {
      issues := issues + [Issue(PartnershipInterestsOther, Custom(InterestsOtherMessage))];
    }
    assert issues == first + SpecifyIssue(InterestOther in data.partnershipInterests,
      data.partnershipInterestsOther, PartnershipInterestsOther, InterestsOtherMessage);
  }

  /** Each rule reports on its own path exactly when its "other" is chosen
      and left blank, whatever the other rule does. */
  lemma RefinementIff(v: PartnerValues)
    ensures Issue(OrganizationTypeOther, Custom(TypeOtherMessage)) in PartnerRefinement(v) <==>
      v.organizationType == Some(TypeOther) && AllWhitespace(v.organizationTypeOther)
    ensures Issue(PartnershipInterestsOther, Custom(InterestsOtherMessage)) in PartnerRefinement(v) <==>
      InterestOther in v.partnershipInterests && AllWhitespace(v.partnershipInterestsOther)
  {
    var r1 := SpecifyIssue(v.organizationType == Some(TypeOther), v.organizationTypeOther,
                           OrganizationTypeOther, TypeOtherMessage);
    var r2 := SpecifyIssue(InterestOther in v.partnershipInterests, v.partnershipInterestsOther,
                           PartnershipInterestsOther, InterestsOtherMessage);
    assert PartnerRefinement(v) == r1 + r2;
    assert TypeOtherMessage != InterestsOtherMessage by {
      assert TypeOtherMessage[16] != InterestsOtherMessage[16];
    }
  }

  /** The zod resolver's parse of the form values. */
  function ParsePartner(v: PartnerValues, emailOk: string -> bool): Parsed<PartnerField> {
    Refine(ObjectShape(ShapeOf(Order, f => CheckOf(v, emailOk, f))), PartnerRefinement(v))
  }

  /** Field `f` is a select left without a value. */
  predicate Unset(v: PartnerValues, f: PartnerField) {
    match f
    case OrganizationTypeField => v.organizationType.None?
    case OrganizationSizeField => v.organizationSize.None?
    case BudgetField => v.budget.None?
    case PreviousPartnership => v.previousPartnership.None?
    case TimelineField => v.timeline.None?
    case _ => false
  }

  /** Only an unset select aborts the object. */
  lemma AbortsIffUnset(v: PartnerValues, emailOk: string -> bool)
    ensures (exists f :: CheckOf(v, emailOk, f).Abort?) <==> !AllSelected(v)
  {
    forall f ensures CheckOf(v, emailOk, f).Abort? <==> Unset(v, f) {
    }
    if !AllSelected(v) {
      if v.organizationType.None? { assert Unset(v, OrganizationTypeField); }
      else if v.organizationSize.None? { assert Unset(v, OrganizationSizeField); }
      else if v.budget.None? { assert Unset(v, BudgetField); }
      else if v.previousPartnership.None? { assert Unset(v, PreviousPartnership); }
      else { assert Unset(v, TimelineField); }
    }
  }

  /** The parse field by field: an unset select is the only way to abort,
      and without an abort the refinement's issues follow the fields'. */
  lemma PartnerIssues(v: PartnerValues, emailOk: string -> bool)
    ensures var p := ParsePartner(v, emailOk);
      && (p.aborted <==> !AllSelected(v))
      && (forall i :: i in p.issues <==>
            || (!CheckOf(v, emailOk, i.path).Pass? && i.code == CheckOf(v, emailOk, i.path).code)
            || (AllSelected(v) && i in PartnerRefinement(v)))
  {
    var check := f => CheckOf(v, emailOk, f);
    ShapeOfIssues(Order, check);
    forall f ensures f in Order && check(f) == CheckOf(v, emailOk, f) {
      var k := PositionOf(f);
    }
    AbortsIffUnset(v, emailOk);
  }

  /** The two rules are independent: each reports on its own path exactly
      when its condition holds and every select is set, so both can be
      reported in one validation. */
  lemma SpecifyRulesIndependent(v: PartnerValues, emailOk: string -> bool)
    ensures Issue(OrganizationTypeOther, Custom(TypeOtherMessage)) in ParsePartner(v, emailOk).issues <==>
      AllSelected(v) && v.organizationType == Some(TypeOther) && AllWhitespace(v.organizationTypeOther)
    ensures Issue(PartnershipInterestsOther, Custom(InterestsOtherMessage)) in ParsePartner(v, emailOk).issues <==>
      AllSelected(v) && InterestOther in v.partnershipInterests && AllWhitespace(v.partnershipInterestsOther)
  {
    PartnerIssues(v, emailOk);
    RefinementIff(v);
    assert CheckOf(v, emailOk, OrganizationTypeOther) == Pass;
    assert CheckOf(v, emailOk, PartnershipInterestsOther) == Pass;
  }

  /** `partnershipDetails` is never reported, even when answering "yes"
      reveals it, and what it holds does not change the validation. */
  lemma PartnershipDetailsNeverRequired(v: PartnerValues, emailOk: string -> bool, details: string)
    ensures forall i :: i in ParsePartner(v, emailOk).issues ==> i.path != PartnershipDetails
    ensures ParsePartner(v.(partnershipDetails := details), emailOk) == ParsePartner(v, emailOk)
  {
    forall i | i in ParsePartner(v, emailOk).issues ensures i.path != PartnershipDetails {
      DetailsNotReported(v, emailOk, i);
    }
    DetailsDoNotMatter(v, emailOk, details);
  }

  lemma DetailsNotReported(v: PartnerValues, emailOk: string -> bool, i: Issue<PartnerField>)
    requires i in ParsePartner(v, emailOk).issues
    ensures i.path != PartnershipDetails
  {
    if i.path == PartnershipDetails {
      assert CheckOf(v, emailOk, PartnershipDetails) == Pass;
      FieldIssueIff(v, emailOk, i);
    }
  }

  /** The details box shows after a "yes" to "have you partnered with us before". */
  predicate DetailsRevealed(v: PartnerValues) {
    v.previousPartnership == Some(Yes)
  }

  /** The box a "yes" reveals stays optional: nothing is reported on it,
      whatever is typed there leaves the validation as it was, and the
      "yes" is judged exactly as a "no" would be. */
  lemma RevealedDetailsStayOptional(v: PartnerValues, emailOk: string -> bool, details: string)
    requires DetailsRevealed(v)
    ensures forall i :: i in ParsePartner(v, emailOk).issues ==> i.path != PartnershipDetails
    ensures ParsePartner(v.(partnershipDetails := details), emailOk) == ParsePartner(v, emailOk)
    ensures ParsePartner(v, emailOk) == ParsePartner(v.(previousPartnership := Some(No)), emailOk)
  {
    PartnershipDetailsNeverRequired(v, emailOk, details);
    AnswerDoesNotMatter(v, emailOk);
  }

  /** Which answer the select holds, once it holds one, does not change the parse. */
  lemma AnswerDoesNotMatter(v: PartnerValues, emailOk: string -> bool)
    requires v.previousPartnership.Some?
    ensures ParsePartner(v, emailOk) == ParsePartner(v.(previousPartnership := Some(No)), emailOk)
  {
    var w := v.(previousPartnership := Some(No));
    var a := ShapeOf(Order, f => CheckOf(v, emailOk, f));
    var b := ShapeOf(Order, f => CheckOf(w, emailOk, f));
    forall k | 0 <= k < |Order| ensures a[k] == b[k] {
      assert CheckOf(v, emailOk, Order[k]) == CheckOf(w, emailOk, Order[k]);
    }
    assert a == b;
    assert PartnerRefinement(w) == PartnerRefinement(v);
  }

  /** The fields' statuses and the rules do not depend on `partnershipDetails`. */
  lemma DetailsDoNotMatter(v: PartnerValues, emailOk: string -> bool, details: string)
    ensures ParsePartner(v.(partnershipDetails := details), emailOk) == ParsePartner(v, emailOk)
  {
    var w := v.(partnershipDetails := details);
    var a := ShapeOf(Order, f => CheckOf(w, emailOk, f));
    var b := ShapeOf(Order, f => CheckOf(v, emailOk, f));
    forall k | 0 <= k < |Order| ensures a[k] == b[k] {
      assert CheckOf(w, emailOk, Order[k]) == CheckOf(v, emailOk, Order[k]);
    }
    assert a == b;
    assert PartnerRefinement(w) == PartnerRefinement(v);
  }

  /** On a field the refinement does not name, an issue is exactly that
      field's schema failing. */
  lemma FieldIssueIff(v: PartnerValues, emailOk: string -> bool, i: Issue<PartnerField>)
    requires i.path != OrganizationTypeOther && i.path != PartnershipInterestsOther
    ensures i in ParsePartner(v, emailOk).issues <==>
      !CheckOf(v, emailOk, i.path).Pass? && i.code == CheckOf(v, emailOk, i.path).code
  {
    var p := ParsePartner(v, emailOk);
    var c := CheckOf(v, emailOk, i.path);
    assert i in p.issues <==> (!c.Pass? && i.code == c.code) || (AllSelected(v) && i in PartnerRefinement(v)) by {
      PartnerIssues(v, emailOk);
    }
    assert i !in PartnerRefinement(v) by {
      RefinementPaths(v);
    }
  }

  /** The refinement only reports on the two "please specify" fields. */
  lemma RefinementPaths(v: PartnerValues)
    ensures forall i :: i in PartnerRefinement(v) ==>
      i.path == OrganizationTypeOther || i.path == PartnershipInterestsOther
  {
  }

  /** The interests need at least one option and the goals ten code units. */
  lemma InterestsAndGoalsRequired(v: PartnerValues, emailOk: string -> bool)
    ensures Issue(PartnershipInterests, TooSmall(1)) in ParsePartner(v, emailOk).issues
      <==> |v.partnershipInterests| == 0
    ensures Issue(Goals, TooSmall(10)) in ParsePartner(v, emailOk).issues <==> JsLength(v.goals) < 10
  {
    FieldIssueIff(v, emailOk, Issue(PartnershipInterests, TooSmall(1)));
    FieldIssueIff(v, emailOk, Issue(Goals, TooSmall(10)));
  }

  lemma AllFieldsPassIff(v: PartnerValues, emailOk: string -> bool)
    ensures (forall f :: CheckOf(v, emailOk, f).Pass?) <==>
      && JsLength(v.contactName) >= 2 && JsLength(v.contactTitle) >= 2 && emailOk(v.email)
      && JsLength(v.phone) >= 7 && JsLength(v.organizationName) >= 2 && AllSelected(v)
      && |v.partnershipInterests| >= 1 && JsLength(v.goals) >= 10
  {
    if forall f :: CheckOf(v, emailOk, f).Pass? {
      PassingFieldsMeetBounds(v, emailOk);
    }
    if && JsLength(v.contactName) >= 2 && JsLength(v.contactTitle) >= 2 && emailOk(v.email)
       && JsLength(v.phone) >= 7 && JsLength(v.organizationName) >= 2 && AllSelected(v)
       && |v.partnershipInterests| >= 1 && JsLength(v.goals) >= 10
    {
      forall f ensures CheckOf(v, emailOk, f).Pass? {
        BoundsPassField(v, emailOk, f);
      }
    }
  }

  lemma PassingFieldsMeetBounds(v: PartnerValues, emailOk: string -> bool)
    requires forall f :: CheckOf(v, emailOk, f).Pass?
    ensures && JsLength(v.contactName) >= 2 && JsLength(v.contactTitle) >= 2 && emailOk(v.email)
      && JsLength(v.phone) >= 7 && JsLength(v.organizationName) >= 2 && AllSelected(v)
      && |v.partnershipInterests| >= 1 && JsLength(v.goals) >= 10
  {
    assert JsLength(v.contactName) >= 2 by { assert CheckOf(v, emailOk, ContactName).Pass?; }
    assert JsLength(v.contactTitle) >= 2 by { assert CheckOf(v, emailOk, ContactTitle).Pass?; }
    assert emailOk(v.email) by { assert CheckOf(v, emailOk, Email).Pass?; }
    assert JsLength(v.phone) >= 7 by { assert CheckOf(v, emailOk, Phone).Pass?; }
    assert JsLength(v.organizationName) >= 2 by { assert CheckOf(v, emailOk, OrganizationName).Pass?; }
    assert v.organizationType.Some? by { assert CheckOf(v, emailOk, OrganizationTypeField).Pass?; }
    assert v.organizationSize.Some? by { assert CheckOf(v, emailOk, OrganizationSizeField).Pass?; }
    assert v.budget.Some? by { assert CheckOf(v, emailOk, BudgetField).Pass?; }
    assert v.previousPartnership.Some? by { assert CheckOf(v, emailOk, PreviousPartnership).Pass?; }
    assert v.timeline.Some? by { assert CheckOf(v, emailOk, TimelineField).Pass?; }
    assert |v.partnershipInterests| >= 1 by { assert CheckOf(v, emailOk, PartnershipInterests).Pass?; }
    assert JsLength(v.goals) >= 10 by { assert CheckOf(v, emailOk, Goals).Pass?; }
  }

  lemma BoundsPassField(v: PartnerValues, emailOk: string -> bool, f: PartnerField)
    requires && JsLength(v.contactName) >= 2 && JsLength(v.contactTitle) >= 2 && emailOk(v.email)
      && JsLength(v.phone) >= 7 && JsLength(v.organizationName) >= 2 && AllSelected(v)
      && |v.partnershipInterests| >= 1 && JsLength(v.goals) >= 10
    ensures CheckOf(v, emailOk, f).Pass?
  {
  }

  /** The inquiry is valid exactly when the text bounds hold, every select is
      set, an interest is checked, and neither "other" is left unspecified. */
  lemma PartnerSucceedsIff(v: PartnerValues, emailOk: string -> bool)
    ensures Succeeds(ParsePartner(v, emailOk)) <==>
      && JsLength(v.contactName) >= 2 && JsLength(v.contactTitle) >= 2 && emailOk(v.email)
      && JsLength(v.phone) >= 7 && JsLength(v.organizationName) >= 2 && AllSelected(v)
      && |v.partnershipInterests| >= 1 && JsLength(v.goals) >= 10
      && !(v.organizationType == Some(TypeOther) && AllWhitespace(v.organizationTypeOther))
      && !(InterestOther in v.partnershipInterests && AllWhitespace(v.partnershipInterestsOther))
  {
    var check := f => CheckOf(v, emailOk, f);
    ShapeOfSuccess(Order, check, PartnerRefinement(v));
    forall f ensures f in Order && check(f) == CheckOf(v, emailOk, f) {
      var k := PositionOf(f);
    }
    AllFieldsPassIff(v, emailOk);
  }

  const SuccessText :=
    "Partnership inquiry submitted successfully! We will contact you shortly to discuss opportunities."
  const FailureText := "Submission failed. Please try again."

  /** The component's state: whether the "received" view shows, and the
      values react-hook-form holds; the zod e-mail test is a parameter. */
  class PartnerRegistrationForm {
    var submitted: bool
    var values: PartnerValues
    const emailOk: string -> bool

    constructor (emailOk: string -> bool)
      ensures !submitted && values == Defaults && this.emailOk == emailOk
    {
      submitted := false;
      values := Defaults;
      this.emailOk := emailOk;
    }

    /** Typing into the inputs and choosing from the selects. */
    method Edit(v: PartnerValues)
      modifies this`values
      ensures values == v
    {
      values := v;
    }

    /** The "describe your previous partnership" box shows after a "yes". */
    function DetailsShown(): bool
      reads this
    {
      DetailsRevealed(values)
    }

    /** A click on a partnership-interest checkbox. */
    method ToggleInterest(opt: PartnershipInterest, checked: bool)
      requires !submitted
      modifies this`values
      ensures values == old(values).(partnershipInterests :=
        CheckboxSelection.Toggled(Some(old(values).partnershipInterests), opt, checked))
    {
      var r := CheckboxSelection.Toggle(Some(values.partnershipInterests), opt, checked);
      values := values.(partnershipInterests := r);
    }

    /** `form.handleSubmit(onSubmit)`, `reply` being what the relay would
        answer: invalid values never reach `onSubmit`; otherwise the reply
        decides the toast, and a successful one switches to the "received"
        view and resets the values. */
    method Submit(reply: RelayResult) returns (toast: Option<Toast>, relayCalled: bool)
      requires !submitted
      modifies this`submitted, this`values
      ensures !Succeeds(ParsePartner(old(values), emailOk)) ==>
        toast == None && !relayCalled && !submitted && values == old(values)
      ensures Succeeds(ParsePartner(old(values), emailOk)) ==>
        var o := ReplyOutcome(reply, SuccessText, FailureText);
        && relayCalled && toast == Some(o.toast) && submitted == o.submitted
        && values == (if o.submitted then Defaults else old(values))
      ensures submitted ==> Delivered(reply)
    {
      relayCalled := false;
      if ParsePartner(values, emailOk).issues != [] {
        toast := None;
        return;
      }
      relayCalled := true;
      var o := ReplyOutcome(reply, SuccessText, FailureText);
      toast := Some(o.toast);
      if o.submitted {
        submitted := true;
        values := Defaults;
      }
    }
  }
}
