/** The registration page: the `interest` query parameter chooses the form
    shown, the introductory content beside it, and the heading over that
    content's list. */
module RegistrationRouting {
  import opened Wrappers
  import EventForm

  /** The form `RegistrationForm` renders. */
  datatype ShownForm = ShowEvent | ShowVolunteer | ShowPartner

  /** `RegistrationForm({ interest = "event" })`: an absent prop is "event",
      and every value other than "volunteer" and "partner" falls to the
      event form. */
  function FormFor(interest: Option<string>): (f: ShownForm)
    ensures f == ShowVolunteer <==> interest == Some("volunteer")
    ensures f == ShowPartner <==> interest == Some("partner")
    ensures interest == None ==> f == ShowEvent
  {
    var i := if interest.None? then "event" else interest.value;
    if i == "volunteer" then ShowVolunteer
    else if i == "partner" then ShowPartner
    else ShowEvent
  }

  /** `params.get("interest") || "event"`: a missing or empty parameter
      reads as "event"; any other value is kept as it is. */
  function ResolveInterest(param: Option<string>): (interest: string)
    ensures interest != ""
    ensures param.None? || param.value == "" ==> interest == "event"
    ensures param.Some? && param.value != "" ==> interest == param.value
  {
    if param.None? || param.value == "" then "event" else param.value
  }

  /** The three branches of `getContent`. */
  datatype Variant = EventContent | VolunteerContent | PartnerContent

  datatype Content = Content(title: string, subtitle: string, description: string, details: seq<string>)

  /** The branch `getContent`'s `switch` takes: the event content is its default. */
  function ContentVariant(interest: string): (v: Variant)
    ensures v == VolunteerContent <==> interest == "volunteer"
    ensures v == PartnerContent <==> interest == "partner"
  {
    if interest == "volunteer" then VolunteerContent
    else if interest == "partner" then PartnerContent
    else EventContent
  }

  const UpcomingEventDate := "29 Nov 2025"

  /** The content each branch returns. */
  function ContentOf(v: Variant): Content {
    match v
    case VolunteerContent =>
      Content("Volunteer Application",
        "Join our team to deliver an exceptional experience for students",
        "Help us make the 4th Igiehon Mathematics Tournament a success by volunteering your time and skills.",
        [ "Flexible time commitments available", "Training and orientation provided",
          "Certificate of participation", "Networking opportunities",
          "Make a meaningful impact on education" ])
    case PartnerContent =>
      Content("Partnership Inquiry",
        "Partner with us to empower students and advance academic excellence",
        "Join us as a strategic partner to support mathematics education and student development in Edo State.",
        [ "Multiple partnership opportunities available", "Brand visibility and recognition",
          "Corporate social responsibility impact", "Direct contribution to education",
          "Long-term partnership potential" ])
    case EventContent =>
      Content("Register for the 4th Igiehon Mathematics Tournament",
        "Event: " + UpcomingEventDate + " • Benin City, Edo State",
        "Register your school team for the premier mathematics competition in Edo State.",
        [ "Free registration", "Registration Window: " + EventForm.RegistrationWindowText,
          "Open to all Senior Secondary Schools in Edo State",
          "Teams consist of two (2) students from any class",
          "Teams must identify a teacher coach at registration",
          "Competition includes written test and oral segment" ])
  }

  /** `getContent()`. */
  function GetContent(interest: string): Content {
    ContentOf(ContentVariant(interest))
  }

  /** The form that matches each content branch. */
  function FormOfVariant(v: Variant): ShownForm {
    match v
    case EventContent => ShowEvent
    case VolunteerContent => ShowVolunteer
    case PartnerContent => ShowPartner
  }

  /** Whatever the query string, the form shown is the one the content
      beside it introduces. */
  lemma FormMatchesContent(param: Option<string>)
    ensures FormFor(Some(ResolveInterest(param))) == FormOfVariant(ContentVariant(ResolveInterest(param)))
  {
  }

  /** The event content advertises the same window the event form enforces. */
  lemma EventContentShowsWindow(interest: string)
    requires interest != "volunteer" && interest != "partner"
    ensures GetContent(interest).details[1] == "Registration Window: 1 Oct 2025 to 1 Nov 2025"
    ensures GetContent(interest).title == "Register for the 4th Igiehon Mathematics Tournament"
  {
  }

  /** The heading of each content branch's list. */
  function HeadingOf(v: Variant): string {
    match v
    case EventContent => "Eligibility Criteria"
    case VolunteerContent => "What You Get"
    case PartnerContent => "Partnership Benefits"
  }

  /** The heading as the page computes it: a second test on `interest`,
      whose fall-through is the partnership heading rather than the event's. */
  function HeadingAsWritten(interest: string): string {
    if interest == "event" then "Eligibility Criteria"
    else if interest == "volunteer" then "What You Get"
    else "Partnership Benefits"
  }

  /** The heading the page shows agrees with its content exactly for the
      three interests it names; any other value shows the event content and
      form under the partnership heading. */
  lemma {:induction false} HeadingAsWrittenAgreesIff(interest: string)
    ensures HeadingAsWritten(interest) == HeadingOf(ContentVariant(interest))
      <==> interest == "event" || interest == "volunteer" || interest == "partner"
  {
    if !(interest == "event" || interest == "volunteer" || interest == "partner") {
      assert ContentVariant(interest) == EventContent;
      assert HeadingAsWritten(interest) == "Partnership Benefits";
      assert "Partnership Benefits"[0] != "Eligibility Criteria"[0];
    }
  }

  /** `/register?interest=sponsor` shows the event form and event content
      under "Partnership Benefits". */
  lemma UnknownInterestMisheaded()
    ensures var interest := ResolveInterest(Some("sponsor"));
      && FormFor(Some(interest)) == ShowEvent
      && ContentVariant(interest) == EventContent
      && HeadingAsWritten(interest) == "Partnership Benefits"
      && HeadingAsWritten(interest) != HeadingOf(ContentVariant(interest))
  {
    assert "sponsor" != "event" && "sponsor" != "volunteer" && "sponsor" != "partner";
    assert "Partnership Benefits"[0] != "Eligibility Criteria"[0];
  }

  /** The heading taken from the content branch itself. */
  function PageHeading(interest: string): (h: string)
    ensures h == "Eligibility Criteria" <==> ContentVariant(interest) == EventContent
    ensures interest == "event" || interest == "volunteer" || interest == "partner" ==>
      h == HeadingAsWritten(interest)
  {
    HeadingAsWrittenAgreesIff(interest);
    assert "Eligibility Criteria"[0] != "What You Get"[0];
    assert "Eligibility Criteria"[0] != "Partnership Benefits"[0];
    HeadingOf(ContentVariant(interest))
  }

  /** With that heading, the form, the content and the heading always agree. */
  lemma PageIsConsistent(param: Option<string>)
    ensures var interest := ResolveInterest(param);
      && FormFor(Some(interest)) == FormOfVariant(ContentVariant(interest))
      && PageHeading(interest) == HeadingOf(ContentVariant(interest))
      && (FormFor(Some(interest)) == ShowEvent <==> PageHeading(interest) == "Eligibility Criteria")
  {
    var interest := ResolveInterest(param);
    assert "Eligibility Criteria"[0] != "What You Get"[0];
    assert "Eligibility Criteria"[0] != "Partnership Benefits"[0];
  }
}
