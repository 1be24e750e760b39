/** The three-step contact form: contact details, the message, a review;
    a valid message is posted to the relay with the sender's address as the
    reply-to. */
module ContactForm {
  import opened Wrappers
  import opened JsText
  import opened Zod
  import opened Relay
  import Wizard
  import RegistrationServer

  datatype ContactField = Name | Email | Subject | Message

  datatype ContactValues = ContactValues(name: string, email: string, subject: string, message: string)

  /** `defaultValues`. */
  const Defaults := ContactValues("", "", "", "")

  const Order: seq<ContactField> := [Name, Email, Subject, Message]

  function PositionOf(f: ContactField): (k: nat)
    ensures k < |Order| && Order[k] == f
  {
    match f
    case Name => 0 case Email => 1 case Subject => 2 case Message => 3
  }

  /** The client schema: lower bounds only. */
  function CheckOf(v: ContactValues, emailOk: string -> bool, f: ContactField): Check {
    match f
    case Name => StringLength(v.name, 2, None)
    case Email => Zod.Email(v.email, emailOk)
    case Subject => StringLength(v.subject, 2, None)
    case Message => StringLength(v.message, 10, None)
  }

  function ParseContact(v: ContactValues, emailOk: string -> bool): Parsed<ContactField> {
    ObjectShape(ShapeOf(Order, f => CheckOf(v, emailOk, f)))
  }

  /** Nothing aborts: each field's issue is exactly its own schema failing. */
  lemma ContactIssues(v: ContactValues, emailOk: string -> bool)
    ensures !ParseContact(v, emailOk).aborted
    ensures forall i :: i in ParseContact(v, emailOk).issues <==>
      !CheckOf(v, emailOk, i.path).Pass? && i.code == CheckOf(v, emailOk, i.path).code
  {
    var check := f => CheckOf(v, emailOk, f);
    ShapeOfIssues(Order, check);
    forall f ensures f in Order && check(f) == CheckOf(v, emailOk, f) {
      var k := PositionOf(f);
    }
  }

  lemma ContactSucceedsIff(v: ContactValues, emailOk: string -> bool)
    ensures Succeeds(ParseContact(v, emailOk)) <==>
      JsLength(v.name) >= 2 && emailOk(v.email) && JsLength(v.subject) >= 2 && JsLength(v.message) >= 10
  {
    var check := f => CheckOf(v, emailOk, f);
    ShapeOfSuccess(Order, check, []);
    forall f ensures f in Order && check(f) == CheckOf(v, emailOk, f) {
      var k := PositionOf(f);
    }
    assert ParseContact(v, emailOk) == Refine(ParseContact(v, emailOk), []);
    if forall f :: CheckOf(v, emailOk, f).Pass? {
      assert CheckOf(v, emailOk, Name).Pass? && CheckOf(v, emailOk, Email).Pass?;
      assert CheckOf(v, emailOk, Subject).Pass? && CheckOf(v, emailOk, Message).Pass?;
    }
  }

  /** Whatever the server's contact endpoint accepts, the form accepts too;
      the form sets no upper bounds, so a 121-unit name passes here only. */
  lemma ServerAcceptedPassesForm(v: ContactValues, emailOk: string -> bool)
    requires Succeeds(RegistrationServer.ParseContact(
      RegistrationServer.ContactBody(Some(v.name), Some(v.email), Some(v.subject), Some(v.message)), emailOk))
    ensures Succeeds(ParseContact(v, emailOk))
  {
    RegistrationServer.ContactSucceedsIff(
      RegistrationServer.ContactBody(Some(v.name), Some(v.email), Some(v.subject), Some(v.message)), emailOk);
    ContactSucceedsIff(v, emailOk);
  }

  datatype ContactStep = ContactInfo | MessageStep | Review

  const Steps: seq<ContactStep> := [ContactInfo, MessageStep, Review]

  /** `fieldsByStep`. */
  function FieldsOf(s: ContactStep): seq<ContactField> {
    match s
    case ContactInfo => [Name, Email]
    case MessageStep => [Subject, Message]
    case Review => []
  }

  /** The step that validates field `f`: each field belongs to one step. */
  function StepOf(f: ContactField): (s: ContactStep)
    ensures forall t :: f in FieldsOf(t) <==> t == s
    ensures s in Steps && s != Review
  {
    match f
    case Name => ContactInfo
    case Email => ContactInfo
    case Subject => MessageStep
    case Message => MessageStep
  }

  /** Valid values are exactly those every step's `trigger` accepts. */
  lemma ValidIffEveryStepPasses(v: ContactValues, emailOk: string -> bool)
    ensures Succeeds(ParseContact(v, emailOk)) <==>
      forall s :: s in Steps ==> Wizard.TriggerOk(ParseContact(v, emailOk).issues, FieldsOf(s))
  {
    Wizard.CleanIffEveryStepClean(ParseContact(v, emailOk).issues, Steps, FieldsOf, StepOf);
  }

  /** A short message does not hold back the first step but does the second. */
  lemma ShortMessageStopsAtMessageStep(v: ContactValues, emailOk: string -> bool)
    requires JsLength(v.name) >= 2 && emailOk(v.email) && JsLength(v.message) < 10
    ensures Wizard.TriggerOk(ParseContact(v, emailOk).issues, FieldsOf(ContactInfo))
    ensures !Wizard.TriggerOk(ParseContact(v, emailOk).issues, FieldsOf(MessageStep))
  {
    ContactIssues(v, emailOk);
    assert Issue(Message, TooSmall(10)) in ParseContact(v, emailOk).issues;
  }

  const FromName := "Igiehon Foundation Website"
  const SuccessText := "Message sent. We'll be in touch."
  const FailureText := "Failed to send"

  /** The form's values as an object. */
  function ValuesObject(v: ContactValues): map<string, string> {
    map["name" := v.name, "email" := v.email, "subject" := v.subject, "message" := v.message]
  }

  /** The body posted to the relay: the access key, the subject, the sender
      label and the reply-to address, then the values spread over them
      (a spread's properties override those before it, as `+` on maps does). */
  function RelayBody(accessKey: string, v: ContactValues): map<string, string> {
    map["access_key" := accessKey, "subject" := v.subject, "from_name" := FromName, "reply_to" := v.email]
      + ValuesObject(v)
  }

  /** The relay receives the subject as typed, replies go to the sender's
      address, and every value of the form travels with them under its own
      key; nothing else is posted. */
  lemma RelayBodyCarriesValues(accessKey: string, v: ContactValues)
    ensures var b := RelayBody(accessKey, v);
      && b.Keys == {"access_key", "subject", "from_name", "reply_to", "name", "email", "message"}
      && b["access_key"] == accessKey && b["from_name"] == FromName
      && b["subject"] == v.subject && b["reply_to"] == v.email
      && b["name"] == v.name && b["email"] == v.email && b["message"] == v.message
  {
    var b := RelayBody(accessKey, v);
    assert "access_key" !in ValuesObject(v) by {
      assert |"access_key"| == 10;
    }
    assert "from_name" !in ValuesObject(v) by {
      assert |"from_name"| == 9;
    }
    assert "reply_to" !in ValuesObject(v) by {
      assert |"reply_to"| == 8;
    }
  }

  /** The component's state: the step shown, whether the "sent" view shows,
      and the values react-hook-form holds; the zod e-mail test and the
      relay access key are parameters. */
  class ContactFormState {
    var step: int
    var submitted: bool
    var values: ContactValues
    const emailOk: string -> bool
    const accessKey: string

    ghost predicate Valid()
      reads this
    {
      0 <= step < |Steps|
    }

    constructor (emailOk: string -> bool, accessKey: string)
      ensures Valid() && step == 0 && !submitted && values == Defaults
      ensures this.emailOk == emailOk && this.accessKey == accessKey
    {
      step := 0;
      submitted := false;
      values := Defaults;
      this.emailOk := emailOk;
      this.accessKey := accessKey;
    }

    /** Typing into the inputs. */
    method Edit(v: ContactValues)
      modifies this`values
      ensures values == v
    {
      values := v;
    }

    /** `next`: validate the current step's fields and, if none has an issue,
        move one step on without passing the last; otherwise stay. */
    method Next()
      requires Valid() && !submitted
      modifies this`step
      ensures Valid()
      ensures var ok := Wizard.TriggerOk(ParseContact(values, emailOk).issues, FieldsOf(Steps[old(step)]));
        step == Wizard.Apply(old(step), |Steps|, Wizard.Next(ok))
      ensures !Wizard.TriggerOk(ParseContact(values, emailOk).issues, FieldsOf(Steps[old(step)])) ==>
        step == old(step)
    {
      var fields := FieldsOf(Steps[step]);
      var issues := ParseContact(values, emailOk).issues;
      var ok := forall i :: i in issues ==> i.path !in fields;
      if !ok {
        return;
      }
      step := Wizard.NextStep(step, |Steps|);
    }

    /** `back`. */
    method Back()
      requires Valid() && !submitted
      modifies this`step
      ensures Valid()
      ensures step == Wizard.BackStep(old(step))
    {
      step := Wizard.BackStep(step);
    }

    /** `form.handleSubmit(onSubmit)`, `reply` being what the relay would
        answer: invalid values are not posted; valid ones are posted as
        `RelayBody`, and the reply decides the toast, a successful one
        switching to the "sent" view and resetting the values. */
    method Submit(reply: RelayResult) returns (toast: Option<Toast>, posted: Option<map<string, string>>)
      requires Valid() && !submitted
      modifies this`submitted, this`values
      ensures Valid()
      ensures !Succeeds(ParseContact(old(values), emailOk)) ==>
        toast == None && posted == None && !submitted && values == old(values)
      ensures Succeeds(ParseContact(old(values), emailOk)) ==>
        var o := ReplyOutcome(reply, SuccessText, FailureText);
        && posted == Some(RelayBody(accessKey, old(values)))
        && toast == Some(o.toast) && submitted == o.submitted
        && values == (if o.submitted then Defaults else old(values))
      ensures submitted ==> Delivered(reply)
    {
      posted := None;
      if ParseContact(values, emailOk).issues != [] {
        toast := None;
        return;
      }
      posted := Some(RelayBody(accessKey, values));
      var o := ReplyOutcome(reply, SuccessText, FailureText);
      toast := Some(o.toast);
      if o.submitted {
        submitted := true;
        values := Defaults;
      }
    }

    /** The button beside "Previous". */
    function SubmitButtonShown(): (shown: bool)
      requires Valid()
      reads this
      ensures shown <==> step == |Steps| - 1
    {
      Wizard.SubmitShown(step, |Steps|)
    }
  }
}
