/** The server's two POST handlers, `/api/register` and `/api/contact`: each
    parses the JSON body against a zod schema, answers 400 with the flattened
    field errors when parsing fails, and otherwise logs the record under a
    fresh upper-case identifier and answers 200. */
module RegistrationServer {
  import opened Wrappers
  import opened JsText
  import opened Zod

  // ---------------------------------------------------------------------
  // The registration schema

  datatype RegField =
    | FullName | Email | Phone | Organization | Role | Interest
    | Student1Name | Student1Email | Student2Name | Student2Email | Notes

  /** A registration body: each member is a JSON string or absent. */
  datatype RegistrationBody = RegistrationBody(
    fullName: Option<string>,
    email: Option<string>,
    phone: Option<string>,
    organization: Option<string>,
    role: Option<string>,
    interest: Option<string>,
    student1Name: Option<string>,
    student1Email: Option<string>,
    student2Name: Option<string>,
    student2Email: Option<string>,
    notes: Option<string>)

  const Roles: seq<string> := ["student", "teacher", "parent", "volunteer", "partner", "other"]
  const Interests: seq<string> := ["event", "volunteer", "partner"]

  /** The field schemas of `registrationSchema`, in the order of its shape. */
  function RegistrationChecks(b: RegistrationBody, emailOk: string -> bool): seq<(RegField, Check)> {
    [ (FullName, RequiredString(b.fullName, Length(2, Some(120)), emailOk)),
      (Email, RequiredString(b.email, EmailRule, emailOk)),
      (Phone, OptionalOrEmpty(b.phone, Length(7, Some(20)), emailOk)),
      (Organization, OptionalOrEmpty(b.organization, Length(0, Some(160)), emailOk)),
      (Role, EnumOf(b.role, Roles)),
      (Interest, OptionalEnumOf(b.interest, Interests)),
      (Student1Name, OptionalOrEmpty(b.student1Name, Length(0, Some(120)), emailOk)),
      (Student1Email, OptionalOrEmpty(b.student1Email, EmailRule, emailOk)),
      (Student2Name, OptionalOrEmpty(b.student2Name, Length(0, Some(120)), emailOk)),
      (Student2Email, OptionalOrEmpty(b.student2Email, EmailRule, emailOk)),
      (Notes, OptionalOrEmpty(b.notes, Length(0, Some(1000)), emailOk)) ]
  }

  // ---------------------------------------------------------------------
  // The student-pair refinement

  /** `const isEvent = !data.interest || data.interest === "event"`. */
  predicate IsEvent(b: RegistrationBody) {
    b.interest == None || b.interest == Some("") || b.interest == Some("event")
  }

  /** `!name || name.trim().length < 2` is false. */
  predicate StudentNamePasses(name: Option<string>) {
    name.Some? && name.value != "" && JsLength(Trim(name.value)) >= 2
  }

  /** `[^\s@]+`: a non-empty run of characters that are neither whitespace nor `@`. */
  predicate PlainRun(s: string) {
    |s| > 0 && forall k :: 0 <= k < |s| ==> s[k] != '@' && !IsWhitespace(s[k])
  }

  /** `/^[^\s@]+@[^\s@]+\.[^\s@]+$/.test(s)`: some `@` at `i` and `.` at `j` cut
      `s` into three such runs. */
  predicate EmailPatternTest(s: string) {
    exists i, j | 0 < i && i + 1 < j < |s| - 1 ::
      s[i] == '@' && s[j] == '.' && PlainRun(s[..i]) && PlainRun(s[i + 1..j]) && PlainRun(s[j + 1..])
  }

  /** `!email || !pattern.test(email)` is false. */
  predicate StudentEmailPasses(email: Option<string>) {
    email.Some? && email.value != "" && EmailPatternTest(email.value)
  }

  /** The issue one student check adds when it fails. */
  function IssueUnless(passes: bool, path: RegField, message: string): seq<Issue<RegField>> {
    if passes then [] else [Issue(path, Custom(message))]
  }

  /** The issues of four student checks with outcomes `p1` to `p4`, in order. */
  function FourChecks(p1: bool, p2: bool, p3: bool, p4: bool): seq<Issue<RegField>> {
    IssueUnless(p1, Student1Name, "Student 1 name is required")
    + IssueUnless(p2, Student1Email, "Valid email required")
    + IssueUnless(p3, Student2Name, "Student 2 name is required")
    + IssueUnless(p4, Student2Email, "Valid email required")
  }

  /** What the `superRefine` callback reports: for an event registration, the
      failing student checks in the order the callback makes them; nothing
      otherwise. */
  function StudentIssues(b: RegistrationBody): seq<Issue<RegField>> {
    if IsEvent(b) then
      FourChecks(StudentNamePasses(b.student1Name), StudentEmailPasses(b.student1Email),
                 StudentNamePasses(b.student2Name), StudentEmailPasses(b.student2Email))
    else []
  }

  /** The `superRefine` callback: each failing check adds its issue to the context. */
  method RefineRegistration(data: RegistrationBody) returns (issues: seq<Issue<RegField>>)
    ensures issues == StudentIssues(data)
    ensures |issues| <= 4
    ensures !IsEvent(data) ==> issues == []
  {
    issues := [];
    var isEvent := data.interest == None || data.interest == Some("") || data.interest == Some("event");
    if isEvent {
      var p1 := StudentNamePasses(data.student1Name);
      var p2 := StudentEmailPasses(data.student1Email);
      var p3 := StudentNamePasses(data.student2Name);
      var p4 := StudentEmailPasses(data.student2Email);
      if !p1 {
        issues := issues + [Issue(Student1Name, Custom("Student 1 name is required"))];
      }
      ghost var so := IssueUnless(p1, Student1Name, "Student 1 name is required");
      assert issues == so;
      if !p2 {
        issues := issues + [Issue(Student1Email, Custom("Valid email required"))];
      }
      so := so + IssueUnless(p2, Student1Email, "Valid email required");
      assert issues == so;
      if !p3 {
        issues := issues + [Issue(Student2Name, Custom("Student 2 name is required"))];
      }
      so := so + IssueUnless(p3, Student2Name, "Student 2 name is required");
      assert issues == so;
      if !p4 {
        issues := issues + [Issue(Student2Email, Custom("Valid email required"))];
      }
      so := so + IssueUnless(p4, Student2Email, "Valid email required");
      assert issues == so;
    }
  }

  /** `registrationSchema.safeParse(body)`. */
  function ParseRegistration(b: RegistrationBody, emailOk: string -> bool): Parsed<RegField> {
    Refine(ObjectShape(RegistrationChecks(b, emailOk)), StudentIssues(b))
  }

  // ---------------------------------------------------------------------
  // Properties of the refinement

  /** Each of four checks reports on its own path exactly when it fails, and on
      no other path; they report nothing exactly when all four pass. */
  lemma FourChecksIff(p1: bool, p2: bool, p3: bool, p4: bool)
    ensures Issue(Student1Name, Custom("Student 1 name is required")) in FourChecks(p1, p2, p3, p4) <==> !p1
    ensures Issue(Student1Email, Custom("Valid email required")) in FourChecks(p1, p2, p3, p4) <==> !p2
    ensures Issue(Student2Name, Custom("Student 2 name is required")) in FourChecks(p1, p2, p3, p4) <==> !p3
    ensures Issue(Student2Email, Custom("Valid email required")) in FourChecks(p1, p2, p3, p4) <==> !p4
    ensures forall i :: i in FourChecks(p1, p2, p3, p4) ==>
      i.path in {Student1Name, Student1Email, Student2Name, Student2Email}
    ensures FourChecks(p1, p2, p3, p4) == [] <==> p1 && p2 && p3 && p4
    ensures |FourChecks(p1, p2, p3, p4)| <= 4
  {
  }

  /** Each student check reports on its own path exactly when the registration
      is for the event and the check fails; several can fail together, and the
      callback reports on no other path. */
  lemma StudentIssueIff(b: RegistrationBody)
    ensures Issue(Student1Name, Custom("Student 1 name is required")) in StudentIssues(b)
      <==> IsEvent(b) && !StudentNamePasses(b.student1Name)
    ensures Issue(Student1Email, Custom("Valid email required")) in StudentIssues(b)
      <==> IsEvent(b) && !StudentEmailPasses(b.student1Email)
    ensures Issue(Student2Name, Custom("Student 2 name is required")) in StudentIssues(b)
      <==> IsEvent(b) && !StudentNamePasses(b.student2Name)
    ensures Issue(Student2Email, Custom("Valid email required")) in StudentIssues(b)
      <==> IsEvent(b) && !StudentEmailPasses(b.student2Email)
    ensures forall i :: i in StudentIssues(b) ==>
      i.path in {Student1Name, Student1Email, Student2Name, Student2Email}
    ensures StudentIssues(b) == [] <==>
      (IsEvent(b) ==>
         && StudentNamePasses(b.student1Name) && StudentEmailPasses(b.student1Email)
         && StudentNamePasses(b.student2Name) && StudentEmailPasses(b.student2Email))
  {
    FourChecksIff(StudentNamePasses(b.student1Name), StudentEmailPasses(b.student1Email),
                  StudentNamePasses(b.student2Name), StudentEmailPasses(b.student2Email));
  }

  /** For a volunteer or partner registration, absent or empty student fields
      never produce an issue on a student path. */
  lemma NonEventIgnoresMissingStudents(b: RegistrationBody, emailOk: string -> bool)
    requires b.interest == Some("volunteer") || b.interest == Some("partner")
    requires b.student1Name in {None, Some("")} && b.student1Email in {None, Some("")}
    requires b.student2Name in {None, Some("")} && b.student2Email in {None, Some("")}
    ensures forall i :: i in ParseRegistration(b, emailOk).issues ==>
      i.path !in {Student1Name, Student1Email, Student2Name, Student2Email}
  {
    var cs := RegistrationChecks(b, emailOk);
    assert StudentIssues(b) == [];
    assert cs[6].1.Pass? && cs[7].1.Pass? && cs[8].1.Pass? && cs[9].1.Pass?;
    assert forall c :: c in cs ==>
      c.0 !in {Student1Name, Student1Email, Student2Name, Student2Email} || c.1.Pass?;
  }

  /** For an event registration whose fields all pass, the four student fields
      left out yield the four student issues together, in order. */
  lemma EventReportsAllMissingStudents(b: RegistrationBody, emailOk: string -> bool)
    requires IsEvent(b)
    requires forall c :: c in RegistrationChecks(b, emailOk) ==> c.1.Pass?
    requires b.student1Name == None && b.student1Email == None
    requires b.student2Name == None && b.student2Email == None
    ensures ParseRegistration(b, emailOk).issues ==
      [ Issue(Student1Name, Custom("Student 1 name is required")),
        Issue(Student1Email, Custom("Valid email required")),
        Issue(Student2Name, Custom("Student 2 name is required")),
        Issue(Student2Email, Custom("Valid email required")) ]
  {
    assert ObjectShape(RegistrationChecks(b, emailOk)).issues == [];
  }

  /** A student name passes exactly when it has two non-whitespace characters
      (or one outside the BMP, which JavaScript counts twice): empty and
      whitespace-only names fail. */
  lemma StudentNameIff(s: string)
    ensures StudentNamePasses(Some(s)) <==> HasTwoVisible(s) || HasAstralVisible(s)
    ensures AllWhitespace(s) ==> !StudentNamePasses(Some(s))
  {
    TrimmedLengthAtLeastTwo(s);
    if AllWhitespace(s) {
      TrimEmptyIff(s);
    }
  }

  /** Another reading of the pattern: no whitespace, exactly one `@`, not in
      first place, and after it a `.` with a character on each side. */
  predicate HasInnerDot(d: string) {
    exists k :: 0 < k < |d| - 1 && d[k] == '.'
  }

  lemma EmailPatternShape(s: string)
    ensures EmailPatternTest(s) <==>
      && NoWhitespace(s)
      && CountOf(s, '@') == 1
      && 0 < IndexOf(s, '@') < |s|
      && HasInnerDot(s[IndexOf(s, '@') + 1..])
  {
    if EmailPatternTest(s) {
      var i, j :| 0 < i && i + 1 < j < |s| - 1 && s[i] == '@' && s[j] == '.'
        && PlainRun(s[..i]) && PlainRun(s[i + 1..j]) && PlainRun(s[j + 1..]);
      PatternImpliesShape(s, i, j);
    }
    if && NoWhitespace(s) && CountOf(s, '@') == 1 && 0 < IndexOf(s, '@') < |s|
       && HasInnerDot(s[IndexOf(s, '@') + 1..])
    {
      ShapeImpliesPattern(s);
    }
  }

  /** A slice of a whitespace-free string that holds no `@` is a plain run. */
  lemma PlainSlice(s: string, lo: nat, hi: nat)
    requires lo < hi <= |s| && NoWhitespace(s) && '@' !in s[lo..hi]
    ensures PlainRun(s[lo..hi])
  {
    var t := s[lo..hi];
    forall m | 0 <= m < |t| ensures t[m] != '@' && !IsWhitespace(t[m]) {
      assert t[m] == s[lo + m];
    }
  }

  /** A string with exactly one `@`, at `i`, has none after it. */
  lemma NoSecondAt(s: string, i: nat)
    requires i < |s| && s[i] == '@' && CountOf(s, '@') == 1
    ensures '@' !in s[..i] && '@' !in s[i + 1..]
  {
    assert s == s[..i] + [s[i]] + s[i + 1..];
    CountOfAppend(s[..i] + [s[i]], s[i + 1..], '@');
    CountOfAppend(s[..i], [s[i]], '@');
  }

  lemma PatternImpliesShape(s: string, i: nat, j: nat)
    requires 0 < i && i + 1 < j < |s| - 1 && s[i] == '@' && s[j] == '.'
    requires PlainRun(s[..i]) && PlainRun(s[i + 1..j]) && PlainRun(s[j + 1..])
    ensures NoWhitespace(s) && CountOf(s, '@') == 1 && IndexOf(s, '@') == i
    ensures HasInnerDot(s[i + 1..])
  {
    var a, m, z := s[..i], s[i + 1..j], s[j + 1..];
    forall k | 0 <= k < |s| ensures !IsWhitespace(s[k]) && (k != i ==> s[k] != '@') {
      if k < i { assert s[k] == a[k]; }
      else if i < k < j { assert s[k] == m[k - i - 1]; }
      else if j < k { assert s[k] == z[k - j - 1]; }
    }
    assert '@' !in a;
    IndexOfIs(s, '@', i);
    var d := s[i + 1..];
    assert '@' !in d by {
      forall k | 0 <= k < |d| ensures d[k] != '@' {
        assert d[k] == s[i + 1 + k];
      }
    }
    assert s == a + [s[i]] + d;
    CountOfAppend(a + [s[i]], d, '@');
    CountOfAppend(a, [s[i]], '@');
    assert d[j - i - 1] == '.';
  }

  /** Around a lone `@` at `i` and a `.` at `j` after it, the three pieces are plain runs. */
  lemma RunsAround(s: string, i: nat, j: nat)
    requires NoWhitespace(s) && 0 < i && i + 1 < j < |s| - 1
    requires '@' !in s[..i] && '@' !in s[i + 1..]
    ensures PlainRun(s[..i]) && PlainRun(s[i + 1..j]) && PlainRun(s[j + 1..])
  {
    var d := s[i + 1..];
    PlainSlice(s, 0, i);
    assert s[0..i] == s[..i];
    var m := s[i + 1..j];
    assert '@' !in m by {
      forall x | 0 <= x < |m| ensures m[x] != '@' {
        assert m[x] == d[x];
      }
    }
    PlainSlice(s, i + 1, j);
    var z := s[j + 1..|s|];
    assert '@' !in z by {
      forall x | 0 <= x < |z| ensures z[x] != '@' {
        assert z[x] == d[j - i + x];
      }
    }
    PlainSlice(s, j + 1, |s|);
    assert z == s[j + 1..];
  }

  lemma ShapeImpliesPattern(s: string)
    requires NoWhitespace(s) && CountOf(s, '@') == 1 && 0 < IndexOf(s, '@') < |s|
    requires HasInnerDot(s[IndexOf(s, '@') + 1..])
    ensures EmailPatternTest(s)
  {
    var i := IndexOf(s, '@');
    var d := s[i + 1..];
    var k :| 0 < k < |d| - 1 && d[k] == '.';
    var j := i + 1 + k;
    NoSecondAt(s, i);
    assert s[j] == '.';
    RunsAround(s, i, j);
  }

  /** The registration parses exactly when every field of the shape passes and,
      for an event registration, the four student checks pass as well. */
  lemma RegistrationSucceedsIff(b: RegistrationBody, emailOk: string -> bool)
    ensures Succeeds(ParseRegistration(b, emailOk)) <==>
      && (forall c :: c in RegistrationChecks(b, emailOk) ==> c.1.Pass?)
      && (IsEvent(b) ==>
            && StudentNamePasses(b.student1Name) && StudentEmailPasses(b.student1Email)
            && StudentNamePasses(b.student2Name) && StudentEmailPasses(b.student2Email))
  {
    RefinedSuccess(RegistrationChecks(b, emailOk), StudentIssues(b));
    StudentIssueIff(b);
  }

  /** The base fields a successful registration must carry: a full name of 2 to
      120 code units, an e-mail zod accepts, and one of the six roles. */
  lemma RegistrationRequiredFields(b: RegistrationBody, emailOk: string -> bool)
    requires Succeeds(ParseRegistration(b, emailOk))
    ensures b.fullName.Some? && 2 <= JsLength(b.fullName.value) <= 120
    ensures b.email.Some? && emailOk(b.email.value)
    ensures b.role.Some? && b.role.value in Roles
    ensures b.interest.None? || b.interest.value in Interests
    ensures b.phone.Some? && b.phone.value != "" ==> 7 <= JsLength(b.phone.value) <= 20
    ensures b.organization.Some? ==> JsLength(b.organization.value) <= 160
    ensures b.notes.Some? ==> JsLength(b.notes.value) <= 1000
  {
    RegistrationSucceedsIff(b, emailOk);
    var cs := RegistrationChecks(b, emailOk);
    assert cs[0] in cs && cs[1] in cs && cs[2] in cs && cs[3] in cs;
    assert cs[4] in cs && cs[5] in cs && cs[10] in cs;
  }

  // ---------------------------------------------------------------------
  // The contact schema

  datatype ContactField = Name | ContactEmail | Subject | Message

  datatype ContactBody = ContactBody(
    name: Option<string>, email: Option<string>, subject: Option<string>, message: Option<string>)

  function ContactChecks(b: ContactBody, emailOk: string -> bool): seq<(ContactField, Check)> {
    [ (Name, RequiredString(b.name, Length(2, Some(120)), emailOk)),
      (ContactEmail, RequiredString(b.email, EmailRule, emailOk)),
      (Subject, RequiredString(b.subject, Length(2, Some(160)), emailOk)),
      (Message, RequiredString(b.message, Length(10, Some(2000)), emailOk)) ]
  }

  /** `contactSchema.safeParse(body)`. */
  function ParseContact(b: ContactBody, emailOk: string -> bool): Parsed<ContactField> {
    ObjectShape(ContactChecks(b, emailOk))
  }

  /** Every bound of the contact schema is inclusive. */
  lemma ContactSucceedsIff(b: ContactBody, emailOk: string -> bool)
    ensures Succeeds(ParseContact(b, emailOk)) <==>
      && b.name.Some? && 2 <= JsLength(b.name.value) <= 120
      && b.email.Some? && emailOk(b.email.value)
      && b.subject.Some? && 2 <= JsLength(b.subject.value) <= 160
      && b.message.Some? && 10 <= JsLength(b.message.value) <= 2000
  {
    var cs := ContactChecks(b, emailOk);
    assert forall c :: c in cs <==> c == cs[0] || c == cs[1] || c == cs[2] || c == cs[3];
  }

  // ---------------------------------------------------------------------
  // Identifiers

  /** The digit `d` as `Number.prototype.toString(36)` writes it. */
  function Base36Digit(d: nat): (c: char)
    requires d < 36
    ensures ('0' <= c <= '9') || ('a' <= c <= 'z')
  {
    if d < 10 then ('0' as int + d) as char else ('a' as int + d - 10) as char
  }

  /** `n.toString(36)`. */
  function ToBase36(n: nat): (s: string)
    ensures |s| >= 1
    ensures forall k :: 0 <= k < |s| ==> ('0' <= s[k] <= '9') || ('a' <= s[k] <= 'z')
  {
    if n < 36 then [Base36Digit(n)] else ToBase36(n / 36) + [Base36Digit(n % 36)]
  }

  predicate IsLowerBase36(s: string) {
    forall k :: 0 <= k < |s| ==> ('0' <= s[k] <= '9') || ('a' <= s[k] <= 'z')
  }

  /** Reads back an upper-cased base-36 numeral. */
  function FromUpperBase36(s: string): nat {
    if s == [] then 0
    else
      var c := s[|s| - 1];
      var d := if '0' <= c <= '9' then c as int - '0' as int
               else if 'A' <= c <= 'Z' then c as int - 'A' as int + 10
               else 0;
      FromUpperBase36(s[..|s| - 1]) * 36 + d
  }

  lemma {:induction false} Base36RoundTrip(n: nat)
    ensures FromUpperBase36(ToUpperCase(ToBase36(n))) == n
  {
    var s := ToBase36(n);
    var u := ToUpperCase(s);
    if n >= 36 {
      Base36RoundTrip(n / 36);
      assert u[..|u| - 1] == ToUpperCase(ToBase36(n / 36));
    }
  }

  /** `` `${prefix}${Date.now().toString(36)}-${Math.random().toString(36).slice(2, 6)}`.toUpperCase() ``,
      the clock reading and the random digits being parameters. */
  function MakeId(prefix: string, now: nat, random: string): (id: string)
    requires HasNoLowerAscii(prefix)
    requires IsLowerBase36(random) && |random| <= 4
    ensures |prefix| < |id| && id[..|prefix|] == prefix
    ensures HasNoLowerAscii(id)
  {
    var id := ToUpperCase(prefix + ToBase36(now) + "-" + random);
    assert forall k :: 0 <= k < |prefix| ==> id[k] == prefix[k];
    id
  }

  /** The identifier keeps the clock reading: after the prefix comes the
      timestamp in base 36, then `-` and the random digits. */
  lemma MakeIdCarriesTimestamp(prefix: string, now: nat, random: string)
    requires HasNoLowerAscii(prefix)
    requires IsLowerBase36(random) && |random| <= 4
    ensures var rest := MakeId(prefix, now, random)[|prefix|..];
      && IndexOf(rest, '-') < |rest|
      && FromUpperBase36(rest[..IndexOf(rest, '-')]) == now
      && rest[IndexOf(rest, '-') + 1..] == ToUpperCase(random)
  {
    var id := MakeId(prefix, now, random);
    var t := ToUpperCase(ToBase36(now));
    var rest := id[|prefix|..];
    assert rest == t + "-" + ToUpperCase(random);
    assert '-' !in t;
    IndexOfIs(rest, '-', |t|);
    assert rest[..|t|] == t;
    Base36RoundTrip(now);
  }

  // ---------------------------------------------------------------------
  // Handlers

  /** The JSON reply and its status code. */
  datatype Response<F> = Response(
    status: int, success: bool, message: string,
    id: Option<string>, errors: Option<map<F, seq<IssueCode>>>)

  /** A handler's reply, and the record it logs (`console.log`), if any. */
  datatype Handled<F, D> = Handled(response: Response<F>, logged: Option<(string, D)>)

  /** `handleRegister`. */
  function HandleRegister(body: RegistrationBody, emailOk: string -> bool, now: nat, random: string)
    : (h: Handled<RegField, RegistrationBody>)
    requires IsLowerBase36(random) && |random| <= 4
    ensures var p := ParseRegistration(body, emailOk);
      && (h.response.status == 200 <==> Succeeds(p))
      && (h.response.status == 400 <==> !Succeeds(p))
      && (h.response.success <==> Succeeds(p))
    ensures !h.response.success ==>
      && h.response.message == "Invalid input" && h.response.id == None && h.logged == None
      && h.response.errors == Some(FieldErrors(ParseRegistration(body, emailOk).issues))
    ensures h.response.success ==>
      && h.response.message == "Registration received. We will contact you shortly."
      && h.response.id.Some? && h.response.errors == None
      && |h.response.id.value| > 4 && h.response.id.value[..4] == "REG-" && HasNoLowerAscii(h.response.id.value)
      && h.logged == Some((h.response.id.value, body))
  {
    var parsed := ParseRegistration(body, emailOk);
    if !Succeeds(parsed) then
      Handled(Response(400, false, "Invalid input", None, Some(FieldErrors(parsed.issues))), None)
    else
      var id := MakeId("REG-", now, random);
      Handled(Response(200, true, "Registration received. We will contact you shortly.", Some(id), None),
              Some((id, body)))
  }

  /** `handleContact`. */
  function HandleContact(body: ContactBody, emailOk: string -> bool, now: nat, random: string)
    : (h: Handled<ContactField, ContactBody>)
    requires IsLowerBase36(random) && |random| <= 4
    ensures var p := ParseContact(body, emailOk);
      && (h.response.status == 200 <==> Succeeds(p))
      && (h.response.status == 400 <==> !Succeeds(p))
      && (h.response.success <==> Succeeds(p))
    ensures !h.response.success ==>
      && h.response.message == "Invalid input" && h.response.id == None && h.logged == None
      && h.response.errors == Some(FieldErrors(ParseContact(body, emailOk).issues))
    ensures h.response.success ==>
      && h.response.message == "Thanks for contacting us."
      && h.response.id.Some? && h.response.errors == None
      && |h.response.id.value| > 4 && h.response.id.value[..4] == "MSG-" && HasNoLowerAscii(h.response.id.value)
      && h.logged == Some((h.response.id.value, body))
  {
    var parsed := ParseContact(body, emailOk);
    if !Succeeds(parsed) then
      Handled(Response(400, false, "Invalid input", None, Some(FieldErrors(parsed.issues))), None)
    else
      var id := MakeId("MSG-", now, random);
      Handled(Response(200, true, "Thanks for contacting us.", Some(id), None), Some((id, body)))
  }

  /** A registration body missing its full name is answered 400, and the
      error map names the missing field. */
  lemma MissingFullNameIsNamed(body: RegistrationBody, emailOk: string -> bool, now: nat, random: string)
    requires IsLowerBase36(random) && |random| <= 4
    requires body.fullName == None
    ensures var r := HandleRegister(body, emailOk, now, random).response;
      r.status == 400 && r.errors.Some? && FullName in r.errors.value
  {
    var cs := RegistrationChecks(body, emailOk);
    assert Reports(cs[0], Issue(FullName, Required));
    assert cs[0] in cs;
    var p := ObjectShape(cs);
    assert Issue(FullName, Required) in p.issues;
    assert Issue(FullName, Required) in ParseRegistration(body, emailOk).issues;
  }
}
