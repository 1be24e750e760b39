# Igiehon Mathematics Tournament site: form validation and flow, in Dafny

This project models the parts of the Igiehon Foundation's tournament site that decide what a visitor's
submission is allowed to do:

- the Express API's two handlers, `/api/register` and `/api/contact`, with their zod schemas, the
  student-pair refinement of the registration schema, the identifiers they issue and their replies;
- the four client forms: the event registration, the volunteer application, the partnership inquiry
  and the contact form. For each one the model covers its zod schema and "please specify" refinements,
  the step-by-step "Next"/"Previous" sequencing that validates one step's fields at a time, the checkbox
  groups, and what a submission does with the relay's answer;
- the registration page, which picks the form, the introductory content and the list heading from the
  `interest` query parameter.

Zod's object parsing is modelled as zod 3 behaves (module `Zod`):

- each field schema passes, adds a non-fatal issue, or aborts (a missing required value or a missing
  enum choice);
- an object aborts when any field aborts;
- a `superRefine` callback runs only when the object did not abort.

So an unset select in the volunteer or partnership form hides that form's "please specify" issues until
it is chosen. This is proved (`VolunteerForm.SkillsOtherIssue`, `PartnerForm.SpecifyRulesIndependent`).

Other modelling choices:

- String lengths are JavaScript's `.length`, which counts UTF-16 code units (`JsText.JsLength`).
- `trim` removes JavaScript's whitespace set.
- zod's own e-mail check is a parameter `emailOk`.
- The server's student e-mail regular expression is modelled exactly. `RegistrationServer.EmailPatternShape`
  characterises it.

The clock, `Math.random`, the relay's HTTP round trip and the framework's rendering are inputs or are
left out, as listed below.

Modules:

- `Wrappers`: `Option`.
- `JsText`: JavaScript string operations.
- `Zod`: the schema combinators.
- `Relay`: what a form does with the relay's reply.
- `Wizard`: step sequencing.
- `CheckboxSelection`: the `Set`-based checkbox toggle.
- `RegistrationServer`, `EventForm`, `VolunteerForm`, `PartnerForm`, `ContactForm`.
- `RegistrationRouting`: the registration page.

## Model

| member | source | states |
|---|---|---|
| Zod.StringLength | dist/server/node-build.mjs:14 | a string passes `min(a).max(b)` exactly when its UTF-16 length is within both bounds; it fails with the `too_small` code exactly when it is shorter than `a`; a failure never aborts |
| Zod.Email | dist/server/node-build.mjs:15 | `email()` passes exactly when the e-mail test holds, and otherwise reports an invalid e-mail without aborting |
| Zod.ApplyRule | dist/server/node-build.mjs:14-17 | a present string judged by a length or e-mail rule never aborts the object |
| Zod.RequiredString | dist/server/node-build.mjs:14-15 | a missing required string aborts with `Required`; a present one is judged by its rule |
| Zod.OptionalOrEmpty | dist/server/node-build.mjs:16 | `.optional().or(z.literal(""))` passes exactly for an absent value, the empty string, or a string its rule accepts, and never aborts |
| Zod.EnumOf | dist/server/node-build.mjs:18-25 | an enum passes exactly for a listed value; anything else aborts |
| Zod.OptionalEnumOf | dist/server/node-build.mjs:26 | an optional enum passes for an absent or listed value and otherwise aborts with an invalid-enum code |
| Zod.Chosen | client/components/PartnerRegistrationForm.tsx:55 | a select's enum passes exactly when a value is chosen and otherwise aborts with `Required` |
| Zod.NonEmptyArray | client/components/PartnerRegistrationForm.tsx:59 | `array(...).min(1)` passes exactly for a non-empty array and otherwise reports `too_small(1)` without aborting |
| Zod.ObjectShape | dist/server/node-build.mjs:13-31 | an object aborts exactly when some field aborts; an issue is present exactly when some field reports it; there are no issues exactly when every field passes; an aborted object always has an issue |
| Zod.ShapeOf | client/components/VolunteerRegistrationForm.tsx:47-60 | the shape lists each field in schema order with its own schema's status |
| Zod.ShapeOfIssues | client/components/VolunteerRegistrationForm.tsx:47-60 | on such a shape, an issue sits on a field exactly when that field's schema fails and carries its code; the object aborts exactly when some field's schema aborts |
| Zod.ShapeOfSuccess | client/components/VolunteerRegistrationForm.tsx:47-65 | a refined shape succeeds exactly when every field passes and the refinement adds nothing |
| Zod.ShapeSilentOn | client/components/EventRegistrationForm.tsx:45 | a field whose schemas all pass never gets an issue from the object |
| Zod.ObjectShapeAppend | client/components/EventRegistrationForm.tsx:32-46 | parsing a shape group by group gives the groups' issues in order, and the result aborts exactly when either group does |
| Zod.Refine | dist/server/node-build.mjs:32 | `superRefine` appends its issues unless the object aborted, in which case its issues are dropped |
| Zod.RefinedSuccess | dist/server/node-build.mjs:32-64 | a refined object succeeds exactly when every field passes and the refinement adds nothing |
| Zod.SpecifyIssue | client/components/EventRegistrationForm.tsx:47-51 | the "please specify" rule adds at most one issue: exactly when its condition holds and the text trims to nothing, and then it is the custom message on the named path |
| Zod.FieldErrors | dist/server/node-build.mjs:71 | `flatten().fieldErrors` has an entry for exactly the fields some issue names, and no entry is empty |
| Zod.CodesOn | dist/server/node-build.mjs:71 | defines the codes of the issues on one field, in the order they were raised |
| Zod.FieldErrorsAreCodes | dist/server/node-build.mjs:71 | each field's entry holds the codes of exactly that field's issues, in the order they were raised |
| JsText.JsLength | dist/server/node-build.mjs:35 | `.length` lies between the number of code points and twice that |
| JsText.JsLengthCountsCharsIff | dist/server/node-build.mjs:35 | `.length` equals the number of code points exactly when no character lies outside the basic plane |
| JsText.JsLengthAppend | dist/server/node-build.mjs:35 | `.length` adds up over concatenation |
| JsText.TrimEmptyIff | client/components/PartnerRegistrationForm.tsx:68 | `!s.trim()` holds exactly when every character of `s` is whitespace |
| JsText.Trim | dist/server/node-build.mjs:35 | defines `trim` as cutting leading whitespace, then trailing whitespace |
| JsText.TrimIsCore | dist/server/node-build.mjs:35 | `trim` returns a contiguous slice: only whitespace is cut from either end, and the slice's first and last characters are not whitespace |
| JsText.TrimmedLengthAtLeastTwo | dist/server/node-build.mjs:35 | `s.trim().length >= 2` holds exactly when `s` has two non-whitespace characters or one character outside the basic plane |
| JsText.BlankIff | client/components/VolunteerRegistrationForm.tsx:62 | `!x?.trim()` holds exactly when `x` is absent or entirely whitespace |
| JsText.ToUpperCase | dist/server/node-build.mjs:75 | `toUpperCase` keeps the length and upper-cases each ASCII letter in place |
| JsText.CountOf | dist/server/node-build.mjs:42 | the count of a character is at most the length, and zero exactly when the character is absent |
| JsText.CountOfAppend | dist/server/node-build.mjs:42 | counts add up over concatenation |
| JsText.IndexOf | dist/server/node-build.mjs:42 | the first occurrence of a character, with the length meaning absent; no earlier position holds it |
| JsText.ReplaceFirst | client/components/VolunteerRegistrationForm.tsx:417 | `replace("_", " ")` changes only the first occurrence and keeps the length; without an occurrence the string is unchanged |
| JsText.SplitJoinRoundTrip | client/components/VolunteerRegistrationForm.tsx:421 | `join(", ")` on comma-free items can be read back by cutting at each `", "` |
| JsText.Join | client/components/VolunteerRegistrationForm.tsx:421 | defines `join(sep)`: the items with `sep` between neighbours, and the empty string for no items |
| Relay.ReplyOutcome | client/components/ContactForm.tsx:79-90 | a form shows its "received" view exactly when the reply's `success` is truthy, with the success toast; a thrown request shows the network-error toast; an unsuccessful reply shows its message, or the fallback when the message is absent or empty |
| Wizard.TriggerOk | client/components/ContactForm.tsx:55 | defines `form.trigger(fields)`: it succeeds exactly when no issue of the parse sits on one of the step's fields |
| Wizard.NextStep | client/components/ContactForm.tsx:57 | "Next" advances one step and never past the last |
| Wizard.BackStep | client/components/ContactForm.tsx:60 | "Previous" goes back one step and never below the first |
| Wizard.SubmitShown | client/components/ContactForm.tsx:238-246 | the submit button replaces "Next" exactly on the last step |
| Wizard.RunStaysInRange | client/components/ContactForm.tsx:47-60 | any sequence of clicks keeps the step in range and moves it by at most one place per click |
| Wizard.FailedNextsKeepStep | client/components/ContactForm.tsx:55-56 | "Next" clicks whose validation fails never move the step |
| Wizard.SuccessfulNextsReachLast | client/components/ContactForm.tsx:57 | n successful "Next" clicks from step s reach step min(s + n, last) |
| Wizard.CleanIffEveryStepClean | client/components/ContactForm.tsx:48-56 | when every field belongs to a step, the form has no issue exactly when every step's `trigger` succeeds |
| CheckboxSelection.Distinct | client/components/PartnerRegistrationForm.tsx:289 | `new Set(xs)` holds each value once, and exactly the values of `xs` |
| CheckboxSelection.DistinctKeepsFirstOrder | client/components/PartnerRegistrationForm.tsx:289 | `Array.from(new Set(xs))` lists its values in the order of their first occurrence in `xs` |
| CheckboxSelection.Without | client/components/PartnerRegistrationForm.tsx:290 | deleting a value removes it and keeps everything else |
| CheckboxSelection.WithoutKeepsDistinct | client/components/PartnerRegistrationForm.tsx:290 | deleting from a duplicate-free list keeps it duplicate-free |
| CheckboxSelection.SpliceIsWithout | client/components/PartnerRegistrationForm.tsx:290 | removing a value's only occurrence by splicing gives the same list as deleting the value |
| CheckboxSelection.JsSet.Add | client/components/PartnerRegistrationForm.tsx:290 | `add` appends a value only when it is new |
| CheckboxSelection.JsSet.Delete | client/components/PartnerRegistrationForm.tsx:290 | `delete` removes the value and keeps the rest in order |
| CheckboxSelection.Toggled | client/components/PartnerRegistrationForm.tsx:288-292 | defines the selection after a click: the set of the old values with the clicked value added when checked, deleted when unchecked |
| CheckboxSelection.Toggle | client/components/PartnerRegistrationForm.tsx:288-292 | the new selection has no duplicates and contains exactly the old selection with the clicked value added when checked or removed when unchecked |
| CheckboxSelection.DistinctOfDistinct | client/components/PartnerRegistrationForm.tsx:289 | a `Set` over a duplicate-free list gives the list back unchanged |
| CheckboxSelection.ToggleOnSelection | client/components/PartnerRegistrationForm.tsx:288-292 | on a duplicate-free selection, checking appends a new value and unchecking deletes the value |
| CheckboxSelection.CheckThenUncheck | client/components/PartnerRegistrationForm.tsx:288-292 | checking a box and then unchecking it restores the selection |
| CheckboxSelection.CheckIsIdempotent | client/components/PartnerRegistrationForm.tsx:288-292 | checking a box twice is the same as checking it once |
| RegistrationServer.RegistrationChecks | dist/server/node-build.mjs:13-31 | defines the field schemas of the registration schema, in the order of its shape, with their bounds, enums and optional-or-empty forms |
| RegistrationServer.EmailPatternTest | dist/server/node-build.mjs:42 | defines the student e-mail regular expression: an `@` and a later `.` cut the string into three non-empty runs free of whitespace and `@` |
| RegistrationServer.StudentIssues | dist/server/node-build.mjs:33-63 | defines the refinement's issues: for an event registration, the failing student checks in the callback's order; nothing otherwise |
| RegistrationServer.ParseRegistration | dist/server/node-build.mjs:13-64 | defines `registrationSchema.safeParse`: the field schemas, then the student checks unless a field aborted |
| RegistrationServer.RefineRegistration | dist/server/node-build.mjs:32-64 | the refinement yields at most four issues, none unless the body is an event registration |
| RegistrationServer.FourChecksIff | dist/server/node-build.mjs:34-63 | each student check reports its own message on its own path exactly when it fails; nothing else is reported |
| RegistrationServer.StudentIssueIff | dist/server/node-build.mjs:33-63 | for an event registration, each student field is reported exactly when its check fails; for any other interest nothing is reported |
| RegistrationServer.NonEventIgnoresMissingStudents | dist/server/node-build.mjs:33 | a volunteer or partner registration without students gets no issue on any student field |
| RegistrationServer.EventReportsAllMissingStudents | dist/server/node-build.mjs:34-62 | an otherwise valid event registration with no students gets exactly the four student issues, in order |
| RegistrationServer.StudentNameIff | dist/server/node-build.mjs:35 | a student name passes exactly when it has two visible characters or one outside the basic plane; an all-whitespace name never passes |
| RegistrationServer.EmailPatternShape | dist/server/node-build.mjs:42 | the e-mail pattern matches exactly the strings without whitespace that hold one `@`, not first or last, with a `.` strictly inside the domain part |
| RegistrationServer.PatternImpliesShape | dist/server/node-build.mjs:42 | a match of the pattern has that shape |
| RegistrationServer.ShapeImpliesPattern | dist/server/node-build.mjs:42 | a string of that shape matches the pattern |
| RegistrationServer.RegistrationSucceedsIff | dist/server/node-build.mjs:13-64 | a registration is accepted exactly when every field schema passes and, for an event, every student check passes |
| RegistrationServer.RegistrationRequiredFields | dist/server/node-build.mjs:14-31 | an accepted registration has a 2–120 unit name, a valid e-mail, a listed role, an allowed interest, a 7–20 unit phone when one is given, and organization and notes within 160 and 1000 units |
| RegistrationServer.ContactChecks | dist/server/node-build.mjs:84-89 | defines the contact schema's four required fields and their bounds |
| RegistrationServer.ParseContact | dist/server/node-build.mjs:84-89 | defines `contactSchema.safeParse` as the object parse of those fields, with no refinement |
| RegistrationServer.ContactSucceedsIff | dist/server/node-build.mjs:84-89 | a contact message is accepted exactly when all four fields are present and within their inclusive bounds |
| RegistrationServer.ToBase36 | dist/server/node-build.mjs:75 | `toString(36)` writes at least one digit, each a digit or a lower-case letter |
| RegistrationServer.Base36RoundTrip | dist/server/node-build.mjs:75 | the upper-cased base-36 timestamp reads back as the timestamp |
| RegistrationServer.MakeId | dist/server/node-build.mjs:75 | an identifier starts with its prefix and holds no lower-case letter |
| RegistrationServer.MakeIdCarriesTimestamp | dist/server/node-build.mjs:75 | after the prefix come the timestamp in base 36, a `-`, and the upper-cased random digits |
| RegistrationServer.HandleRegister | dist/server/node-build.mjs:65-83 | the reply is 200 exactly when the body parses, and 400 otherwise. A 400 reply says "Invalid input", carries the parse's issues grouped by field as `Zod.FieldErrors`, and issues and logs nothing. A 200 reply carries the fixed success message and an upper-case `REG-` identifier, and logs that identifier with the body |
| RegistrationServer.HandleContact | dist/server/node-build.mjs:90-107 | the same split for a contact message, with "Thanks for contacting us." and a `MSG-` identifier |
| RegistrationServer.MissingFullNameIsNamed | dist/server/node-build.mjs:14 | a registration without `fullName` is answered 400 with an error entry for `fullName` |
| EventForm.EventRefinement | client/components/EventRegistrationForm.tsx:47-51 | defines the callback: "Please specify" on `heardAboutOther` when "Other" is checked and the answer trims to nothing |
| EventForm.ParseEvent | client/components/EventRegistrationForm.tsx:32-51 | defines the resolver's parse: the field schemas in shape order, then the callback unless a field aborted |
| EventForm.CoachClean | client/components/EventRegistrationForm.tsx:33-35 | the coach fields never abort, and they pass exactly when the name has 2 units, the e-mail is valid and the phone has 7 units |
| EventForm.SchoolClean | client/components/EventRegistrationForm.tsx:36-37 | the school fields never abort, and they pass exactly when the name has 2 units and the address 5 |
| EventForm.StudentsClean | client/components/EventRegistrationForm.tsx:38-43 | the student fields never abort, and they pass exactly when both names, e-mails and phones meet their bounds |
| EventForm.AdditionalClean | client/components/EventRegistrationForm.tsx:44-46 | the optional fields never report anything |
| EventForm.EventShapeByGroups | client/components/EventRegistrationForm.tsx:32-46 | the schema's issues are the coach, school and student groups' issues in that order, and it never aborts |
| EventForm.EventSucceedsIff | client/components/EventRegistrationForm.tsx:32-51 | the refinement always runs; the form is valid exactly when every bound and e-mail test holds and "Other" is not checked with a blank answer |
| EventForm.ShapeIgnoresHeardAboutOther | client/components/EventRegistrationForm.tsx:45 | no field schema reports on `heardAboutOther` |
| EventForm.HeardAboutOtherIff | client/components/EventRegistrationForm.tsx:47-51 | `heardAboutOther` gets an issue, the "Please specify" one, exactly when "Other" is checked and the answer is blank |
| EventForm.StepOf | client/components/EventRegistrationForm.tsx:89-98 | every field is validated by exactly one step, and never by the review step |
| EventForm.ValidIffEveryStepPasses | client/components/EventRegistrationForm.tsx:88-104 | the form is valid exactly when every step's "Next" validation succeeds |
| EventForm.DefaultsStopAtCoach | client/components/EventRegistrationForm.tsx:59-74 | a fresh form cannot leave the coach step |
| EventForm.EventRegistrationForm.Next | client/components/EventRegistrationForm.tsx:88-104 | "Next" moves on exactly when the current step's fields have no issue, and never past the last step |
| EventForm.EventRegistrationForm.Back | client/components/EventRegistrationForm.tsx:106 | "Previous" moves back one step, stopping at the first |
| EventForm.EventRegistrationForm.ToggleHeard | client/components/EventRegistrationForm.tsx:351-355 | a "heard about" checkbox click toggles that option in the selection |
| EventForm.EventRegistrationForm.InWindow | client/components/EventRegistrationForm.tsx:109-116 | defines the open window: neither before its start nor after its end, so both ends are open for registration |
| EventForm.EventRegistrationForm.Submit | client/components/EventRegistrationForm.tsx:108-148 | invalid values are neither posted nor reset. Outside the registration window the form shows the window warning and posts nothing. Otherwise the relay's reply decides the toast, and only a successful reply shows the "received" view and resets the values |
| EventForm.EventRegistrationForm.SubmitButtonShown | client/components/EventRegistrationForm.tsx:418-426 | the submit button shows exactly on the review step |
| VolunteerForm.VolunteerRefinement | client/components/VolunteerRegistrationForm.tsx:61-65 | defines the callback: "Please specify your other skills" when "Other" is checked and nothing is specified |
| VolunteerForm.ParseVolunteer | client/components/VolunteerRegistrationForm.tsx:47-65 | defines the resolver's parse: the field schemas in shape order, then the callback unless a field aborted |
| VolunteerForm.VolunteerIssues | client/components/VolunteerRegistrationForm.tsx:47-65 | the form aborts exactly when no experience level is chosen. An issue is present exactly when its field's schema fails, or, with a level chosen, when the refinement reports it |
| VolunteerForm.VolunteerSucceedsIff | client/components/VolunteerRegistrationForm.tsx:47-65 | the form is valid exactly when every bound holds, a level is chosen, a slot is checked, and "Other" skills are not left unspecified |
| VolunteerForm.AllFieldsPassIff | client/components/VolunteerRegistrationForm.tsx:48-59 | every field schema passes exactly when the length bounds hold, a level is chosen and a slot is checked |
| VolunteerForm.SkillsOtherIssue | client/components/VolunteerRegistrationForm.tsx:53-64 | with no level chosen, only the missing level is reported and the "Please specify your other skills" issue stays hidden. With a level chosen, that issue appears exactly when "Other" is checked and nothing is specified |
| VolunteerForm.AvailabilityRequiredSkillsNot | client/components/VolunteerRegistrationForm.tsx:54-55 | `availability` is reported exactly when no slot is checked; `skills` is never reported |
| VolunteerForm.StepOf | client/components/VolunteerRegistrationForm.tsx:102-108 | every field is validated by exactly one step, and never by the review step |
| VolunteerForm.ValidIffEveryStepPasses | client/components/VolunteerRegistrationForm.tsx:101-114 | the form is valid exactly when every step's "Next" validation succeeds |
| VolunteerForm.PersonalStepIgnoresExperience | client/components/VolunteerRegistrationForm.tsx:101-114 | with personal details filled in and no level chosen, the personal step moves on and the experience step stops |
| VolunteerForm.ExperienceReview | client/components/VolunteerRegistrationForm.tsx:417 | defines the review's experience line: the level's value with its first `_` replaced by a space, nothing when unset |
| VolunteerForm.ExperienceReviewShowsLabel | client/components/VolunteerRegistrationForm.tsx:417 | replacing only the first `_` is enough: every level is shown as its readable label |
| VolunteerForm.ExperienceReviewReadable | client/components/VolunteerRegistrationForm.tsx:417 | no level is shown with an underscore, and different levels are shown differently |
| VolunteerForm.AvailabilityReview | client/components/VolunteerRegistrationForm.tsx:421 | defines the review's availability line: the checked slots' values joined with `", "` |
| VolunteerForm.AvailabilityReviewRoundTrip | client/components/VolunteerRegistrationForm.tsx:421 | the review line lists the checked slots in order and reads back as them |
| VolunteerForm.VolunteerRegistrationForm.Next | client/components/VolunteerRegistrationForm.tsx:101-114 | "Next" moves on exactly when the current step's fields have no issue, and never past the last step |
| VolunteerForm.VolunteerRegistrationForm.Back | client/components/VolunteerRegistrationForm.tsx:116 | "Previous" moves back one step, stopping at the first |
| VolunteerForm.VolunteerRegistrationForm.ToggleSkill | client/components/VolunteerRegistrationForm.tsx:286-290 | a skills checkbox click toggles that skill in the selection |
| VolunteerForm.VolunteerRegistrationForm.ToggleAvailability | client/components/VolunteerRegistrationForm.tsx:342-346 | an availability checkbox click toggles that slot in the selection |
| VolunteerForm.VolunteerRegistrationForm.Submit | client/components/VolunteerRegistrationForm.tsx:118-146 | invalid values are not posted; otherwise the reply decides the toast, and only a successful reply shows the "received" view and resets the values |
| VolunteerForm.VolunteerRegistrationForm.SubmitButtonShown | client/components/VolunteerRegistrationForm.tsx:440-448 | the submit button shows exactly on the review step |
| PartnerForm.PartnerRefinement | client/components/PartnerRegistrationForm.tsx:67-74 | defines the callback's two rules, organization type first, then partnership interests |
| PartnerForm.RefinePartner | client/components/PartnerRegistrationForm.tsx:67-74 | the callback adds its two rules' issues in order |
| PartnerForm.RefinementIff | client/components/PartnerRegistrationForm.tsx:67-74 | each rule reports its own message exactly when its "other" is chosen and the matching text is blank, whatever the other rule does |
| PartnerForm.ParsePartner | client/components/PartnerRegistrationForm.tsx:49-74 | defines the resolver's parse: the field schemas in shape order, then the callback unless a field aborted |
| PartnerForm.AbortsIffUnset | client/components/PartnerRegistrationForm.tsx:55-65 | a field aborts the object exactly when some select is left unset |
| PartnerForm.PartnerIssues | client/components/PartnerRegistrationForm.tsx:49-74 | the inquiry aborts exactly when a select is unset. An issue is present exactly when its field's schema fails, or, with every select set, when a rule reports it |
| PartnerForm.SpecifyRulesIndependent | client/components/PartnerRegistrationForm.tsx:67-74 | each "please specify" issue appears exactly when every select is set, its "other" is chosen, and its text is blank; both can appear together |
| PartnerForm.PartnershipDetailsNeverRequired | client/components/PartnerRegistrationForm.tsx:63 | `partnershipDetails` is never reported, even after a "yes" reveals it, and its content never changes the validation |
| PartnerForm.FieldIssueIff | client/components/PartnerRegistrationForm.tsx:49-66 | on a field no rule names, an issue is exactly that field's schema failing |
| PartnerForm.InterestsAndGoalsRequired | client/components/PartnerRegistrationForm.tsx:59-64 | the interests are reported exactly when none is checked; the goals exactly when shorter than ten units |
| PartnerForm.AllFieldsPassIff | client/components/PartnerRegistrationForm.tsx:49-66 | every field schema passes exactly when the text bounds hold, every select is set and an interest is checked |
| PartnerForm.PartnerSucceedsIff | client/components/PartnerRegistrationForm.tsx:49-74 | the inquiry is valid exactly when the text bounds hold, every select is set, an interest is checked, and neither "other" is left unspecified |
| PartnerForm.RevealedDetailsStayOptional | client/components/PartnerRegistrationForm.tsx:378-385 | once a "yes" reveals the details box, nothing is reported on it, what is typed there leaves the validation unchanged, and the parse is the same as after a "no" |
| PartnerForm.PartnerRegistrationForm.ToggleInterest | client/components/PartnerRegistrationForm.tsx:288-292 | an interest checkbox click toggles that interest in the selection |
| PartnerForm.PartnerRegistrationForm.Submit | client/components/PartnerRegistrationForm.tsx:102-130 | invalid values are not posted; otherwise the reply decides the toast, and only a successful reply shows the "received" view and resets the values |
| ContactForm.ParseContact | client/components/ContactForm.tsx:22-27 | defines the resolver's parse: the four field schemas in shape order, with no refinement |
| ContactForm.ContactIssues | client/components/ContactForm.tsx:22-27 | the contact schema never aborts, and each field's issue is exactly its own schema failing |
| ContactForm.ContactSucceedsIff | client/components/ContactForm.tsx:22-27 | the message is valid exactly when the name and subject have 2 units, the e-mail is valid and the message has 10 |
| ContactForm.ServerAcceptedPassesForm | client/components/ContactForm.tsx:22-27 | whatever the server's contact schema accepts, the form's schema accepts too |
| ContactForm.StepOf | client/components/ContactForm.tsx:48-52 | every field is validated by exactly one step, and never by the review step |
| ContactForm.ValidIffEveryStepPasses | client/components/ContactForm.tsx:47-58 | the message is valid exactly when every step's "Next" validation succeeds |
| ContactForm.ShortMessageStopsAtMessageStep | client/components/ContactForm.tsx:47-58 | a short message lets the contact step move on but stops the message step |
| ContactForm.RelayBody | client/components/ContactForm.tsx:72-78 | defines the posted body: access key, subject, sender label and reply-to, with the form's values spread over them |
| ContactForm.RelayBodyCarriesValues | client/components/ContactForm.tsx:72-78 | the posted body holds exactly the access key, the subject as typed, the sender label, the sender's address as reply-to, and each form value under its own key |
| ContactForm.ContactFormState.Next | client/components/ContactForm.tsx:47-58 | "Next" moves on exactly when the current step's fields have no issue, and never past the last step |
| ContactForm.ContactFormState.Back | client/components/ContactForm.tsx:60 | "Previous" moves back one step, stopping at the first |
| ContactForm.ContactFormState.Submit | client/components/ContactForm.tsx:62-91 | invalid values are not posted; valid ones are posted as the relay body, the reply decides the toast, and only a successful reply shows the "sent" view and resets the values |
| ContactForm.ContactFormState.SubmitButtonShown | client/components/ContactForm.tsx:238-246 | the submit button shows exactly on the review step |
| RegistrationRouting.FormFor | client/components/RegistrationForm.tsx:5-19 | the volunteer and partner forms show exactly for "volunteer" and "partner"; an absent interest shows the event form |
| RegistrationRouting.ResolveInterest | client/pages/Register.tsx:10-13 | a missing or empty parameter reads as "event"; any other value is kept |
| RegistrationRouting.ContentVariant | client/pages/Register.tsx:15-57 | the volunteer and partner content show exactly for their own interests; everything else gets the event content |
| RegistrationRouting.ContentOf | client/pages/Register.tsx:15-57 | defines each branch's title, subtitle, description and list |
| RegistrationRouting.GetContent | client/pages/Register.tsx:15-57 | defines `getContent()` as the content of the branch the interest selects |
| RegistrationRouting.FormMatchesContent | client/pages/Register.tsx:60-93 | whatever the query string, the form shown is the one its content introduces |
| RegistrationRouting.EventContentShowsWindow | client/pages/Register.tsx:43-56 | the event content advertises the registration window "1 Oct 2025 to 1 Nov 2025" |
| RegistrationRouting.HeadingOf | client/pages/Register.tsx:82-83 | defines the list heading each content branch calls for |
| RegistrationRouting.HeadingAsWritten | client/pages/Register.tsx:82-83 | defines the heading as the page computes it: a second test on `interest` that falls through to "Partnership Benefits" |
| RegistrationRouting.HeadingAsWrittenAgreesIff | client/pages/Register.tsx:82-83 | the heading agrees with the content exactly for "event", "volunteer" and "partner" |
| RegistrationRouting.UnknownInterestMisheaded | client/pages/Register.tsx:82-83 | `?interest=sponsor` shows the event form and event content under "Partnership Benefits" |
| RegistrationRouting.PageHeading | client/pages/Register.tsx:82-83 | the corrected heading is "Eligibility Criteria" exactly for the event content, and it equals the page's own heading for the three named interests |
| RegistrationRouting.PageIsConsistent | client/pages/Register.tsx:60-93 | with the corrected heading, the form, the content and the heading always agree |

## Left out

- The relay's HTTP round trip, `res.json()` and the `catch` are not executed. A submission takes the relay's reply (or a thrown request) as an input (`Relay.RelayResult`).
- The clock (`new Date()`, `Date.now()`) and `Math.random()` are inputs. The event form takes the current time and its window bounds as integers; identifiers take a timestamp and up to four random base-36 digits.
- The relay access key's value is not modelled. The contact form takes it as a parameter.
- ContactForm.RelayBodyCarriesValues: the body is modelled as a map. The order of keys in the JSON text is not captured, only which keys are posted and their values.
- The relay bodies of the event, volunteer and partnership forms are not modelled: their spreads carry arrays as well as strings. Their fixed subjects and reply-to fields are not stated.
- Toasts are modelled by kind and text. Rendering, animation, focus handling, the progress bar and the "register another" links are left out.
- Express setup, CORS, the ping and demo routes, static pages and the non-core components are left out.
- zod's own e-mail check is the abstract parameter `emailOk`. The server's student e-mail regular expression is modelled exactly.
- Zod.FieldErrors: issue codes stand for zod's messages; `formErrors` is always [] here because every issue has a field path, so it is not modelled.
- JsText.ToUpperCase: upper-cases ASCII letters only. This is all the identifiers need, since base-36 digits and the prefixes are ASCII.
- Request bodies are modelled as optional strings per field. Non-string JSON values, such as a number for `fullName`, are not modelled.
- Form values are modelled as the form holds them: strings, option lists for checkbox groups, and `Option` values for selects, where `None` is the unset `undefined` default.
- A click on an enabled control needs the form to be showing, so the form methods require `!submitted`.
- Submit is modelled on any step, an over-approximation: off the last step the button is a `type="button"` "Next" (client/components/ContactForm.tsx:239), and the submit button exists only on the last step (client/components/ContactForm.tsx:243); the other three forms do the same. No Submit contract depends on the step.

## Findings

| source | as written | input that shows it | evidently intended | confidence | as-written member | corrected member |
|---|---|---|---|---|---|---|
| client/pages/Register.tsx:82-83 | the list heading tests `interest` again, and its fall-through is "Partnership Benefits", while `getContent` and `RegistrationForm` fall through to the event | `/register?interest=sponsor` (any value other than event, volunteer or partner) | the heading follows the content branch shown: "Eligibility Criteria" over the event criteria | not executed | RegistrationRouting.HeadingAsWrittenAgreesIff | RegistrationRouting.PageHeading |
