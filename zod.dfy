/** The parts of zod's object parsing that the schemas in this project use, as
    zod version 3 behaves: each field schema passes, reports a non-fatal
    ("dirty") issue, or aborts; an object aborts when one of its fields aborts;
    a `superRefine` callback runs only when the object did not abort. */
module Zod {
  import opened Wrappers
  import opened JsText

  datatype IssueCode =
    | Required              // invalid_type: the value is undefined
    | InvalidEnumValue      // invalid_enum_value
    | TooSmall(minimum: nat)
    | TooBig(maximum: nat)
    | InvalidEmail          // invalid_string, validation "email"
    | Custom(message: string)

  /** The status one field schema gives its value. */
  datatype Check = Pass | Dirty(code: IssueCode) | Abort(code: IssueCode)

  /** An issue at a top-level field of the object. */
  datatype Issue<F> = Issue(path: F, code: IssueCode)

  datatype Parsed<F> = Parsed(issues: seq<Issue<F>>, aborted: bool)

  /** `z.string().min(min)`, followed by `.max(max)` when `max` is given. */
  function StringLength(s: string, min: nat, max: Option<nat>): (c: Check)
    ensures c.Pass? <==> min <= JsLength(s) && (max.Some? ==> JsLength(s) <= max.value)
    ensures c.Dirty? <==> !c.Pass?
    ensures c == Dirty(TooSmall(min)) <==> JsLength(s) < min
  {
    if JsLength(s) < min then Dirty(TooSmall(min))
    else if max.Some? && JsLength(s) > max.value then Dirty(TooBig(max.value))
    else Pass
  }

  /** `z.string().email()`, zod's own e-mail test being the parameter `emailOk`. */
  function Email(s: string, emailOk: string -> bool): (c: Check)
    ensures c.Pass? <==> emailOk(s)
    ensures !c.Pass? ==> c == Dirty(InvalidEmail)
  {
    if emailOk(s) then Pass else Dirty(InvalidEmail)
  }

  /** The string schemas the forms use: length bounds, or an e-mail address. */
  datatype StringRule = Length(min: nat, max: Option<nat>) | EmailRule

  /** The status a string schema gives a present string. */
  function ApplyRule(r: StringRule, s: string, emailOk: string -> bool): (c: Check)
    ensures !c.Abort?
    ensures r.Length? ==> c == StringLength(s, r.min, r.max)
    ensures r.EmailRule? ==> c == Email(s, emailOk)
  {
    match r
    case Length(min, max) => StringLength(s, min, max)
    case EmailRule => Email(s, emailOk)
  }

  /** A required string field: an absent value aborts, a present one goes to `rule`. */
  function RequiredString(v: Option<string>, r: StringRule, emailOk: string -> bool): (c: Check)
    ensures v.None? ==> c == Abort(Required)
    ensures v.Some? ==> c == ApplyRule(r, v.value, emailOk)
  {
    if v.None? then Abort(Required) else ApplyRule(r, v.value, emailOk)
  }

  /** `rule.optional().or(z.literal(""))`: absence and the empty string are
      accepted, anything else is judged by `rule` alone. */
  function OptionalOrEmpty(v: Option<string>, r: StringRule, emailOk: string -> bool): (c: Check)
    ensures !c.Abort?
    ensures c.Pass? <==> v.None? || v.value == "" || ApplyRule(r, v.value, emailOk).Pass?
  {
    if v.None? || v.value == "" then Pass else ApplyRule(r, v.value, emailOk)
  }

  /** `z.enum(allowed)` on a value that may be absent. */
  function EnumOf(v: Option<string>, allowed: seq<string>): (c: Check)
    ensures c.Pass? <==> v.Some? && v.value in allowed
    ensures !c.Pass? ==> c.Abort?
  {
    if v.None? then Abort(Required)
    else if v.value in allowed then Pass
    else Abort(InvalidEnumValue)
  }

  /** `z.enum(allowed).optional()`. */
  function OptionalEnumOf(v: Option<string>, allowed: seq<string>): (c: Check)
    ensures c.Pass? <==> v.None? || v.value in allowed
    ensures !c.Pass? ==> c == Abort(InvalidEnumValue)
  {
    if v.None? || v.value in allowed then Pass else Abort(InvalidEnumValue)
  }

  /** A required enum field whose value, when present, is one of the enum's
      members by construction (a select box): only absence fails. */
  function Chosen<E>(v: Option<E>): (c: Check)
    ensures c.Pass? <==> v.Some?
    ensures !c.Pass? ==> c == Abort(Required)
  {
    if v.None? then Abort(Required) else Pass
  }

  /** `z.array(...).min(1)` on an array whose elements are valid by construction. */
  function NonEmptyArray<E>(xs: seq<E>): (c: Check)
    ensures c.Pass? <==> |xs| >= 1
    ensures !c.Pass? ==> c == Dirty(TooSmall(1))
  {
    if |xs| < 1 then Dirty(TooSmall(1)) else Pass
  }

  /** Field `c.0` with status `c.1` reports issue `i`. */
  predicate Reports<F(==)>(c: (F, Check), i: Issue<F>) {
    !c.1.Pass? && c.0 == i.path && c.1.code == i.code
  }

  /** `z.object(shape)`: every field is checked in the order of the shape, the
      issues are collected in that order, and the object aborts when a field does. */
  function ObjectShape<F(==,!new)>(checks: seq<(F, Check)>): (p: Parsed<F>)
    ensures p.aborted <==> exists c :: c in checks && c.1.Abort?
    ensures forall i :: i in p.issues <==> exists c :: c in checks && Reports(c, i)
    ensures p.issues == [] <==> forall c :: c in checks ==> c.1.Pass?
    ensures |p.issues| <= |checks|
    ensures p.aborted ==> p.issues != []
  {
    if checks == [] then Parsed([], false)
    else
      var rest := ObjectShape(checks[1..]);
      var c := checks[0];
      assert forall d :: d in checks <==> d == c || d in checks[1..];
      if c.1.Pass? then rest
      else
        var i := Issue(c.0, c.1.code);
        assert Reports(c, i);
        Parsed([i] + rest.issues, c.1.Abort? || rest.aborted)
  }

  /** A shape given as its fields in order and the status each field's schema
      gives the value at that field. */
  function ShapeOf<F>(order: seq<F>, check: F -> Check): (cs: seq<(F, Check)>)
    ensures |cs| == |order|
    ensures forall k :: 0 <= k < |order| ==> cs[k] == (order[k], check(order[k]))
  {
    seq(|order|, k requires 0 <= k < |order| => (order[k], check(order[k])))
  }

  /** On such a shape, an issue sits on a field exactly when that field's
      schema does not pass, and carries that schema's code; the object
      aborts exactly when some field's schema aborts. */
  lemma ShapeOfIssues<F(!new)>(order: seq<F>, check: F -> Check)
    ensures var p := ObjectShape(ShapeOf(order, check));
      && (forall i :: i in p.issues <==> i.path in order && !check(i.path).Pass? && i.code == check(i.path).code)
      && (p.aborted <==> exists f :: f in order && check(f).Abort?)
      && (p.issues == [] <==> forall f :: f in order ==> check(f).Pass?)
  {
    var cs := ShapeOf(order, check);
    forall c | c in cs ensures c.0 in order && c.1 == check(c.0) {
      var k :| 0 <= k < |cs| && cs[k] == c;
    }
    forall f | f in order ensures (f, check(f)) in cs {
      var k :| 0 <= k < |order| && order[k] == f;
      assert cs[k] == (f, check(f));
    }
  }

  /** A refined object over such a shape succeeds exactly when every field's
      schema passes and the refinement adds nothing. */
  lemma ShapeOfSuccess<F(!new)>(order: seq<F>, check: F -> Check, refinement: seq<Issue<F>>)
    ensures Succeeds(Refine(ObjectShape(ShapeOf(order, check)), refinement)) <==>
      (forall f :: f in order ==> check(f).Pass?) && refinement == []
  {
    ShapeOfIssues(order, check);
  }

  /** A field whose schemas all pass gets no issue from the object. */
  lemma ShapeSilentOn<F(!new)>(checks: seq<(F, Check)>, f: F)
    requires forall c :: c in checks ==> c.0 != f || c.1.Pass?
    ensures forall i :: i in ObjectShape(checks).issues ==> i.path != f
  {
  }

  /** Parsing a shape field group by field group: the issues come in shape
      order, and the object aborts when either part does. */
  lemma {:induction false} ObjectShapeAppend<F(!new)>(a: seq<(F, Check)>, b: seq<(F, Check)>)
    ensures ObjectShape(a + b).issues == ObjectShape(a).issues + ObjectShape(b).issues
    ensures ObjectShape(a + b).aborted == (ObjectShape(a).aborted || ObjectShape(b).aborted)
  {
    if a == [] {
      assert a + b == b;
    } else {
      assert (a + b)[0] == a[0];
      assert (a + b)[1..] == a[1..] + b;
      ObjectShapeAppend(a[1..], b);
    }
  }

  /** `.superRefine(...)`: the callback's issues are appended unless the object
      aborted, in which case the callback does not run. */
  function Refine<F>(p: Parsed<F>, refinement: seq<Issue<F>>): (r: Parsed<F>)
    ensures r.aborted == p.aborted
    ensures p.aborted ==> r.issues == p.issues
    ensures !p.aborted ==> r.issues == p.issues + refinement
  {
    if p.aborted then p else Parsed(p.issues + refinement, false)
  }

  /** `safeParse(...).success`. */
  predicate Succeeds<F>(p: Parsed<F>) {
    p.issues == []
  }

  /** An aborted object always carries an issue, so a refined object succeeds
      exactly when its fields all pass and the refinement adds nothing. */
  lemma RefinedSuccess<F(!new)>(checks: seq<(F, Check)>, refinement: seq<Issue<F>>)
    ensures Succeeds(Refine(ObjectShape(checks), refinement)) <==>
      (forall c :: c in checks ==> c.1.Pass?) && refinement == []
  {
    var p := ObjectShape(checks);
    if p.aborted {
      var c :| c in checks && c.1.Abort?;
      assert !c.1.Pass?;
    }
  }

  /** The "other, please specify" refinements of the forms:
      `if (cond && !text?.trim()) ctx.addIssue({ path: [path], message })`. */
  function SpecifyIssue<F>(cond: bool, text: string, path: F, message: string): (r: seq<Issue<F>>)
    ensures |r| <= 1
    ensures r != [] <==> cond && AllWhitespace(text)
    ensures r != [] ==> r == [Issue(path, Custom(message))]
  {
    TrimEmptyIff(text);
    if cond && Trim(text) == [] then [Issue(path, Custom(message))] else []
  }

  /** The codes of the issues on field `f`, in the order they were raised. */
  function CodesOn<F(==)>(issues: seq<Issue<F>>, f: F): seq<IssueCode> {
    if issues == [] then []
    else (if issues[0].path == f then [issues[0].code] else []) + CodesOn(issues[1..], f)
  }

  /** An issue raised last adds its code at the end of its own field's codes. */
  lemma {:induction false} CodesOnSnoc<F>(issues: seq<Issue<F>>, last: Issue<F>, f: F)
    ensures CodesOn(issues + [last], f) == CodesOn(issues, f) + (if last.path == f then [last.code] else [])
  {
    if issues != [] {
      assert (issues + [last])[1..] == issues[1..] + [last];
      CodesOnSnoc(issues[1..], last, f);
    }
  }

  lemma CodesOnSnocAll<F>(issues: seq<Issue<F>>, last: Issue<F>)
    ensures forall f ::
      CodesOn(issues + [last], f) == CodesOn(issues, f) + (if last.path == f then [last.code] else [])
  {
    forall f
      ensures CodesOn(issues + [last], f) == CodesOn(issues, f) + (if last.path == f then [last.code] else [])
    {
      CodesOnSnoc(issues, last, f);
    }
  }

  /** `error.flatten().fieldErrors`: a non-empty entry for exactly the fields
      some issue names (`FieldErrorsAreCodes` says what the entries hold). */
  function FieldErrors<F(==,!new)>(issues: seq<Issue<F>>): (m: map<F, seq<IssueCode>>)
    ensures forall f :: f in m <==> exists i :: i in issues && i.path == f
    ensures forall f :: f in m ==> |m[f]| > 0
  {
    if issues == [] then map[]
    else
      var last := issues[|issues| - 1];
      var m := FieldErrors(issues[..|issues| - 1]);
      assert forall i :: i in issues <==> i == last || i in issues[..|issues| - 1];
      m[last.path := (if last.path in m then m[last.path] else []) + [last.code]]
  }

  /** Each field's entry holds the codes of that field's issues, in the
      order they were raised. */
  lemma {:induction false} FieldErrorsAreCodes<F(!new)>(issues: seq<Issue<F>>)
    ensures forall f :: f in FieldErrors(issues) ==> FieldErrors(issues)[f] == CodesOn(issues, f)
  {
    if issues != [] {
      var last := issues[|issues| - 1];
      var init := issues[..|issues| - 1];
      assert issues == init + [last];
      FieldErrorsAreCodes(init);
      CodesOnSnocAll(init, last);
      CodesOnMissing(init);
    }
  }

  /** A field no issue names has no codes. */
  lemma CodesOnMissing<F>(issues: seq<Issue<F>>)
    ensures forall f :: (forall i :: i in issues ==> i.path != f) ==> CodesOn(issues, f) == []
  {
    forall f | forall i :: i in issues ==> i.path != f
      ensures CodesOn(issues, f) == []
    {
      CodesOnNone(issues, f);
    }
  }

  lemma {:induction false} CodesOnNone<F>(issues: seq<Issue<F>>, f: F)
    requires forall i :: i in issues ==> i.path != f
    ensures CodesOn(issues, f) == []
  {
    if issues != [] {
      assert issues[0] in issues;
      assert forall i :: i in issues[1..] ==> i in issues;
      CodesOnNone(issues[1..], f);
    }
  }
}
