/** The part of the zod schema library the validators rely on, written out:
    coercion of a value to a JavaScript number, the check lists of strings and
    numbers (run in declaration order, the first failing check giving the
    issue that the error handler reports), and string transforms (trim and
    toLowerCase) that act in the middle of a check list. */
module Zod {
  import opened Wrappers
  import opened Json
  import Text

  /** A validation issue: where (object keys and array indices, as strings)
      and the message, which is a catalog key for the custom messages. */
  datatype Issue = Issue(path: seq<string>, message: string)

  /** A JavaScript number after `Number(...)`: NaN or a finite value. */
  datatype Num = NaN | Fin(value: real)

  /** zod's default messages of the non-custom issues. */
  const NanMessage := "Expected number, received nan"
  const NotIntegerMessage := "Expected integer, received float"
  const InvalidEmailMessage := "Invalid email"

  /** The default message of an `invalid_type` issue: "Required" for an
      undefined value, else the expected and received type names. */
  function TypeMessage(expected: string, v: Option<Json>): (m: string)
    ensures v.None? <==> m == "Required"
  {
    if v.None? then "Required" else "Expected " + expected + ", received " + TypeName(v)
  }

  /** Number.isInteger on a finite number. */
  predicate IsInteger(x: real) {
    x == x.Floor as real
  }

  // ---------------------------------------------------------------------
  // Number(string)
  // ---------------------------------------------------------------------

  predicate AllDigits(s: string) {
    forall i :: 0 <= i < |s| ==> Text.IsDigit(s[i])
  }

  function Pow10(n: nat): (p: nat)
    ensures p >= 1
  {
    if n == 0 then 1 else 10 * Pow10(n - 1)
  }

  /** An unsigned decimal literal "d+", "d+.d*" or ".d+" and its value. */
  function UnsignedDecimal(s: string): (r: Option<real>)
    ensures r.Some? ==> r.value >= 0.0
  {
    if AllDigits(s) then
      if s == [] then None else Some(Text.DigitsValue(s) as real)
    else
      var dot := FirstIndexOf(s, '.');
      if dot == |s| then None
      else
        var whole, frac := s[..dot], s[dot + 1..];
        if AllDigits(whole) && AllDigits(frac) && (whole != [] || frac != []) then
          Some(Text.DigitsValue(whole) as real + Text.DigitsValue(frac) as real / Pow10(|frac|) as real)
        else None
  }

  /** The index of the first `c` in `s`, or |s|. */
  function FirstIndexOf(s: string, c: char): (i: nat)
    ensures i <= |s| && c !in s[..i]
    ensures i < |s| ==> s[i] == c
  {
    if s == [] then 0
    else if s[0] == c then 0
    else
      var j := FirstIndexOf(s[1..], c);
      assert s[..j + 1] == [s[0]] + s[1..][..j];
      j + 1
  }

  /** Number(s) for a string: white space around it is ignored, the empty
      string is 0, an optionally signed decimal literal is its value, and
      anything else is NaN. */
  function ParseNumber(s: string): (n: Num)
    ensures Text.Trim(s) == [] ==> n == Fin(0.0)
  {
    var t := Text.Trim(s);
    if t == [] then Fin(0.0)
    else
      var (neg, body) := if t[0] == '-' then (true, t[1..]) else if t[0] == '+' then (false, t[1..]) else (false, t);
      match UnsignedDecimal(body)
      case Some(x) => Fin(if neg then -x else x)
      case None => NaN
  }

  /** `Number(v)` as `z.coerce.number()` applies it; undefined is NaN.
      An array or object is NaN here (see the README). */
  function Coerce(v: Option<Json>): (n: Num)
    ensures v.Some? && v.value.JNum? ==> n == Fin(v.value.n)
    ensures v.None? ==> n == NaN
  {
    match v
    case None => NaN
    case Some(JNull) => Fin(0.0)
    case Some(JBool(b)) => Fin(if b then 1.0 else 0.0)
    case Some(JNum(x)) => Fin(x)
    case Some(JStr(s)) => ParseNumber(s)
    case Some(_) => NaN
  }

  /** The decimal rendering of a natural number parses back to it, so a
      numeric path segment or query value coerces to its own value. */
  lemma {:induction false} ParseNatString(k: nat)
    ensures ParseNumber(Text.NatToString(k)) == Fin(k as real)
  {
    var s := Text.NatToString(k);
    NoSpaceInDigits(s);
    Text.DigitsOfNat(k);
    assert s[0] != '-' && s[0] != '+';
  }

  lemma NoSpaceInDigits(s: string)
    requires |s| >= 1 && AllDigits(s)
    ensures Text.Trim(s) == s
  {
    assert !Text.IsWhiteSpace(s[0]);
    assert Text.TrimStart(s) == s;
    assert !Text.IsWhiteSpace(s[|s| - 1]);
  }

  // ---------------------------------------------------------------------
  // Check lists
  // ---------------------------------------------------------------------

  /** The checks of a z.number() chain, in declaration order. */
  datatype NumCheck =
    | IntCheck(message: string)            // .int()
    | MinCheck(bound: real, message: string)  // .min(b): value >= b
    | MaxCheck(bound: real, message: string)  // .max(b): value <= b
    | PositiveCheck(message: string)       // .positive(): value > 0

  predicate NumCheckPasses(c: NumCheck, x: real) {
    match c
    case IntCheck(_) => IsInteger(x)
    case MinCheck(b, _) => x >= b
    case MaxCheck(b, _) => x <= b
    case PositiveCheck(_) => x > 0.0
  }

  /** The message of the first failing check, if any. */
  function FirstNumFailure(checks: seq<NumCheck>, x: real): (r: Option<string>)
    ensures r.None? <==> forall i :: 0 <= i < |checks| ==> NumCheckPasses(checks[i], x)
    ensures r.Some? ==> exists i :: (0 <= i < |checks| && !NumCheckPasses(checks[i], x)
      && r.value == checks[i].message
      && forall j :: 0 <= j < i ==> NumCheckPasses(checks[j], x))
  {
    if checks == [] then None
    else if !NumCheckPasses(checks[0], x) then
      Some(checks[0].message)
    else
      var r := FirstNumFailure(checks[1..], x);
      if r.Some? then
        var i :| 0 <= i < |checks[1..]| && !NumCheckPasses(checks[1..][i], x) && r.value == checks[1..][i].message
          && forall j :: 0 <= j < i ==> NumCheckPasses(checks[1..][j], x);
        assert !NumCheckPasses(checks[i + 1], x);
        r
      else r
  }

  /** The steps of a z.string() chain, in declaration order: checks that may
      raise an issue and transforms that rewrite the value seen by the steps
      after them. */
  datatype StrStep =
    | MinLen(n: nat, message: string)
    | MaxLen(n: nat, message: string)
    | Matches(p: string -> bool, message: string)
    | TrimStep
    | LowerStep

  /** One string step: the issue it raises, if any, and the value it hands on. */
  function Step(step: StrStep, s: string): (Option<string>, string) {
    match step
    case MinLen(n, m) => (if Text.JsLength(s) < n then Some(m) else None, s)
    case MaxLen(n, m) => (if Text.JsLength(s) > n then Some(m) else None, s)
    case Matches(p, m) => (if p(s) then None else Some(m), s)
    case TrimStep => (None, Text.Trim(s))
    case LowerStep => (None, Text.ToLower(s))
  }

  /** The steps in order: the first issue raised (every step still runs,
      only the first message is reported) and the final transformed value. */
  function RunStrSteps(steps: seq<StrStep>, s: string): (r: (Option<string>, string))
  {
    if steps == [] then (None, s)
    else
      var head := Step(steps[0], s);
      var tail := RunStrSteps(steps[1..], head.1);
      (if head.0.Some? then head.0 else tail.0, tail.1)
  }

  // ---------------------------------------------------------------------
  // Field decoders
  // ---------------------------------------------------------------------

  /** z.string(...) followed by `steps`, at `path`. `custom` is the message
      given to z.string itself, which replaces both "Required" and the
      wrong-type message. */
  function StringField(v: Option<Json>, path: seq<string>, custom: Option<string>, steps: seq<StrStep>): (r: Result<string, Issue>)
    ensures r.Err? ==> r.error.path == path
    ensures r.Ok? <==> v.Some? && v.value.JStr? && RunStrSteps(steps, v.value.s).0.None?
    ensures r.Ok? ==> r.value == RunStrSteps(steps, v.value.s).1
    ensures r.Err? && v.Some? && v.value.JStr? ==> Some(r.error.message) == RunStrSteps(steps, v.value.s).0
    ensures (v.None? || !v.value.JStr?) ==> r == Err(Issue(path, custom.GetOr(TypeMessage("string", v))))
  {
    match v
    case Some(JStr(s)) =>
      var run := RunStrSteps(steps, s);
      if run.0.Some? then Err(Issue(path, run.0.value)) else Ok(run.1)
    case _ => Err(Issue(path, custom.GetOr(TypeMessage("string", v))))
  }

  /** z.coerce.number() followed by `checks`. */
  function CoercedNumberField(v: Option<Json>, path: seq<string>, checks: seq<NumCheck>): (r: Result<real, Issue>)
    ensures r.Ok? <==> Coerce(v).Fin? && forall i :: 0 <= i < |checks| ==> NumCheckPasses(checks[i], Coerce(v).value)
    ensures r.Ok? ==> r.value == Coerce(v).value
    ensures Coerce(v).NaN? ==> r == Err(Issue(path, NanMessage))
    ensures r.Err? ==> r.error.path == path
  {
    match Coerce(v)
    case NaN => Err(Issue(path, NanMessage))
    case Fin(x) =>
      match FirstNumFailure(checks, x)
      case Some(m) => Err(Issue(path, m))
      case None => Ok(x)
  }

  /** z.number(custom) followed by `checks`: no coercion, so only a JSON
      number gets through. */
  function StrictNumberField(v: Option<Json>, path: seq<string>, custom: Option<string>, checks: seq<NumCheck>): (r: Result<real, Issue>)
    ensures r.Ok? <==> v.Some? && v.value.JNum? && forall i :: 0 <= i < |checks| ==> NumCheckPasses(checks[i], v.value.n)
    ensures r.Ok? ==> r.value == v.value.n
    ensures r.Err? ==> r.error.path == path
  {
    match v
    case Some(JNum(x)) =>
      (match FirstNumFailure(checks, x)
       case Some(m) => Err(Issue(path, m))
       case None => Ok(x))
    case _ => Err(Issue(path, custom.GetOr(TypeMessage("number", v))))
  }

  /** The issue z.object raises when the input is not an object. */
  function NotAnObject(v: Json, path: seq<string>): Issue {
    Issue(path, "Expected object, received " + TypeName(Some(v)))
  }

  // ---------------------------------------------------------------------
  // .optional(), .nullable(), .default()
  // ---------------------------------------------------------------------

  /** z.string()...`steps`.optional().nullable(): undefined stays undefined,
      null stays null, anything else goes through the string schema. */
  function OptionalNullableString(v: Option<Json>, path: seq<string>, steps: seq<StrStep>): (r: Result<Maybe<string>, Issue>)
    ensures v.None? ==> r == Ok(Undefined)
    ensures v == Some(JNull) ==> r == Ok(Nil)
    ensures r.Ok? && r.value.Given? ==> v.Some? && v.value.JStr? && r.value.value == RunStrSteps(steps, v.value.s).1
    ensures r.Err? ==> r.error.path == path
  {
    match v
    case None => Ok(Undefined)
    case Some(JNull) => Ok(Nil)
    case Some(_) =>
      var s :- StringField(v, path, None, steps);
      Ok(Given(s))
  }

  /** z.string()...`steps`.optional(). */
  function OptionalString(v: Option<Json>, path: seq<string>, custom: Option<string>, steps: seq<StrStep>): (r: Result<Option<string>, Issue>)
    ensures v.None? ==> r == Ok(None)
    ensures r.Ok? && r.value.Some? ==> v.Some? && v.value.JStr? && r.value.value == RunStrSteps(steps, v.value.s).1
    ensures v.Some? ==> r == (match StringField(v, path, custom, steps)
                              case Ok(s) => Ok(Some(s))
                              case Err(e) => Err(e))
  {
    match v
    case None => Ok(None)
    case Some(_) =>
      var s :- StringField(v, path, custom, steps);
      Ok(Some(s))
  }

  /** z.number(custom)...`checks`.optional(). */
  function OptionalStrictNumber(v: Option<Json>, path: seq<string>, custom: Option<string>, checks: seq<NumCheck>): (r: Result<Option<real>, Issue>)
    ensures v.None? ==> r == Ok(None)
    ensures r.Ok? && r.value.Some? ==>
      (v.Some? && v.value.JNum? && r.value.value == v.value.n
       && forall i :: 0 <= i < |checks| ==> NumCheckPasses(checks[i], r.value.value))
    ensures r.Err? ==> r.error.path == path
  {
    match v
    case None => Ok(None)
    case Some(_) =>
      var x :- StrictNumberField(v, path, custom, checks);
      Ok(Some(x))
  }

  /** z.coerce.number()...`checks`.optional(). */
  function OptionalCoercedNumber(v: Option<Json>, path: seq<string>, checks: seq<NumCheck>): (r: Result<Option<real>, Issue>)
    ensures v.None? ==> r == Ok(None)
    ensures r.Ok? && r.value.Some? ==>
      (v.Some? && Coerce(v) == Fin(r.value.value)
       && forall i :: 0 <= i < |checks| ==> NumCheckPasses(checks[i], r.value.value))
    ensures r.Err? ==> r.error.path == path
  {
    match v
    case None => Ok(None)
    case Some(_) =>
      var x :- CoercedNumberField(v, path, checks);
      Ok(Some(x))
  }

  /** z.coerce.number().int()...`checks`: the integer the value coerces to. */
  function CoercedInt(v: Option<Json>, path: seq<string>, checks: seq<NumCheck>): (r: Result<int, Issue>)
    ensures r.Ok? ==> Coerce(v) == Fin(r.value as real)
    ensures r.Ok? <==>
      (Coerce(v).Fin? && IsInteger(Coerce(v).value)
       && forall i :: 0 <= i < |checks| ==> NumCheckPasses(checks[i], Coerce(v).value))
    ensures r.Err? ==> r.error.path == path
  {
    var x :- CoercedNumberField(v, path, [IntCheck(NotIntegerMessage)] + checks);
    assert NumCheckPasses(([IntCheck(NotIntegerMessage)] + checks)[0], x);
    assert forall i :: 0 <= i < |checks| ==> checks[i] == ([IntCheck(NotIntegerMessage)] + checks)[i + 1];
    Ok(x.Floor)
  }

  /** z.coerce.number().int()...`checks`.default(d): undefined becomes `d`,
      anything else is coerced and checked. Zod runs the checks on the
      default too; the defaults of the listing query (1 for `page`, 10 for
      `limit`) pass every one of them, so the result is `d` itself. */
  function DefaultedInt(v: Option<Json>, path: seq<string>, checks: seq<NumCheck>, d: int): (r: Result<int, Issue>)
    ensures v.None? ==> r == Ok(d)
    ensures v.Some? ==> r == CoercedInt(v, path, checks)
  {
    match v
    case None => Ok(d)
    case Some(_) => CoercedInt(v, path, checks)
  }

  /** z.coerce.number().int().positive(message): a row id from the path. */
  function PositiveId(v: Option<Json>, path: seq<string>, message: string): (r: Result<int, Issue>)
    ensures r.Ok? <==> Coerce(v).Fin? && IsInteger(Coerce(v).value) && Coerce(v).value > 0.0
    ensures r.Ok? ==> r.value >= 1 && Coerce(v) == Fin(r.value as real)
    ensures r.Err? ==> r.error.path == path
  {
    var checks := [PositiveCheck(message)];
    var r := CoercedInt(v, path, checks);
    assert r.Ok? ==> NumCheckPasses(checks[0], Coerce(v).value);
    r
  }

  /** Every positive decimal path segment is accepted as its own value; a
      segment counts as its decimal value. */
  lemma PositiveIdOfDigits(k: nat, path: seq<string>, message: string)
    requires k >= 1
    ensures PositiveId(Some(JStr(Text.NatToString(k))), path, message) == Ok(k)
  {
    ParseNatString(k);
  }

  // ---------------------------------------------------------------------
  // The step lists the schemas use
  // ---------------------------------------------------------------------

  /** One step followed by the rest. */
  lemma RunCons(step: StrStep, rest: seq<StrStep>, s: string)
    ensures RunStrSteps([step] + rest, s)
      == (if Step(step, s).0.Some? then Step(step, s).0 else RunStrSteps(rest, Step(step, s).1).0,
          RunStrSteps(rest, Step(step, s).1).1)
  {
    assert ([step] + rest)[1..] == rest;
  }

  /** `.trim().max(n)`: the length limit applies to the trimmed value. */
  lemma TrimThenMax(s: string, n: nat, m: string)
    ensures RunStrSteps([TrimStep, MaxLen(n, m)], s)
      == (if Text.JsLength(Text.Trim(s)) > n then Some(m) else None, Text.Trim(s))
  {
    var t := Text.Trim(s);
    RunCons(MaxLen(n, m), [], t);
    assert [MaxLen(n, m)] + [] == [MaxLen(n, m)];
    RunCons(TrimStep, [MaxLen(n, m)], s);
    assert [TrimStep] + [MaxLen(n, m)] == [TrimStep, MaxLen(n, m)];
  }

  lemma TrimOnly(s: string)
    ensures RunStrSteps([TrimStep], s) == (None, Text.Trim(s))
  {
    RunCons(TrimStep, [], s);
    assert [TrimStep] + [] == [TrimStep];
  }

  lemma MaxThenTrim(s: string, hi: nat, mhi: string)
    ensures RunStrSteps([MaxLen(hi, mhi), TrimStep], s)
      == (if Text.JsLength(s) > hi then Some(mhi) else None, Text.Trim(s))
  {
    TrimOnly(s);
    assert Step(MaxLen(hi, mhi), s) == (if Text.JsLength(s) > hi then Some(mhi) else None, s);
    RunCons(MaxLen(hi, mhi), [TrimStep], s);
    assert [MaxLen(hi, mhi)] + [TrimStep] == [MaxLen(hi, mhi), TrimStep];
  }

  /** `.min(lo).max(hi).trim()`: the bounds apply to the untrimmed value and
      the result is trimmed afterwards. */
  lemma MinMaxThenTrim(s: string, lo: nat, mlo: string, hi: nat, mhi: string)
    ensures RunStrSteps([MinLen(lo, mlo), MaxLen(hi, mhi), TrimStep], s)
      == (if Text.JsLength(s) < lo then Some(mlo) else if Text.JsLength(s) > hi then Some(mhi) else None, Text.Trim(s))
  {
    MaxThenTrim(s, hi, mhi);
    RunCons(MinLen(lo, mlo), [MaxLen(hi, mhi), TrimStep], s);
    assert [MinLen(lo, mlo)] + [MaxLen(hi, mhi), TrimStep] == [MinLen(lo, mlo), MaxLen(hi, mhi), TrimStep];
  }

  // ---------------------------------------------------------------------
  // Trimmed text fields
  // ---------------------------------------------------------------------

  /** A text value is stored trimmed and at most `n` UTF-16 code units long. */
  predicate TrimmedWithin(v: Maybe<string>, n: nat) {
    v.Given? ==> Text.JsLength(v.value) <= n && v.value == Text.Trim(v.value)
  }

  /** An optional, nullable `.trim().max(n)` field. */
  function TrimmedText(v: Option<Json>, path: seq<string>, n: nat, message: string): (r: Result<Maybe<string>, Issue>)
    ensures r.Ok? ==> TrimmedWithin(r.value, n)
    ensures v.None? ==> r == Ok(Undefined)
    ensures v == Some(JNull) ==> r == Ok(Nil)
    ensures r.Ok? && r.value.Given? ==> v.Some? && v.value.JStr? && r.value.value == Text.Trim(v.value.s)
    ensures v.Some? && v.value.JStr? ==> (r.Ok? <==> Text.JsLength(Text.Trim(v.value.s)) <= n)
    ensures r.Err? ==> r.error.path == path
    ensures r.Err? && v.Some? && v.value.JStr? ==> r.error.message == message
  {
    if v.Some? && v.value.JStr? then
      var s := v.value.s;
      Text.TrimIdempotent(s);
      TrimThenMax(s, n, message);
      var field := StringField(v, path, None, [TrimStep, MaxLen(n, message)]);
      assert field.Ok? <==> Text.JsLength(Text.Trim(s)) <= n;
      assert field.Ok? ==> field.value == Text.Trim(s);
      OptionalNullableString(v, path, [TrimStep, MaxLen(n, message)])
    else
      OptionalNullableString(v, path, [TrimStep, MaxLen(n, message)])
  }

  /** A required `.trim().max(n)` string with a custom type message. */
  function TrimmedRequired(v: Option<Json>, path: seq<string>, n: nat, message: string): (r: Result<string, Issue>)
    ensures r.Ok? <==> v.Some? && v.value.JStr? && Text.JsLength(Text.Trim(v.value.s)) <= n
    ensures r.Ok? ==> r.value == Text.Trim(v.value.s) && Text.JsLength(r.value) <= n
    ensures r.Err? ==> r.error == Issue(path, message)
  {
    if v.Some? && v.value.JStr? then
      TrimThenMax(v.value.s, n, message);
      StringField(v, path, Some(message), [TrimStep, MaxLen(n, message)])
    else
      StringField(v, path, Some(message), [TrimStep, MaxLen(n, message)])
  }

  /** Checks that do not rewrite the value. */
  predicate IsCheck(step: StrStep) {
    !step.TrimStep? && !step.LowerStep?
  }

  /** The message of the first failing check among `checks`. */
  function FirstStrFailure(checks: seq<StrStep>, s: string): (r: Option<string>)
    requires forall i :: 0 <= i < |checks| ==> IsCheck(checks[i])
    ensures r.None? <==> forall i :: 0 <= i < |checks| ==> Step(checks[i], s).0.None?
  {
    if checks == [] then None
    else if Step(checks[0], s).0.Some? then Step(checks[0], s).0
    else
      assert forall i :: 1 <= i < |checks| ==> checks[i] == checks[1..][i - 1];
      FirstStrFailure(checks[1..], s)
  }

  /** Checks in front of the transforms all see the original value: the
      first of them to fail gives the issue, and the transforms alone give
      the output. */
  lemma {:induction false} ChecksThenRest(checks: seq<StrStep>, rest: seq<StrStep>, s: string)
    requires forall i :: 0 <= i < |checks| ==> IsCheck(checks[i])
    ensures RunStrSteps(checks + rest, s)
      == (if FirstStrFailure(checks, s).Some? then FirstStrFailure(checks, s) else RunStrSteps(rest, s).0,
          RunStrSteps(rest, s).1)
  {
    if checks != [] {
      assert forall i :: 0 <= i < |checks[1..]| ==> IsCheck(checks[1..][i]);
      ChecksThenRest(checks[1..], rest, s);
      assert checks + rest == [checks[0]] + (checks[1..] + rest);
      RunCons(checks[0], checks[1..] + rest, s);
    } else {
      assert checks + rest == rest;
    }
  }

  /** `.trim().toLowerCase()` raises nothing and lowercases the trimmed value. */
  lemma TrimThenLower(s: string)
    ensures RunStrSteps([TrimStep, LowerStep], s) == (None, Text.ToLower(Text.Trim(s)))
  {
    RunCons(LowerStep, [], Text.Trim(s));
    assert [LowerStep] + [] == [LowerStep];
    RunCons(TrimStep, [LowerStep], s);
    assert [TrimStep] + [LowerStep] == [TrimStep, LowerStep];
  }

  /** `.email(message).trim().toLowerCase()` */
  function EmailSteps(isEmail: string -> bool, message: string): seq<StrStep> {
    [Matches(isEmail, message)] + [TrimStep, LowerStep]
  }

  /** An e-mail field is checked against the pattern as sent, then trimmed
      and lowercased. */
  lemma EmailStepsResult(s: string, isEmail: string -> bool, message: string)
    ensures RunStrSteps(EmailSteps(isEmail, message), s)
      == (if isEmail(s) then None else Some(message), Text.ToLower(Text.Trim(s)))
  {
    var checks := [Matches(isEmail, message)];
    assert FirstStrFailure(checks[1..], s) == None;
    ChecksThenRest(checks, [TrimStep, LowerStep], s);
    TrimThenLower(s);
  }
}
