/** The part of class-validator the DTOs rely on: each property carries a list of
    decorators, an `@IsOptional()` property that is undefined or null is not checked at
    all, and otherwise every decorator whose test fails contributes one violation.
    Properties are checked in declared order; the order of one property's violations is
    not promised. */
module Validation {
  import opened Wrappers

  /** A property of an incoming request body after class-transformer has run. */
  datatype Value =
    | Undefined
    | Null
    | Str(s: string)
    | Num(n: real)
    | Bool(b: bool)
    /** A `Date` object; `valid` is false for an Invalid Date. */
    | Date(valid: bool)
    | Arr(items: seq<Value>)
    /** Any other object. */
    | Obj

  /** The decorators used by the DTOs. */
  datatype Rule =
    | IsString
    | IsNotEmpty
    | MinLength(min: nat)
    | MaxLength(max: nat)
    | IsNumber
    | Min(lower: real)
    | Max(upper: real)
    | IsEnum(members: seq<string>)
    | IsBoolean
    | IsArray
    /** `@IsString({ each: true })`: every element of an array, or the value itself. */
    | EachIsString
    | IsDate

  /** A decorator with the custom message it was given, if any. */
  datatype Check = Check(rule: Rule, message: Option<string>)

  /** A property, whether it is `@IsOptional()`, and its decorators. */
  datatype Field = Field(property: string, optional: bool, checks: seq<Check>)

  /** One failed decorator: the property, the decorator and its custom message. */
  datatype Violation = Violation(property: string, rule: Rule, message: Option<string>)

  /** The test each decorator applies to a value. */
  predicate Holds(rule: Rule, v: Value)
    ensures Holds(rule, v) ==> !Absent(v)
  {
    match rule
    case IsString => v.Str?
    case IsNotEmpty => v != Str("") && v != Null && v != Undefined
    case MinLength(min) => v.Str? && JsLength(v.s) >= min
    case MaxLength(max) => v.Str? && JsLength(v.s) <= max
    case IsNumber => v.Num?
    case Min(lower) => v.Num? && v.n >= lower
    case Max(upper) => v.Num? && v.n <= upper
    case IsEnum(members) => v.Str? && v.s in members
    case IsBoolean => v.Bool?
    case IsArray => v.Arr?
    case EachIsString => if v.Arr? then forall i :: 0 <= i < |v.items| ==> v.items[i].Str? else v.Str?
    case IsDate => v == Date(true)
  }

  /** The variation selectors U+FE0E and U+FE0F. */
  predicate IsVariationSelector(c: char) {
    c == '\U{FE0E}' || c == '\U{FE0F}'
  }

  /** The length validator.js `isLength` compares for `@MinLength` and `@MaxLength`: one per
      code point (a surrogate pair counts once, as a Dafny `char` does), leaving out the
      variation selectors. */
  function JsLength(s: string): (n: nat)
    ensures n <= |s|
  {
    if s == [] then 0
    else (if IsVariationSelector(s[0]) then 0 else 1) + JsLength(s[1..])
  }

  /** Without variation selectors the measured length is the number of characters. */
  lemma {:induction false} JsLengthPlain(s: string)
    requires forall k :: 0 <= k < |s| ==> !IsVariationSelector(s[k])
    ensures JsLength(s) == |s|
  {
    if s != [] {
      JsLengthPlain(s[1..]);
    }
  }

  /** The measured length of a concatenation is the sum of the parts' lengths. */
  lemma {:induction false} JsLengthConcat(s: string, t: string)
    ensures JsLength(s + t) == JsLength(s) + JsLength(t)
  {
    if s == [] {
      assert s + t == t;
    } else {
      assert (s + t)[1..] == s[1..] + t;
      JsLengthConcat(s[1..], t);
    }
  }

  /** Appending a variation selector does not lengthen a string: a lone U+FE0F is not empty
      for `@IsNotEmpty` but has length 0 for `@MinLength(1)`. */
  lemma VariationSelectorNotCounted(s: string)
    ensures JsLength(s + ['\U{FE0F}']) == JsLength(s)
    ensures Holds(IsNotEmpty, Str("\U{FE0F}")) && !Holds(MinLength(1), Str("\U{FE0F}"))
  {
    JsLengthConcat(s, ['\U{FE0F}']);
    assert "\U{FE0F}" == [] + ['\U{FE0F}'];
    JsLengthConcat([], ['\U{FE0F}']);
  }

  /** Undefined and null both count as "not supplied" for `@IsOptional()`. */
  predicate Absent(v: Value) {
    v == Undefined || v == Null
  }

  /** The violations of the decorators in `checks` that `v` fails, one per failed decorator. */
  function Failures(property: string, checks: seq<Check>, v: Value): (r: seq<Violation>)
    ensures |r| <= |checks|
  {
    if checks == [] then []
    else
      var rest := Failures(property, checks[1..], v);
      if Holds(checks[0].rule, v) then rest
      else [Violation(property, checks[0].rule, checks[0].message)] + rest
  }

  /** No violation exactly when every decorator holds. */
  lemma {:induction false} FailuresNone(property: string, checks: seq<Check>, v: Value)
    ensures Failures(property, checks, v) == [] <==> forall c :: c in checks ==> Holds(c.rule, v)
  {
    if checks != [] {
      FailuresNone(property, checks[1..], v);
      assert forall c :: c in checks <==> c == checks[0] || c in checks[1..];
    }
  }

  /** Each failed decorator is reported, with its own message. */
  lemma {:induction false} FailuresReport(property: string, checks: seq<Check>, v: Value, c: Check)
    requires c in checks && !Holds(c.rule, v)
    ensures Violation(property, c.rule, c.message) in Failures(property, checks, v)
  {
    if c != checks[0] {
      assert c in checks[1..];
      FailuresReport(property, checks[1..], v, c);
    }
  }

  /** Only failed decorators are reported. */
  lemma {:induction false} FailuresSound(property: string, checks: seq<Check>, v: Value, x: Violation)
    requires x in Failures(property, checks, v)
    ensures exists c :: c in checks && !Holds(c.rule, v) && x == Violation(property, c.rule, c.message)
  {
    var rest := Failures(property, checks[1..], v);
    if Holds(checks[0].rule, v) || x != Violation(property, checks[0].rule, checks[0].message) {
      assert x in rest;
      FailuresSound(property, checks[1..], v, x);
      var c :| c in checks[1..] && !Holds(c.rule, v) && x == Violation(property, c.rule, c.message);
      assert c in checks;
    }
  }

  /** The violations one property produces: none for an optional property that was not
      supplied, otherwise one per failed decorator. */
  function FieldViolations(f: Field, v: Value): (r: seq<Violation>)
    ensures |r| <= |f.checks|
  {
    if f.optional && Absent(v) then [] else Failures(f.property, f.checks, v)
  }

  /** A property is accepted when it is optional and not supplied, or when all its
      decorators hold. */
  lemma FieldAccepts(f: Field, v: Value)
    ensures FieldViolations(f, v) == [] <==>
      (f.optional && Absent(v)) || forall c :: c in f.checks ==> Holds(c.rule, v)
  {
    FailuresNone(f.property, f.checks, v);
  }

  /** A supplied (or required) property reports every decorator it fails, with that
      decorator's message, and nothing else. */
  lemma FieldReports(f: Field, v: Value, c: Check)
    requires !(f.optional && Absent(v)) && c in f.checks && !Holds(c.rule, v)
    ensures Violation(f.property, c.rule, c.message) in FieldViolations(f, v)
  {
    FailuresReport(f.property, f.checks, v, c);
  }

  lemma FieldReportsOnlyFailures(f: Field, v: Value, x: Violation)
    requires x in FieldViolations(f, v)
    ensures x.property == f.property && !(f.optional && Absent(v))
    ensures exists c :: c in f.checks && !Holds(c.rule, v) && x == Violation(f.property, c.rule, c.message)
  {
    FailuresSound(f.property, f.checks, v, x);
  }

  /** A decorator without a custom message. */
  function Plain(rule: Rule): Check {
    Check(rule, None)
  }

  /** A property with one decorator is accepted when skipped or when that decorator holds. */
  lemma OneCheck(f: Field, v: Value)
    requires |f.checks| == 1
    ensures FieldViolations(f, v) == [] <==> (f.optional && Absent(v)) || Holds(f.checks[0].rule, v)
  {
    FieldAccepts(f, v);
    assert forall c :: c in f.checks <==> c == f.checks[0];
  }

  /** A property with two decorators is accepted when skipped or when both hold. */
  lemma TwoChecks(f: Field, v: Value)
    requires |f.checks| == 2
    ensures FieldViolations(f, v) == [] <==>
      (f.optional && Absent(v)) || (Holds(f.checks[0].rule, v) && Holds(f.checks[1].rule, v))
  {
    FieldAccepts(f, v);
    assert forall c :: c in f.checks <==> c == f.checks[0] || c == f.checks[1];
  }

  /** A property with three decorators is accepted when skipped or when all three hold. */
  lemma ThreeChecks(f: Field, v: Value)
    requires |f.checks| == 3
    ensures FieldViolations(f, v) == [] <==>
      (f.optional && Absent(v)) ||
      (Holds(f.checks[0].rule, v) && Holds(f.checks[1].rule, v) && Holds(f.checks[2].rule, v))
  {
    FieldAccepts(f, v);
    assert forall c :: c in f.checks <==> c == f.checks[0] || c == f.checks[1] || c == f.checks[2];
  }

  /** A property with four decorators is accepted when skipped or when all four hold. */
  lemma FourChecks(f: Field, v: Value)
    requires |f.checks| == 4
    ensures FieldViolations(f, v) == [] <==>
      (f.optional && Absent(v)) ||
      (Holds(f.checks[0].rule, v) && Holds(f.checks[1].rule, v) &&
       Holds(f.checks[2].rule, v) && Holds(f.checks[3].rule, v))
  {
    FieldAccepts(f, v);
    assert forall c :: c in f.checks <==>
      c == f.checks[0] || c == f.checks[1] || c == f.checks[2] || c == f.checks[3];
  }
}
