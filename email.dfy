/** The Email value object (email.value-object.ts): the input is lower-cased, then trimmed,
    then checked against the pattern `^[^\s@]+@[^\s@]+\.[^\s@]+$`.
    Lower-casing covers the ASCII letters only; whitespace is the full set JavaScript's `\s`
    and `trim` use. */
module EmailValue {
  import opened Wrappers
  import opened DomainErrors

  datatype Email = Email(value: string)

  /** The characters of JavaScript's `\s` class, which `trim` also removes. */
  const Whitespace: set<char> := {
    '\t', '\n', '\U{0B}', '\U{0C}', '\r', ' ', '\U{A0}', '\U{1680}',
    '\U{2000}', '\U{2001}', '\U{2002}', '\U{2003}', '\U{2004}', '\U{2005}',
    '\U{2006}', '\U{2007}', '\U{2008}', '\U{2009}', '\U{200A}',
    '\U{2028}', '\U{2029}', '\U{202F}', '\U{205F}', '\U{3000}', '\U{FEFF}'
  }

  predicate IsWhitespace(c: char) {
    c in Whitespace
  }

  predicate AllWhitespace(s: string) {
    forall k :: 0 <= k < |s| ==> IsWhitespace(s[k])
  }

  function ToLower(c: char): char {
    if 'A' <= c <= 'Z' then (c as int + 32) as char else c
  }

  function LowerCase(s: string): (r: string)
    ensures |r| == |s|
    ensures forall k :: 0 <= k < |s| ==> r[k] == ToLower(s[k])
  {
    seq(|s|, k requires 0 <= k < |s| => ToLower(s[k]))
  }

  /** The first position at or after `i` that does not hold whitespace (`|s|` if none). */
  function SkipLeading(s: string, i: nat): (j: nat)
    requires i <= |s|
    ensures i <= j <= |s|
    ensures forall k :: i <= k < j ==> IsWhitespace(s[k])
    ensures j == |s| || !IsWhitespace(s[j])
    decreases |s| - i
  {
    if i < |s| && IsWhitespace(s[i]) then SkipLeading(s, i + 1) else i
  }

  /** The position just after the last character before `j` that is not whitespace
      (0 if none). */
  function SkipTrailing(s: string, j: nat): (i: nat)
    requires j <= |s|
    ensures i <= j
    ensures forall k :: i <= k < j ==> IsWhitespace(s[k])
    ensures i == 0 || !IsWhitespace(s[i - 1])
  {
    if j > 0 && IsWhitespace(s[j - 1]) then SkipTrailing(s, j - 1) else j
  }

  /** JavaScript's `trim`: the piece between the leading and the trailing run of
      whitespace, or the empty string when there is nothing else. */
  function Trim(s: string): string {
    var a := SkipLeading(s, 0);
    if a == |s| then [] else s[a..SkipTrailing(s, |s|)]
  }

  /** Lower-case, then trim. */
  function Normalize(s: string): (r: string)
    ensures |r| <= |s|
  {
    Trim(LowerCase(s))
  }

  /** A character of the class `[^\s@]`. */
  predicate Plain(c: char) {
    c != '@' && !IsWhitespace(c)
  }

  /** One run of `[^\s@]+`. */
  predicate IsAtom(t: string) {
    |t| > 0 && forall k :: 0 <= k < |t| ==> Plain(t[k])
  }

  /** The pattern, read as the regular expression's structure: atom, '@', atom, '.', atom. */
  ghost predicate MatchesPattern(s: string) {
    exists i, k :: 0 < i < k < |s| - 1 && s[i] == '@' && s[k] == '.' &&
      IsAtom(s[..i]) && IsAtom(s[i + 1..k]) && IsAtom(s[k + 1..])
  }

  predicate PlainBetween(s: string, lo: int, hi: int)
    requires 0 <= lo <= hi <= |s|
  {
    forall m :: lo <= m < hi ==> Plain(s[m])
  }

  /** The check as a scan: an '@' at some position i > 0, no '@' or whitespace anywhere
      else, and a '.' strictly inside the part after the '@'. */
  predicate IsValid(s: string)
    ensures IsValid(s) ==> '@' in s && 5 <= |s|
  {
    exists i | 0 < i < |s| ::
      s[i] == '@' && PlainBetween(s, 0, i) && PlainBetween(s, i + 1, |s|) &&
      exists k | i + 1 < k < |s| - 1 :: s[k] == '.'
  }

  lemma AtomSlice(s: string, lo: int, hi: int)
    requires 0 <= lo <= hi <= |s|
    ensures IsAtom(s[lo..hi]) <==> lo < hi && PlainBetween(s, lo, hi)
  {
    assert forall m :: lo <= m < hi ==> s[lo..hi][m - lo] == s[m];
  }

  lemma PlainBetweenJoin(s: string, lo: int, mid: int, hi: int)
    requires 0 <= lo <= mid < hi <= |s|
    requires PlainBetween(s, lo, mid) && Plain(s[mid]) && PlainBetween(s, mid + 1, hi)
    ensures PlainBetween(s, lo, hi)
  {
  }

  lemma ValidMatchesPattern(s: string)
    requires IsValid(s)
    ensures MatchesPattern(s)
  {
    var i :| 0 < i < |s| && s[i] == '@' && PlainBetween(s, 0, i) && PlainBetween(s, i + 1, |s|) &&
             exists k | i + 1 < k < |s| - 1 :: s[k] == '.';
    var k :| i + 1 < k < |s| - 1 && s[k] == '.';
    AtomSlice(s, 0, i);
    AtomSlice(s, i + 1, k);
    AtomSlice(s, k + 1, |s|);
    assert s[..i] == s[0..i] && s[k + 1..] == s[k + 1..|s|];
  }

  lemma MatchesPatternValid(s: string)
    requires MatchesPattern(s)
    ensures IsValid(s)
  {
    var i, k :| 0 < i < k < |s| - 1 && s[i] == '@' && s[k] == '.' &&
                IsAtom(s[..i]) && IsAtom(s[i + 1..k]) && IsAtom(s[k + 1..]);
    assert s[..i] == s[0..i] && s[k + 1..] == s[k + 1..|s|];
    AtomSlice(s, 0, i);
    AtomSlice(s, i + 1, k);
    AtomSlice(s, k + 1, |s|);
    assert Plain('.');
    PlainBetweenJoin(s, i + 1, k, |s|);
  }

  /** The scan accepts exactly the strings the regular expression matches. */
  lemma IsValidIffMatchesPattern(s: string)
    ensures IsValid(s) <==> MatchesPattern(s)
  {
    if IsValid(s) { ValidMatchesPattern(s); }
    if MatchesPattern(s) { MatchesPatternValid(s); }
  }

  /** `Email.create`: the normalised input, or the validation failure. */
  function Create(email: string): (r: Result<Email, DomainError>)
    ensures r.Ok? ==> IsValid(r.value.value) && r.value.value == Normalize(email)
    ensures r.Err? ==> r.error == ValidationFailure("Invalid email format")
  {
    var normalized := Normalize(email);
    if IsValid(normalized) then Ok(Email(normalized)) else Err(ValidationFailure("Invalid email format"))
  }

  /** Creation succeeds exactly when the lower-cased, trimmed input matches the pattern, and
      then holds that normalised string; otherwise it fails with "Invalid email format". */
  lemma CreateMatchesPattern(email: string)
    ensures Create(email).Ok? <==> MatchesPattern(Normalize(email))
    ensures Create(email).Ok? ==> Create(email).value.value == Normalize(email)
    ensures Create(email).Err? ==> Create(email).error == ValidationFailure("Invalid email format")
  {
    IsValidIffMatchesPattern(Normalize(email));
  }

  // ----- normalisation -----

  lemma SkipLeadingUnique(s: string, i: nat, j: nat)
    requires i <= j <= |s|
    requires forall k :: i <= k < j ==> IsWhitespace(s[k])
    requires j == |s| || !IsWhitespace(s[j])
    ensures SkipLeading(s, i) == j
  {
  }

  lemma SkipTrailingUnique(s: string, j: nat, i: nat)
    requires i <= j <= |s|
    requires forall k :: i <= k < j ==> IsWhitespace(s[k])
    requires i == 0 || !IsWhitespace(s[i - 1])
    ensures SkipTrailing(s, j) == i
  {
  }

  /** What trimming leaves has no whitespace at either end, and everything trimming
      removed is whitespace. */
  lemma TrimEnds(s: string) returns (a: nat)
    ensures a + |Trim(s)| <= |s|
    ensures forall k :: 0 <= k < |Trim(s)| ==> Trim(s)[k] == s[a + k]
    ensures forall k :: 0 <= k < a ==> IsWhitespace(s[k])
    ensures forall k :: a + |Trim(s)| <= k < |s| ==> IsWhitespace(s[k])
    ensures var t := Trim(s); t == [] || (!IsWhitespace(t[0]) && !IsWhitespace(t[|t| - 1]))
  {
    a := SkipLeading(s, 0);
    if a == |s| {
      a := 0;
    }
  }

  lemma TrimAll(s: string)
    requires AllWhitespace(s)
    ensures Trim(s) == []
  {
    SkipLeadingUnique(s, 0, |s|);
  }

  /** A string with no whitespace at either end is its own trim. */
  lemma TrimFixed(s: string)
    requires s == [] || (!IsWhitespace(s[0]) && !IsWhitespace(s[|s| - 1]))
    ensures Trim(s) == s
  {
    if s != [] {
      assert s[0..|s|] == s;
    }
  }

  lemma AllWhitespaceConcat(u: string, v: string)
    requires AllWhitespace(u) && AllWhitespace(v)
    ensures AllWhitespace(u + v)
  {
    assert forall k :: |u| <= k < |u + v| ==> (u + v)[k] == v[k - |u|];
  }

  lemma PaddedAllWhitespace(w1: string, s: string, w2: string)
    requires AllWhitespace(w1) && AllWhitespace(w2) && SkipLeading(s, 0) == |s|
    ensures Trim(w1 + s + w2) == [] == Trim(s)
  {
    AllWhitespaceConcat(w1, s);
    AllWhitespaceConcat(w1 + s, w2);
    TrimAll(w1 + s + w2);
  }

  lemma PaddedSkipLeading(w1: string, s: string, w2: string)
    requires AllWhitespace(w1) && SkipLeading(s, 0) < |s|
    ensures SkipLeading(w1 + s + w2, 0) == |w1| + SkipLeading(s, 0)
  {
    var x := w1 + s + w2;
    assert forall k :: 0 <= k < |s| ==> x[|w1| + k] == s[k];
    SkipLeadingUnique(x, 0, |w1| + SkipLeading(s, 0));
  }

  lemma PaddedSkipTrailing(w1: string, s: string, w2: string)
    requires AllWhitespace(w2) && SkipLeading(s, 0) < |s|
    ensures SkipTrailing(w1 + s + w2, |w1 + s + w2|) == |w1| + SkipTrailing(s, |s|)
  {
    var x := w1 + s + w2;
    var b := SkipTrailing(s, |s|);
    assert forall k :: 0 <= k < |s| ==> x[|w1| + k] == s[k];
    assert x[|w1| + b - 1] == s[b - 1];
    SkipTrailingUnique(x, |x|, |w1| + b);
  }

  lemma SliceOfPadded(w1: string, s: string, w2: string, i: int, j: int)
    requires 0 <= i <= j <= |s|
    ensures (w1 + s + w2)[|w1| + i..|w1| + j] == s[i..j]
  {
    var x := w1 + s + w2;
    assert forall k :: 0 <= k < j - i ==> x[|w1| + i..|w1| + j][k] == s[i..j][k];
  }

  /** Whitespace around the input makes no difference to its trim. */
  lemma TrimPadded(w1: string, s: string, w2: string)
    requires AllWhitespace(w1) && AllWhitespace(w2)
    ensures Trim(w1 + s + w2) == Trim(s)
  {
    if SkipLeading(s, 0) == |s| {
      PaddedAllWhitespace(w1, s, w2);
    } else {
      PaddedSkipLeading(w1, s, w2);
      PaddedSkipTrailing(w1, s, w2);
      SliceOfPadded(w1, s, w2, SkipLeading(s, 0), SkipTrailing(s, |s|));
    }
  }

  predicate NoUpper(s: string) {
    forall k :: 0 <= k < |s| ==> !('A' <= s[k] <= 'Z')
  }

  lemma LowerCaseFixed(s: string)
    requires NoUpper(s)
    ensures LowerCase(s) == s
  {
  }

  /** A string with no upper-case letter and no whitespace at either end is already
      normalised. */
  lemma NormalizeFixed(s: string)
    requires NoUpper(s)
    requires s == [] || (!IsWhitespace(s[0]) && !IsWhitespace(s[|s| - 1]))
    ensures Normalize(s) == s
  {
    LowerCaseFixed(s);
    TrimFixed(s);
  }

  lemma LowerCaseHasNoUpper(s: string)
    ensures NoUpper(LowerCase(s))
  {
  }

  /** A normalised string has no upper-case letter and no whitespace at either end. */
  lemma NormalizedShape(s: string)
    ensures NoUpper(Normalize(s))
    ensures var t := Normalize(s); t == [] || (!IsWhitespace(t[0]) && !IsWhitespace(t[|t| - 1]))
  {
    LowerCaseHasNoUpper(s);
    var a := TrimEnds(LowerCase(s));
  }

  /** Normalising twice is normalising once. */
  lemma NormalizeIdempotent(s: string)
    ensures Normalize(Normalize(s)) == Normalize(s)
  {
    NormalizedShape(s);
    NormalizeFixed(Normalize(s));
  }

  /** Creating from an accepted value gives that value back. */
  lemma CreateIdempotent(email: string)
    requires Create(email).Ok?
    ensures Create(Create(email).value.value) == Create(email)
  {
    NormalizeIdempotent(email);
  }

  /** Inputs that differ only in letter case give the same outcome. */
  lemma CreateIgnoresCase(a: string, b: string)
    requires LowerCase(a) == LowerCase(b)
    ensures Create(a) == Create(b)
  {
  }

  /** Inputs that differ only in surrounding whitespace give the same outcome. */
  lemma CreateIgnoresPadding(w1: string, email: string, w2: string)
    requires AllWhitespace(w1) && AllWhitespace(w2)
    ensures Create(w1 + email + w2) == Create(email)
  {
    assert LowerCase(w1 + email + w2) == w1 + LowerCase(email) + w2;
    TrimPadded(w1, LowerCase(email), w2);
  }

  /** Exactly one '@', with a non-empty part before it, no whitespace, and a '.' after the
      '@' with at least one character on each side. */
  predicate HasAcceptedShape(v: string) {
    exists i :: 0 < i < |v| && v[i] == '@' &&
      (forall m :: 0 <= m < |v| && m != i ==> v[m] != '@') &&
      (forall m :: 0 <= m < |v| ==> !IsWhitespace(v[m])) &&
      exists k :: i + 1 < k < |v| - 1 && v[k] == '.'
  }

  lemma ValidHasAcceptedShape(v: string)
    requires IsValid(v)
    ensures HasAcceptedShape(v)
  {
    var i :| 0 < i < |v| && v[i] == '@' && PlainBetween(v, 0, i) && PlainBetween(v, i + 1, |v|) &&
             exists k | i + 1 < k < |v| - 1 :: v[k] == '.';
    assert forall m :: 0 <= m < |v| && m != i ==> Plain(v[m]);
  }

  /** Every accepted value has the accepted shape. */
  lemma AcceptedShape(email: string)
    requires Create(email).Ok?
    ensures HasAcceptedShape(Create(email).value.value)
  {
    ValidHasAcceptedShape(Normalize(email));
  }

  /** A string without an '@' fails the check. */
  lemma NoAtInvalid(v: string)
    requires forall m :: 0 <= m < |v| ==> v[m] != '@'
    ensures !IsValid(v)
  {
  }

  /** A string starting or ending with '@' fails the check. */
  lemma EdgeAtInvalid(v: string)
    requires |v| > 0 && (v[0] == '@' || v[|v| - 1] == '@')
    ensures !IsValid(v)
  {
  }

  /** A string with whitespace anywhere fails the check. */
  lemma WhitespaceInvalid(v: string, m: int)
    requires 0 <= m < |v| && IsWhitespace(v[m])
    ensures !IsValid(v)
  {
  }

  /** Without an '@' after normalisation, the input is rejected. */
  lemma RejectsWithoutAt(email: string)
    requires forall m :: 0 <= m < |Normalize(email)| ==> Normalize(email)[m] != '@'
    ensures Create(email) == Err(ValidationFailure("Invalid email format"))
  {
    NoAtInvalid(Normalize(email));
  }

  /** With nothing before the '@' or nothing after it, the input is rejected. */
  lemma RejectsEmptyPart(email: string)
    requires var v := Normalize(email); |v| > 0 && (v[0] == '@' || v[|v| - 1] == '@')
    ensures Create(email) == Err(ValidationFailure("Invalid email format"))
  {
    EdgeAtInvalid(Normalize(email));
  }

  /** Whitespace left inside the value after trimming makes the input rejected. */
  lemma RejectsInnerWhitespace(email: string, m: int)
    requires 0 <= m < |Normalize(email)| && IsWhitespace(Normalize(email)[m])
    ensures Create(email) == Err(ValidationFailure("Invalid email format"))
  {
    WhitespaceInvalid(Normalize(email), m);
  }

  lemma RejectsEmpty()
    ensures Create("").Err?
  {
    NormalizeFixed("");
  }

  lemma MissingDomainNormalized()
    ensures Normalize("test@") == "test@"
  {
    NormalizeFixed("test@");
  }

  lemma RejectsMissingDomain()
    ensures Create("test@").Err?
  {
    MissingDomainNormalized();
    EdgeAtInvalid("test@");
  }

  lemma RejectsBareAt()
    ensures Create("@").Err?
  {
    NormalizeFixed("@");
    EdgeAtInvalid("@");
  }

  lemma MissingLocalPartNormalized()
    ensures Normalize("@example.com") == "@example.com"
  {
    NormalizeFixed("@example.com");
  }

  lemma RejectsMissingLocalPart()
    ensures Create("@example.com").Err?
  {
    MissingLocalPartNormalized();
    EdgeAtInvalid("@example.com");
  }

  lemma DottedExampleNormalized()
    ensures Normalize("invalid.email.com") == "invalid.email.com"
  {
    NormalizeFixed("invalid.email.com");
  }

  lemma DottedExampleHasNoAt()
    ensures forall m :: 0 <= m < |"invalid.email.com"| ==> "invalid.email.com"[m] != '@'
  {
  }

  lemma RejectsDottedWithoutAt()
    ensures Create("invalid.email.com").Err?
  {
    DottedExampleNormalized();
    DottedExampleHasNoAt();
    NoAtInvalid("invalid.email.com");
  }

  lemma SpaceExampleNormalized()
    ensures Normalize("test @example.com") == "test @example.com"
  {
    NormalizeFixed("test @example.com");
  }

  lemma RejectsSpaceBeforeAt()
    ensures Create("test @example.com").Err?
  {
    SpaceExampleNormalized();
    WhitespaceInvalid("test @example.com", 4);
  }

  lemma LowerCaseExample()
    ensures LowerCase("TEST@EXAMPLE.COM") == "test@example.com"
  {
  }

  lemma ValidExample()
    ensures IsValid("test@example.com")
  {
    var v := "test@example.com";
    assert v[4] == '@' && v[12] == '.';
    assert PlainBetween(v, 0, 4) && PlainBetween(v, 5, |v|);
  }

  /** Upper case is normalised away. */
  lemma UpperCaseExampleNormalized()
    ensures Normalize("TEST@EXAMPLE.COM") == "test@example.com"
  {
    LowerCaseExample();
    TrimFixed("test@example.com");
  }

  lemma AcceptsUpperCase()
    ensures Create("TEST@EXAMPLE.COM") == Ok(Email("test@example.com"))
  {
    UpperCaseExampleNormalized();
    ValidExample();
  }

  lemma PaddedExampleSplits()
    ensures "  TEST@EXAMPLE.COM  " == "  " + "TEST@EXAMPLE.COM" + "  "
    ensures AllWhitespace("  ")
  {
  }

  /** Upper case and surrounding spaces are normalised away. */
  lemma AcceptsPaddedUpperCase()
    ensures Create("  TEST@EXAMPLE.COM  ") == Ok(Email("test@example.com"))
  {
    PaddedExampleSplits();
    AcceptsUpperCase();
    CreateIgnoresPadding("  ", "TEST@EXAMPLE.COM", "  ");
  }
}
