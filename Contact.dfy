/**
 * The contact form: its three text fields, the synchronous validator that
 * turns them into a per-field error map, and the state machine driven by
 * the form's submit and change handlers.
 */
module Contact {

  // ---------------------------------------------------------------------
  // Whitespace and trimming
  // ---------------------------------------------------------------------

  /** The characters matched by `\s` and removed by `trim`: ECMAScript's
      WhiteSpace and LineTerminator code points. */
  predicate IsSpace(c: char) {
    || c == '\t' || c == '\n' || c == '\U{000B}' || c == '\U{000C}' || c == '\r'
    || c == ' ' || c == '\U{00A0}' || c == '\U{1680}'
    || ('\U{2000}' <= c <= '\U{200A}')
    || c == '\U{2028}' || c == '\U{2029}' || c == '\U{202F}' || c == '\U{205F}'
    || c == '\U{3000}' || c == '\U{FEFF}'
  }

  /** Every character of `s` is whitespace (so `s.trim()` is falsy). */
  predicate IsBlank(s: string) {
    forall i | 0 <= i < |s| :: IsSpace(s[i])
  }

  /** Drops leading whitespace. */
  function TrimStart(s: string): (r: string)
    ensures |r| <= |s| && r == s[|s| - |r|..]
    ensures IsBlank(s[..|s| - |r|])
    ensures r != [] ==> !IsSpace(r[0])
  {
    if |s| > 0 && IsSpace(s[0]) then
      var r := TrimStart(s[1..]);
      assert s[1..][..|s| - 1 - |r|] == s[1..|s| - |r|];
      assert s[1..][|s| - 1 - |r|..] == s[|s| - |r|..];
      r
    else s
  }

  /** Drops trailing whitespace. */
  function TrimEnd(s: string): (r: string)
    ensures |r| <= |s| && r == s[..|r|]
    ensures IsBlank(s[|r|..])
    ensures r != [] ==> !IsSpace(r[|r| - 1])
  {
    if |s| > 0 && IsSpace(s[|s| - 1]) then
      var r := TrimEnd(s[..|s| - 1]);
      assert s[..|s| - 1][|r|..] == s[|r|..|s| - 1];
      assert s[..|s| - 1][..|r|] == s[..|r|];
      r
    else s
  }

  /** `String.prototype.trim`: whitespace removed from both ends; what is
      left neither starts nor ends with whitespace. */
  function Trim(s: string): (r: string)
    ensures |r| <= |s|
    ensures r != [] ==> !IsSpace(r[0]) && !IsSpace(r[|r| - 1])
  {
    var t := TrimStart(s);
    assert t != [] ==> TrimEnd(t) == [] || TrimEnd(t)[0] == t[0];
    TrimEnd(t)
  }

  /** `!s.trim()` holds exactly when `s` is blank. */
  lemma TrimEmptyIffBlank(s: string)
    ensures Trim(s) == "" <==> IsBlank(s)
  {
    var t := TrimStart(s);
    var a := |s| - |t|;
    if t != [] {
      assert t[0] == s[a];
      assert !IsBlank(TrimEnd(t)[0..]) by { assert TrimEnd(t)[..0] == []; }
    } else {
      assert IsBlank(s[..a]) && s[..a] == s;
    }
  }

  /** Trimming only cuts whitespace off the two ends: the result is a slice
      of `s` with nothing but whitespace before and after it. */
  lemma TrimIsSlice(s: string) returns (a: nat)
    ensures a + |Trim(s)| <= |s| && Trim(s) == s[a..a + |Trim(s)|]
    ensures IsBlank(s[..a]) && IsBlank(s[a + |Trim(s)|..])
  {
    var t := TrimStart(s);
    var r := TrimEnd(t);
    assert Trim(s) == r;
    a := |s| - |t|;
    assert t == s[a..];
    assert r == t[..|r|];
    SliceOfSuffix(s, a, |r|);
    assert IsBlank(t[|r|..]);
  }

  /** A prefix and a suffix of `s[a..]` are slices of `s`. */
  lemma SliceOfSuffix(s: string, a: nat, n: nat)
    requires a + n <= |s|
    ensures s[a..][..n] == s[a..a + n]
    ensures s[a..][n..] == s[a + n..]
  {
  }

  // ---------------------------------------------------------------------
  // The email pattern ^[^\s@]+@[^\s@]+\.[^\s@]+$
  // ---------------------------------------------------------------------

  /** A character of the class `[^\s@]`. */
  predicate IsSegmentChar(c: char) {
    !IsSpace(c) && c != '@'
  }

  /** Every character of `s` belongs to `[^\s@]`. */
  predicate AllSegmentChars(s: string) {
    forall i | 0 <= i < |s| :: IsSegmentChar(s[i])
  }

  /** `[^\s@]+`: a non-empty run of segment characters. */
  predicate IsSegment(s: string) {
    |s| > 0 && AllSegmentChars(s)
  }

  /** The pattern matches `s` with the `@` at `i` and the `\.` at `j`. */
  ghost predicate PatternSplit(s: string, i: int, j: int) {
    && 0 <= i < j < |s|
    && s[i] == '@' && s[j] == '.'
    && IsSegment(s[..i]) && IsSegment(s[i + 1..j]) && IsSegment(s[j + 1..])
  }

  /** The meaning of the regular expression: some choice of the `@` and the
      `.` splits `s` into three non-empty `[^\s@]` runs. */
  ghost predicate MatchesEmailPattern(s: string) {
    exists i, j :: PatternSplit(s, i, j)
  }

  /** The index of the first `c` in `s`, or `|s|` when there is none. */
  function IndexOf(s: string, c: char): (k: nat)
    ensures k <= |s|
    ensures k < |s| ==> s[k] == c
    ensures forall i | 0 <= i < k :: s[i] != c
  {
    if s == [] then 0 else if s[0] == c then 0 else 1 + IndexOf(s[1..], c)
  }

  /** A hand-coded test of the email pattern: split at the first `@`; the
      part before it is a segment, and the part after it is made of segment
      characters with a `.` that is neither its first nor its last. */
  function IsValidEmail(s: string): bool
  {
    var k := IndexOf(s, '@');
    && 0 < k < |s|
    && AllSegmentChars(s[..k])
    && var d := s[k + 1..];
       && AllSegmentChars(d)
       && |d| >= 3
       && '.' in d[1..|d| - 1]
  }

  /** The hand-coded test accepts exactly the strings the pattern matches. */
  lemma IsValidEmailMatchesPattern(s: string)
    ensures IsValidEmail(s) <==> MatchesEmailPattern(s)
  {
    if IsValidEmail(s) {
      ValidEmailHasSplit(s);
    }
    if MatchesEmailPattern(s) {
      var i, j :| PatternSplit(s, i, j);
      SplitIsValidEmail(s, i, j);
    }
  }

  /** An accepted string splits at its first `@` and at a `.` after it. */
  lemma ValidEmailHasSplit(s: string)
    requires IsValidEmail(s)
    ensures MatchesEmailPattern(s)
  {
    var k := IndexOf(s, '@');
    var d := s[k + 1..];
    var m :| 0 <= m < |d[1..|d| - 1]| && d[1..|d| - 1][m] == '.';
    var j := k + 2 + m;
    assert s[j] == '.';
    assert s[k + 1..j] == d[..m + 1];
    assert s[j + 1..] == d[m + 2..];
    assert PatternSplit(s, k, j);
  }

  /** A split of the pattern is found by the hand-coded test: its `@` is
      the first one, and the domain keeps the `.` off both of its ends. */
  lemma SplitIsValidEmail(s: string, i: int, j: int)
    requires PatternSplit(s, i, j)
    ensures IsValidEmail(s)
  {
    var k := IndexOf(s, '@');
    assert forall t | 0 <= t < i :: s[t] == s[..i][t];
    assert k == i;
    var d := s[k + 1..];
    forall t | 0 <= t < |d| ensures IsSegmentChar(d[t]) {
      if t < j - i - 1 {
        assert d[t] == s[i + 1..j][t];
      } else if t > j - i - 1 {
        assert d[t] == s[j + 1..][t - (j - i)];
      }
    }
    assert d[1..|d| - 1][j - i - 2] == '.';
  }

  /** The shape of every accepted address: no whitespace, exactly one `@`
      with a non-empty part before it, and after it a non-empty segment, a
      `.` and a non-empty tail free of `@`. */
  lemma AcceptedEmailShape(s: string) returns (at: nat, dot: nat)
    requires MatchesEmailPattern(s)
    ensures forall t | 0 <= t < |s| :: !IsSpace(s[t])
    ensures 0 < at < |s| && s[at] == '@'
    ensures forall t | 0 <= t < |s| && s[t] == '@' :: t == at
    ensures at + 1 < dot < |s| - 1 && s[dot] == '.'
    ensures forall t | dot < t < |s| :: s[t] != '@'
  {
    var i, j :| PatternSplit(s, i, j);
    at, dot := i, j;
    forall t | 0 <= t < |s| ensures !IsSpace(s[t]) && (t != i ==> s[t] != '@') {
      if t < i {
        assert s[t] == s[..i][t];
      } else if i < t < j {
        assert s[t] == s[i + 1..j][t - i - 1];
      } else if t > j {
        assert s[t] == s[j + 1..][t - j - 1];
      }
    }
  }

  // ---------------------------------------------------------------------
  // Form data and validation
  // ---------------------------------------------------------------------

  /** The `name` attributes of the form's three inputs. */
  datatype Field = Name | Email | Message

  /** The form's controlled values. */
  datatype FormData = FormData(name: string, email: string, message: string)
  {
    /** `formData[f]` */
    function Get(f: Field): string {
      match f
      case Name => name
      case Email => email
      case Message => message
    }

    /** `{ ...formData, [f]: v }` */
    function Set(f: Field, v: string): (d: FormData)
      ensures d.Get(f) == v
      ensures forall g | g != f :: d.Get(g) == Get(g)
    {
      match f
      case Name => this.(name := v)
      case Email => this.(email := v)
      case Message => this.(message := v)
    }
  }

  /** The form in its initial and its cleared state. */
  const EmptyForm := FormData("", "", "")

  const NameRequired := "Name is required"
  const EmailRequired := "Email is required"
  const EmailInvalid := "Please enter a valid email"
  const MessageRequired := "Message is required"

  /** `validateForm`: an error for each field that fails its check, with
      that check's fixed message; a blank email is reported as missing and
      never also as malformed. The empty map means the form may be sent. */
  function ValidateForm(d: FormData): (errors: map<Field, string>)
    ensures Name in errors <==> IsBlank(d.name)
    ensures Name in errors ==> errors[Name] == NameRequired
    ensures Email in errors <==> IsBlank(d.email) || !MatchesEmailPattern(d.email)
    ensures Email in errors && IsBlank(d.email) ==> errors[Email] == EmailRequired
    ensures Email in errors && !IsBlank(d.email) ==> errors[Email] == EmailInvalid
    ensures Message in errors <==> IsBlank(d.message)
    ensures Message in errors ==> errors[Message] == MessageRequired
  {
    TrimEmptyIffBlank(d.name);
    TrimEmptyIffBlank(d.email);
    TrimEmptyIffBlank(d.message);
    IsValidEmailMatchesPattern(d.email);
    CollectErrors(Trim(d.name) == "", Trim(d.email) == "", IsValidEmail(d.email), Trim(d.message) == "")
  }

  /** The successive conditional assignments of `validateForm`, given the
      outcome of each check; the email's format is looked at only when the
      email is present. */
  function CollectErrors(nameMissing: bool, emailMissing: bool, emailValid: bool, messageMissing: bool)
    : (errors: map<Field, string>)
    ensures Name in errors <==> nameMissing
    ensures Name in errors ==> errors[Name] == NameRequired
    ensures Email in errors <==> emailMissing || !emailValid
    ensures Email in errors && emailMissing ==> errors[Email] == EmailRequired
    ensures Email in errors && !emailMissing ==> errors[Email] == EmailInvalid
    ensures Message in errors <==> messageMissing
    ensures Message in errors ==> errors[Message] == MessageRequired
  {
    var e1: map<Field, string> := if nameMissing then map[Name := NameRequired] else map[];
    var e2 :=
      if emailMissing then e1[Email := EmailRequired]
      else if !emailValid then e1[Email := EmailInvalid]
      else e1;
    if messageMissing then e2[Message := MessageRequired] else e2
  }

  /** The form passes validation exactly when every field is filled in and
      the email matches the pattern. */
  lemma ValidateFormEmptyIff(d: FormData)
    ensures ValidateForm(d) == map[] <==>
      !IsBlank(d.name) && !IsBlank(d.email) && MatchesEmailPattern(d.email) && !IsBlank(d.message)
  {
    var e := ValidateForm(d);
    if !IsBlank(d.name) && !IsBlank(d.email) && MatchesEmailPattern(d.email) && !IsBlank(d.message) {
      forall f ensures f !in e { match f { case Name => case Email => case Message => } }
    }
  }

  /** Equality with a two-entry map display, from its entries. */
  lemma MapOfNameAndEmail(e: map<Field, string>, n: string, m: string)
    requires Name in e && e[Name] == n && Email in e && e[Email] == m && Message !in e
    ensures e == map[Name := n, Email := m]
  {
    assert e.Keys == {Name, Email} by {
      forall f ensures f in e <==> f == Name || f == Email {
        match f { case Name => case Email => case Message => }
      }
    }
  }

  /** An empty name and a malformed email give exactly those two errors. */
  lemma ValidateFormTwoErrors()
    ensures ValidateForm(FormData("", "bad", "hi")) == map[Name := NameRequired, Email := EmailInvalid]
  {
    assert !IsBlank("bad") by { assert !IsSpace("bad"[0]); }
    assert !IsBlank("hi") by { assert !IsSpace("hi"[0]); }
    assert !MatchesEmailPattern("bad") by { IsValidEmailMatchesPattern("bad"); }
    MapOfNameAndEmail(ValidateForm(FormData("", "bad", "hi")), NameRequired, EmailInvalid);
  }

  /** A filled-in form with a well-formed address passes. */
  lemma ValidateFormAccepts()
    ensures ValidateForm(FormData("Al", "a@b.com", "hello")) == map[]
  {
    var s := "a@b.com";
    assert PatternSplit(s, 1, 3) by {
      assert s[..1] == "a" && s[2..3] == "b" && s[4..] == "com";
    }
    assert !IsBlank("Al") by { assert !IsSpace("Al"[0]); }
    assert !IsBlank("hello") by { assert !IsSpace("hello"[0]); }
    assert !IsBlank(s) by { assert !IsSpace(s[0]); }
    NoKeysIsEmpty(ValidateForm(FormData("Al", s, "hello")));
  }

  /** A map over the three fields with none of them as a key is empty. */
  lemma NoKeysIsEmpty(e: map<Field, string>)
    requires Name !in e && Email !in e && Message !in e
    ensures e == map[]
  {
    forall f ensures f !in e { match f { case Name => case Email => case Message => } }
  }

  // ---------------------------------------------------------------------
  // The component's state machine
  // ---------------------------------------------------------------------

  /** The `Contact` component's state: `formData`, `errors`, `isSubmitting`
      and `isSuccess`. */
  class ContactForm {
    var formData: FormData
    var errors: map<Field, string>
    var isSubmitting: bool
    var isSuccess: bool

    /** The state on mount: empty fields, no errors, both flags off. */
    constructor ()
      ensures formData == EmptyForm && errors == map[]
      ensures !isSubmitting && !isSuccess
    {
      formData := EmptyForm;
      errors := map[];
      isSubmitting := false;
      isSuccess := false;
    }

    /** `handleSubmit` up to the simulated send: the errors become the
        validator's verdict, and only a clean verdict starts sending. The
        frame names the only two fields it writes, so `formData` and
        `isSuccess` keep their values. The submit button is disabled while
        a send is in progress. */
    method HandleSubmit() returns (sending: bool)
      requires !isSubmitting
      modifies `errors, `isSubmitting
      ensures errors == ValidateForm(old(formData))
      ensures sending <==> |errors| == 0
      ensures isSubmitting == sending
    {
      var verdict := ValidateForm(formData);
      sending := |verdict| == 0;
      errors := verdict;
      isSubmitting := sending;
    }

    /** The continuation after the simulated send: the form is cleared and
        the success message shown. */
    method CompleteSend()
      requires isSubmitting
      modifies this
      ensures formData == EmptyForm && !isSubmitting && isSuccess
      ensures errors == old(errors)
    {
      isSubmitting := false;
      isSuccess := true;
      formData := EmptyForm;
    }

    /** The delayed callback that hides the success message. */
    method SuccessTimeout()
      modifies this
      ensures !isSuccess
      ensures formData == old(formData) && errors == old(errors) && isSubmitting == old(isSubmitting)
    {
      isSuccess := false;
    }

    /** `handleChange`: store the typed value, and blank out the field's
        error message if one is showing. */
    method HandleChange(f: Field, value: string)
      modifies this
      ensures formData == old(formData).Set(f, value)
      ensures f in old(errors) && old(errors)[f] != "" ==> errors == old(errors)[f := ""]
      ensures !(f in old(errors) && old(errors)[f] != "") ==> errors == old(errors)
      ensures isSubmitting == old(isSubmitting) && isSuccess == old(isSuccess)
    {
      formData := formData.Set(f, value);
      if f in errors && errors[f] != "" {
        errors := errors[f := ""];
      }
    }
  }
}
