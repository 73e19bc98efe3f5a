/**
 * `AppConstants`: the e-mail pattern, the password length and the error
 * message builders.
 */
module AppConstants {
  import opened Text

  const PasswordLength: nat := 6
  const InvalidCredentials: string := "Invalid email or password"
  const GlobalError: string := "Something went wrong, please try again later"
  const FieldRequired: string := "This field is required"

  /** Characters of the class `[^\s@]`. */
  predicate PlainChars(s: string) {
    forall k :: 0 <= k < |s| ==> !IsWhitespace(s[k]) && s[k] != '@'
  }

  /**
   * The language of `/^[^\s@]+@[^\s@]+\.[^\s@]+$/`: an '@' at i and a '.' at
   * j split the string into three non-empty runs of `[^\s@]`.
   */
  ghost predicate MatchesEmailPattern(s: string) {
    exists i, j :: 0 < i && i + 1 < j && j + 1 < |s| && s[i] == '@' && s[j] == '.'
      && PlainChars(s[..i]) && PlainChars(s[i + 1..j]) && PlainChars(s[j + 1..])
  }

  predicate NoWhitespace(s: string) {
    forall k :: 0 <= k < |s| ==> !IsWhitespace(s[k])
  }

  /**
   * `Validations.Email.test(s)`: no whitespace, exactly one '@', something
   * before it, and after it a '.' that is neither its first nor its last
   * character.
   */
  predicate IsValidEmail(s: string) {
    var i := LastIndexOf(s, '@');
    NoWhitespace(s) && 0 < i && '@' !in s[..i] && i + 2 < |s| && '.' in s[i + 2..|s| - 1]
  }

  /** Every string the check accepts matches the regular expression. */
  lemma EmailCheckSound(s: string)
    requires IsValidEmail(s)
    ensures MatchesEmailPattern(s)
  {
    var i := LastIndexOf(s, '@');
    var t := s[i + 2..|s| - 1];
    var k :| 0 <= k < |t| && t[k] == '.';
    var j := i + 2 + k;
    assert s[j] == '.';
    NoOtherAt(s, i);
    assert PlainChars(s[..i]);
    assert PlainChars(s[i + 1..j]);
    assert PlainChars(s[j + 1..]);
  }

  /** In an accepted string the '@' found last is the only one. */
  lemma NoOtherAt(s: string, i: int)
    requires 0 <= i < |s| && s[i] == '@' && '@' !in s[..i] && '@' !in s[i + 1..]
    ensures forall m :: 0 <= m < |s| && m != i ==> s[m] != '@'
  {
    forall m | 0 <= m < |s| && m != i ensures s[m] != '@' {
      if m < i { assert s[m] == s[..i][m]; } else { assert s[m] == s[i + 1..][m - i - 1]; }
    }
  }

  /** Every string the regular expression matches is accepted by the check. */
  lemma EmailCheckComplete(s: string)
    requires MatchesEmailPattern(s)
    ensures IsValidEmail(s)
  {
    var i, j :| 0 < i && i + 1 < j && j + 1 < |s| && s[i] == '@' && s[j] == '.'
      && PlainChars(s[..i]) && PlainChars(s[i + 1..j]) && PlainChars(s[j + 1..]);
    RunsArePlain(s, i, j);
    assert s[i] == '@';
    assert LastIndexOf(s, '@') == i;
    assert '@' !in s[..i] by {
      forall m | 0 <= m < i ensures s[..i][m] != '@' { assert s[..i][m] == s[m]; }
    }
    assert s[i + 2..|s| - 1][j - i - 2] == '.';
  }

  /** Three plain runs around an '@' at i and a '.' at j: no whitespace, no other '@'. */
  lemma RunsArePlain(s: string, i: int, j: int)
    requires 0 < i && i + 1 < j && j + 1 < |s| && s[i] == '@' && s[j] == '.'
    requires PlainChars(s[..i]) && PlainChars(s[i + 1..j]) && PlainChars(s[j + 1..])
    ensures NoWhitespace(s)
    ensures forall m :: 0 <= m < |s| && m != i ==> s[m] != '@'
  {
    forall m | 0 <= m < |s| && m != i ensures s[m] != '@' && !IsWhitespace(s[m]) {
      if m < i { assert s[m] == s[..i][m]; }
      else if m < j { assert s[m] == s[i + 1..j][m - i - 1]; }
      else if m > j { assert s[m] == s[j + 1..][m - j - 1]; }
    }
  }

  /** The check and the regular expression accept the same strings. */
  lemma EmailPatternIff(s: string)
    ensures IsValidEmail(s) <==> MatchesEmailPattern(s)
  {
    if IsValidEmail(s) {
      EmailCheckSound(s);
    }
    if MatchesEmailPattern(s) {
      EmailCheckComplete(s);
    }
  }

  /** A valid address has exactly one '@', at a position with something before it. */
  lemma ValidEmailOneAt(s: string)
    requires IsValidEmail(s)
    ensures exists i :: 0 < i < |s| && s[i] == '@' && forall m :: 0 <= m < |s| && m != i ==> s[m] != '@'
  {
    NoOtherAt(s, LastIndexOf(s, '@'));
  }

  /** `Strings.Errors.InvalidField(field)`. */
  function InvalidField(field: string): (m: string)
    ensures |m| == |field| + 11 && m[..|field|] == field
    ensures m[|field|..] == " is invalid"
  {
    field + " is invalid"
  }

  /** The field can be read back from its message: distinct fields give distinct messages. */
  lemma InvalidFieldInjective(a: string, b: string)
    requires InvalidField(a) == InvalidField(b)
    ensures a == b
  {
    var m := InvalidField(a);
    assert |a| == |b|;
    assert a == m[..|a|] == b;
  }

  const MinLengthMiddle: string := " must be at least "
  const MinLengthTail: string := " characters"

  /** `Strings.Errors.MinLength(field, min)`, for a non-negative whole `min`. */
  function MinLength(field: string, min: nat): (m: string)
    ensures |m| > |field| && m[..|field|] == field
  {
    field + MinLengthMiddle + NatToString(min) + MinLengthTail
  }

  /** The number can be read back from the message: distinct minimums give distinct messages. */
  lemma MinLengthInjective(field: string, a: nat, b: nat)
    requires MinLength(field, a) == MinLength(field, b)
    ensures a == b
  {
    var m := MinLength(field, a);
    var p := |field| + |MinLengthMiddle|;
    assert NatToString(a) == m[p..|m| - |MinLengthTail|];
    assert NatToString(b) == m[p..|m| - |MinLengthTail|];
    if a != b {
      NatToStringInjective(a, b);
    }
  }

  lemma MinLengthSix()
    ensures MinLength("Password", PasswordLength) == "Password must be at least 6 characters"
  {
  }
}
