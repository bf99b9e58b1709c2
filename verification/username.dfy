/**
 The validator the registration form attaches to its username field: at most
 150 characters, matched in full by the regular expression `^[a-zA-Z0-9 @.+-_]+$`.

 Inside a bracket class `+-_` is a range, from '+' (0x2B) to '_' (0x5F), not
 the three characters '+', '-' and '_'. The form's error message lists only
 letters, digits, space and @ . + - _, so the rule as written accepts twelve
 more characters than the message admits. `InClass` and `IsValid` follow the
 expression as written; `InDocumentedClass` and `IsValidDocumented` are the
 rule the message describes.
 */
module Username {

  /** The field's `max_length`. */
  const MaxLength := 150

  /** Whether every character of `s` satisfies `accept`, scanning left to right. */
  function AllSatisfy(s: string, accept: char -> bool): (b: bool)
    ensures b <==> forall i :: 0 <= i < |s| ==> accept(s[i])
    decreases |s|
  {
    if |s| == 0 then true else accept(s[0]) && AllSatisfy(s[1..], accept)
  }

  /** Membership in `[a-zA-Z0-9 @.+-_]`, piece by piece as a regular-expression
      engine reads the class: three ranges, three single characters, and the
      range `+-_`. The whole collapses to space, '+'..'_' and 'a'..'z': the range
      `+-_` already covers the digits, the capitals, '@' and '.'. */
  function InClass(c: char): (m: bool)
    ensures m <==> c == ' ' || '+' <= c <= '_' || 'a' <= c <= 'z'
  {
    || 'a' <= c <= 'z'
    || 'A' <= c <= 'Z'
    || '0' <= c <= '9'
    || c == ' '
    || c == '@'
    || c == '.'
    || '+' <= c <= '_'
  }

  /** The verdict of the field's own checks on a (non-stripped) value: at least
      one character, at most 150 (`max_length`), and every character in the class. */
  function IsValid(s: string): (ok: bool)
    ensures ok <==> 1 <= |s| <= 150 && forall i :: 0 <= i < |s| ==> (s[i] == ' ' || '+' <= s[i] <= '_' || 'a' <= s[i] <= 'z')
  {
    1 <= |s| <= MaxLength && AllSatisfy(s, InClass)
  }

  /** The check as a left-to-right scan that stops at the first character outside the class. */
  method Validate(s: string) returns (ok: bool)
    ensures ok <==> 1 <= |s| <= MaxLength && forall i :: 0 <= i < |s| ==> InClass(s[i])
  {
    if |s| == 0 || |s| > MaxLength {
      return false;
    }
    for i := 0 to |s|
      invariant forall j :: 0 <= j < i ==> InClass(s[j])
    {
      if !InClass(s[i]) {
        return false;
      }
    }
    return true;
  }

  /** The characters the class accepts, and some it rejects. */
  lemma ClassMembers()
    ensures forall c :: 'a' <= c <= 'z' || 'A' <= c <= 'Z' || '0' <= c <= '9' ==> InClass(c)
    ensures forall c :: c in " @.+-_" ==> InClass(c)
    ensures forall c :: c in ",/:;<=>?[\\]^" ==> InClass(c)
    ensures forall c :: c in "!\"#$%&'()*`{|}~" ==> !InClass(c)
    ensures forall c :: c > 'z' || c < ' ' ==> !InClass(c)
  {
  }

  /** The empty string and strings over 150 characters are rejected whatever they contain:
      the field is required, the class is quantified with `+`, and `max_length` is 150. */
  lemma LengthBounds(s: string)
    ensures |s| == 0 ==> !IsValid(s)
    ensures |s| > MaxLength ==> !IsValid(s)
  {
  }

  /** The characters the error message names: letters, digits, space and @ . + - _. */
  predicate InDocumentedClass(c: char) {
    || 'a' <= c <= 'z'
    || 'A' <= c <= 'Z'
    || '0' <= c <= '9'
    || c in " @.+-_"
  }

  /** The rule the error message describes: 1 to 150 characters, each a letter, a
      digit, or one of space @ . + - _. It is stricter than the rule as written. */
  function IsValidDocumented(s: string): (ok: bool)
    ensures ok <==> 1 <= |s| <= 150 && forall i :: 0 <= i < |s| ==> InDocumentedClass(s[i])
    ensures ok ==> IsValid(s)
  {
    1 <= |s| <= MaxLength && AllSatisfy(s, InDocumentedClass)
  }

  /** The class as written accepts exactly twelve characters beyond the documented
      ones: , / : ; < = > ? [ \ ] ^ . */
  lemma ClassExceedsDocumented(c: char)
    ensures InClass(c) && !InDocumentedClass(c) <==> c in ",/:;<=>?[\\]^"
  {
  }

  /** A username the field's validator as written accepts but the error message forbids. */
  lemma AngleBracketAccepted()
    ensures IsValid("a<b") && !IsValidDocumented("a<b")
  {
    assert !InDocumentedClass("a<b"[1]);
  }
}
