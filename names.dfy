/**
 * The name sanitizers of the engine (mpay/mpay.py): a name is trimmed and then
 * checked against a character class; user names allow `[a-z0-9_]`, the names
 * of tags, standing orders and agents allow `[a-zA-Z0-9_-]`.
 */
module Names {
  import opened Common
  import opened Text

  predicate IsUserNameChar(c: char) {
    'a' <= c <= 'z' || '0' <= c <= '9' || c == '_'
  }

  predicate IsLabelChar(c: char) {
    'a' <= c <= 'z' || 'A' <= c <= 'Z' || '0' <= c <= '9' || c == '_' || c == '-'
  }

  /** A string matched in full by `[a-z0-9_]+`. */
  predicate IsUserName(s: string) {
    |s| > 0 && forall i :: 0 <= i < |s| ==> IsUserNameChar(s[i])
  }

  /** A string matched in full by `[a-zA-Z0-9_-]+`. */
  predicate IsLabel(s: string) {
    |s| > 0 && forall i :: 0 <= i < |s| ==> IsLabelChar(s[i])
  }

  /**
   * `sanitize_user_name`: the trimmed name when it is a valid user name,
   * otherwise `MpayValueError`.
   */
  function SanitizeUserName(s: string): (r: Result<string, Error>)
    ensures r.Ok? <==> IsUserName(Strip(s))
    ensures r.Ok? ==> r.value == Strip(s)
    ensures r.Err? ==> r.error == InvalidName
  {
    var n := Strip(s);
    if IsUserName(n) then Ok(n) else Err(InvalidName)
  }

  /**
   * `sanitize_tag_name`, `sanitize_order_name` and `sanitize_agent_name`,
   * which differ only in their messages: the trimmed name when it is
   * non-empty and made of letters, digits, `_` and `-`.
   */
  function SanitizeLabel(s: string): (r: Result<string, Error>)
    ensures r.Ok? <==> Strip(s) != [] && forall i :: 0 <= i < |Strip(s)| ==> IsLabelChar(Strip(s)[i])
    ensures r.Ok? ==> r.value == Strip(s)
    ensures r.Err? ==> r.error == InvalidName
  {
    var n := Strip(s);
    if n == [] then Err(InvalidName)
    else if !IsLabel(n) then Err(InvalidName)
    else Ok(n)
  }

  /** No whitespace character is allowed in a name. */
  lemma {:induction false} NameCharsAreNotSpace(c: char)
    requires IsLabelChar(c)
    ensures !IsSpace(c)
  {
  }

  /** A valid user name or label is already trimmed. */
  lemma {:induction false} LabelIsStripped(s: string)
    requires IsLabel(s)
    ensures Stripped(s) && Strip(s) == s
  {
    NameCharsAreNotSpace(s[0]);
    NameCharsAreNotSpace(s[|s| - 1]);
  }

  /** Every valid user name is also a valid label. */
  lemma UserNameIsLabel(s: string)
    requires IsUserName(s)
    ensures IsLabel(s)
  {
  }

  /** The result of a sanitizer passes that sanitizer unchanged. */
  lemma {:induction false} SanitizeUserNameIdempotent(s: string)
    requires SanitizeUserName(s).Ok?
    ensures SanitizeUserName(SanitizeUserName(s).value) == SanitizeUserName(s)
  {
    UserNameIsLabel(Strip(s));
    LabelIsStripped(Strip(s));
  }

  lemma {:induction false} SanitizeLabelIdempotent(s: string)
    requires SanitizeLabel(s).Ok?
    ensures SanitizeLabel(SanitizeLabel(s).value) == SanitizeLabel(s)
  {
    LabelIsStripped(Strip(s));
  }

  /** A label is accepted exactly as it is. */
  lemma {:induction false} SanitizeLabelOfLabel(s: string)
    requires IsLabel(s)
    ensures SanitizeLabel(s) == Ok(s)
  {
    LabelIsStripped(s);
  }

  /** A valid user name is accepted by both sanitizers exactly as it is. */
  lemma {:induction false} SanitizeUserNameOfUserName(s: string)
    requires IsUserName(s)
    ensures SanitizeUserName(s) == Ok(s)
  {
    UserNameIsLabel(s);
    LabelIsStripped(s);
  }

  /**
   * A character outside `[a-z0-9_]` makes a user name invalid, unless it is
   * whitespace that trimming removes: anything lying between two
   * non-whitespace characters survives the trim.
   */
  lemma {:induction false} SanitizeUserNameRejects(s: string, j: nat, i: nat, k: nat)
    requires j <= i <= k < |s| && !IsSpace(s[j]) && !IsSpace(s[k])
    requires !IsUserNameChar(s[i])
    ensures SanitizeUserName(s) == Err(InvalidName)
  {
    var a, b :| 0 <= a <= b <= |s| && Strip(s) == s[a..b]
      && (forall m :: 0 <= m < a ==> IsSpace(s[m])) && (forall m :: b <= m < |s| ==> IsSpace(s[m]));
    assert a <= j;
    assert k < b;
    var n := s[a..b];
    assert n[i - a] == s[i];
    assert !IsUserName(n) by {
      assert !IsUserNameChar(n[i - a]);
    }
  }

  /** "Uppercase" and "user with space" are not user names. */
  lemma SanitizeUserNameRejectsExamples()
    ensures SanitizeUserName("Uppercase") == Err(InvalidName)
    ensures SanitizeUserName("user with space") == Err(InvalidName)
  {
    var a := "Uppercase";
    SanitizeUserNameRejects(a, 0, 0, 0);
    var b := "user with space";
    SanitizeUserNameRejects(b, 0, 4, |b| - 1);
  }
}
