/** lib/uploadHelpers.ts: format checks for WhatsApp numbers and email addresses.
    Both trim the input first and then test it against a regular expression. */
module UploadHelpers {
  import opened Seqs
  import opened Text

  /** A character of the class `[^\s@]`. */
  predicate EmailChar(c: char) { !IsSpace(c) && c != '@' }

  /** The language of `/^[^\s@]+@[^\s@]+\.[^\s@]+$/`: a non-empty run of `[^\s@]`,
      an '@', a non-empty run, a '.', and a non-empty run. Since '.' belongs to
      `[^\s@]`, a match is a split at one '@' (position `at`) and one '.' after it
      (position `dot`), with every other character in `[^\s@]`. */
  ghost predicate MatchesEmailRegex(t: string)
  {
    exists at, dot :: 0 < at && at + 1 < dot < |t| - 1 && t[at] == '@' && t[dot] == '.' &&
      forall i :: 0 <= i < |t| && i != at ==> EmailChar(t[i])
  }

  /** Position of the first '@' in `t`, or `|t|` when there is none. */
  function IndexOfAt(t: string): (k: nat)
    ensures k <= |t|
    ensures forall i :: 0 <= i < k ==> t[i] != '@'
    ensures k < |t| ==> t[k] == '@'
  {
    if t == [] then 0 else if t[0] == '@' then 0 else 1 + IndexOfAt(t[1..])
  }

  /** `emailRegex.test(t)`, decided by scanning: an '@' that is not the first
      character, no other '@' and no whitespace anywhere, and a '.' at least two
      characters after the '@' and before the last character. */
  function EmailRegexTest(t: string): (r: bool)
    ensures r <==> MatchesEmailRegex(t)
  {
    var at := IndexOfAt(t);
    var ok := 0 < at < |t| &&
      (forall i :: 0 <= i < |t| && i != at ==> EmailChar(t[i])) &&
      (exists dot :: at + 1 < dot < |t| - 1 && t[dot] == '.');
    ok
  }

  /** `validateWhatsApp(number)`: the trimmed string is exactly ten ASCII digits. */
  function ValidateWhatsApp(number: string): (r: bool)
    ensures r <==> |Trim(number)| == 10 && StripNonDigits(Trim(number)) == Trim(number)
  {
    var cleaned := Trim(number);
    |cleaned| == 10 && AllDigits(cleaned)
  }

  /** `validateEmail(email)`: the trimmed string matches the email pattern. */
  function ValidateEmail(email: string): (r: bool)
    ensures r <==> MatchesEmailRegex(Trim(email))
  {
    EmailRegexTest(Trim(email))
  }

  /** Surrounding whitespace never changes either verdict. */
  lemma ValidationIgnoresPadding(w1: string, s: string, w2: string)
    requires AllSpace(w1) && AllSpace(w2)
    ensures ValidateWhatsApp(w1 + s + w2) == ValidateWhatsApp(s)
    ensures ValidateEmail(w1 + s + w2) == ValidateEmail(s)
  {
    TrimIgnoresPadding(w1, s, w2);
  }

  /** A character other than a digit inside the trimmed number (an embedded space,
      a '+', a dash) makes `validateWhatsApp` fail, whatever its length. */
  lemma WhatsAppRejectsNonDigit(number: string, i: nat)
    requires i < |Trim(number)| && !IsDigit(Trim(number)[i])
    ensures !ValidateWhatsApp(number)
  {
  }

  /** A number written with an embedded space, "98765 43210", is rejected. */
  lemma SpacedNumberRejected()
    ensures !ValidateWhatsApp("98765 43210")
  {
    assert !IsSpace('9') && !IsSpace('0');
    assert TrimStart("98765 43210") == "98765 43210";
    assert Trim("98765 43210") == "98765 43210";
    WhatsAppRejectsNonDigit("98765 43210", 5);
  }

  /** A number written with its country code, "+919876543210", is rejected. */
  lemma CountryCodeRejected()
    ensures !ValidateWhatsApp("+919876543210")
  {
    assert TrimStart("+919876543210") == "+919876543210";
    assert Trim("+919876543210") == "+919876543210";
    WhatsAppRejectsNonDigit("+919876543210", 0);
  }

  /** Ten digits with whitespace around them are accepted. */
  lemma PaddedDigitsAccepted(w1: string, d: string, w2: string)
    requires AllSpace(w1) && AllSpace(w2) && |d| == 10 && AllDigits(d)
    ensures ValidateWhatsApp(w1 + d + w2)
  {
    ValidationIgnoresPadding(w1, d, w2);
    TrimDigits(d);
  }

  /** " 9876543210\n" is accepted. */
  lemma PaddedNumberAccepted()
    ensures ValidateWhatsApp(" 9876543210\n")
  {
    var d := "9876543210";
    assert AllDigits(d);
    assert " 9876543210\n" == [' '] + d + ['\n'];
    PaddedDigitsAccepted([' '], d, ['\n']);
  }

  /** What an accepted email looks like: exactly one '@', not in first position;
      a '.' after it that is neither the first nor the last character of the
      domain part; and no whitespace anywhere in the trimmed string. */
  lemma ValidEmailShape(email: string)
    requires ValidateEmail(email)
    ensures var t := Trim(email);
      (forall i :: 0 <= i < |t| ==> !IsSpace(t[i])) &&
      exists at :: 0 < at < |t| && t[at] == '@' &&
        (forall i :: 0 <= i < |t| && t[i] == '@' ==> i == at) &&
        exists dot :: at + 1 < dot < |t| - 1 && t[dot] == '.'
  {
  }

  /** A string of digits never matches the email pattern: it has no '@'. */
  lemma DigitsNeverEmail(t: string)
    requires AllDigits(t)
    ensures !MatchesEmailRegex(t)
  {
  }
}
