/**
 * Normalisation and validation of the incoming message text (index.js:60-65).
 *
 * The handler strips every character that is not an ASCII decimal digit
 * (`text.replace(/\D/g, "")`) and rejects the result when fewer than ten
 * digits remain.  `\D` without the `u` flag is the complement of `[0-9]`,
 * so exactly the characters '0'..'9' survive.
 */
module Digits {

  import opened Wrappers

  /** The least number of digits a phone number must have (index.js:62). */
  const MinDigits: nat := 10

  predicate IsDigit(c: char) {
    '0' <= c <= '9'
  }

  predicate AllDigits(s: string) {
    forall i :: 0 <= i < |s| ==> IsDigit(s[i])
  }

  /** The digits of `s`, in their original order. */
  function Strip(s: string): string {
    if s == [] then []
    else (if IsDigit(s[0]) then [s[0]] else []) + Strip(s[1..])
  }

  /** Only digits remain, and nothing is added. */
  lemma {:induction false} StripDigitsOnly(s: string)
    ensures AllDigits(Strip(s)) && |Strip(s)| <= |s|
  {
    if s != [] {
      StripDigitsOnly(s[1..]);
    }
  }

  /** Stripping distributes over concatenation: together with
      `StripChar` this pins `Strip` down as "keep the digits, in order". */
  lemma {:induction false} StripAppend(a: string, b: string)
    ensures Strip(a + b) == Strip(a) + Strip(b)
  {
    if a == [] {
      assert a + b == b;
    } else {
      assert (a + b)[0] == a[0];
      assert (a + b)[1..] == a[1..] + b;
      StripAppend(a[1..], b);
    }
  }

  /** A single character survives exactly when it is a digit. */
  lemma StripChar(c: char)
    ensures Strip([c]) == if IsDigit(c) then [c] else []
  {
    assert [c][1..] == [];
  }

  /** A character occurs in the stripped text exactly when it is a digit
      occurring in the original text. */
  lemma {:induction false} StripMembers(s: string, c: char)
    ensures c in Strip(s) <==> IsDigit(c) && c in s
  {
    if s != [] {
      StripMembers(s[1..], c);
      assert s == [s[0]] + s[1..];
    }
  }

  /** Text made only of digits is left as it is. */
  lemma {:induction false} StripKeepsDigits(s: string)
    requires AllDigits(s)
    ensures Strip(s) == s
  {
    if s != [] {
      StripKeepsDigits(s[1..]);
      assert s == [s[0]] + s[1..];
    }
  }

  /** Normalising twice is normalising once. */
  lemma StripIdempotent(s: string)
    ensures Strip(Strip(s)) == Strip(s)
  {
    StripDigitsOnly(s);
    StripKeepsDigits(Strip(s));
  }

  /** The length test of index.js:62: true when the handler goes on to the
      lookup, false when it replies "Invalid number". */
  predicate LongEnough(number: string) {
    |number| >= MinDigits
  }

  /** The normalised key for a message, or None when it is too short. */
  function Normalize(text: string): (r: Option<string>)
    ensures r.Some? <==> |Strip(text)| >= MinDigits
    ensures r.Some? ==> r.value == Strip(text) && AllDigits(r.value)
  {
    StripDigitsOnly(text);
    var number := Strip(text);
    if LongEnough(number) then Some(number) else None
  }

  /** A character that is not a digit disappears. */
  lemma NonDigitDropped(c: char, s: string)
    requires !IsDigit(c)
    ensures Strip([c] + s) == Strip(s)
  {
    assert ([c] + s)[1..] == s;
  }

  /** A run of digits in front is kept as it is. */
  lemma DigitsKept(d: string, s: string)
    requires AllDigits(d)
    ensures Strip(d + s) == d + Strip(s)
  {
    StripAppend(d, s);
    StripKeepsDigits(d);
  }

  /** A number typed the way people write it, "+CC AAAAA BBBBB". */
  function Spelled(cc: string, a: string, b: string): string {
    ['+'] + (cc + ([' '] + (a + ([' '] + b))))
  }

  /** The plus sign and the spaces are dropped: the key is the three digit
      groups run together, accepted exactly when they give ten digits or
      more. */
  lemma SpacedSpelling(cc: string, a: string, b: string)
    requires AllDigits(cc) && AllDigits(a) && AllDigits(b)
    ensures Strip(Spelled(cc, a, b)) == cc + (a + b)
    ensures Normalize(Spelled(cc, a, b)).Some? <==> |cc| + |a| + |b| >= MinDigits
  {
    var t5 := [' '] + b;
    var t4 := a + t5;
    var t3 := [' '] + t4;
    var t2 := cc + t3;
    NonDigitDropped('+', t2);
    DigitsKept(cc, t3);
    NonDigitDropped(' ', t4);
    DigitsKept(a, t5);
    NonDigitDropped(' ', b);
    StripKeepsDigits(b);
  }

  /** Digits typed without separators are already a key, when there are
      enough of them. */
  lemma BareSpelling(digits: string)
    requires AllDigits(digits) && |digits| >= MinDigits
    ensures Normalize(digits) == Some(digits)
  {
    StripKeepsDigits(digits);
  }

  /** A text shorter than ten characters can never be a valid number. */
  lemma ShortInputRejected(text: string)
    requires |text| < MinDigits
    ensures Normalize(text) == None
  {
    StripDigitsOnly(text);
  }
}
