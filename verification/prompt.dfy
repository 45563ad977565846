/**
 * Interactive input: `promptUser` and the two validators built on it,
 * `promptPhone` and `promptAmount`.
 *
 * Standard input is a sequence of read results, one per `ReadString('\n')` call.
 * Running out of lines is end of input (`io.EOF`). A final line without a
 * newline is also an error in Go, because `ReadString` returns it together with
 * `io.EOF`; it is written as `ReadFailed(EndOfInput)`.
 */
module Prompt {
  import opened Wrappers
  import opened Text
  import opened Errors
  import Decimal

  datatype ReadResult = Line(text: string) | ReadFailed(cause: Error)

  /** A value obtained from the input, and how many lines it took. */
  datatype Answer<T> = Answer(value: T, consumed: nat)

  /** A line that is empty after trimming: `promptUser` asks again. */
  predicate IsBlank(r: ReadResult) {
    r.Line? && TrimSpace(r.text) == ""
  }

  /**
   * The re-prompting of `promptUser`: how many blank lines come before the first
   * read that ends the prompt, that is, a non-blank line or a read error.
   */
  function FirstNonBlank(lines: seq<ReadResult>): (k: nat)
    ensures k <= |lines|
    ensures forall j :: 0 <= j < k ==> IsBlank(lines[j])
    ensures k < |lines| ==> !IsBlank(lines[k])
  {
    if |lines| == 0 || !IsBlank(lines[0]) then 0 else 1 + FirstNonBlank(lines[1..])
  }

  /**
   * `promptUser`: the first line that is non-empty after trimming, trimmed, and
   * how many reads it took. Blank lines are skipped; a read error ends the prompt
   * with that error; input that runs out first ends it with end of input.
   */
  function PromptUser(lines: seq<ReadResult>): (r: Result<Answer<string>, Error>)
    ensures r.Success? ==> 1 <= r.value.consumed <= |lines|
    ensures r.Success? ==> lines[r.value.consumed - 1].Line?
    ensures r.Success? ==> r.value.value == TrimSpace(lines[r.value.consumed - 1].text)
    ensures r.Success? ==> r.value.value != "" && Trimmed(r.value.value)
    ensures r.Success? ==> forall j :: 0 <= j < r.value.consumed - 1 ==> IsBlank(lines[j])
    ensures r.Failure? ==> r.error == EndOfInput || exists j :: 0 <= j < |lines| && lines[j] == ReadFailed(r.error)
  {
    var k := FirstNonBlank(lines);
    if k == |lines| then
      Failure(EndOfInput)
    else
      match lines[k]
      case ReadFailed(e) => Failure(e)
      case Line(text) => Success(Answer(TrimSpace(text), k + 1))
  }

  /**
   * If read `k` is the first that is not blank, the prompt answers with that
   * line trimmed after `k + 1` reads, or fails with that read's error.
   */
  lemma PromptUserStopsAtFirstNonBlank(lines: seq<ReadResult>, k: nat)
    requires k < |lines|
    requires forall j :: 0 <= j < k ==> IsBlank(lines[j])
    requires !IsBlank(lines[k])
    ensures lines[k].Line? ==> PromptUser(lines) == Success(Answer(TrimSpace(lines[k].text), k + 1))
    ensures lines[k].ReadFailed? ==> PromptUser(lines) == Failure(lines[k].cause)
  {
    FirstNonBlankUnique(lines, k);
  }

  /** Input made only of blank lines ends in end of input. */
  lemma PromptUserAllBlank(lines: seq<ReadResult>)
    requires forall j :: 0 <= j < |lines| ==> IsBlank(lines[j])
    ensures PromptUser(lines) == Failure(EndOfInput)
  {
  }

  /** Any index with only blank lines before it and a non-blank line at it is the one `FirstNonBlank` finds. */
  lemma {:induction false} FirstNonBlankUnique(lines: seq<ReadResult>, k: nat)
    requires k < |lines|
    requires forall j :: 0 <= j < k ==> IsBlank(lines[j])
    requires !IsBlank(lines[k])
    ensures FirstNonBlank(lines) == k
    decreases k
  {
    if k > 0 {
      assert IsBlank(lines[0]);
      FirstNonBlankUnique(lines[1..], k - 1);
    }
  }

  /** Once the prompt has its answer, nothing typed afterwards is consulted. */
  lemma PromptUserIgnoresLaterInput(lines: seq<ReadResult>, more: seq<ReadResult>)
    requires PromptUser(lines).Success?
    ensures PromptUser(lines + more) == PromptUser(lines)
  {
    var k := FirstNonBlank(lines);
    var all := lines + more;
    assert forall j :: 0 <= j <= k ==> all[j] == lines[j];
    FirstNonBlankUnique(all, k);
  }

  /* ---------------- phone numbers ---------------- */

  /** Cameroon's country calling code. */
  const CountryCode: string := "237"

  /** A local mobile number: nine characters, the first of them '6'. */
  predicate IsLocalNumber(q: string) {
    |q| == 9 && q[0] == '6'
  }

  /** A number already in international form: the country code and twelve characters in all. */
  predicate IsInternationalNumber(q: string) {
    |q| == 12 && CountryCode <= q
  }

  /** Trimming, then removing every space character; tabs and other white space inside stay. */
  function Despace(input: string): (q: string)
    ensures ' ' !in q
    ensures Trimmed(q)
  {
    var t := TrimSpace(input);
    if |t| == 0 then
      RemoveSpaces(t)
    else
      RemoveSpacesKeepsEnds(t);
      RemoveSpaces(t)
  }

  /** The normalisation in `promptPhone`: a local number gets the country code in front. */
  function NormalizePhone(input: string): (p: string)
    ensures ' ' !in p
    ensures Trimmed(p)
  {
    var q := Despace(input);
    if IsLocalNumber(q) then CountryCode + q else q
  }

  /**
   * `promptPhone`'s check after normalisation: the country code as prefix and
   * exactly twelve characters. The characters are not required to be digits.
   */
  function ValidatePhone(input: string): (r: Result<string, Error>)
    ensures r.Success? ==> CountryCode <= r.value && |r.value| == 12
    ensures r.Success? ==> ' ' !in r.value && Trimmed(r.value)
    ensures r.Failure? ==> r.error == InvalidPhone
  {
    var p := NormalizePhone(input);
    if CountryCode <= p && |p| == 12 then Success(p) else Failure(InvalidPhone)
  }

  /**
   * The accepted shapes, stated on the input with spaces removed: a local number,
   * returned with the country code in front, or an international number, returned
   * unchanged. Every other shape is an invalid phone number.
   */
  lemma PhoneAcceptedShapes(input: string)
    ensures IsLocalNumber(Despace(input)) ==> ValidatePhone(input) == Success(CountryCode + Despace(input))
    ensures IsInternationalNumber(Despace(input)) ==> ValidatePhone(input) == Success(Despace(input))
    ensures ValidatePhone(input).Success? <==> IsLocalNumber(Despace(input)) || IsInternationalNumber(Despace(input))
  {
  }

  /**
   * No digit check: any nine characters that start with a '6' and contain no
   * white space, letters and punctuation included, are accepted as a local number.
   */
  lemma LocalNumberCharactersNotChecked(q: string)
    requires |q| == 9 && q[0] == '6'
    requires forall i :: 0 <= i < |q| ==> !IsSpace(q[i])
    ensures ValidatePhone(q) == Success(CountryCode + q)
  {
    TrimSpaceFixpoint(q);
    assert ' ' !in q by {
      forall i | 0 <= i < |q| ensures q[i] != ' ' {
        assert !IsSpace(q[i]);
      }
    }
    RemoveSpacesFixpoint(q);
  }

  /** `promptPhone`: one answer from `promptUser`; a malformed one is final, not asked again. */
  function PromptPhone(lines: seq<ReadResult>): (r: Result<Answer<string>, Error>)
    ensures r.Success? ==> CountryCode <= r.value.value && |r.value.value| == 12
    ensures PromptUser(lines).Failure? ==> r == Failure(PromptUser(lines).error)
    ensures PromptUser(lines).Success? ==>
              r.Success? == ValidatePhone(PromptUser(lines).value.value).Success?
    ensures PromptUser(lines).Success? && r.Success? ==>
              r.value.value == ValidatePhone(PromptUser(lines).value.value).value
    ensures PromptUser(lines).Success? && r.Failure? ==> r.error == InvalidPhone
    ensures r.Success? ==> r.value.consumed == PromptUser(lines).value.consumed
  {
    match PromptUser(lines)
    case Failure(e) => Failure(e)
    case Success(a) =>
      match ValidatePhone(a.value)
      case Success(p) => Success(Answer(p, a.consumed))
      case Failure(e) => Failure(e)
  }

  /**
   * A local number typed on the first non-blank line, spaces and padding
   * allowed, is returned with the country code in front after that many reads.
   */
  lemma PromptPhoneLocalNumber(lines: seq<ReadResult>, k: nat)
    requires k < |lines| && lines[k].Line?
    requires forall j :: 0 <= j < k ==> IsBlank(lines[j])
    requires IsLocalNumber(Despace(lines[k].text))
    ensures PromptPhone(lines) == Success(Answer(CountryCode + Despace(lines[k].text), k + 1))
  {
    var text := lines[k].text;
    assert !IsBlank(lines[k]);
    PromptUserStopsAtFirstNonBlank(lines, k);
    TrimSpaceIdempotent(text);
    assert Despace(TrimSpace(text)) == Despace(text);
    PhoneAcceptedShapes(TrimSpace(text));
  }

  /* ---------------- amounts ---------------- */

  /** `promptAmount`'s check: `strconv.Atoi` must succeed and the value must be positive. */
  function ValidateAmount(input: string): (r: Result<int, Error>)
    ensures r.Success? <==> Decimal.Atoi(input).Some? && Decimal.Atoi(input).value > 0
    ensures r.Success? ==> r.value == Decimal.Atoi(input).value
    ensures r.Success? ==> 1 <= r.value <= Decimal.MaxInt64
    ensures r.Failure? ==> r.error == InvalidAmount
  {
    match Decimal.Atoi(input)
    case Some(n) => if n <= 0 then Failure(InvalidAmount) else Success(n)
    case None => Failure(InvalidAmount)
  }

  /** Every positive 64-bit amount, typed the way `%d` prints it, is accepted unchanged. */
  lemma AmountRoundTrip(n: int)
    requires 1 <= n <= Decimal.MaxInt64
    ensures ValidateAmount(Decimal.FormatInt(n)) == Success(n)
  {
    Decimal.AtoiFormatRoundTrip(n);
  }

  /** Leading zeros are accepted and ignored: "0500" is the amount 500. */
  lemma AmountLeadingZero(s: string)
    requires |s| > 0 && Decimal.AllDigits(s)
    ensures ValidateAmount("0" + s) == ValidateAmount(s)
  {
    Decimal.AtoiLeadingZero(s);
  }

  /** `promptAmount`: one answer from `promptUser`, then the amount check. */
  function PromptAmount(lines: seq<ReadResult>): (r: Result<Answer<int>, Error>)
    ensures r.Success? ==> r.value.value >= 1
    ensures PromptUser(lines).Failure? ==> r == Failure(PromptUser(lines).error)
    ensures PromptUser(lines).Success? ==>
              r.Success? == ValidateAmount(PromptUser(lines).value.value).Success?
    ensures PromptUser(lines).Success? && r.Success? ==>
              r.value.value == ValidateAmount(PromptUser(lines).value.value).value
    ensures PromptUser(lines).Success? && r.Failure? ==> r.error == InvalidAmount
    ensures r.Success? ==> r.value.consumed == PromptUser(lines).value.consumed
  {
    match PromptUser(lines)
    case Failure(e) => Failure(e)
    case Success(a) =>
      match ValidateAmount(a.value)
      case Success(n) => Success(Answer(n, a.consumed))
      case Failure(e) => Failure(e)
  }

  /**
   * A positive amount typed in decimal on the first non-blank line, with any
   * padding, is the answer, after that many reads.
   */
  lemma PromptAmountTyped(lines: seq<ReadResult>, k: nat, n: int)
    requires 1 <= n <= Decimal.MaxInt64
    requires k < |lines| && lines[k].Line?
    requires forall j :: 0 <= j < k ==> IsBlank(lines[j])
    requires TrimSpace(lines[k].text) == Decimal.FormatInt(n)
    ensures PromptAmount(lines) == Success(Answer(n, k + 1))
  {
    assert !IsBlank(lines[k]);
    PromptUserStopsAtFirstNonBlank(lines, k);
    AmountRoundTrip(n);
  }
}
