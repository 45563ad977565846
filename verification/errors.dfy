/**
 * The errors the client can end a run with, and `formatAPIError`, which turns a
 * non-200 gateway response into one. Decoding the body as JSON is not modelled:
 * the caller supplies what `json.Unmarshal` produced, `None` when it failed.
 */
module Errors {
  import opened Wrappers
  import Decimal

  /** The `{code, message}` envelope the gateway sends with a non-200 status. */
  datatype ErrorEnvelope = ErrorEnvelope(code: string, message: string)

  /** A gateway error: the decoded envelope when it carries a message, the raw body otherwise. */
  datatype ApiError =
    | Structured(status: int, code: string, message: string)
    | RawBody(status: int, body: string)

  datatype Error =
    | MissingCredentials
    | EndOfInput
    | InvalidPhone
    | InvalidAmount
    | PollTimedOut
    | Api(api: ApiError)
      /** A transport, read or decode failure; its text comes from Go's own libraries. */
    | Opaque(text: string)

  /**
   * `formatAPIError`: the structured form exactly when the body decoded and the
   * decoded message is non-empty (an empty code is still structured); the raw
   * body verbatim in every other case, so some diagnosable text always survives.
   */
  function FormatApiError(status: int, body: string, decoded: Option<ErrorEnvelope>): (e: ApiError)
    ensures e.status == status
    ensures e.Structured? <==> decoded.Some? && decoded.value.message != ""
    ensures e.Structured? ==> e.code == decoded.value.code && e.message == decoded.value.message
    ensures e.RawBody? ==> e.body == body
  {
    if decoded.Some? && decoded.value.message != "" then
      Structured(status, decoded.value.code, decoded.value.message)
    else
      RawBody(status, body)
  }

  const ApiErrorPrefix: string := "API error ("

  /** The text `fmt.Errorf` builds for a gateway error. */
  function ApiErrorText(e: ApiError): (t: string)
    ensures ApiErrorPrefix <= t
    ensures |t| > |ApiErrorPrefix|
  {
    ApiErrorPrefix + Decimal.FormatInt(e.status) + ApiErrorTail(e)
  }

  /** What follows the status number in a gateway error's text. */
  function ApiErrorTail(e: ApiError): string {
    match e
    case Structured(_, code, message) => "): " + code + " - " + message
    case RawBody(_, body) => "): " + body
  }

  /** The text `main` prints after "Error:" for each kind of error. */
  function Message(e: Error): (m: string)
    ensures e.Api? ==> ApiErrorPrefix <= m
    ensures e.Opaque? ==> m == e.text
    ensures !e.Api? && !e.Opaque? ==> |m| > 0 && !(ApiErrorPrefix <= m)
  {
    match e
    case MissingCredentials =>
      var m := "APP_USERNAME and APP_PASSWORD must be set";
      assert m[2] != ApiErrorPrefix[2];
      m
    case EndOfInput =>
      var m := "EOF";
      assert m[0] != ApiErrorPrefix[0];
      m
    case InvalidPhone =>
      var m := "invalid phone number format";
      assert m[0] != ApiErrorPrefix[0];
      m
    case InvalidAmount =>
      var m := "amount must be a positive integer";
      assert m[0] != ApiErrorPrefix[0];
      m
    case PollTimedOut =>
      var m := "transaction polling timed out";
      assert m[0] != ApiErrorPrefix[0];
      m
    case Api(a) => ApiErrorText(a)
    case Opaque(text) => text
  }

  /** The client's own error texts tell its errors apart. */
  lemma FixedMessagesDistinct(e1: Error, e2: Error)
    requires !e1.Api? && !e1.Opaque? && !e2.Api? && !e2.Opaque?
    ensures Message(e1) == Message(e2) <==> e1 == e2
  {
  }

  /** `sub` occurs somewhere in `s`. */
  predicate Contains(s: string, sub: string) {
    exists i :: 0 <= i <= |s| && sub <= s[i..]
  }

  /** The middle part of a concatenation occurs in it. */
  lemma ContainsMiddle(a: string, b: string, c: string)
    ensures a <= a + b + c
    ensures Contains(a + b + c, b)
  {
    assert (a + b + c)[|a|..] == b + c;
  }

  /** A gateway error's text starts with "API error (" and names the HTTP status. */
  lemma ApiErrorTextMentionsStatus(e: ApiError)
    ensures ApiErrorPrefix <= ApiErrorText(e)
    ensures Contains(ApiErrorText(e), Decimal.FormatInt(e.status))
  {
    var n := Decimal.FormatInt(e.status);
    var rest := ApiErrorTail(e);
    assert ApiErrorText(e) == ApiErrorPrefix + n + rest;
    ContainsMiddle(ApiErrorPrefix, n, rest);
  }

  /** The structured form shows the gateway's error code. */
  lemma ApiErrorTextMentionsCode(e: ApiError)
    requires e.Structured?
    ensures Contains(ApiErrorText(e), e.code)
  {
    var head := ApiErrorPrefix + Decimal.FormatInt(e.status) + "): ";
    assert ApiErrorText(e) == head + e.code + (" - " + e.message);
    ContainsMiddle(head, e.code, " - " + e.message);
  }

  /** The structured form shows the gateway's error message. */
  lemma ApiErrorTextMentionsMessage(e: ApiError)
    requires e.Structured?
    ensures Contains(ApiErrorText(e), e.message)
  {
    var head := ApiErrorPrefix + Decimal.FormatInt(e.status) + "): " + e.code + " - ";
    assert ApiErrorText(e) == head + e.message + [];
    ContainsMiddle(head, e.message, []);
  }

  /** The structured form shows both the gateway's code and its message. */
  lemma ApiErrorTextMentionsEnvelope(e: ApiError)
    requires e.Structured?
    ensures Contains(ApiErrorText(e), e.code) && Contains(ApiErrorText(e), e.message)
  {
    ApiErrorTextMentionsCode(e);
    ApiErrorTextMentionsMessage(e);
  }

  /** The raw form shows the body verbatim. */
  lemma ApiErrorTextMentionsBody(e: ApiError)
    requires e.RawBody?
    ensures Contains(ApiErrorText(e), e.body)
  {
    var head := ApiErrorPrefix + Decimal.FormatInt(e.status) + "): ";
    assert ApiErrorText(e) == head + e.body + [];
    ContainsMiddle(head, e.body, []);
  }

  /**
   * A poll timeout can never be mistaken for a gateway-reported error: no gateway
   * error text equals the timeout text.
   */
  lemma TimeoutDistinctFromGatewayErrors(a: ApiError)
    ensures Message(PollTimedOut) != Message(Api(a))
  {
    ApiErrorTextMentionsStatus(a);
    assert Message(Api(a))[0] == 'A';
  }

  /** `%d` of a three-digit status code is its three digits. */
  lemma FormatIntThreeDigits(n: nat)
    requires 100 <= n < 1000
    ensures Decimal.FormatInt(n) == [Decimal.DigitChar(n / 100), Decimal.DigitChar(n / 10 % 10), Decimal.DigitChar(n % 10)]
  {
    assert Decimal.FormatNat(n / 100) == [Decimal.DigitChar(n / 100)];
    assert Decimal.FormatNat(n / 10) == [Decimal.DigitChar(n / 100), Decimal.DigitChar(n / 10 % 10)];
  }

  /**
   * A body that decodes to code "ER201" and message "Invalid amount" gives the
   * structured form, "API error (400): ER201 - Invalid amount".
   */
  lemma StructuredErrorExample(body: string)
    ensures ApiErrorText(FormatApiError(400, body, Some(ErrorEnvelope("ER201", "Invalid amount"))))
            == "API error (400): " + "ER201" + " - " + "Invalid amount"
  {
    FormatIntThreeDigits(400);
    assert Decimal.FormatInt(400) == "400";
  }

  /** A body that is not JSON is surfaced verbatim: "API error (500): internal error". */
  lemma RawErrorExample()
    ensures ApiErrorText(FormatApiError(500, "internal error", None)) == "API error (500): " + "internal error"
  {
    FormatIntThreeDigits(500);
    assert Decimal.FormatInt(500) == "500";
  }
}
