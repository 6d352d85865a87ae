/** What the provider adapters of `src/lib/services/providers/` throw: the
    classes their `catch` blocks tell apart, the message each class carries,
    and the proof that the message names its class. */
module ProviderErrors {
  import opened Wrappers
  import opened Strings

  datatype Backend = GitHubModels | Anthropic

  /** The adapter's `name`, which its error messages repeat. */
  function DisplayName(b: Backend): string {
    match b
    case GitHubModels => "GitHub Models"
    case Anthropic => "Anthropic"
  }

  /** What a `catch` can receive. `ApiError` is an SDK error carrying a
      `status` property (absent as `None`); `StatusObject` is a thrown object
      with a `status` property that is not an `Error` (an absent `message`
      as the empty string); the next three are `Error` instances of the named
      class; `NotAnError` is any other thrown value. */
  datatype Thrown =
    | ApiError(status: Option<nat>, message: string)
    | StatusObject(status: Option<nat>, message: string)
    | SyntaxError(message: string)
    | TypeError(message: string)
    | OtherError(message: string)
    | NotAnError

  /** `a || b` on strings. */
  function OrElse(s: string, default: string): (r: string)
    ensures r != "" || default == ""
    ensures s != "" ==> r == s
  {
    if s == "" then default else s
  }

  /** `${status}`, where an absent status prints as `undefined`. */
  function RenderStatus(status: Option<nat>): (r: string)
    ensures ')' !in r
  {
    match status
    case None => "undefined"
    case Some(n) =>
      var r := NatToString(n);
      assert forall i :: 0 <= i < |r| ==> r[i] != ')';
      r
  }

  lemma RenderStatusInjective(s1: Option<nat>, s2: Option<nat>)
    requires RenderStatus(s1) == RenderStatus(s2)
    ensures s1 == s2
  {
    if s1.Some? && s2.Some? {
      assert DecimalValue(NatToString(s1.value)) == s1.value;
    }
  }

  function NoResponseError(b: Backend): string {
    "No response from " + DisplayName(b)
  }

  /** The classes the `catch` tells apart, in the order it tests them. */
  datatype ErrorKind =
    | RateLimited
    | Unauthorized
    | Forbidden
    | ModelNotFound
    | ServiceUnavailable
    | ServiceDegraded
    | ServiceError(status: Option<nat>, detail: string)
    | InvalidFormat
    | NetworkFailure
    | Wrapped(detail: string)
    | Unknown

  /** The `catch` of `parseMessages`: a status wins over the error's class;
      then a `SyntaxError`; then a `TypeError` that mentions `fetch`; then any
      other `Error`. */
  function Classify(t: Thrown): ErrorKind {
    match t
    case ApiError(status, message) => ClassifyStatus(status, message)
    case StatusObject(status, message) => ClassifyStatus(status, message)
    case SyntaxError(_) => InvalidFormat
    case TypeError(message) => if Contains(message, "fetch") then NetworkFailure else Wrapped(message)
    case OtherError(message) => Wrapped(message)
    case NotAnError => Unknown
  }

  /** The `switch (status)` of the `catch`, for anything thrown with a
      `status` property, `Error` or not. */
  function ClassifyStatus(status: Option<nat>, message: string): ErrorKind {
    if status == Some(429) then RateLimited
    else if status == Some(401) then Unauthorized
    else if status == Some(403) then Forbidden
    else if status == Some(404) then ModelNotFound
    else if status == Some(500) then ServiceUnavailable
    else if status == Some(502) || status == Some(503) || status == Some(504) then ServiceDegraded
    else ServiceError(status, OrElse(message, "Unknown AI service error"))
  }

  const WrappedPrefix := "Failed to parse messages: "

  /** The message thrown for each class: mostly a headline and a piece of
      advice. Each message is one string in the source; it is written here as
      two literals only because the verifier reads single characters out of a
      short literal but not out of one of more than about forty characters,
      and `RankOfMessage`'s proofs read the first few characters. */
  function FailureMessage(b: Backend, k: ErrorKind): string {
    match k
    case RateLimited => "Rate limit exceeded." + " Please wait a few minutes before trying again."
    case Unauthorized =>
      if b == GitHubModels then "Invalid Personal Access Token." + " Please check your token in settings."
      else "Invalid API key." + " Please check your AI API key in settings."
    case Forbidden =>
      if b == GitHubModels then "Access forbidden." + " Your token may not have the required permissions."
      else "Access forbidden." + " Your API key may not have the required permissions."
    case ModelNotFound => "AI model not found." + " The requested model may not be available."
    case ServiceUnavailable => ServiceMessage(b, "is temporarily unavailable." + " Please try again later.")
    case ServiceDegraded => ServiceMessage(b, "is experiencing issues." + " Please try again in a few minutes.")
    case ServiceError(status, detail) => ServiceMessage(b, "error (" + RenderStatus(status) + "): " + detail)
    case InvalidFormat => "Invalid response format from " + DisplayName(b) + "." + " Please try again."
    case NetworkFailure => "Network error." + " Please check your internet connection and try again."
    case Wrapped(detail) => WrappedPrefix + detail
    case Unknown => "Unknown error occurred" + " while parsing messages"
  }

  /** A message about the backend's service: its name, then `rest`. */
  function ServiceMessage(b: Backend, rest: string): (m: string)
    ensures |m| == |DisplayName(b)| + 9 + |rest|
    ensures m[0] == DisplayName(b)[0] && m[1] == DisplayName(b)[1]
    ensures forall j :: 0 <= j < |rest| ==> m[|DisplayName(b)| + 9 + j] == rest[j]
  {
    DisplayName(b) + " service " + rest
  }

  lemma ServiceMessageAppend(b: Backend, r1: string, r2: string)
    ensures ServiceMessage(b, r1 + r2) == ServiceMessage(b, r1) + r2
  {
  }

  /** The position of a class in the `catch`'s order. */
  function Rank(k: ErrorKind): nat {
    match k
    case RateLimited => 0
    case Unauthorized => 1
    case Forbidden => 2
    case ModelNotFound => 3
    case ServiceUnavailable => 4
    case ServiceDegraded => 5
    case ServiceError(_, _) => 6
    case InvalidFormat => 7
    case NetworkFailure => 8
    case Wrapped(_) => 9
    case Unknown => 10
  }

  /** Reads the class back from a message by looking at a few characters. */
  function RankOfMessage(b: Backend, m: string): nat
    requires |m| >= 26
  {
    var name := DisplayName(b);
    var at := |name| + 9;
    if m[0] == name[0] && m[1] == name[1] then
      (if m[at] == 'e' then 6 else if m[at + 3] == 't' then 4 else 5)
    else if m[0] == 'R' then 0
    else if m[0] == 'I' then (if m[8] == 'r' then 7 else 1)
    else if m[0] == 'A' && m[1] == 'c' then 2
    else if m[0] == 'A' && m[1] == 'I' then 3
    else if m[0] == 'N' then 8
    else if m[0] == 'F' then 9
    else 10
  }

  /** `RankOfMessage` reads every message back to its class. Each class is
      its own lemma, which keeps every proof obligation small. */
  lemma RankOfFailureMessage(b: Backend, k: ErrorKind)
    ensures |FailureMessage(b, k)| >= 26 && RankOfMessage(b, FailureMessage(b, k)) == Rank(k)
  {
    match k
    case RateLimited => RankRateLimited(b);
    case Unauthorized => RankUnauthorized(b);
    case Forbidden => RankForbidden(b);
    case ModelNotFound => RankModelNotFound(b);
    case ServiceUnavailable => RankServiceUnavailable(b);
    case ServiceDegraded => RankServiceDegraded(b);
    case ServiceError(status, detail) => RankServiceError(b, status, detail);
    case InvalidFormat => RankInvalidFormat(b);
    case NetworkFailure => RankNetworkFailure(b);
    case Wrapped(detail) => RankWrapped(b, detail);
    case Unknown => RankUnknown(b);
  }

  lemma RankRateLimited(b: Backend)
    ensures |FailureMessage(b, RateLimited)| >= 26 && RankOfMessage(b, FailureMessage(b, RateLimited)) == Rank(RateLimited)
  {
    var m := FailureMessage(b, RateLimited);
    assert m[0] == 'R';
  }

  lemma RankUnauthorized(b: Backend)
    ensures |FailureMessage(b, Unauthorized)| >= 26 && RankOfMessage(b, FailureMessage(b, Unauthorized)) == Rank(Unauthorized)
  {
    var m := FailureMessage(b, Unauthorized);
    assert m[0] == 'I' && m[8] != 'r';
  }

  lemma RankForbidden(b: Backend)
    ensures |FailureMessage(b, Forbidden)| >= 26 && RankOfMessage(b, FailureMessage(b, Forbidden)) == Rank(Forbidden)
  {
    var m := FailureMessage(b, Forbidden);
    assert m[0] == 'A' && m[1] == 'c';
  }

  lemma RankModelNotFound(b: Backend)
    ensures |FailureMessage(b, ModelNotFound)| >= 26 && RankOfMessage(b, FailureMessage(b, ModelNotFound)) == Rank(ModelNotFound)
  {
    var m := FailureMessage(b, ModelNotFound);
    assert m[0] == 'A' && m[1] == 'I';
  }

  /** A service message is read by the character after the name and
      " service ". */
  lemma {:induction false} RankOfServiceMessage(b: Backend, rest: string)
    requires |rest| >= 11
    ensures |ServiceMessage(b, rest)| >= 26
    ensures RankOfMessage(b, ServiceMessage(b, rest)) == if rest[0] == 'e' then 6 else if rest[3] == 't' then 4 else 5
  {
    var m, name := ServiceMessage(b, rest), DisplayName(b);
    assert m[|name| + 9 + 0] == rest[0] && m[|name| + 9 + 3] == rest[3];
  }

  lemma RankServiceUnavailable(b: Backend)
    ensures |FailureMessage(b, ServiceUnavailable)| >= 26 && RankOfMessage(b, FailureMessage(b, ServiceUnavailable)) == Rank(ServiceUnavailable)
  {
    var rest := "is temporarily unavailable." + " Please try again later.";
    assert |rest| >= 11 && rest[0] == 'i' && rest[3] == 't';
    RankOfServiceMessage(b, rest);
  }

  lemma RankServiceDegraded(b: Backend)
    ensures |FailureMessage(b, ServiceDegraded)| >= 26 && RankOfMessage(b, FailureMessage(b, ServiceDegraded)) == Rank(ServiceDegraded)
  {
    var rest := "is experiencing issues." + " Please try again in a few minutes.";
    assert |rest| >= 11 && rest[0] == 'i' && rest[3] == 'e';
    RankOfServiceMessage(b, rest);
  }

  lemma RankServiceError(b: Backend, status: Option<nat>, detail: string)
    ensures |FailureMessage(b, ServiceError(status, detail))| >= 26 && RankOfMessage(b, FailureMessage(b, ServiceError(status, detail))) == Rank(ServiceError(status, detail))
  {
    var rest := "error (" + RenderStatus(status) + "): " + detail;
    assert |rest| >= 11 && rest[0] == 'e';
    RankOfServiceMessage(b, rest);
  }

  lemma RankInvalidFormat(b: Backend)
    ensures |FailureMessage(b, InvalidFormat)| >= 26 && RankOfMessage(b, FailureMessage(b, InvalidFormat)) == Rank(InvalidFormat)
  {
    var m := FailureMessage(b, InvalidFormat);
    assert m == ("Invalid response format from " + DisplayName(b)) + "." + " Please try again.";
  }

  lemma RankNetworkFailure(b: Backend)
    ensures |FailureMessage(b, NetworkFailure)| >= 26 && RankOfMessage(b, FailureMessage(b, NetworkFailure)) == Rank(NetworkFailure)
  {
    var m := FailureMessage(b, NetworkFailure);
    assert m[0] == 'N';
  }

  lemma RankWrapped(b: Backend, detail: string)
    ensures |FailureMessage(b, Wrapped(detail))| >= 26 && RankOfMessage(b, FailureMessage(b, Wrapped(detail))) == Rank(Wrapped(detail))
  {
    var m := FailureMessage(b, Wrapped(detail));
    assert m[0] == 'F';
  }

  lemma RankUnknown(b: Backend)
    ensures |FailureMessage(b, Unknown)| >= 26 && RankOfMessage(b, FailureMessage(b, Unknown)) == Rank(Unknown)
  {
    var m := FailureMessage(b, Unknown);
    assert m[0] == 'U';
  }

  /** Distinct classes give distinct messages, so the message thrown names
      its class, and with it the status or the wrapped detail. */
  lemma {:induction false} FailureMessageInjective(b: Backend, k1: ErrorKind, k2: ErrorKind)
    requires FailureMessage(b, k1) == FailureMessage(b, k2)
    ensures k1 == k2
  {
    RankOfFailureMessage(b, k1);
    RankOfFailureMessage(b, k2);
    assert Rank(k1) == Rank(k2);
    if k1.Wrapped? {
      WrappedMessageInjective(b, k1.detail, k2.detail);
    } else if k1.ServiceError? {
      ServiceErrorMessageInjective(b, k1.status, k1.detail, k2.status, k2.detail);
    }
  }

  lemma WrappedMessageInjective(b: Backend, d1: string, d2: string)
    requires FailureMessage(b, Wrapped(d1)) == FailureMessage(b, Wrapped(d2))
    ensures d1 == d2
  {
    FrameCancel(WrappedPrefix, d1, d2, "");
    assert WrappedPrefix + d1 + "" == WrappedPrefix + d1;
    assert WrappedPrefix + d2 + "" == WrappedPrefix + d2;
  }

  lemma ServiceErrorShape(b: Backend, status: Option<nat>, detail: string)
    ensures FailureMessage(b, ServiceError(status, detail))
         == ServiceMessage(b, "error (") + RenderStatus(status) + ("): " + detail)
  {
    ServiceMessageAppend(b, "error (", RenderStatus(status) + ("): " + detail));
    assert "error (" + RenderStatus(status) + "): " + detail == "error (" + (RenderStatus(status) + ("): " + detail));
  }

  lemma ServiceErrorMessageInjective(b: Backend, s1: Option<nat>, d1: string, s2: Option<nat>, d2: string)
    requires FailureMessage(b, ServiceError(s1, d1)) == FailureMessage(b, ServiceError(s2, d2))
    ensures s1 == s2 && d1 == d2
  {
    ServiceErrorShape(b, s1, d1);
    ServiceErrorShape(b, s2, d2);
    FieldCancel(ServiceMessage(b, "error ("), RenderStatus(s1), "): " + d1, RenderStatus(s2), "): " + d2, ')');
    RenderStatusInjective(s1, s2);
    FrameCancel("): ", d1, d2, "");
    assert "): " + d1 + "" == "): " + d1;
    assert "): " + d2 + "" == "): " + d2;
  }

  /** For Anthropic that message reads in full as below. */
  lemma AnthropicNoResponseMessage()
    ensures WrappedPrefix + NoResponseError(Anthropic) == "Failed to parse messages: No response from Anthropic"
  {
    assert NoResponseError(Anthropic) == "No response from Anthropic";
  }

  /** An error that carries a status is classified by the status alone,
      before its class is looked at; the 5xx statuses split as the source
      lists them. */
  lemma StatusDecidesFirst(status: Option<nat>, m1: string, m2: string)
    ensures Classify(StatusObject(status, m1)) == Classify(ApiError(status, m1))
    ensures Rank(Classify(ApiError(status, m1))) <= 6
    ensures status != None && status.value in {429, 401, 403, 404, 500, 502, 503, 504} ==>
      Classify(ApiError(status, m1)) == Classify(ApiError(status, m2))
    ensures status == Some(500) ==> Classify(ApiError(status, m1)) == ServiceUnavailable
    ensures status != None && status.value in {502, 503, 504} ==> Classify(ApiError(status, m1)) == ServiceDegraded
  {
  }

  /** A decoding failure and a network failure never read alike. */
  lemma SyntaxAndNetworkDistinct(b: Backend, detail: string, network: string)
    requires Contains(network, "fetch")
    ensures FailureMessage(b, Classify(SyntaxError(detail))) != FailureMessage(b, Classify(TypeError(network)))
  {
    if FailureMessage(b, InvalidFormat) == FailureMessage(b, NetworkFailure) {
      FailureMessageInjective(b, InvalidFormat, NetworkFailure);
    }
  }
}
