/** The oldest single-domain checker (src/App.js): the form sanitizes the typed
    domain, asks the lookup service once, and shows either the returned data
    or one user-facing error message.

    The request itself (headers, URL encoding, the 15-second abort) is the
    parameter `fetch`, which answers for the sanitized domain; the API key from
    the environment is the parameter `apiKey`; what `JSON.parse` makes of the
    body is part of the answer. */
module OldestApp {
  import opened Common
  import opened Text
  import opened Sanitizer

  // The longer messages are written in short pieces, so that the lemmas
  // below can look for a letter one piece at a time.
  const EmptyDomainError := "Please enter a domain"
  const MissingKeyError := "API key is missing. " + "Please check your " + "environment " + "configuration."
  const RateLimitError := "Rate limit exceeded. " + "Please try again " + "later."
  const UnauthorizedError := "API key invalid or " + "unauthorized access."
  const NotFoundError := "Domain information " + "not found."
  /** What `fetchWithTimeout` throws when its timer aborts the request. */
  const AbortedError := "Request " + "timed out" + ". Please try again."
  const NetworkMessage := "Network error. " + "Please check your " + "internet connection."
  const TimeoutMessage := "The request " + "timed out" + (". The server might " + "be busy, please try again later.")
  const UnexpectedMessage := "An unexpected " + "error occurred."

  /** A parsed body, reduced to what the handler looks at: whether it is
      truthy and its `Object.keys`. */
  datatype Json = Json(truthy: bool, keys: seq<string>)

  /** How the request ends: aborted by the timer, thrown by `fetch`, or
      answered with a status, its text, the body text and the body parsed as
      JSON (`None` when `JSON.parse` throws). */
  datatype Fetched =
    | Aborted
    | Threw(message: string)
    | Responded(ok: bool, status: nat, statusText: string, text: string, json: Option<Json>)

  /** What `setDomainInfo` receives: the parsed data, or `{ response: text }`. */
  datatype Info = Parsed(data: Json) | RawText(response: string)

  /** What a submission ends with: data shown, or an error message. */
  datatype Shown = ShownInfo(info: Info) | ShownError(message: string)

  /** The error thrown for a response that is not OK. */
  function StatusError(status: nat, statusText: string): (m: string)
    ensures status == 429 ==> m == RateLimitError
    ensures status == 401 || status == 403 ==> m == UnauthorizedError
    ensures status == 404 ==> m == NotFoundError
    ensures status != 429 && status != 401 && status != 403 && status != 404 ==>
      m == "API error: " + NatToString(status) + " " + statusText
  {
    if status == 429 then RateLimitError
    else if status == 401 || status == 403 then UnauthorizedError
    else if status == 404 then NotFoundError
    else "API error: " + NatToString(status) + " " + statusText
  }

  /** The generic message names the status: its digits follow the prefix and
      read back as the status. */
  lemma StatusReadable(status: nat, statusText: string, prefix: string)
    requires status != 429 && status != 401 && status != 403 && status != 404
    requires prefix == "API error: "
    ensures var digits := NatToString(status);
      var m := StatusError(status, statusText);
      |m| > |prefix| + |digits| && m[..|prefix|] == prefix && m[|prefix|..|prefix| + |digits|] == digits
      && DecimalValue(m[|prefix|..|prefix| + |digits|]) == status && m[|prefix| + |digits|] == ' '
  {
    NumberAfterPrefix(prefix, NatToString(status), statusText);
    DecimalRoundTrip(status);
  }

  /** Where the prefix, the digits and the space sit in the generic message. */
  lemma NumberAfterPrefix(prefix: string, digits: string, statusText: string)
    ensures var m := prefix + digits + " " + statusText;
      |m| > |prefix| + |digits| && m[..|prefix|] == prefix && m[|prefix|..|prefix| + |digits|] == digits
      && m[|prefix| + |digits|] == ' '
  {
    var m := prefix + digits + " " + statusText;
    var rest := digits + (" " + statusText);
    assert m == prefix + rest;
    assert m[..|prefix|] == prefix && m[|prefix|..] == rest;
    assert rest[..|digits|] == digits && rest[|digits|] == ' ';
    assert m[|prefix|..|prefix| + |digits|] == rest[..|digits|];
  }

  /** Does the message name a network failure? */
  predicate NetworkFailure(message: string) {
    Contains(message, "NetworkError") || Contains(message, "Failed to fetch")
  }

  /** The catch block's user-friendly message; it is never empty. */
  function ClassifyError(message: string): (r: string)
    ensures r != ""
    ensures NetworkFailure(message) ==> r == NetworkMessage
    ensures !NetworkFailure(message) && Contains(message, "timed out") ==> r == TimeoutMessage
    ensures !NetworkFailure(message) && !Contains(message, "timed out") ==>
      r == if message != "" then message else UnexpectedMessage
  {
    if NetworkFailure(message) then NetworkMessage
    else if Contains(message, "timed out") then TimeoutMessage
    else if message != "" then message
    else UnexpectedMessage
  }

  /** A message with none of the three phrases. */
  predicate Unremarkable(message: string) {
    !NetworkFailure(message) && !Contains(message, "timed out")
  }

  /** A text without `E`, `F` and one letter of `timed out` holds none of
      the phrases. */
  lemma UnremarkableByLetters(message: string, c: char)
    requires c in "timed out" && Avoids(message, {'E', 'F', c})
    ensures Unremarkable(message)
  {
    ContainsHasChars(message, "NetworkError");
    ContainsHasChars(message, "Failed to fetch");
    ContainsHasChars(message, "timed out");
    assert 'E' in "NetworkError" && 'F' in "Failed to fetch";
  }

  /** The texts the handler can show are fixed points of the classification:
      classifying a shown message again shows the same message. */
  lemma ClassifyIdempotent(message: string)
    ensures ClassifyError(ClassifyError(message)) == ClassifyError(message)
  {
    var r := ClassifyError(message);
    if NetworkFailure(message) {
      NetworkMessageLetters(r);
      UnremarkableByLetters(r, 'd');
    } else if Contains(message, "timed out") {
      TimeoutMessageRemarkable(r);
    } else if message == "" {
      UnexpectedMessageLetters(r);
      UnremarkableByLetters(r, 'i');
    }
  }

  lemma NetworkMessageLetters(m: string)
    requires m == NetworkMessage
    ensures Avoids(m, {'E', 'F', 'd'})
  {
    var a, b, c := "Network error. ", "Please check your ", "internet connection.";
    assert |a| == 15 && Avoids(a, {'E', 'F', 'd'});
    assert |b| == 18 && Avoids(b, {'E', 'F', 'd'});
    assert |c| == 20 && Avoids(c, {'E', 'F', 'd'});
    AvoidsJoin(a, b, {'E', 'F', 'd'});
    AvoidsJoin(a + b, c, {'E', 'F', 'd'});
  }

  lemma UnexpectedMessageLetters(m: string)
    requires m == UnexpectedMessage
    ensures Avoids(m, {'E', 'F', 'i'})
  {
    var a, b := "An unexpected ", "error occurred.";
    assert |a| == 14 && Avoids(a, {'E', 'F', 'i'});
    assert |b| == 15 && Avoids(b, {'E', 'F', 'i'});
    AvoidsJoin(a, b, {'E', 'F', 'i'});
  }

  /** The timeout message names a time-out and no network failure. */
  lemma TimeoutMessageRemarkable(m: string)
    requires m == TimeoutMessage
    ensures !NetworkFailure(m) && Contains(m, "timed out")
  {
    var a, b, c, d := "The request ", "timed out", ". The server might ", "be busy, please try again later.";
    assert |a| == 12 && Avoids(a, {'E', 'F'});
    assert |b| == 9 && Avoids(b, {'E', 'F'});
    assert |c| == 19 && Avoids(c, {'E', 'F'});
    assert |d| == 32 && Avoids(d, {'E', 'F'});
    AvoidsJoin(a, b, {'E', 'F'});
    AvoidsJoin(c, d, {'E', 'F'});
    AvoidsJoin(a + b, c + d, {'E', 'F'});
    NoNetworkFailure(m);
    ContainsMiddle(a, b, c + d);
  }

  /** A text without `E` and `F` names no network failure. */
  lemma NoNetworkFailure(message: string)
    requires Avoids(message, {'E', 'F'})
    ensures !NetworkFailure(message)
  {
    ContainsHasChars(message, "NetworkError");
    ContainsHasChars(message, "Failed to fetch");
    assert 'E' in "NetworkError" && 'F' in "Failed to fetch";
  }

  /** An aborted request is reported as the time-out message. */
  lemma AbortReportedAsTimeout(m: string)
    requires m == AbortedError
    ensures ClassifyError(m) == TimeoutMessage
  {
    var a, b, c := "Request ", "timed out", ". Please try again.";
    assert |a| == 8 && Avoids(a, {'E', 'F'});
    assert |b| == 9 && Avoids(b, {'E', 'F'});
    assert |c| == 19 && Avoids(c, {'E', 'F'});
    AvoidsJoin(a, b, {'E', 'F'});
    AvoidsJoin(a + b, c, {'E', 'F'});
    NoNetworkFailure(m);
    ContainsMiddle(a, b, c);
  }

  /** The missing-key message is shown as it is thrown. */
  lemma MissingKeyShown(m: string)
    requires m == MissingKeyError
    ensures ClassifyError(m) == m
  {
    var a, b, c, d := "API key is missing. ", "Please check your ", "environment ", "configuration.";
    assert |a| == 20 && Avoids(a, {'E', 'F', 'd'});
    assert |b| == 18 && Avoids(b, {'E', 'F', 'd'});
    assert |c| == 12 && Avoids(c, {'E', 'F', 'd'});
    assert |d| == 14 && Avoids(d, {'E', 'F', 'd'});
    AvoidsJoin(a, b, {'E', 'F', 'd'});
    AvoidsJoin(a + b, c, {'E', 'F', 'd'});
    AvoidsJoin(a + b + c, d, {'E', 'F', 'd'});
    UnremarkableByLetters(m, 'd');
  }

  /** The rate-limit, unauthorized and not-found messages are shown as they
      are thrown. */
  lemma StatusMessagesShown(m: string)
    requires m == RateLimitError || m == UnauthorizedError || m == NotFoundError
    ensures ClassifyError(m) == m
  {
    if m == RateLimitError {
      RateLimitLetters(m);
      UnremarkableByLetters(m, 'u');
    } else if m == UnauthorizedError {
      UnauthorizedLetters(m);
      UnremarkableByLetters(m, 'm');
    } else {
      NotFoundLetters(m);
      UnremarkableByLetters(m, 'e');
    }
  }

  lemma RateLimitLetters(m: string)
    requires m == RateLimitError
    ensures Avoids(m, {'E', 'F', 'u'})
  {
    var a, b, c := "Rate limit exceeded. ", "Please try again ", "later.";
    assert |a| == 21 && Avoids(a, {'E', 'F', 'u'});
    assert |b| == 17 && Avoids(b, {'E', 'F', 'u'});
    assert |c| == 6 && Avoids(c, {'E', 'F', 'u'});
    AvoidsJoin(a, b, {'E', 'F', 'u'});
    AvoidsJoin(a + b, c, {'E', 'F', 'u'});
  }

  lemma UnauthorizedLetters(m: string)
    requires m == UnauthorizedError
    ensures Avoids(m, {'E', 'F', 'm'})
  {
    var a, b := "API key invalid or ", "unauthorized access.";
    assert |a| == 19 && Avoids(a, {'E', 'F', 'm'});
    assert |b| == 20 && Avoids(b, {'E', 'F', 'm'});
    AvoidsJoin(a, b, {'E', 'F', 'm'});
  }

  lemma NotFoundLetters(m: string)
    requires m == NotFoundError
    ensures Avoids(m, {'E', 'F', 'e'})
  {
    var a, b := "Domain information ", "not found.";
    assert |a| == 19 && Avoids(a, {'E', 'F', 'e'});
    assert |b| == 10 && Avoids(b, {'E', 'F', 'e'});
    AvoidsJoin(a, b, {'E', 'F', 'e'});
  }

  /** A present, non-empty API key. */
  predicate HasKey(apiKey: Option<string>) {
    apiKey.Some? && apiKey.value != ""
  }

  /** What a body that came back OK shows: the parsed data when it is truthy
      with at least one key, else the raw text (the inner `catch` also takes
      the `No data returned` error). */
  function BodyInfo(text: string, json: Option<Json>): (i: Info)
    ensures i.Parsed? <==> json.Some? && json.value.truthy && |json.value.keys| > 0
    ensures i.Parsed? ==> i.data == json.value
    ensures i.RawText? ==> i.response == text
  {
    match json
    case Some(data) => if !data.truthy || |data.keys| == 0 then RawText(text) else Parsed(data)
    case None => RawText(text)
  }

  /** The outcome of the `try` block for a non-empty domain, and its `catch`. */
  function SubmitOutcome(apiKey: Option<string>, fetched: Fetched): Shown {
    if !HasKey(apiKey) then ShownError(ClassifyError(MissingKeyError))
    else
      match fetched
      case Aborted => ShownError(ClassifyError(AbortedError))
      case Threw(message) => ShownError(ClassifyError(message))
      case Responded(ok, status, statusText, text, json) =>
        if !ok then ShownError(ClassifyError(StatusError(status, statusText)))
        else ShownInfo(BodyInfo(text, json))
  }

  /** A submission ends with a non-empty error exactly when the key is missing
      or the request did not come back OK; an OK answer is always shown. */
  lemma OutcomeCases(apiKey: Option<string>, fetched: Fetched)
    ensures SubmitOutcome(apiKey, fetched).ShownError? <==>
      !HasKey(apiKey) || !fetched.Responded? || !fetched.ok
    ensures SubmitOutcome(apiKey, fetched).ShownError? ==> SubmitOutcome(apiKey, fetched).message != ""
    ensures !HasKey(apiKey) ==> SubmitOutcome(apiKey, fetched) == ShownError(MissingKeyError)
    ensures HasKey(apiKey) && fetched.Aborted? ==> SubmitOutcome(apiKey, fetched) == ShownError(TimeoutMessage)
    ensures HasKey(apiKey) && fetched.Responded? && !fetched.ok && fetched.status in {429, 401, 403, 404} ==>
      SubmitOutcome(apiKey, fetched) == ShownError(StatusError(fetched.status, fetched.statusText))
  {
    MissingKeyShown(MissingKeyError);
    AbortReportedAsTimeout(AbortedError);
    if fetched.Responded? && fetched.status in {429, 401, 403, 404} {
      StatusMessagesShown(StatusError(fetched.status, fetched.statusText));
    }
  }

  class App {
    var domain: string
    var processedDomain: string
    var domainInfo: Option<Info>
    var loading: bool
    var error: Option<string>

    /** The initial `useState` values. */
    constructor ()
      ensures domain == "" && processedDomain == "" && domainInfo == None && !loading && error == None
    {
      domain := "";
      processedDomain := "";
      domainInfo := None;
      loading := false;
      error := None;
    }

    /** The input's `onChange`: the typed text, unsanitized. */
    method SetDomain(value: string)
      modifies this`domain
      ensures domain == value
    {
      domain := value;
    }

    /** `handleSubmit`. `requested` is the domain the lookup was asked for, if
        a request was made. */
    method HandleSubmit(apiKey: Option<string>, fetch: string -> Fetched) returns (requested: Option<string>)
      modifies this`processedDomain, this`domainInfo, this`loading, this`error
      // An empty field only sets the error; no request is made.
      ensures old(domain) == "" ==>
        error == Some(EmptyDomainError) && requested == None
        && processedDomain == old(processedDomain) && domainInfo == old(domainInfo) && loading == old(loading)
      // Otherwise the sanitized domain is looked up once (when there is a
      // key), and the data or the error message is shown.
      ensures old(domain) != "" ==>
        processedDomain == SanitizeDomain(domain) && !loading
        && requested == (if HasKey(apiKey) then Some(processedDomain) else None)
        && var shown := SubmitOutcome(apiKey, fetch(processedDomain));
           domainInfo == (if shown.ShownInfo? then Some(shown.info) else None)
           && error == (if shown.ShownError? then Some(shown.message) else None)
    {
      requested := None;
      if domain == "" {
        error := Some(EmptyDomainError);
        return;
      }
      var sanitized := Sanitize(domain);
      requested := Submit(sanitized, apiKey, fetch);
    }

    /** The rest of `handleSubmit` once the domain is sanitized: record it,
        raise `loading`, clear the old data and error, run the `try` block,
        let the `catch` block classify what it threw, and lower `loading` in
        `finally`. */
    method Submit(sanitized: string, apiKey: Option<string>, fetch: string -> Fetched) returns (requested: Option<string>)
      modifies this`processedDomain, this`domainInfo, this`loading, this`error
      ensures processedDomain == sanitized && !loading
      ensures requested == (if HasKey(apiKey) then Some(sanitized) else None)
      ensures var shown := SubmitOutcome(apiKey, fetch(sanitized));
        domainInfo == (if shown.ShownInfo? then Some(shown.info) else None)
        && error == (if shown.ShownError? then Some(shown.message) else None)
    {
      processedDomain := sanitized;
      loading := true;
      domainInfo := None;
      error := None;
      requested := None;
      if HasKey(apiKey) {
        requested := Some(sanitized);
      }
      var thrown, info := Attempt(apiKey, fetch(sanitized));
      domainInfo := info;
      if thrown.Some? {
        error := Some(ClassifyError(thrown.value));
      }
      loading := false;
    }
  }

  /** The `try` block of `handleSubmit` for a non-empty domain: the error it
      throws, or the data it shows; the `catch` block classifies the error. */
  method Attempt(apiKey: Option<string>, fetched: Fetched) returns (thrown: Option<string>, info: Option<Info>)
    ensures thrown.None? <==> info.Some?
    ensures var shown := SubmitOutcome(apiKey, fetched);
      (shown.ShownInfo? ==> info == Some(shown.info))
      && (shown.ShownError? ==> thrown.Some? && ClassifyError(thrown.value) == shown.message)
  {
    thrown, info := None, None;
    if !HasKey(apiKey) {
      thrown := Some(MissingKeyError);
      return;
    }
    match fetched {
      case Aborted =>
        thrown := Some(AbortedError);
      case Threw(message) =>
        thrown := Some(message);
      case Responded(ok, status, statusText, text, json) =>
        if !ok {
          thrown := Some(StatusError(status, statusText));
        } else {
          info := Some(BodyInfo(text, json));
        }
    }
  }
}
