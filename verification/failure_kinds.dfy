/**
 Which failure is of which kind: the kind, the retry advice and the code of every classified call, from the status
 it shows or the exception it is, whichever classifier is asked.
 */
module FailureKinds {
  import opened Common
  import opened Slug
  import opened Failure

  /** The call shows HTTP status `status`; the platform's own provider is not judged by the text of a message. */
  predicate Shows(own: bool, call: Call, status: int) {
    match call
    case Http(s, _) => s == status
    case Message(s) => !own && s.Some? && s.value == status
    case Raise(e) => e.status == Some(status)
                     || (e.status.None? && !own && e.statusInMessage.Some? && e.statusInMessage.value == status)
  }

  ghost predicate ShowsNone(own: bool, call: Call) {
    forall status :: !Shows(own, call, status)
  }

  lemma JudgedExactly(own: bool, call: Call)
    ensures forall status :: Shows(own, call, status) <==> JudgedStatus(own, call) == Some(status)
    ensures ShowsNone(own, call) <==> JudgedStatus(own, call) == None
  {
    if JudgedStatus(own, call).Some? {
      assert Shows(own, call, JudgedStatus(own, call).value);
    }
  }

  /**
   Any provider but the platform, a call that shows a status: payment and rate limits are quota errors, a request
   timeout and the server's statuses are provider errors and alone worth a retry, every other client status is a
   configuration error, and anything else is a system error without advice.
   */
  lemma KindOfStatus(n: Normalizers, call: Call, source: ErrorSource, provider: Option<string>, owner: OwnerArg,
                     status: int)
    requires Stable(n) && n.provider(provider) != Some("dograh") && Shows(false, call, status)
    ensures var r := Classify(n, call, source, provider, owner);
            r.Ok? ==>
              && (r.value.kind.QuotaError? <==> status == 402 || status == 429)
              && (r.value.kind.ProviderError? <==> status == 408 || 500 <= status <= 599)
              && (r.value.kind.ConfigError? <==>
                    400 <= status <= 499 && status != 402 && status != 408 && status != 429)
              && (r.value.kind.SystemError? <==> status < 400 || status > 599)
              && (r.value.retryable == Some(true) <==> status == 408 || 500 <= status <= 599)
              && (r.value.retryable == None <==> status < 400 || status > 599)
  {
    JudgedExactly(false, call);
    ResultOfVerdict(n, call, source, provider, owner);
  }

  /** The exception is a timeout, another connection error, or a websocket that closed. */
  predicate Connection(e: Exception) {
    e.timeout || e.osError || e.websocketClosed
  }

  /** Any provider but the platform, a call that shows no status: a lost connection is the provider's error. */
  lemma KindWithoutStatus(n: Normalizers, call: Call, source: ErrorSource, provider: Option<string>, owner: OwnerArg)
    requires Stable(n) && n.provider(provider) != Some("dograh") && ShowsNone(false, call)
    ensures var r := Classify(n, call, source, provider, owner);
            var lost := call.Raise? && (Connection(call.exc) || call.exc.websocketConnection);
            r.Ok? ==>
              && r.value.kind == (if lost then ProviderError else SystemError)
              && r.value.retryable == (if lost then Some(true) else None)
  {
    JudgedExactly(false, call);
    ResultOfVerdict(n, call, source, provider, owner);
  }

  /** The platform itself: insufficient credits are the user's quota error, all else is the platform's own. */
  lemma KindOfPlatform(n: Normalizers, call: Call, source: ErrorSource, provider: Option<string>, owner: OwnerArg)
    requires Stable(n) && n.provider(provider) == Some("dograh")
    ensures var r := Classify(n, call, source, provider, owner);
            && r.Ok?
            && r.value.kind == (if Shows(true, call, 402) then QuotaError else SystemError)
            && (forall status :: Shows(true, call, status) ==>
                  r.value.retryable == Some(500 <= status <= 599))
            && (ShowsNone(true, call) ==>
                  r.value.retryable == if call.Raise? && Connection(call.exc) then Some(true) else None)
  {
    JudgedExactly(true, call);
    ResultOfVerdict(n, call, source, provider, owner);
  }

  /**
   Who is responsible: the user for configuration and quota, the operator for the system, and for a provider error
   whoever the caller names, by a value or by one of two texts, the operator if nobody is named.
   */
  lemma OwnerOf(n: Normalizers, call: Call, source: ErrorSource, provider: Option<string>, owner: OwnerArg)
    requires Stable(n)
    ensures var r := Classify(n, call, source, provider, owner);
            r.Ok? ==>
              && (r.value.kind == ConfigError || r.value.kind == QuotaError ==> r.value.owner == User)
              && (r.value.kind == SystemError ==> r.value.owner == Operator)
              && (r.value.kind == ProviderError ==>
                    match owner
                    case NoOwner => r.value.owner == Operator
                    case Owner(o) => r.value.owner == o
                    case OwnerText(text) =>
                      (text == "user" && r.value.owner == User) || (text == "operator" && r.value.owner == Operator))
  {
    OwnerConsistent(n, call, source, provider, owner);
  }

  // ---------------------------------------------------------------------------
  // What else the failure shows
  // ---------------------------------------------------------------------------

  /** The last part of the code. */
  ghost predicate Ends(own: bool, call: Call, detail: string) {
    if exists status :: Shows(own, call, status) then
      exists status :: Shows(own, call, status)
                       && detail == if own && status == 402 then "insufficient-credits"
                                    else Digits(if status < 0 then -status else status)
    else if call.Raise? && call.exc.timeout then detail == "timeout"
    else if call.Raise? && (Connection(call.exc) || (!own && call.exc.websocketConnection)) then detail == "connection"
    else detail == "unknown"
  }

  /** The name of a source as codes show it. */
  predicate Named(source: ErrorSource, name: string) {
    && (source.Llm? ==> name == "llm") && (source.Tts? ==> name == "tts") && (source.Stt? ==> name == "stt")
    && (source.Telephony? ==> name == "telephony") && (source.Transport? ==> name == "transport")
    && (source.Webhook? ==> name == "webhook") && (source.Integration? ==> name == "integration")
    && (source.Tool? ==> name == "tool") && (source.KnowledgeBase? ==> name == "knowledge-base")
    && (source.Platform? ==> name == "platform")
  }

  lemma EndsInDetail(own: bool, call: Call, owner: OwnerArg)
    ensures Ends(own, call, ShownDetail(VerdictOf(own, call, owner).detail))
  {
    JudgedExactly(own, call);
    var judged := JudgedStatus(own, call);
    if judged.Some? {
      assert Shows(own, call, judged.value);
    }
  }

  /** The code: the normalized provider, or else the name of the source, a dash, and how the call ended. */
  lemma CodeSays(x: Text, call: Call, source: ErrorSource, provider: Option<string>, owner: OwnerArg)
    returns (prefix: string, detail: string)
    requires IsPython(x)
    ensures Ends(Own(Python(x), provider), call, detail)
    ensures if NormalizeProvider(x, provider).Some? then prefix == NormalizeProvider(x, provider).value
            else Named(source, prefix)
    ensures var r := Classify(Python(x), call, source, provider, owner);
            r.Ok? ==> r.value.code == prefix + "-" + detail && r.value.provider == NormalizeProvider(x, provider)
  {
    var own := Own(Python(x), provider);
    prefix := CodeProvider(NormalizeProvider(x, provider), source);
    detail := ShownDetail(VerdictOf(own, call, owner).detail);
    EndsInDetail(own, call, owner);
    CodeIsProviderAndDetail(x, call, source, provider, owner);
  }

  /** The vendor code that comes with the call: none where only the text of a message was judged. */
  predicate Carries(own: bool, call: Call, code: Option<string>) {
    match call
    case Http(_, c) => code == c
    case Message(_) => code == None
    case Raise(e) => code == if e.status.None? && !own && e.statusInMessage.Some? then None else e.vendorCode
  }

  /** Source and vendor code are passed on, the latter normalized like a provider. */
  lemma PassesOn(n: Normalizers, call: Call, source: ErrorSource, provider: Option<string>, owner: OwnerArg,
                 code: Option<string>)
    requires Stable(n) && Carries(Own(n, provider), call, code)
    ensures var r := Classify(n, call, source, provider, owner);
            r.Ok? ==> r.value.source == source && r.value.providerCode == n.provider(code)
  {
    RoutesAgree(n, call, source, provider, owner);
  }
}
