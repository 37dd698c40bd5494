/** Classification of failures: who is responsible, of what kind, and under which stable code. */
module Failure {
  import opened Common
  import opened Slug

  datatype ErrorSource =
    | Llm | Tts | Stt | Telephony | Transport | Webhook | Integration | Tool | KnowledgeBase | Platform

  datatype ErrorType = ConfigError | QuotaError | ProviderError | SystemError

  datatype ErrorOwner = User | Operator

  /** The owner a caller passes: nothing, a member of the enumeration, or text that may not name one. */
  datatype OwnerArg = NoOwner | Owner(owner: ErrorOwner) | OwnerText(text: string)

  datatype DograhFailure = DograhFailure(
    source: ErrorSource,
    kind: ErrorType,
    code: string,
    owner: ErrorOwner,
    provider: Option<string>,
    providerCode: Option<string>,
    retryable: Option<bool>)

  datatype Raised = ValueError

  /** The two normalizations: of optional provider names and of codes. */
  datatype Normalizers = Normalizers(provider: Option<string> -> Option<string>, code: string -> string)

  function Python(x: Text): Normalizers {
    Normalizers(p => NormalizeProvider(x, p), c => NormalizeCode(x, c))
  }

  /** Normalizing a provider twice is normalizing it once. */
  ghost predicate Stable(n: Normalizers) {
    forall p :: n.provider(n.provider(p)) == n.provider(p)
  }

  lemma PythonIsStable(x: Text)
    requires IsPython(x)
    ensures Stable(Python(x))
  {
    forall p
      ensures Python(x).provider(Python(x).provider(p)) == Python(x).provider(p)
    {
      ProviderIsStable(x, p);
    }
  }

  // ---------------------------------------------------------------------------
  // The normalizing constructor
  // ---------------------------------------------------------------------------

  function ParseOwner(text: string): Result<ErrorOwner, Raised> {
    if text == "user" then Ok(User) else if text == "operator" then Ok(Operator) else Err(ValueError)
  }

  function ResolveOwner(kind: ErrorType, owner: OwnerArg): Result<ErrorOwner, Raised> {
    if kind.ConfigError? || kind.QuotaError? then Ok(User)
    else if kind.SystemError? || owner.NoOwner? then Ok(Operator)
    else
      match owner
      case Owner(o) => Ok(o)
      case OwnerText(text) => ParseOwner(text)
  }

  /** Building a failure resolves the owner and normalizes provider, provider code and code. */
  function Make(n: Normalizers, source: ErrorSource, kind: ErrorType, code: string, owner: OwnerArg,
                provider: Option<string>, providerCode: Option<string>, retryable: Option<bool>)
    : Result<DograhFailure, Raised>
  {
    match ResolveOwner(kind, owner)
    case Err(e) => Err(e)
    case Ok(resolved) =>
      Ok(DograhFailure(source, kind, n.code(code), resolved, n.provider(provider),
                       n.provider(providerCode), retryable))
  }

  // ---------------------------------------------------------------------------
  // The classifiers
  // ---------------------------------------------------------------------------

  function SourceName(source: ErrorSource): string {
    match source
    case Llm => "llm"
    case Tts => "tts"
    case Stt => "stt"
    case Telephony => "telephony"
    case Transport => "transport"
    case Webhook => "webhook"
    case Integration => "integration"
    case Tool => "tool"
    case KnowledgeBase => "knowledge-base"
    case Platform => "platform"
  }

  const DOGRAH := "dograh"

  function KindForStatus(status: int): (ErrorType, Option<bool>) {
    if status == 401 || status == 403 then (ConfigError, Some(false))
    else if status == 402 || status == 429 then (QuotaError, Some(false))
    else if status == 408 || 500 <= status <= 599 then (ProviderError, Some(true))
    else if 400 <= status <= 499 then (ConfigError, Some(false))
    else (SystemError, None)
  }

  function CodeProvider(provider: Option<string>, source: ErrorSource): string {
    if provider.Some? then provider.value else SourceName(source)
  }

  /** The last part of a code. */
  datatype Detail = Status(status: int) | InsufficientCredits | Timeout | Connection | Unknown

  function DetailText(d: Detail): string {
    match d
    case Status(n) => IntText(n)
    case InsufficientCredits => "insufficient-credits"
    case Timeout => "timeout"
    case Connection => "connection"
    case Unknown => "unknown"
  }

  /** What a classifier decides before it builds the failure. */
  datatype Verdict = Verdict(kind: ErrorType, detail: Detail, owner: OwnerArg, retryable: Option<bool>)

  function Build(n: Normalizers, source: ErrorSource, provider: Option<string>, v: Verdict,
                 providerCode: Option<string>)
    : Result<DograhFailure, Raised>
  {
    Make(n, source, v.kind, CodeProvider(provider, source) + "-" + DetailText(v.detail), v.owner, provider,
         providerCode, v.retryable)
  }

  /** `own` says that the provider is the platform itself. */
  function HttpVerdict(own: bool, status: int, owner: OwnerArg): Verdict {
    if own then
      if status == 402 then Verdict(QuotaError, InsufficientCredits, Owner(User), Some(false))
      else Verdict(SystemError, Status(status), Owner(Operator), Some(500 <= status <= 599))
    else
      var (kind, retryable) := KindForStatus(status);
      Verdict(kind, Status(status), owner, retryable)
  }

  function ClassifyHttpResponse(n: Normalizers, status: int, source: ErrorSource, provider: Option<string>,
                                providerCode: Option<string>, owner: OwnerArg): Result<DograhFailure, Raised>
  {
    var normalized := n.provider(provider);
    Build(n, source, normalized, HttpVerdict(normalized == Some(DOGRAH), status, owner),
          n.provider(providerCode))
  }

  /** `statusInMessage` is the three-digit status that the message names, if the pattern finds one. */
  function ClassifyMessage(n: Normalizers, statusInMessage: Option<nat>, source: ErrorSource, provider: Option<string>,
                           owner: OwnerArg): Result<DograhFailure, Raised>
  {
    var normalized := n.provider(provider);
    if normalized == Some(DOGRAH) then
      Build(n, source, normalized, Verdict(SystemError, Unknown, Owner(Operator), None), None)
    else if statusInMessage.Some? then
      ClassifyHttpResponse(n, statusInMessage.value, source, normalized, None, owner)
    else
      Build(n, source, normalized, Verdict(SystemError, Unknown, owner, None), None)
  }

  /**
   What the classifier reads off an exception: its HTTP status, its vendor code, the status its message names,
   whether it is a timeout, another connection or operating-system error, or a websocket that closed, or whose
   name mentions a connection.
   */
  datatype Exception = Exception(
    status: Option<int>,
    vendorCode: Option<string>,
    statusInMessage: Option<nat>,
    timeout: bool,
    osError: bool,
    websocketClosed: bool,
    websocketConnection: bool)

  /** Timeouts are themselves among the exception classes that count as transient. */
  predicate IsTransportError(e: Exception) {
    e.timeout || e.osError
  }

  function ExceptionVerdict(own: bool, e: Exception, owner: OwnerArg): Verdict {
    if own then
      var transient := IsTransportError(e) || e.websocketClosed;
      Verdict(SystemError, if e.timeout then Timeout else if transient then Connection else Unknown,
              Owner(Operator), if transient then Some(true) else None)
    else
      var transient := e.websocketClosed || e.websocketConnection || IsTransportError(e);
      Verdict(if transient then ProviderError else SystemError,
              if e.timeout then Timeout else if transient then Connection else Unknown,
              owner, if transient then Some(true) else None)
  }

  /** An exception without an HTTP status; the provider is already normalized. */
  function ClassifyWithoutStatus(n: Normalizers, e: Exception, source: ErrorSource, normalized: Option<string>,
                                 owner: OwnerArg): Result<DograhFailure, Raised>
  {
    if normalized == Some(DOGRAH) then
      Build(n, source, Some(DOGRAH), ExceptionVerdict(true, e, owner), e.vendorCode)
    else if e.statusInMessage.Some? then
      ClassifyHttpResponse(n, e.statusInMessage.value, source, normalized, None, owner)
    else
      Build(n, source, normalized, ExceptionVerdict(false, e, owner), e.vendorCode)
  }

  function ClassifyException(n: Normalizers, e: Exception, source: ErrorSource, provider: Option<string>,
                             owner: OwnerArg)
    : Result<DograhFailure, Raised>
  {
    if e.status.Some? then
      ClassifyHttpResponse(n, e.status.value, source, provider, e.vendorCode, owner)
    else
      ClassifyWithoutStatus(n, e, source, n.provider(provider), owner)
  }

  // ---------------------------------------------------------------------------
  // Every result
  // ---------------------------------------------------------------------------

  /** A call of one of the three classifiers. */
  datatype Call =
    | Http(status: int, providerCode: Option<string>)
    | Message(statusInMessage: Option<nat>)
    | Raise(exc: Exception)

  function Classify(n: Normalizers, call: Call, source: ErrorSource, provider: Option<string>, owner: OwnerArg)
    : Result<DograhFailure, Raised>
  {
    match call
    case Http(status, code) => ClassifyHttpResponse(n, status, source, provider, code, owner)
    case Message(status) => ClassifyMessage(n, status, source, provider, owner)
    case Raise(e) => ClassifyException(n, e, source, provider, owner)
  }

  /** The HTTP status a call ends up judging, if any; the platform's own provider is not judged by message text. */
  function JudgedStatus(own: bool, call: Call): Option<int> {
    match call
    case Http(status, _) => Some(status)
    case Message(status) => if own || status.None? then None else Some(status.value)
    case Raise(e) =>
      if e.status.Some? then e.status
      else if own || e.statusInMessage.None? then None
      else Some(e.statusInMessage.value)
  }

  /** The vendor code a call carries along; text found in a message carries none. */
  function VendorCode(own: bool, call: Call): Option<string> {
    match call
    case Http(_, code) => code
    case Message(_) => None
    case Raise(e) => if e.status.None? && JudgedStatus(own, call).Some? then None else e.vendorCode
  }

  function VerdictOf(own: bool, call: Call, owner: OwnerArg): Verdict {
    var status := JudgedStatus(own, call);
    if status.Some? then HttpVerdict(own, status.value, owner)
    else if call.Raise? then ExceptionVerdict(own, call.exc, owner)
    else Verdict(SystemError, Unknown, if own then Owner(Operator) else owner, None)
  }

  /** The provider is the platform itself. */
  predicate Own(n: Normalizers, provider: Option<string>) {
    n.provider(provider) == Some(DOGRAH)
  }

  /**
   All routes agree: whichever classifier is called, the verdict depends only on the status, however it was
   found, on the kind of exception where there is none, and on whether the provider is the platform.
   */
  lemma RoutesAgree(n: Normalizers, call: Call, source: ErrorSource, provider: Option<string>, owner: OwnerArg)
    requires Stable(n)
    ensures Classify(n, call, source, provider, owner)
            == Build(n, source, n.provider(provider), VerdictOf(Own(n, provider), call, owner),
                     VendorCode(Own(n, provider), call))
  {
  }

  lemma MakeKeeps(n: Normalizers, source: ErrorSource, provider: Option<string>, v: Verdict, code: Option<string>)
    ensures var r := Build(n, source, provider, v, code);
            && (r.Ok? <==> ResolveOwner(v.kind, v.owner).Ok?)
            && (r.Ok? ==> && r.value.kind == v.kind && r.value.owner == ResolveOwner(v.kind, v.owner).value
                          && r.value.retryable == v.retryable)
  {
  }

  /** The result of a call in terms of its verdict. */
  lemma ResultOfVerdict(n: Normalizers, call: Call, source: ErrorSource, provider: Option<string>, owner: OwnerArg)
    requires Stable(n)
    ensures var r, v := Classify(n, call, source, provider, owner), VerdictOf(Own(n, provider), call, owner);
            && (r.Ok? <==> ResolveOwner(v.kind, v.owner).Ok?)
            && (r.Ok? ==> && r.value.kind == v.kind && r.value.owner == ResolveOwner(v.kind, v.owner).value
                          && r.value.retryable == v.retryable)
  {
    var v := VerdictOf(Own(n, provider), call, owner);
    RoutesAgree(n, call, source, provider, owner);
    MakeKeeps(n, source, n.provider(provider), v, VendorCode(Own(n, provider), call));
  }

  /** The owner agrees with the type: users own configuration and quota errors, operators system errors. */
  predicate OwnerAgrees(f: DograhFailure) {
    && (f.kind.ConfigError? || f.kind.QuotaError? ==> f.owner.User?)
    && (f.kind.SystemError? ==> f.owner.Operator?)
  }

  lemma OwnerConsistent(n: Normalizers, call: Call, source: ErrorSource, provider: Option<string>, owner: OwnerArg)
    requires Stable(n)
    ensures var r := Classify(n, call, source, provider, owner);
            r.Ok? ==>
              && OwnerAgrees(r.value)
              && (r.value.kind.ProviderError? && owner.Owner? ==> r.value.owner == owner.owner)
              && (r.value.kind.ProviderError? && owner.NoOwner? ==> r.value.owner.Operator?)
              && (r.value.kind.ProviderError? && owner.OwnerText? ==> ParseOwner(owner.text) == Ok(r.value.owner))
  {
    ResultOfVerdict(n, call, source, provider, owner);
  }

  /** A classifier raises only for an external provider error whose owner is text that names no owner. */
  lemma RaisesExactlyWhen(n: Normalizers, call: Call, source: ErrorSource, provider: Option<string>, owner: OwnerArg)
    requires Stable(n)
    ensures Classify(n, call, source, provider, NoOwner).Ok?
    ensures Classify(n, call, source, provider, owner).Err?
            <==> && owner.OwnerText? && owner.text != "user" && owner.text != "operator"
                 && Classify(n, call, source, provider, NoOwner).value.kind.ProviderError?
  {
    ResultOfVerdict(n, call, source, provider, owner);
    ResultOfVerdict(n, call, source, provider, NoOwner);
  }

  /** The platform's own service is never blamed on configuration or on a provider, on quota only for status 402. */
  lemma PlatformNeverBlamesUser(n: Normalizers, call: Call, source: ErrorSource, provider: Option<string>,
                                owner: OwnerArg)
    requires Stable(n) && Own(n, provider)
    ensures var r := Classify(n, call, source, provider, owner);
            && r.Ok?
            && !r.value.kind.ConfigError? && !r.value.kind.ProviderError?
            && (r.value.kind.QuotaError? <==> JudgedStatus(true, call) == Some(402))
            && (r.value.owner.User? <==> JudgedStatus(true, call) == Some(402))
  {
    ResultOfVerdict(n, call, source, provider, owner);
  }

  lemma VerdictRetry(call: Call, owner: OwnerArg)
    ensures VerdictOf(false, call, owner).retryable == Some(true) <==> VerdictOf(false, call, owner).kind.ProviderError?
  {
  }

  /** For every other provider, a retry is advised exactly for provider errors. */
  lemma RetryMeansProviderError(n: Normalizers, call: Call, source: ErrorSource, provider: Option<string>,
                                owner: OwnerArg)
    requires Stable(n) && !Own(n, provider)
    ensures var r := Classify(n, call, source, provider, owner);
            r.Ok? ==> (r.value.retryable == Some(true) <==> r.value.kind.ProviderError?)
  {
    ResultOfVerdict(n, call, source, provider, owner);
    VerdictRetry(call, owner);
  }

  // ---------------------------------------------------------------------------
  // Codes
  // ---------------------------------------------------------------------------

  lemma {:induction false} DigitsAreWord(n: nat)
    ensures Digits(n) != "" && AllWord(Digits(n))
  {
    if n >= 10 { DigitsAreWord(n / 10); }
  }

  lemma SourceNameIsNormal(source: ErrorSource)
    ensures SourceName(source) != "" && NormalForm(SourceName(source))
  {
    if source.KnowledgeBase? {
      WordIsNormal("knowledge");
      WordIsNormal("base");
      NormalFormJoined("knowledge", "base");
      assert "knowledge" + "-" + "base" == "knowledge-base";
    } else {
      WordIsNormal(SourceName(source));
    }
  }

  /** The detail as it appears in the code: a minus sign is a separator like any other. */
  function ShownDetail(d: Detail): string {
    if d.Status? && d.status < 0 then Digits(-d.status) else DetailText(d)
  }

  lemma DetailIsNormal(d: Detail)
    ensures ShownDetail(d) != "" && NormalForm(ShownDetail(d))
    ensures DetailText(d) == (if d.Status? && d.status < 0 then "-" else "") + ShownDetail(d)
  {
    match d
    case Status(n) =>
      DigitsAreWord(if n < 0 then -n else n);
      WordIsNormal(ShownDetail(d));
    case InsufficientCredits => CreditsIsNormal();
    case _ => WordIsNormal(DetailText(d));
  }

  lemma CreditsIsNormal()
    ensures NormalForm("insufficient-credits")
  {
    WordIsNormal("insufficient");
    WordIsNormal("credits");
    NormalFormJoined("insufficient", "credits");
    assert "insufficient" + "-" + "credits" == "insufficient-credits";
  }

  /**
   The code is the normalized provider, or else the source, a dash and the detail, exactly: normalizing does not
   alter it but for a minus sign of the status, and normalizing it again does not either.
   */
  lemma CodeIsProviderAndDetail(x: Text, call: Call, source: ErrorSource, provider: Option<string>, owner: OwnerArg)
    requires IsPython(x)
    ensures var r := Classify(Python(x), call, source, provider, owner);
            r.Ok? ==>
              && r.value.provider == NormalizeProvider(x, provider)
              && r.value.code == CodeProvider(NormalizeProvider(x, provider), source) + "-"
                                 + ShownDetail(VerdictOf(Own(Python(x), provider), call, owner).detail)
              && NormalForm(r.value.code) && NormalizeCode(x, r.value.code) == r.value.code
  {
    var n, own := Python(x), Own(Python(x), provider);
    PythonIsStable(x);
    RoutesAgree(n, call, source, provider, owner);
    ReadableCode(x, source, provider, VerdictOf(own, call, owner).detail);
    BuildCode(n, source, n.provider(provider), VerdictOf(own, call, owner), VendorCode(own, call));
    ProviderIsStable(x, provider);
  }

  lemma BuildCode(n: Normalizers, source: ErrorSource, provider: Option<string>, v: Verdict, code: Option<string>)
    ensures var r := Build(n, source, provider, v, code);
            r.Ok? ==> r.value.provider == n.provider(provider)
                      && r.value.code == n.code(CodeProvider(provider, source) + "-" + DetailText(v.detail))
  {
  }

  lemma DashTwice(s: string, t: string)
    ensures s + "-" + ("-" + t) == s + "--" + t
  {
  }

  lemma ReadableCode(x: Text, source: ErrorSource, provider: Option<string>, d: Detail)
    requires IsPython(x)
    ensures var prefix := CodeProvider(NormalizeProvider(x, provider), source);
            var code := prefix + "-" + ShownDetail(d);
            && NormalForm(code) && NormalizeCode(x, code) == code
            && NormalizeCode(x, prefix + "-" + DetailText(d)) == code
  {
    ProviderIsStable(x, provider);
    SourceNameIsNormal(source);
    DetailIsNormal(d);
    var prefix := CodeProvider(NormalizeProvider(x, provider), source);
    JoinedCode(x, prefix, ShownDetail(d));
    if DetailText(d) != ShownDetail(d) {
      JoinedByTwo(x, prefix, ShownDetail(d));
      DashTwice(prefix, ShownDetail(d));
    }
  }
}
