/**
  The central error taxonomy: typed application errors, the conversion of
  native errors by their message, the error-type to HTTP-status table,
  recoverability, the retry strategy per error type and the exponential
  backoff schedule of `retryWithBackoff`.
 */
module ErrorHandler {
  import opened StringUtil
  import opened Options

  datatype ErrorType =
    | ValidationError | MissingRequiredField | InvalidInput
    | FileProcessingError | PdfExtractionError | TextExtractionError
    | AiProviderError | AiQuotaExceeded | AiTimeout | AiInvalidResponse
    | NodeExecutionError | AgentExecutionError | WorkflowError
    | ApiError | EmailError | DatabaseError
    | TimeoutError | NetworkError | UnknownError

  datatype Severity = Low | Medium | High | Critical

  /** An `AppError`; its context record and timestamp are not modelled. */
  datatype AppError = AppError(
    errorType: ErrorType,
    severity: Severity,
    userMessage: string,
    technicalMessage: string,
    suggestedAction: Option<string>,
    retryable: bool,
    isOperational: bool)

  /** The `AppError` constructor: `retryable` defaults to false and `isOperational` to true. */
  function NewAppError(errorType: ErrorType, severity: Severity, userMessage: string, technicalMessage: string,
                       suggestedAction: Option<string>, retryable: Option<bool>, isOperational: Option<bool>): (e: AppError)
    ensures e.errorType == errorType && e.severity == severity
    ensures e.userMessage == userMessage && e.technicalMessage == technicalMessage
    ensures e.suggestedAction == suggestedAction
    ensures e.retryable <==> retryable == Some(true)
    ensures e.isOperational <==> isOperational != Some(false)
  {
    AppError(errorType, severity, userMessage, technicalMessage, suggestedAction,
             if retryable.Some? then retryable.value else false,
             if isOperational.Some? then isOperational.value else true)
  }

  const ValidationAction := "Verifique os dados informados e tente novamente."
  const FileAction := "Verifique se o arquivo está corrompido ou tente outro formato."
  const ProviderUserMessage := "Erro ao processar com IA. Tentando provedor alternativo..."
  const ProviderAction := "O sistema tentará automaticamente outro provedor de IA."
  const QuotaUserMessage := "Limite de uso da IA atingido. Tente novamente em alguns minutos."
  const QuotaAction := "Aguarde alguns minutos ou entre em contato com o suporte."
  const NodeAction := "Verifique a configuração desta etapa e tente novamente."
  const EmailAction := "Verifique o endereço de email e tente novamente."
  const TimeoutUserMessage := "A operação demorou muito tempo. Tente novamente."
  const TimeoutAction := "Tente novamente com um arquivo menor ou aguarde alguns minutos."
  const NetworkUserMessage := "Erro de conexão. Verifique sua internet."
  const NetworkAction := "Verifique sua conexão com a internet e tente novamente."
  const ProcessingUserMessage := "Ocorreu um erro durante o processamento."
  const UnexpectedUserMessage := "Ocorreu um erro inesperado. Nossa equipe foi notificada."
  const RetryAction := "Tente novamente. Se o problema persistir, entre em contato com o suporte."

  /** `ValidationError(field, message)`. */
  function ValidationErrorOf(field: string, message: string): (e: AppError)
    ensures e.errorType == ValidationError && e.severity == Medium
    ensures e.retryable && e.isOperational
    ensures Contains(e.userMessage, field) && EndsWith(e.userMessage, message)
  {
    var prefix := "Campo inválido: ";
    ContainsConcat(prefix, field, ". " + message);
    EndsWithConcat(prefix + field + ". ", message);
    assert prefix + field + ". " + message == prefix + field + (". " + message);
    NewAppError(ValidationError, Medium, prefix + field + ". " + message,
                "Validation failed for field: " + field, Some(ValidationAction), Some(true), None)
  }

  /** `FileProcessingError(fileName, reason)`. */
  function FileProcessingErrorOf(fileName: string, reason: string): (e: AppError)
    ensures e.errorType == FileProcessingError && e.severity == High
    ensures e.retryable && e.isOperational
    ensures EndsWith(e.technicalMessage, fileName) && EndsWith(e.userMessage, reason)
  {
    var user := "Não foi possível processar o arquivo \"" + fileName + "\". " + reason;
    EndsWithConcat("Não foi possível processar o arquivo \"" + fileName + "\". ", reason);
    EndsWithConcat("File processing failed: ", fileName);
    NewAppError(FileProcessingError, High, user, "File processing failed: " + fileName,
                Some(FileAction), Some(true), None)
  }

  /** `AIProviderError(provider, reason)`. */
  function AiProviderErrorOf(provider: string, reason: string): (e: AppError)
    ensures e.errorType == AiProviderError && e.severity == High
    ensures e.retryable && e.isOperational
    ensures Contains(e.technicalMessage, provider) && EndsWith(e.technicalMessage, reason)
  {
    ContainsConcat("AI Provider ", provider, " failed: " + reason);
    assert "AI Provider " + provider + " failed: " + reason == "AI Provider " + provider + (" failed: " + reason);
    EndsWithConcat("AI Provider " + provider + " failed: ", reason);
    NewAppError(AiProviderError, High, ProviderUserMessage, "AI Provider " + provider + " failed: " + reason,
                Some(ProviderAction), Some(true), None)
  }

  /** `AIQuotaExceededError(provider)`: the one critical error type. */
  function AiQuotaExceededErrorOf(provider: string): (e: AppError)
    ensures e.errorType == AiQuotaExceeded && e.severity == Critical
    ensures e.retryable && e.isOperational
    ensures EndsWith(e.technicalMessage, provider)
  {
    EndsWithConcat("AI quota exceeded for provider: ", provider);
    NewAppError(AiQuotaExceeded, Critical, QuotaUserMessage, "AI quota exceeded for provider: " + provider,
                Some(QuotaAction), Some(true), None)
  }

  /** `NodeExecutionError(nodeId, nodeLabel, reason)`. */
  function NodeExecutionErrorOf(nodeId: string, nodeLabel: string, reason: string): (e: AppError)
    ensures e.errorType == NodeExecutionError && e.severity == High
    ensures e.retryable && e.isOperational
    ensures EndsWith(e.technicalMessage, nodeId) && Contains(e.userMessage, nodeLabel)
  {
    var prefix := "Erro ao executar etapa \"";
    ContainsConcat(prefix, nodeLabel, "\". " + reason);
    assert prefix + nodeLabel + "\". " + reason == prefix + nodeLabel + ("\". " + reason);
    EndsWithConcat("Node execution failed: ", nodeId);
    NewAppError(NodeExecutionError, High, prefix + nodeLabel + "\". " + reason,
                "Node execution failed: " + nodeId, Some(NodeAction), Some(true), None)
  }

  /** `EmailError(recipient, reason)`. */
  function EmailErrorOf(recipient: string, reason: string): (e: AppError)
    ensures e.errorType == EmailError && e.severity == Medium
    ensures e.retryable && e.isOperational
    ensures EndsWith(e.technicalMessage, recipient) && Contains(e.userMessage, recipient)
  {
    var prefix := "Não foi possível enviar email para ";
    ContainsConcat(prefix, recipient, ". " + reason);
    assert prefix + recipient + ". " + reason == prefix + recipient + (". " + reason);
    EndsWithConcat("Email sending failed to: ", recipient);
    NewAppError(EmailError, Medium, prefix + recipient + ". " + reason,
                "Email sending failed to: " + recipient, Some(EmailAction), Some(true), None)
  }

  predicate MentionsQuota(lower: string) {
    Contains(lower, "quota") || Contains(lower, "rate limit")
  }

  predicate MentionsTimeout(lower: string) {
    Contains(lower, "timeout") || Contains(lower, "timed out")
  }

  predicate MentionsNetwork(lower: string) {
    Contains(lower, "network") || Contains(lower, "fetch failed")
  }

  predicate MentionsFile(lower: string) {
    Contains(lower, "pdf") || Contains(lower, "file")
  }

  /**
    `convertNativeError`: the lower-cased message is searched for quota or
    rate-limit words first, then timeout words, then network words, then
    pdf/file words; anything else is an unknown error. Every result is
    retryable.
   */
  function ConvertNativeError(message: string): (e: AppError)
    ensures e.retryable && e.isOperational
    ensures e.errorType == AiQuotaExceeded <==> MentionsQuota(ToLower(message))
    ensures e.errorType == TimeoutError <==> !MentionsQuota(ToLower(message)) && MentionsTimeout(ToLower(message))
    ensures e.errorType == NetworkError <==>
      !MentionsQuota(ToLower(message)) && !MentionsTimeout(ToLower(message)) && MentionsNetwork(ToLower(message))
    ensures e.errorType == FileProcessingError <==>
      !MentionsQuota(ToLower(message)) && !MentionsTimeout(ToLower(message)) && !MentionsNetwork(ToLower(message))
      && MentionsFile(ToLower(message))
    ensures e.errorType == UnknownError <==>
      !MentionsQuota(ToLower(message)) && !MentionsTimeout(ToLower(message)) && !MentionsNetwork(ToLower(message))
      && !MentionsFile(ToLower(message))
    ensures e.errorType in {TimeoutError, NetworkError, UnknownError} ==> e.technicalMessage == message
  {
    var lower := ToLower(message);
    if MentionsQuota(lower) then AiQuotaExceededErrorOf("unknown")
    else if MentionsTimeout(lower) then
      NewAppError(TimeoutError, Medium, TimeoutUserMessage, message, Some(TimeoutAction), Some(true), None)
    else if MentionsNetwork(lower) then
      NewAppError(NetworkError, Medium, NetworkUserMessage, message, Some(NetworkAction), Some(true), None)
    else if MentionsFile(lower) then FileProcessingErrorOf("arquivo", message)
    else NewAppError(UnknownError, High, ProcessingUserMessage, message, Some(RetryAction), Some(true), None)
  }

  /** Conversion looks only at the lower-cased message: a message and its lower-case form convert to the same type. */
  lemma ConvertNativeErrorCaseInsensitive(message: string)
    ensures ConvertNativeError(ToLower(message)).errorType == ConvertNativeError(message).errorType
    ensures ConvertNativeError(ToLower(message)).severity == ConvertNativeError(message).severity
  {
    ToLowerIdempotent(message);
  }

  /** What `ErrorHandler.handle` is given. */
  datatype Thrown =
    | ThrownAppError(error: AppError)
    | ThrownNativeError(message: string)
    | ThrownValue(text: string)  // anything else, as `String(error)` renders it

  /** `ErrorHandler.handle`: application errors pass through, native errors are converted, anything else is an unknown error. */
  function Handle(thrown: Thrown): (e: AppError)
    ensures thrown.ThrownAppError? ==> e == thrown.error
    ensures thrown.ThrownNativeError? ==> e == ConvertNativeError(thrown.message)
    ensures thrown.ThrownValue? ==> e.errorType == UnknownError && e.severity == High && e.retryable
    ensures thrown.ThrownValue? ==> EndsWith(e.technicalMessage, thrown.text)
  {
    match thrown
    case ThrownAppError(error) => error
    case ThrownNativeError(message) => ConvertNativeError(message)
    case ThrownValue(text) =>
      EndsWithConcat("Unknown error: ", text);
      NewAppError(UnknownError, High, UnexpectedUserMessage, "Unknown error: " + text, Some(RetryAction), Some(true), None)
  }

  /** `getHTTPStatusCode`. */
  function HttpStatusCode(t: ErrorType): (status: nat)
    ensures 400 <= status < 600
    ensures status == 400 <==> t in {ValidationError, MissingRequiredField, InvalidInput}
    ensures status == 422 <==> t in {FileProcessingError, PdfExtractionError, TextExtractionError}
    ensures status == 429 <==> t == AiQuotaExceeded
    ensures status == 504 <==> t in {AiTimeout, TimeoutError}
    ensures status == 502 <==> t in {AiInvalidResponse, ApiError}
    ensures status == 503 <==> t in {AiProviderError, EmailError, DatabaseError, NetworkError}
    ensures status == 500 <==> t in {NodeExecutionError, AgentExecutionError, WorkflowError, UnknownError}
  {
    match t
    case ValidationError => 400
    case MissingRequiredField => 400
    case InvalidInput => 400
    case FileProcessingError => 422
    case PdfExtractionError => 422
    case TextExtractionError => 422
    case AiProviderError => 503
    case AiQuotaExceeded => 429
    case AiTimeout => 504
    case AiInvalidResponse => 502
    case NodeExecutionError => 500
    case AgentExecutionError => 500
    case WorkflowError => 500
    case ApiError => 502
    case EmailError => 503
    case DatabaseError => 503
    case TimeoutError => 504
    case NetworkError => 503
    case UnknownError => 500
  }

  /** The body of `toHTTPResponse`; technical details appear only when asked for in development. */
  datatype HttpResponse = HttpResponse(
    status: nat,
    success: bool,
    errorType: ErrorType,
    message: string,
    suggestedAction: Option<string>,
    retryable: bool,
    technicalDetails: Option<string>)

  function ToHttpResponse(e: AppError, includeStack: bool, development: bool): (r: HttpResponse)
    ensures !r.success && r.status == HttpStatusCode(e.errorType)
    ensures r.message == e.userMessage && r.retryable == e.retryable && r.errorType == e.errorType
    ensures r.technicalDetails.Some? <==> includeStack && development
    ensures r.technicalDetails.Some? ==> r.technicalDetails.value == e.technicalMessage
  {
    HttpResponse(HttpStatusCode(e.errorType), false, e.errorType, e.userMessage, e.suggestedAction, e.retryable,
                 if includeStack && development then Some(e.technicalMessage) else None)
  }

  /** A converted native error maps to a 429, 504, 503, 422 or 500 response, following the message's words. */
  lemma ConvertedStatus(message: string)
    ensures var s := HttpStatusCode(ConvertNativeError(message).errorType);
      (s == 429 <==> MentionsQuota(ToLower(message))) && s in {429, 504, 503, 422, 500}
  {
  }

  /** `isRecoverable`. */
  predicate IsRecoverable(e: AppError) {
    e.retryable && e.severity != Critical
  }

  /** Of the converted native errors, exactly the quota errors are not recoverable. */
  lemma ConvertedRecoverable(message: string)
    ensures IsRecoverable(ConvertNativeError(message)) <==> !MentionsQuota(ToLower(message))
  {
  }

  datatype RetryStrategy = RetryStrategy(shouldRetry: bool, delayMs: nat, maxRetries: nat)

  /** `getRetryStrategy`. */
  function GetRetryStrategy(e: AppError): (s: RetryStrategy)
    ensures s.shouldRetry <==> e.retryable
    ensures !e.retryable ==> s.delayMs == 0 && s.maxRetries == 0
    ensures e.retryable ==> 1000 <= s.delayMs <= 60000 && 2 <= s.maxRetries <= 3
    ensures e.retryable && e.errorType == AiQuotaExceeded ==> s == RetryStrategy(true, 60000, 3)
    ensures e.retryable && e.errorType in {NetworkError, TimeoutError} ==> s == RetryStrategy(true, 5000, 3)
    ensures e.retryable && e.errorType == AiProviderError ==> s == RetryStrategy(true, 2000, 2)
    ensures e.retryable && e.errorType == FileProcessingError ==> s == RetryStrategy(true, 1000, 2)
    ensures e.retryable && e.errorType !in {AiQuotaExceeded, NetworkError, TimeoutError, AiProviderError, FileProcessingError}
      ==> s == RetryStrategy(true, 3000, 2)
  {
    if !e.retryable then RetryStrategy(false, 0, 0)
    else match e.errorType
      case AiQuotaExceeded => RetryStrategy(true, 60000, 3)
      case NetworkError => RetryStrategy(true, 5000, 3)
      case TimeoutError => RetryStrategy(true, 5000, 3)
      case AiProviderError => RetryStrategy(true, 2000, 2)
      case FileProcessingError => RetryStrategy(true, 1000, 2)
      case _ => RetryStrategy(true, 3000, 2)
  }

  /** A recoverable error is always retried; a converted native error always is. */
  lemma RecoverableIsRetried(e: AppError)
    ensures IsRecoverable(e) ==> GetRetryStrategy(e).shouldRetry
    ensures GetRetryStrategy(e).shouldRetry ==> GetRetryStrategy(e).delayMs > 0
  {
  }

  /** The log level `logError` uses for a severity. */
  datatype LogLevel = ErrorLevel | WarnLevel | InfoLevel

  function LogLevelOf(s: Severity): (l: LogLevel)
    ensures l == ErrorLevel <==> s in {Critical, High}
    ensures l == WarnLevel <==> s == Medium
  {
    match s
    case Critical => ErrorLevel
    case High => ErrorLevel
    case Medium => WarnLevel
    case Low => InfoLevel
  }

  // ---------------------------------------------------------------------------
  // retryWithBackoff
  // ---------------------------------------------------------------------------

  /** What one call of the retried function does: return a value or throw an error with a message. */
  datatype Outcome<T> = Returned(value: T) | ThrewError(message: string)

  datatype RetryResult<T> = Succeeded(value: T) | GaveUp(lastError: string)

  /** The options of `retryWithBackoff`; missing ones take their defaults. */
  datatype RetryOptions = RetryOptions(
    maxRetries: Option<nat>,
    initialDelayMs: Option<nat>,
    maxDelayMs: Option<nat>,
    backoffMultiplier: Option<nat>)

  function OrDefault(o: Option<nat>, d: nat): nat {
    if o.Some? then o.value else d
  }

  /** The delay slept after the k-th failure: the initial delay, then multiplied and capped each time. */
  function BackoffDelay(initial: nat, multiplier: nat, maxDelay: nat, k: nat): (d: nat)
    ensures k > 0 ==> d <= maxDelay
  {
    if k == 0 then initial else NextDelay(BackoffDelay(initial, multiplier, maxDelay, k - 1), multiplier, maxDelay)
  }

  /** `Math.min(delay * backoffMultiplier, maxDelayMs)`. */
  function NextDelay(delay: nat, multiplier: nat, maxDelay: nat): (d: nat)
    ensures d <= maxDelay
  {
    if delay * multiplier < maxDelay then delay * multiplier else maxDelay
  }

  function Power(b: nat, e: nat): nat {
    if e == 0 then 1 else b * Power(b, e - 1)
  }

  /** With a multiplier of at least 1 and an initial delay under the cap, delays never shrink. */
  lemma BackoffMonotone(initial: nat, multiplier: nat, maxDelay: nat, k: nat)
    requires multiplier >= 1 && initial <= maxDelay
    ensures BackoffDelay(initial, multiplier, maxDelay, k) <= BackoffDelay(initial, multiplier, maxDelay, k + 1)
  {
    MulGrows(BackoffDelay(initial, multiplier, maxDelay, k), multiplier);
  }

  lemma MulGrows(d: nat, m: nat)
    requires m >= 1
    ensures d <= d * m
  {
    assert d * m == d + d * (m - 1);
  }

  /** Until the cap is reached, the delays grow geometrically: initial · multiplier^k. */
  lemma {:induction false} BackoffGeometric(initial: nat, multiplier: nat, maxDelay: nat, k: nat)
    requires multiplier >= 1 && initial * Power(multiplier, k) < maxDelay
    ensures BackoffDelay(initial, multiplier, maxDelay, k) == initial * Power(multiplier, k)
  {
    if k > 0 {
      var p := Power(multiplier, k - 1);
      var x := initial * p;
      ScaleStep(initial, multiplier, p);
      BackoffGeometric(initial, multiplier, maxDelay, k - 1);
      assert BackoffDelay(initial, multiplier, maxDelay, k) == NextDelay(x, multiplier, maxDelay);
    }
  }

  /** Scaling `initial · p` once more by a multiplier of at least 1 gives `initial · (multiplier · p)`, no smaller. */
  lemma ScaleStep(initial: nat, multiplier: nat, p: nat)
    requires multiplier >= 1
    ensures initial * (multiplier * p) == initial * p * multiplier
    ensures initial * p <= initial * p * multiplier
  {
  }

  /** The run of `retryWithBackoff`: how it ended, how many calls it made and the delays it slept, in order. */
  datatype RetryRun<T> = RetryRun(result: RetryResult<T>, attempts: nat, delays: seq<nat>)

  /**
    `retryWithBackoff`: `call(k)` is what the k-th call of the function does.
    The first returned value ends the run; after maxRetries+1 failures the
    last error is rethrown. A delay is slept after every failure but the last.
   */
  method RetryWithBackoff<T>(call: nat -> Outcome<T>, options: RetryOptions) returns (run: RetryRun<T>)
    ensures 1 <= run.attempts <= OrDefault(options.maxRetries, 3) + 1
    ensures forall k :: 0 <= k < run.attempts - 1 ==> call(k).ThrewError?
    ensures run.result.Succeeded? <==> call(run.attempts - 1).Returned?
    ensures run.result.Succeeded? ==> run.result.value == call(run.attempts - 1).value
    ensures run.result.GaveUp? ==>
      run.attempts == OrDefault(options.maxRetries, 3) + 1 && run.result.lastError == call(run.attempts - 1).message
    ensures |run.delays| == run.attempts - 1
    ensures forall k :: 0 <= k < |run.delays| ==>
      run.delays[k] == BackoffDelay(OrDefault(options.initialDelayMs, 1000), OrDefault(options.backoffMultiplier, 2),
                                    OrDefault(options.maxDelayMs, 30000), k)
  {
    var maxRetries := OrDefault(options.maxRetries, 3);
    var initial := OrDefault(options.initialDelayMs, 1000);
    var maxDelay := OrDefault(options.maxDelayMs, 30000);
    var multiplier := OrDefault(options.backoffMultiplier, 2);
    var lastError := "";
    var delay := initial;
    var delays: seq<nat> := [];
    var attempt := 0;
    while attempt <= maxRetries
      invariant 0 <= attempt <= maxRetries + 1
      invariant forall k :: 0 <= k < attempt ==> call(k).ThrewError?
      invariant attempt > 0 ==> lastError == call(attempt - 1).message
      invariant |delays| == if attempt <= maxRetries then attempt else maxRetries
      invariant delay == BackoffDelay(initial, multiplier, maxDelay, |delays|)
      invariant forall k :: 0 <= k < |delays| ==> delays[k] == BackoffDelay(initial, multiplier, maxDelay, k)
    {
      var outcome := call(attempt);
      if outcome.Returned? {
        return RetryRun(Succeeded(outcome.value), attempt + 1, delays);
      }
      lastError := outcome.message;
      if attempt < maxRetries {
        delays := delays + [delay];
        delay := NextDelay(delay, multiplier, maxDelay);
      }
      attempt := attempt + 1;
    }
    return RetryRun(GaveUp(lastError), attempt, delays);
  }
}
