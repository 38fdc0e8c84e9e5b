/**
  The API middleware helpers: the in-memory fixed-window rate limiter, the
  required-field check of request bodies and middleware composition. The
  limiter's map is passed in and returned, and the current time `now` (in
  milliseconds) is a parameter.
 */
module ApiMiddleware {
  import opened StringUtil
  import opened Options
  import opened ErrorHandler

  /** One identifier's window: requests counted so far and the time the window ends. */
  datatype Window = Window(count: nat, resetTime: int)

  type Limits = map<string, Window>

  datatype RateLimitOptions = RateLimitOptions(maxRequests: nat, windowMs: nat)

  const DefaultRateLimit := RateLimitOptions(100, 60000)

  datatype Decision = Decision(allowed: bool, remaining: int, resetTime: int)

  /** The window is missing or over: the request opens a new one. */
  predicate OpensWindow(limits: Limits, id: string, now: int) {
    id !in limits || now > limits[id].resetTime
  }

  /**
    `checkRateLimit`: a request opening a window is allowed and counted as
    the first; inside a window a request is denied once `maxRequests` were
    counted, and otherwise counted. Only `id`'s entry changes.
   */
  function CheckRateLimit(limits: Limits, id: string, options: RateLimitOptions, now: int): (r: (Decision, Limits))
    ensures var (d, after) := r;
      id in after && forall k :: k != id ==> (k in after <==> k in limits) && (k in limits ==> after[k] == limits[k])
    ensures var (d, after) := r;
      OpensWindow(limits, id, now) ==>
        d == Decision(true, options.maxRequests - 1, now + options.windowMs) && after[id] == Window(1, now + options.windowMs)
    ensures var (d, after) := r;
      !OpensWindow(limits, id, now) ==>
        d.resetTime == limits[id].resetTime && after[id].resetTime == limits[id].resetTime
        && (d.allowed <==> limits[id].count < options.maxRequests)
        && (!d.allowed ==> d.remaining == 0 && after == limits)
        && (d.allowed ==> after[id].count == limits[id].count + 1 && d.remaining == options.maxRequests - after[id].count)
  {
    if OpensWindow(limits, id, now) then
      var resetTime := now + options.windowMs;
      (Decision(true, options.maxRequests - 1, resetTime), limits[id := Window(1, resetTime)])
    else if limits[id].count >= options.maxRequests then
      (Decision(false, 0, limits[id].resetTime), limits)
    else
      var w := Window(limits[id].count + 1, limits[id].resetTime);
      (Decision(true, options.maxRequests - w.count, w.resetTime), limits[id := w])
  }

  /** The requests of one identifier at the given times, in order: how many were allowed, and the final map. */
  function Replay(limits: Limits, id: string, options: RateLimitOptions, times: seq<int>): (r: (nat, Limits))
    ensures r.0 <= |times|
    decreases |times|
  {
    if |times| == 0 then (0, limits)
    else
      var (d, after) := CheckRateLimit(limits, id, options, times[0]);
      var (n, last) := Replay(after, id, options, times[1..]);
      ((if d.allowed then 1 else 0) + n, last)
  }

  function Min(a: int, b: int): int {
    if a <= b then a else b
  }

  function Max(a: int, b: int): int {
    if a <= b then b else a
  }

  /**
    Inside an open window that has counted `c` requests, requests arriving
    no later than its end are allowed one by one until the count reaches
    `maxRequests`, and never after.
   */
  lemma {:induction false} ReplayInsideWindow(limits: Limits, id: string, options: RateLimitOptions, times: seq<int>)
    requires id in limits
    requires forall i :: 0 <= i < |times| ==> times[i] <= limits[id].resetTime
    ensures var (allowed, after) := Replay(limits, id, options, times);
      allowed == Min(|times|, Max(0, options.maxRequests - limits[id].count))
      && id in after && after[id].resetTime == limits[id].resetTime
    decreases |times|
  {
    if |times| > 0 {
      var (d, after) := CheckRateLimit(limits, id, options, times[0]);
      assert forall i :: 0 <= i < |times[1..]| ==> times[1..][i] == times[i + 1];
      ReplayInsideWindow(after, id, options, times[1..]);
    }
  }

  /**
    At most `maxRequests` requests of one identifier are allowed within one
    window (at least the one that opens it): the first request opens the
    window, and the following ones up to its end are allowed only while
    the count is below the maximum.
   */
  lemma {:induction false} AtMostMaxPerWindow(limits: Limits, id: string, options: RateLimitOptions, times: seq<int>)
    requires |times| > 0 && OpensWindow(limits, id, times[0])
    requires forall i :: 0 <= i < |times| ==> times[i] <= times[0] + options.windowMs
    ensures Replay(limits, id, options, times).0 == Min(|times|, Max(1, options.maxRequests))
  {
    var (d, after) := CheckRateLimit(limits, id, options, times[0]);
    assert forall i :: 0 <= i < |times[1..]| ==> times[1..][i] == times[i + 1];
    ReplayInsideWindow(after, id, options, times[1..]);
  }

  // ---------------------------------------------------------------------------
  // validateRequestBody
  // ---------------------------------------------------------------------------

  /** `schema.required.filter(field => !(field in body))`, with the body's keys. */
  function MissingFields(required: seq<string>, keys: set<string>): (r: seq<string>)
    ensures |r| <= |required|
    ensures forall i :: 0 <= i < |r| ==> r[i] in required && r[i] !in keys
  {
    if |required| == 0 then []
    else (if required[0] !in keys then [required[0]] else []) + MissingFields(required[1..], keys)
  }

  /** No missing required key escapes the filter. */
  lemma {:induction false} MissingFieldsComplete(required: seq<string>, keys: set<string>, i: int)
    requires 0 <= i < |required| && required[i] !in keys
    ensures required[i] in MissingFields(required, keys)
  {
    if i > 0 {
      MissingFieldsComplete(required[1..], keys, i - 1);
    }
  }

  /** The schema: required keys, and the verdict of the custom validator on this body, when there is one. */
  datatype BodySchema = BodySchema(required: Option<seq<string>>, validation: Option<CustomValidation>)

  datatype CustomValidation = CustomValidation(valid: bool, errors: seq<string>)

  datatype BodyResult = Body(keys: set<string>) | Rejected(error: AppError)

  const InvalidBodyMessage := "Dados inválidos no corpo da requisição"
  const MissingFieldsPrefix := "Campos obrigatórios faltando: "
  const ValidationFailedPrefix := "Validação falhou: "

  /**
    `validateRequestBody`: `body` is the parsed JSON object's keys, or None
    when the body is not JSON. Parsing, then required keys, then the custom
    validator; each failure is a non-retryable error.
   */
  function ValidateRequestBody(body: Option<set<string>>, schema: BodySchema): (r: BodyResult)
    ensures body.None? ==> r.Rejected? && r.error.errorType == InvalidInput
    ensures r.Body? <==>
      body.Some?
      && (schema.required.Some? ==> forall i :: 0 <= i < |schema.required.value| ==> schema.required.value[i] in body.value)
      && (schema.validation.Some? ==> schema.validation.value.valid)
    ensures r.Body? ==> r.keys == body.value
    ensures r.Rejected? ==> !r.error.retryable && r.error.severity == Medium
    ensures r.Rejected? && r.error.errorType == MissingRequiredField ==>
      body.Some? && schema.required.Some? && StartsWith(r.error.userMessage, MissingFieldsPrefix)
      && exists i :: 0 <= i < |schema.required.value| && schema.required.value[i] !in body.value
  {
    if body.None? then
      Rejected(NewAppError(InvalidInput, Medium, InvalidBodyMessage, "Failed to parse JSON body",
                           Some("Verifique se os dados estão no formato JSON correto"), Some(false), None))
    else if schema.required.Some? && |MissingFields(schema.required.value, body.value)| > 0 then
      var missing := MissingFields(schema.required.value, body.value);
      assert missing[0] in schema.required.value;
      StartsWithAppend(MissingFieldsPrefix, MissingFieldsPrefix, Join(missing, ", "));
      Rejected(NewAppError(MissingRequiredField, Medium, MissingFieldsPrefix + Join(missing, ", "),
                           "Missing required fields: " + Join(missing, ", "),
                           Some("Preencha todos os campos obrigatórios"), Some(false), None))
    else if schema.validation.Some? && !schema.validation.value.valid then
      Rejected(NewAppError(ValidationError, Medium, ValidationFailedPrefix + Join(schema.validation.value.errors, ", "),
                           "Custom validation failed", Some("Corrija os erros de validação e tente novamente"),
                           Some(false), None))
    else
      assert schema.required.Some? ==> forall i :: 0 <= i < |schema.required.value| ==> schema.required.value[i] in body.value by {
        if schema.required.Some? {
          forall i | 0 <= i < |schema.required.value| ensures schema.required.value[i] in body.value {
            if schema.required.value[i] !in body.value {
              MissingFieldsComplete(schema.required.value, body.value, i);
            }
          }
        }
      }
      Body(body.value)
  }

  // ---------------------------------------------------------------------------
  // composeMiddlewares
  // ---------------------------------------------------------------------------

  /** `middlewares.reduceRight((acc, m) => m(acc), handler)`: the last middleware is applied first. */
  function ComposeMiddlewares<H>(middlewares: seq<H -> H>, handler: H): (h: H)
    ensures |middlewares| == 0 ==> h == handler
  {
    if |middlewares| == 0 then handler
    else ComposeMiddlewares(middlewares[..|middlewares| - 1], middlewares[|middlewares| - 1](handler))
  }

  /** Composing a concatenation composes the parts: the earlier list wraps the later one. */
  lemma {:induction false} ComposeAppend<H>(a: seq<H -> H>, b: seq<H -> H>, handler: H)
    ensures ComposeMiddlewares(a + b, handler) == ComposeMiddlewares(a, ComposeMiddlewares(b, handler))
    decreases |b|
  {
    if |b| > 0 {
      var last := b[|b| - 1];
      assert (a + b)[..|a + b| - 1] == a + b[..|b| - 1];
      ComposeAppend(a, b[..|b| - 1], last(handler));
    } else {
      assert a + b == a;
    }
  }

  /** The first middleware listed is the outermost wrapper. */
  lemma FirstIsOutermost<H>(middlewares: seq<H -> H>, handler: H)
    requires |middlewares| > 0
    ensures ComposeMiddlewares(middlewares, handler) == middlewares[0](ComposeMiddlewares(middlewares[1..], handler))
  {
    assert middlewares == [middlewares[0]] + middlewares[1..];
    ComposeAppend([middlewares[0]], middlewares[1..], handler);
    assert [middlewares[0]][..0] == [];
  }
}
