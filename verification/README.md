# MVP Agent Builder core, modelled in Dafny

The MVP Agent Builder is a Next.js application in which users assemble
AI "agents" as workflow graphs of nodes (input, AI, API, logic, output)
joined by edges, fill in Brazilian forms, upload documents and get
formatted reports back. This project models the pure decision and
transformation logic at its core and proves properties of it:

- **Forms** (`forms.dfy`): CPF, CNPJ and CEP validation and masks, per-field validation and conditional field visibility.
- **Workflow ordering** (`workflow.dfy`, `kahn_order.dfy`, `runtime_engine.dfy`, `dependency_order.dfy`): the hybrid engine's Kahn topological sort with its type-grouped and cycle fallbacks, the runtime engine's DFS from the input node, and the earlier engine's dependency-first DFS.
- **Runtime engine helpers** (`runtime_engine.dfy`): structural agent validation, prompt assembly with the extracted file text, phone formatting and the choice of the final output.
- **Errors** (`error_handler.dfy`, `api_middleware.dfy`): classification of native errors, the HTTP status table, recoverability, retry strategy and backoff, the fixed-window API rate limiter, required-field checks and middleware composition.
- **Password-reset rate limit** (`reset_rate_limit.dfy`): three resend requests per e-mail per hour.
- **Validators** (`file_validator.dfy`, `email_validator.dfy`): file extension, size and magic-byte checks; the corporate e-mail check with its free-provider blocklist and whitelist.
- **Analysis** (`node_analyzer.dfy`, `agent_detector.dfy`): input requirements of an agent (schema fields, prompt placeholders, file types, execution flow) and the test detector's complexity grading and validations.
- **Content formatting** (`universal_formatter.dfy`): routing content to an analyzer, text and structured analysis, category detection and field display.
- **State objects** (`connectors.dfy`, `execution_logger.dfy`): the connector registry and the execution logger, as pure state transitions over an insertion-ordered map (`js_map.dfy`).
- **Mock backend** (`mock_backend.dfy`): the Python mock server's agent execution and LLM call endpoints.

Shared helpers: `option.dfy` (the Option type), `string_util.dfy`
(digits, case mapping, search, trimming, number printing) and
`json_value.dfy` (JSON values as an ordered member list, with
JavaScript truthiness).

Clocks are parameters (`now`, `startTime`, `endTime`); every mutable
store (rate-limit maps, the whitelist, the registry, the logger) is a
value that each operation takes and returns. Results of
`JSON.stringify`, `JSON.parse`, Python's `str()` and `hash()` and of a
connector's own `execute` are inputs to the operations that use them.

## Model

| member | source | states |
|---|---|---|
| Forms.CheckDigit | src/services/formsApi.ts:159-160 | a check digit computed from a weighted sum is always a single digit, 0 to 9 |
| Forms.CheckDigitReference | src/services/formsApi.ts:159-160 | `11 - sum % 11`, with 10 and 11 turned into 0, equals the textbook mod-11 digit `(10 * sum % 11) % 10` for every sum |
| Forms.CpfWeightsDescend | src/services/formsApi.ts:154-167 | the first CPF digit is weighted 10 down to 2 over nine digits and the second 11 down to 2 over ten digits |
| Forms.CnpjWeightsCycle | src/services/formsApi.ts:191-205 | the two CNPJ weight tables are the cycle 2..9 read backwards from the checked digit |
| Forms.ValidateCPF | src/services/formsApi.ts:141-172 | an accepted CPF has exactly 11 digits once the mask is stripped and they are not one digit repeated |
| Forms.ValidateCpfSpec | src/services/formsApi.ts:141-172 | a CPF is accepted exactly when its stripped digits are 11, not all the same, and both mod-11 check digits match, for every input string |
| Forms.ValidateCNPJ | src/services/formsApi.ts:178-212 | an accepted CNPJ has exactly 14 digits once stripped and they are not one digit repeated |
| Forms.ValidateCnpjSpec | src/services/formsApi.ts:178-212 | a CNPJ is accepted exactly when its 14 stripped digits are not all the same and both weighted check digits match |
| Forms.ValidateCEP | src/services/formsApi.ts:218-230 | a CEP is accepted exactly when it has 8 digits once stripped and they are not all the same |
| Forms.FormatCPF | src/services/formsApi.ts:236-241 | without 11 digits the input comes back unchanged; with 11 the result has the `ddd.ddd.ddd-dd` separators; either way its digits are the input's digits |
| Forms.FormatCNPJ | src/services/formsApi.ts:246-251 | without 14 digits the input comes back unchanged; with 14 the result has the `dd.ddd.ddd/dddd-dd` separators; its digits are the input's |
| Forms.FormatCEP | src/services/formsApi.ts:256-261 | without 8 digits the input comes back unchanged; with 8 the result is `ddddd-ddd`; its digits are the input's |
| Forms.FormatPreservesValidity | src/services/formsApi.ts:141-261 | formatting a CPF, CNPJ or CEP never changes whether it validates |
| Forms.FormatIdempotent | src/services/formsApi.ts:236-261 | formatting an already formatted CPF, CNPJ or CEP changes nothing |
| Forms.ValidCpfExample | src/services/formsApi.ts:141-172 | a known valid CPF is accepted both bare and after formatting |
| Forms.RemoveSpaces | src/services/formsApi.ts:303 | no white space is left in a phone value before it is matched |
| Forms.RuleErrors | src/services/formsApi.ts:309-325 | a `min_length` rule fails exactly when the value is shorter than its bound and a `max_length` rule exactly when it is longer; every failing rule contributes its own message, or `Mínimo n caracteres` / `Máximo n caracteres` when that is empty; every error comes from a failing rule, and there are no errors exactly when no rule fails |
| Forms.ValidateField | src/services/formsApi.ts:266-327 | an empty required field gives exactly the "é obrigatório" error and an empty optional field none; a non-empty text, select, checkbox or date field gets only its custom-rule errors |
| Forms.ValidateFieldCpf | src/services/formsApi.ts:280-284 | a non-empty CPF field without custom rules passes exactly when the CPF is valid, and otherwise reports only "CPF inválido" |
| Forms.ValidateFieldCnpj | src/services/formsApi.ts:285-289 | a non-empty CNPJ field reports "CNPJ inválido" exactly when the value is not a valid CNPJ, followed by its rule errors |
| Forms.ValidateFieldCep | src/services/formsApi.ts:290-294 | a non-empty CEP field reports "CEP inválido" exactly when the value is not a valid CEP, followed by its rule errors |
| Forms.ValidateFieldPhone | src/services/formsApi.ts:301-306 | a non-empty phone field reports "Telefone inválido" exactly when the value, with white space removed, does not match the phone pattern, followed by its rule errors |
| Forms.ValidateFieldEmail | src/services/formsApi.ts:295-300 | a non-empty email field without custom rules passes exactly when the value has the `x@y.z` shape |
| Forms.PhoneExamples | src/services/formsApi.ts:301-306 | a masked mobile number and a bare landline number match the phone pattern; an area code starting with 0 does not |
| Forms.IsFieldVisible | src/services/formsApi.ts:333-352 | a field without conditional logic is visible; a missing or null watched value gives the rule's default |
| Forms.EqualsNotEqualsComplementary | src/services/formsApi.ts:344-347 | `equals` and `not_equals` on the same present watched value always give opposite answers |
| Workflow.FindNode | src/lib/runtime/hybrid-engine.ts:479 | a node is found exactly when some listed node has the id, and what is found is a listed node with that id |
| Workflow.FindNodeFirst | src/lib/runtime/hybrid-engine.ts:479 | `find` returns the first listed node with the id, not a later one |
| Workflow.OfType | src/lib/runtime/hybrid-engine.ts:445-447 | the filter keeps only listed nodes of the requested type |
| Workflow.OfTypeComplete | src/lib/runtime/hybrid-engine.ts:445-447 | every listed node of the requested type survives the filter |
| KahnOrder.OtherTypes | src/lib/runtime/hybrid-engine.ts:448 | the remaining group holds listed nodes whose type is none of input, ai and output |
| KahnOrder.GroupedOrderPermutation | src/lib/runtime/hybrid-engine.ts:443-452 | without edges the order is a rearrangement of the nodes: none lost, none repeated |
| KahnOrder.GroupedOrderGroups | src/lib/runtime/hybrid-engine.ts:443-452 | without edges, input nodes come before ai nodes, which come before output nodes, which come before all others |
| KahnOrder.InitialDegrees | src/lib/runtime/hybrid-engine.ts:460-465 | the in-degree map has a key for every node id and every edge target, and each key's degree is the number of edges that point at it |
| KahnOrder.KeyOrder | src/lib/runtime/hybrid-engine.ts:461-465 | the map's iteration order covers exactly the node ids and the edge targets, each once |
| StringUtil.DedupSnoc | src/lib/runtime/hybrid-engine.ts:461-465 | a distinct-keys sequence grows like a JavaScript `Map`'s or `Set`'s insertion order: a new element goes last and a repeated one changes nothing, so each element keeps the place of its first occurrence |
| KahnOrder.ZeroDegree | src/lib/runtime/hybrid-engine.ts:468-473 | the initial queue holds exactly the keys whose in-degree is zero |
| KahnOrder.RelaxDegrees | src/lib/runtime/hybrid-engine.ts:484-494 | placing a node lowers each target's degree by the number of edges from that node to it |
| KahnOrder.RelaxPushesZeros | src/lib/runtime/hybrid-engine.ts:484-494 | a target whose degree drops from positive to zero is pushed onto the queue |
| KahnOrder.RelaxPushedAreZero | src/lib/runtime/hybrid-engine.ts:484-494 | everything pushed onto the queue has degree zero once the edges are processed |
| KahnOrder.PlaceByDegree | src/lib/runtime/hybrid-engine.ts:456-497 | the placed nodes have distinct ids, each is the node `find` returns for its id, every edge into a placed node comes from a node placed earlier, and every node left over has an incoming edge from a node that was not placed |
| KahnOrder.Unplaced | src/lib/runtime/hybrid-engine.ts:499-504 | the appended tail holds only listed nodes that were not placed, and is empty when all were placed |
| KahnOrder.UnplacedComplete | src/lib/runtime/hybrid-engine.ts:499-504 | every listed node that was not placed is in the appended tail |
| KahnOrder.KahnPermutation | src/lib/runtime/hybrid-engine.ts:456-504 | with distinct node ids, the placed nodes followed by the tail are a permutation of the nodes |
| KahnOrder.AllListedAppear | src/lib/runtime/hybrid-engine.ts:499-504 | every listed node's id appears in the result, whatever the edges |
| KahnOrder.RankedPlacesAll | src/lib/runtime/hybrid-engine.ts:476-504 | when the edges are acyclic (some rank strictly increases along every edge) and join listed nodes, nothing is left for the tail |
| KahnOrder.ExecutionOrder | src/lib/runtime/hybrid-engine.ts:443-504 | without edges the order is the grouped one; otherwise the result is a settled prefix that respects every edge, followed by the unplaced nodes. Every listed node appears, the result is a permutation when ids are distinct, and an acyclic graph is settled completely |
| DependencyOrder.Dependencies | src/lib/runtime/hybrid-engine-backup.ts:281-287 | every listed dependency of a node is the source of an edge into it |
| DependencyOrder.DependenciesComplete | src/lib/runtime/hybrid-engine-backup.ts:281-287 | the source of every edge into a node is among its dependencies |
| DependencyOrder.DependenciesRanked | src/lib/runtime/hybrid-engine-backup.ts:281-287 | on an acyclic edge set every dependency ranks strictly below the node |
| DependencyOrder.Visit | src/lib/runtime/hybrid-engine-backup.ts:292-301 | a visit records each id at most once and none already visited, ends with the id visited, and records every id only after the sources of all edges into it |
| DependencyOrder.VisitAll | src/lib/runtime/hybrid-engine-backup.ts:297 | visiting a list of ids in turn, sharing the visited set, covers them all without repeats and keeps dependencies first |
| DependencyOrder.RecordAfterDependencies | src/lib/runtime/hybrid-engine-backup.ts:296-300 | recording an id once all its dependencies are recorded keeps the order dependency-first |
| DependencyOrder.DependenciesFirstAppend | src/lib/runtime/hybrid-engine-backup.ts:297 | two visits in a row, the second seeing what the first recorded, stay dependency-first |
| DependencyOrder.DependencyExecutionOrder | src/lib/runtime/hybrid-engine-backup.ts:274-307 | on an acyclic edge set the order lists every node exactly once and puts the source of every edge before its target |
| RuntimeEngine.Successors | src/lib/runtime/engine.ts:940 | every id the walk steps to from a node is the target of an edge leaving that node |
| RuntimeEngine.Dfs | src/lib/runtime/engine.ts:932-946 | the walk records ids without repeats, never one already visited, only ids reachable along edges, and starts with the node it was called on when that node is new |
| RuntimeEngine.Walk | src/lib/runtime/engine.ts:940-943 | walking the outgoing edges in turn, sharing the visited set, records each id at most once and never an id visited before |
| RuntimeEngine.DfsReaches | src/lib/runtime/engine.ts:932-946 | every id the walk from a node records can be reached from that node along edges |
| RuntimeEngine.DfsExecutionOrder | src/lib/runtime/engine.ts:918-930 | the order has no repeats and, when there is an input node, starts with the first one |
| RuntimeEngine.DfsExecutionOrderEmpty | src/lib/runtime/engine.ts:918-930 | the order is empty exactly when no node has type `input` |
| RuntimeEngine.DfsExecutionOrderReachable | src/lib/runtime/engine.ts:918-946 | every id in the order is reachable from the input node it starts with |
| RuntimeEngine.NodeErrors | src/lib/runtime/engine.ts:1175-1207 | a node produces no message exactly when it has an id and a type and, as an ai, api or logic node, the fields that type needs |
| RuntimeEngine.AllNodeErrorsEmpty | src/lib/runtime/engine.ts:1175-1207 | the per-node messages are empty exactly when every node is complete |
| RuntimeEngine.EdgeErrors | src/lib/runtime/engine.ts:1217-1224 | an edge produces no message exactly when both its endpoints are non-empty and name listed nodes |
| RuntimeEngine.AllEdgeErrorsEmpty | src/lib/runtime/engine.ts:1217-1224 | the edge messages are empty exactly when every edge is valid |
| RuntimeEngine.EdgeErrorsIncluded | src/lib/runtime/engine.ts:1217-1224 | every message about one edge is among the messages about all edges |
| RuntimeEngine.OrphanErrorsEmpty | src/lib/runtime/engine.ts:1226-1234 | there is no orphan message exactly when every non-input node is the target of some edge |
| RuntimeEngine.OrphanReported | src/lib/runtime/engine.ts:1230-1234 | a non-input node that no edge points to is reported by id |
| RuntimeEngine.DeadEndInputErrorsEmpty | src/lib/runtime/engine.ts:1236-1242 | there is no dead-end message exactly when every input node has an outgoing edge |
| RuntimeEngine.NodeChecks | src/lib/runtime/engine.ts:1158-1172 | no input node, more than one input node, and no output node are each reported |
| RuntimeEngine.NodeChecksSound | src/lib/runtime/engine.ts:1158-1207 | the node checks pass exactly when there is one input node, some output node and every node is complete |
| RuntimeEngine.ConnectionChecksSound | src/lib/runtime/engine.ts:1214-1243 | the connection checks pass exactly when every edge is valid, every non-input node has an incoming edge and every input node has an outgoing one |
| RuntimeEngine.ValidateAgent | src/lib/runtime/engine.ts:1141-1249 | the agent is valid exactly when there are no messages; a blank name, missing or empty nodes, missing edges and the input/output counts are each reported |
| RuntimeEngine.ValidateAgentSound | src/lib/runtime/engine.ts:1141-1249 | the agent validates exactly when it has a non-blank name, a non-empty sound node list, an edge list and sound connections |
| RuntimeEngine.ValidateAgentBadEdge | src/lib/runtime/engine.ts:1217-1224 | an edge with a missing or unknown source or target is reported with its 1-based position |
| RuntimeEngine.ValidateAgentOrphan | src/lib/runtime/engine.ts:1226-1234 | a non-input node without an incoming edge makes the agent report it |
| RuntimeEngine.TextForAI | src/lib/runtime/engine.ts:958-963 | text of at most 8000 characters is sent unchanged; longer text is cut to its first 8000 characters and ends with the truncation marker |
| RuntimeEngine.BasePrompt | src/lib/runtime/engine.ts:954-975 | for an object input the prompt starts with the node's own prompt |
| RuntimeEngine.WithInstructions | src/lib/runtime/engine.ts:978-984 | the custom instructions are appended after the prompt built so far and followed by the closing notice |
| RuntimeEngine.ProcessPromptWithInput | src/lib/runtime/engine.ts:949-990 | the node's prompt always comes first; a string input is appended after its header; other inputs leave the prompt alone; non-blank custom instructions are appended trimmed, with the notice last |
| RuntimeEngine.ProcessPromptCarriesFileText | src/lib/runtime/engine.ts:956-966 | when a file was processed, the (possibly cut) extracted text is inside the prompt |
| RuntimeEngine.FormatPhone | src/lib/runtime/engine.ts:817-827 | 11 and 10 digits are masked as `(AA) NNNNN-NNNN` and `(AA) NNNN-NNNN`; other values are returned unchanged; the digits are always preserved |
| RuntimeEngine.FormatPhoneIdempotent | src/lib/runtime/engine.ts:817-827 | formatting an already formatted phone number changes nothing |
| RuntimeEngine.SearchHtml | src/lib/runtime/engine.ts:144-163 | the backwards search finds HTML exactly when some earlier ai node holds an HTML string, and returns the latest one |
| RuntimeEngine.SelectFinalOutput | src/lib/runtime/engine.ts:130-180 | the last node's HTML wins; otherwise the latest earlier ai node's HTML; the output is the context variables exactly when the last node has no result and no earlier HTML exists; HTML is chosen only when some node produced it |
| ErrorHandler.NewAppError | src/lib/errors/error-handler.ts:67-91 | the error keeps the given type, severity and messages; it is retryable only when asked to be, and operational unless told otherwise |
| ErrorHandler.ValidationErrorOf | src/lib/errors/error-handler.ts:111-123 | a validation error is of medium severity and retryable, and its user message names the field and ends with the message |
| ErrorHandler.FileProcessingErrorOf | src/lib/errors/error-handler.ts:125-137 | a file error is of high severity and retryable; the technical message ends with the file name and the user message with the reason |
| ErrorHandler.AiProviderErrorOf | src/lib/errors/error-handler.ts:139-151 | a provider error is of high severity and retryable, and its technical message names the provider and ends with the reason |
| ErrorHandler.AiQuotaExceededErrorOf | src/lib/errors/error-handler.ts:153-165 | a quota error is critical and retryable, and its technical message ends with the provider |
| ErrorHandler.NodeExecutionErrorOf | src/lib/errors/error-handler.ts:167-179 | a node error is of high severity and retryable; the technical message ends with the node id and the user message names the node's label |
| ErrorHandler.EmailErrorOf | src/lib/errors/error-handler.ts:181-193 | an email error is of medium severity and retryable, and both messages name the recipient |
| ErrorHandler.ConvertNativeError | src/lib/errors/error-handler.ts:233-281 | the lower-cased message is matched in order: quota or rate limit, then timeout, then network, then pdf or file, else unknown; each type is chosen exactly when its test is the first to pass; every converted error is retryable |
| ErrorHandler.ConvertNativeErrorCaseInsensitive | src/lib/errors/error-handler.ts:234 | the conversion ignores the case of the message |
| ErrorHandler.Handle | src/lib/errors/error-handler.ts:203-228 | an application error is returned as it is, a native error is converted by its message, and anything else becomes a retryable unknown error of high severity whose technical message ends with the value's text |
| ErrorHandler.HttpStatusCode | src/lib/errors/error-handler.ts:345-369 | the status table: 400 for input errors, 422 for file errors, 429 for quota, 504 for timeouts, 502 for bad responses, 503 for unavailable services and 500 for execution errors, each exactly for its types |
| ErrorHandler.ToHttpResponse | src/lib/errors/error-handler.ts:317-340 | the response fails with the type's status and carries the user message and the retry flag; technical details appear exactly when asked for in development |
| ErrorHandler.ConvertedStatus | src/lib/errors/error-handler.ts:233-369 | a converted native error answers 429 exactly when its message mentions a quota, and otherwise one of 504, 503, 422 or 500 |
| ErrorHandler.ConvertedRecoverable | src/lib/errors/error-handler.ts:233-378 | a converted native error is recoverable exactly when its message does not mention a quota |
| ErrorHandler.GetRetryStrategy | src/lib/errors/error-handler.ts:381-407 | an error is retried exactly when it is retryable, and a non-retryable one gets no delay and no retries; a retryable one gets 60 s and 3 retries for quota exhaustion, 5 s and 3 for network and timeout errors, 2 s and 2 for provider errors, 1 s and 2 for file-processing errors, and 3 s and 2 otherwise |
| ErrorHandler.RecoverableIsRetried | src/lib/errors/error-handler.ts:374-407 | a recoverable error is always retried, and a retry always waits |
| ErrorHandler.LogLevelOf | src/lib/errors/error-handler.ts:294-314 | critical and high errors are logged as errors, medium ones as warnings |
| ErrorHandler.BackoffDelay | src/lib/errors/error-handler.ts:445-453 | every delay after the first is capped by the maximum |
| ErrorHandler.NextDelay | src/lib/errors/error-handler.ts:453 | the next delay never exceeds the maximum |
| ErrorHandler.BackoffMonotone | src/lib/errors/error-handler.ts:445-453 | with a multiplier of at least one, the delays never shrink |
| ErrorHandler.BackoffGeometric | src/lib/errors/error-handler.ts:445-453 | below the cap, the k-th delay is the initial delay times the multiplier to the k |
| ErrorHandler.RetryWithBackoff | src/lib/errors/error-handler.ts:429-457 | at most `maxRetries + 1` attempts (3 by default); every attempt but the last threw; the call succeeds exactly when the last attempt returned, and gives up with the last error after all attempts; the waits between attempts follow the backoff schedule with the 1000/2/30000 defaults |
| ApiMiddleware.CheckRateLimit | src/lib/errors/api-error-middleware.ts:106-129 | an absent or expired window opens a new one with a count of one; inside a window a request is allowed exactly when the count is below the maximum, and an allowed one increments the count; other identifiers are untouched |
| ApiMiddleware.Replay | src/lib/errors/api-error-middleware.ts:106-129 | a series of requests is allowed at most once per request |
| ApiMiddleware.ReplayInsideWindow | src/lib/errors/api-error-middleware.ts:119-128 | inside an open window, the number of allowed requests is what is left of the maximum, at most the number of requests |
| ApiMiddleware.AtMostMaxPerWindow | src/lib/errors/api-error-middleware.ts:106-129 | from a fresh window, no more than the maximum requests (at least one) are allowed before the window resets |
| ApiMiddleware.MissingFields | src/lib/errors/api-error-middleware.ts:68 | the reported fields are required fields absent from the body |
| ApiMiddleware.MissingFieldsComplete | src/lib/errors/api-error-middleware.ts:68 | every required field absent from the body is reported |
| ApiMiddleware.ValidateRequestBody | src/lib/errors/api-error-middleware.ts:43-97 | an unparsable body is rejected as invalid input; the body is accepted exactly when it parses, holds every required field and passes the custom validation; rejections are not retryable and are of medium severity |
| ApiMiddleware.ComposeMiddlewares | src/lib/errors/api-error-middleware.ts:235-239 | composing no middleware leaves the handler unchanged |
| ApiMiddleware.ComposeAppend | src/lib/errors/api-error-middleware.ts:235-239 | composing two lists in sequence is composing the first around the composition of the second |
| ApiMiddleware.FirstIsOutermost | src/lib/errors/api-error-middleware.ts:235-239 | the first middleware of the list wraps all the others |
| ResetRateLimit.CheckResetLimit | src/app/api/auth/resend-reset-email/route.ts:12-47 | a first or expired request opens a one-hour window with two attempts left; a fourth request inside the window is refused with nothing changed; an allowed request reports three minus the attempts used |
| ResetRateLimit.ResetIsGeneralLimiter | src/app/api/auth/resend-reset-email/route.ts:12-47 | the route's limiter decides and updates exactly as the general fixed-window limiter with three requests per hour |
| ResetRateLimit.AtMostThreePerHour | src/app/api/auth/resend-reset-email/route.ts:12-47 | from a fresh window, at most three resends are allowed within the hour |
| FileValidator.LastDot | src/lib/validators/file-validator.ts:206 | the position found is a dot with no dot after it, and none is found only when the name has no dot |
| FileValidator.GetFileExtension | src/lib/validators/file-validator.ts:205-208 | an extension exists exactly when the name has a dot that is not its last character; it is the lower-cased text from the last dot to the end |
| FileValidator.ExtensionOfName | src/lib/validators/file-validator.ts:205-208 | a name ending in a dot and a dot-free suffix has that suffix, lower-cased, as its extension |
| FileValidator.GetMaxFileSize | src/lib/validators/file-validator.ts:213-224 | every limit is 1MB, 5MB or 10MB |
| FileValidator.SizeForExt | src/lib/validators/file-validator.ts:26-37 | 1MB exactly for `txt`, and 5MB exactly for spreadsheets, CSV and images |
| FileValidator.PlainExtension | src/lib/validators/file-validator.ts:213-224 | a lower-case extension with its leading dot gets the limit of its name |
| FileValidator.AllowedExtensionLimit | src/lib/validators/file-validator.ts:64-71 | every allowed extension is lower-case; among them only `.txt` is limited to 1MB, and the spreadsheet, CSV and image extensions to 5MB |
| FileValidator.MatchesFrom | src/lib/validators/file-validator.ts:256-263 | the byte-by-byte comparison succeeds exactly when the content holds the whole signature at the compared positions |
| FileValidator.VerifyMagicBytes | src/lib/validators/file-validator.ts:242-266 | an extension without a signature always passes; otherwise the content passes exactly when it starts with the signature |
| FileValidator.SignedContentPasses | src/lib/validators/file-validator.ts:242-266 | content that starts with its extension's signature always passes |
| FileValidator.AcceptedWarnings | src/lib/validators/file-validator.ts:115-143 | an unknown MIME type is warned about exactly when it is not allowed; a failed content check is warned about exactly when the bytes do not match; unreadable bytes are always warned about |
| FileValidator.ValidateFile | src/lib/validators/file-validator.ts:84-161 | a file is valid exactly when it has no error and exactly when it has a non-blank name, an allowed extension and a size between one byte and its limit; the checks run in the order blank name, missing extension, extension not allowed (with the allowed-extensions hint), size above the extension's limit (carrying the size and the limit), empty file, and the first that fails is the error; MIME type and content only add warnings |
| FileValidator.ValidateFileQuick | src/lib/validators/file-validator.ts:166-200 | the quick check has no warnings; a missing extension is reported as `desconhecido`; a too-large error carries the size and the limit |
| FileValidator.QuickAgreesWithFull | src/lib/validators/file-validator.ts:84-200 | the quick check accepts exactly the files the full check accepts, with the same file information |
| FileValidator.ValidateFileError | src/lib/validators/file-validator.ts:84-133 | the reason a file is turned down does not depend on its bytes |
| FileValidator.ValidateFiles | src/lib/validators/file-validator.ts:269-291 | every file ends up in exactly one of the two lists |
| FileValidator.AcceptedFilesPass | src/lib/validators/file-validator.ts:269-291 | every accepted file is one of the given files and passes the single-file check |
| FileValidator.RejectedFilesFail | src/lib/validators/file-validator.ts:269-291 | every rejected file is one of the given files, fails the single-file check and carries its error |
| FileValidator.EveryFileSorted | src/lib/validators/file-validator.ts:269-291 | each given file is in the accepted list or, with its error, in the rejected list |
| FileValidator.KindLimits | src/lib/validators/file-validator.ts:295-323 | images and spreadsheets have allowed extensions limited to 5MB; Word documents and files named `.pdf` have allowed extensions limited to 10MB |
| FileValidator.UpperCasePdfIsPdf | src/lib/validators/file-validator.ts:295-298 | a file named `x.PDF` is a PDF whatever its MIME type |
| EmailShape.MatchesFromParts | src/lib/validators/email-validator.ts:73 | every address built from a local part, a host and a top-level part, none empty and none holding a space or `@`, matches the pattern |
| EmailShape.PartsFromMatch | src/lib/validators/email-validator.ts:73 | every matching address splits into such a local part, host and top-level part |
| EmailShape.Domain | src/lib/validators/email-validator.ts:84 | the domain of a matching address is the text after its only `@`; it has a dot and no `@` |
| EmailValidator.LowerDomain | src/lib/validators/email-validator.ts:84 | the lower-cased domain keeps its dot |
| EmailValidator.ValidateCorporateEmailSync | src/lib/validators/email-validator.ts:198-239 | valid and corporate always agree; a badly formed address fails with no domain; a free provider's domain is refused; anything else that matches is accepted with its lower-cased domain |
| EmailValidator.SyncAcceptsCorporate | src/lib/validators/email-validator.ts:226-233 | the incomplete-domain branch never fires: a matching, non-free address is always accepted |
| EmailValidator.DomainOfParts | src/lib/validators/email-validator.ts:73-84 | the domain of an address built from parts is the host, a dot and the top-level part |
| EmailValidator.FreeProviderRefused | src/lib/validators/email-validator.ts:87-98 | an address at `Gmail.COM` is refused, whatever the case of the domain |
| EmailValidator.InfraWarnings | src/lib/validators/email-validator.ts:118-131 | the Google Workspace note appears exactly when some exchanger name contains `google.com` or `googlemail.com`, and the Microsoft 365 note exactly when some contains `outlook.com` or `microsoft.com`; nothing else appears, and Google's note comes first when both do |
| EmailValidator.LastLabel | src/lib/validators/email-validator.ts:156 | the last label is the suffix after the last dot: it holds no dot, is all of the domain when the domain has no dot, and is otherwise preceded by a dot |
| EmailValidator.ValidateCorporateEmail | src/lib/validators/email-validator.ts:68-192 | an address is accepted only when it matches, is not at a free provider, has at least one mail exchanger and a last label other than one character long; a failed lookup always refuses it |
| EmailValidator.FullCheckAccepts | src/lib/validators/email-validator.ts:68-192 | a matching, non-free address whose domain has mail exchangers and a proper last label is accepted |
| EmailValidator.FullCheckImpliesQuickCheck | src/lib/validators/email-validator.ts:68-239 | whatever the full check accepts, the quick check accepts too |
| EmailValidator.AddToWhitelist | src/lib/validators/email-validator.ts:245-251 | adding keeps the list's earlier entries in place and never introduces a duplicate |
| EmailValidator.AddToWhitelistSpec | src/lib/validators/email-validator.ts:245-258 | after adding, a domain is whitelisted exactly when it was before or equals the added one ignoring case |
| EmailValidator.AddToWhitelistIdempotent | src/lib/validators/email-validator.ts:245-251 | adding the same domain twice is the same as adding it once |
| NodeAnalyzer.MapSchemaType | src/lib/agentkit/node-analyzer.ts:184-200 | a binary or file format makes a file field, and only it does; otherwise exactly number and integer make a number field, exactly boolean a boolean field, exactly object an object field, and every other type (string or unknown) a string field |
| NodeAnalyzer.FieldFromProp | src/lib/agentkit/node-analyzer.ts:140-148 | a schema property keeps its name and mapped type and its own description when it has one; it is required when the schema lists it or lists nothing |
| NodeAnalyzer.SchemaFields | src/lib/agentkit/node-analyzer.ts:134-150 | the input schema gives one field per property, in order |
| NodeAnalyzer.AddAbsentFields | src/lib/agentkit/node-analyzer.ts:153-172 | the config schema's properties are added after the existing fields, skipping names already present; every property name ends up among the fields and no name repeats |
| NodeAnalyzer.InferredFields | src/lib/agentkit/node-analyzer.ts:209-248 | each of the four inferred fields is present exactly when its flag is set, and no name repeats |
| NodeAnalyzer.InferFieldsFromLabel | src/lib/agentkit/node-analyzer.ts:205-251 | each inferred field is present exactly when the lower-cased label mentions its keyword (`currículo` or `curriculo`, `contrato`, `vaga`, `candidato`) |
| NodeAnalyzer.ExtractFieldsFromNode | src/lib/agentkit/node-analyzer.ts:130-179 | the input schema's fields come first, in order, required unless the schema lists others; every config schema property is present; with no schema properties at all the fields are those inferred from the label; no name repeats |
| NodeAnalyzer.IdentRun | src/lib/agentkit/node-analyzer.ts:261-263 | the run of identifier characters starting at a position is maximal |
| NodeAnalyzer.MatchAt | src/lib/agentkit/node-analyzer.ts:261-263 | a match at a position is the opening delimiter, a non-empty identifier and the closing delimiter |
| NodeAnalyzer.Scan | src/lib/agentkit/node-analyzer.ts:266-279 | every name a pattern finds is an identifier that occurs in the prompt between the pattern's delimiters |
| NodeAnalyzer.ScanFinds | src/lib/agentkit/node-analyzer.ts:266-279 | every identifier enclosed by the single-character delimiters somewhere after the start is found |
| NodeAnalyzer.PromptPlaceholders | src/lib/agentkit/node-analyzer.ts:255-285 | the placeholder names are identifiers without repeats |
| NodeAnalyzer.PromptPlaceholdersExact | src/lib/agentkit/node-analyzer.ts:255-285 | a name is a placeholder exactly when it is an identifier written as `{name}` or `[name]` in the prompt |
| NodeAnalyzer.DoubleBraceIsBrace | src/lib/agentkit/node-analyzer.ts:260-263 | every `{{name}}` placeholder is also a `{name}` one, so the second pattern adds nothing |
| NodeAnalyzer.ExtractFieldsFromPrompt | src/lib/agentkit/node-analyzer.ts:255-285 | one required string field per placeholder, in the order found |
| NodeAnalyzer.SchemaFileTypes | src/lib/agentkit/node-analyzer.ts:317-328 | a schema with a file property yields some file type, and one without yields none |
| NodeAnalyzer.LabelFileTypes | src/lib/agentkit/node-analyzer.ts:331-335 | pdf, docx and xlsx are each added exactly when the lower-cased label mentions them (or Word, or Excel) |
| NodeAnalyzer.ExtractFileTypes | src/lib/agentkit/node-analyzer.ts:313-338 | some type is always returned; a label mentioning pdf gives pdf; with no schema and no keyword the answer is pdf alone |
| NodeAnalyzer.FindById | src/lib/agentkit/node-analyzer.ts:369 | a node is found exactly when some node has the id, and it is a listed node with that id |
| NodeAnalyzer.FollowEdges | src/lib/agentkit/node-analyzer.ts:367-374 | the next nodes are listed nodes not yet visited, and there are none without outgoing edges |
| NodeAnalyzer.Round | src/lib/agentkit/node-analyzer.ts:358-378 | one round only adds the current nodes to the visited set, yields nothing when it visits nothing new, and yields only listed nodes |
| NodeAnalyzer.RoundProgress | src/lib/agentkit/node-analyzer.ts:358-378 | a round that visits something new leaves fewer nodes unvisited, so the loop ends |
| NodeAnalyzer.Rounds | src/lib/agentkit/node-analyzer.ts:358-381 | everything the loop adds to the flow is the display name of a listed node, and nothing is added without edges |
| NodeAnalyzer.StartNodes | src/lib/agentkit/node-analyzer.ts:348 | start nodes are the listed nodes no edge points to: all of them when no node is a target, none when every node is |
| NodeAnalyzer.BuildExecutionFlow | src/lib/agentkit/node-analyzer.ts:342-384 | every flow entry is a node's display name or `Início`; a non-empty graph has a non-empty flow; when some node has no incoming edge, the flow opens with the display names of exactly those nodes, in node order |
| NodeAnalyzer.FlowReachable | src/lib/agentkit/node-analyzer.ts:358-381 | every flow entry after the entry nodes' names is the display name of a node reachable from an entry node: it lies in every set of ids that holds the entry nodes and that no edge leaves |
| NodeAnalyzer.FlowSplit | src/lib/agentkit/node-analyzer.ts:342-384 | with entry nodes, the flow is their names followed by what the breadth-first walk from them shows |
| NodeAnalyzer.EdgelessFlow | src/lib/agentkit/node-analyzer.ts:342-384 | without edges the flow is the display names of all nodes in order |
| NodeAnalyzer.NoEntryFlow | src/lib/agentkit/node-analyzer.ts:350-352 | when every node is a target the flow is just the first node's label, or `Início` |
| NodeAnalyzer.InputFieldsInclude | src/lib/agentkit/node-analyzer.ts:60-63 | every field of every input node is among the collected fields |
| NodeAnalyzer.InputFieldsSound | src/lib/agentkit/node-analyzer.ts:60-63 | conversely, every collected field is a field of some input node |
| NodeAnalyzer.InputFileTypes | src/lib/agentkit/node-analyzer.ts:65-70 | file types are collected exactly when some input node needs a file |
| NodeAnalyzer.AddAbsent | src/lib/agentkit/node-analyzer.ts:82-86 | the fields already there are kept in place and every extra field's name ends up present |
| NodeAnalyzer.AddOne | src/lib/agentkit/node-analyzer.ts:83-85 | a field is appended exactly when no field has its name yet, so its name is present afterwards and the earlier fields stay in place |
| NodeAnalyzer.AddAbsentFrom | src/lib/agentkit/node-analyzer.ts:82-86 | whatever is appended comes from the extra fields |
| NodeAnalyzer.MergePromptFields | src/lib/agentkit/node-analyzer.ts:79-88 | the input fields are kept in place, and everything the prompts add is a required string field |
| NodeAnalyzer.MergePromptFieldsCovers | src/lib/agentkit/node-analyzer.ts:79-88 | every placeholder of every AI node's prompt ends up among the fields |
| NodeAnalyzer.MergePromptFieldsSound | src/lib/agentkit/node-analyzer.ts:79-88 | conversely, every field the merge adds is a placeholder of some AI node's prompt |
| NodeAnalyzer.FirstLabels | src/lib/agentkit/node-analyzer.ts:399-402 | at most three labels, none empty; there are some exactly when some node has a label |
| NodeAnalyzer.FirstLabelsSpec | src/lib/agentkit/node-analyzer.ts:399-402 | the labels are exactly the node labels in node order, filtered to the non-empty ones, cut to the first `n` |
| NodeAnalyzer.GenerateDescription | src/lib/agentkit/node-analyzer.ts:390-409 | a given description wins; otherwise the name (or `Agente`), then ` - Fluxo: ` and the first three non-empty labels in node order joined by ` → `, or ` - Agente de automação` when no node has a label |
| NodeAnalyzer.AnalyzeAgent | src/lib/agentkit/node-analyzer.ts:37-108 | the fields include every input node's fields and every AI prompt placeholder; a file is needed exactly when some input node needs one, and then its distinct types are listed; output options are given exactly when output preferences are needed; the flow holds only display names and `Início` |
| NodeAnalyzer.AnalyzeAgentSound | src/lib/agentkit/node-analyzer.ts:55-88 | conversely, every field the analysis asks for is a field of an input node or a placeholder of an AI node's prompt |
| AgentDetector.ExtractNodeTypes | src/lib/testing/agent-detector.ts:55-57 | the distinct node types, each present exactly when some node has it, with a missing type counted as `unknown` |
| AgentDetector.AiProviders | src/lib/testing/agent-detector.ts:62-69 | every non-empty provider of an ai node is listed, nothing empty is, and every listed provider is the provider of some ai node |
| AgentDetector.ExtractProviders | src/lib/testing/agent-detector.ts:62-69 | the providers are distinct, none is empty, every ai node's non-empty provider is among them, and each of them is the provider of some ai node |
| AgentDetector.CountType | src/lib/testing/agent-detector.ts:77-78 | the count is zero exactly when no node has the type |
| AgentDetector.ComplexityOf | src/lib/testing/agent-detector.ts:80-89 | beginner exactly for at most 3 nodes, at most 1 ai node and no api node; intermediate exactly for the rest with at most 6 nodes, 2 ai and 2 api nodes; advanced otherwise |
| AgentDetector.DetermineComplexity | src/lib/testing/agent-detector.ts:74-90 | beginner exactly when there are at most 3 nodes, at most 1 ai node and no api node; advanced exactly when that fails and also there are more than 6 nodes, more than 2 ai nodes or more than 2 api nodes; intermediate otherwise |
| AgentDetector.ComplexityMonotone | src/lib/testing/agent-detector.ts:74-90 | more nodes of any kind never make an agent simpler |
| AgentDetector.TimeoutFor | src/lib/testing/agent-detector.ts:138-145 | every timeout is at least 30 seconds |
| AgentDetector.RetriesFor | src/lib/testing/agent-detector.ts:150-157 | between one and three attempts |
| AgentDetector.ValidationsFor | src/lib/testing/agent-detector.ts:162-169 | every complexity has some validations |
| AgentDetector.TimeoutUpRetriesDown | src/lib/testing/agent-detector.ts:138-157 | a more complex agent gets a longer timeout and fewer retries |
| AgentDetector.InferCategory | src/lib/testing/agent-detector.ts:95-117 | `RH & Jurídico` exactly when some node mentions a contract, has a `file` or `documentos` input property, or has an email property or label; `custom` otherwise |
| AgentDetector.FirstOfType | src/lib/testing/agent-detector.ts:123 | the first node of a type is a listed node of that type, and there is none exactly when no node has it |
| AgentDetector.DetectAgentType | src/lib/testing/agent-detector.ts:33-50 | a given category is kept, else it is inferred; timeout and retries follow the complexity; without an input or output node the required inputs or expected outputs are empty |
| AgentDetector.ValidateAgentStructure | src/lib/testing/agent-detector.ts:202-223 | the structure is valid exactly when there are nodes, edges, an input node and an output node; the first missing one is the error |
| AgentDetector.NodeIdSet | src/lib/testing/agent-detector.ts:229 | the id set holds exactly the node ids |
| AgentDetector.FirstDangling | src/lib/testing/agent-detector.ts:231-238 | the first edge with an unknown endpoint is found, and none is found exactly when every edge is sound |
| AgentDetector.ConnectedIds | src/lib/testing/agent-detector.ts:241-244 | the connected ids are exactly the endpoints of the edges |
| AgentDetector.OrphanIds | src/lib/testing/agent-detector.ts:246 | the orphans are exactly the nodes no edge touches |
| AgentDetector.OrphanIdsFromNodes | src/lib/testing/agent-detector.ts:246 | every orphan id is the id of a listed node |
| AgentDetector.ValidateNodeConnections | src/lib/testing/agent-detector.ts:228-252 | the connections are valid exactly when no edge has an unknown endpoint, and otherwise the first such edge is the error; a valid graph has one warning exactly when some node is untouched by edges |
| AgentDetector.ValidateDataFlow | src/lib/testing/agent-detector.ts:257-271 | the data flow is valid exactly when there are input and output nodes |
| AgentDetector.AiNodeWarnings | src/lib/testing/agent-detector.ts:280-287 | no warnings when every ai node has a prompt and a provider, at most two per ai node, and every ai node without a prompt or without a provider gets the matching warning carrying its id |
| AgentDetector.AiNodeWarningsSound | src/lib/testing/agent-detector.ts:280-287 | every warning is the missing-prompt or missing-provider warning of some ai node that lacks it |
| AgentDetector.ValidateSchemaCompatibility | src/lib/testing/agent-detector.ts:276-291 | always valid, with the ai node warnings |
| AgentDetector.EmptyProviderWarnings | src/lib/testing/agent-detector.ts:301-305 | no warnings when no provider is empty, at most one per provider |
| AgentDetector.ValidateProviderCredentials | src/lib/testing/agent-detector.ts:296-308 | always valid and, since empty providers were already filtered out, never warns |
| AgentDetector.FailedOf | src/lib/testing/agent-detector.ts:184-186 | there are no errors exactly when every check passed |
| AgentDetector.Combine | src/lib/testing/agent-detector.ts:174-197 | the agent is valid exactly when it has no errors and exactly when all five checks pass; the warnings are gathered from the checks in order |
| AgentDetector.ValidateAgent | src/lib/testing/agent-detector.ts:174-197 | the agent is valid exactly when its structure and connections are; a valid agent's warnings are the orphan warning followed by the ai node warnings; the strategy is the detected one |
| UniversalFormatter.Classify | src/lib/pdf/universal-formatter.ts:34-84 | HTML documents go to the HTML analyzer first; then a parsable JSON string goes to the AI-JSON or structured analyzer; markdown and plain strings split exactly on `isMarkdownContent`; objects and arrays are structured; everything else gets the fallback |
| UniversalFormatter.HtmlFirst | src/lib/pdf/universal-formatter.ts:38-40 | a string containing `<!DOCTYPE html>` is analyzed as HTML whatever else it looks like |
| UniversalFormatter.HeadingIsMarkdown | src/lib/pdf/universal-formatter.ts:731-733 | any text with a `# ` heading that is neither an HTML document nor wrapped in braces (so never handed to `JSON.parse`) is analyzed as markdown |
| UniversalFormatter.NonBlank | src/lib/pdf/universal-formatter.ts:686 | blank paragraphs are dropped and every non-blank one is kept |
| UniversalFormatter.NonBlankOrder | src/lib/pdf/universal-formatter.ts:686 | the kept paragraphs stay in order: filtering two runs of paragraphs gives the first run's survivors followed by the second's, and one paragraph survives exactly when it is not blank |
| UniversalFormatter.ParagraphSections | src/lib/pdf/universal-formatter.ts:688-695 | one paragraph section per paragraph, the k-th numbered from the starting index plus k |
| UniversalFormatter.NumberedParagraph | src/lib/pdf/universal-formatter.ts:689-694 | a paragraph section is titled `Seção n`, holds the trimmed text and is of high importance only when it is the very first |
| UniversalFormatter.AnalyzeTextContent | src/lib/pdf/universal-formatter.ts:682-708 | plain text has confidence 70, one section per non-blank paragraph, only the first important, and the text-document category |
| UniversalFormatter.SingleParagraph | src/lib/pdf/universal-formatter.ts:682-708 | a non-blank text without a blank line becomes one important section holding the trimmed text |
| UniversalFormatter.ExtractTitle | src/lib/pdf/universal-formatter.ts:735-742 | a title is found exactly when the trimmed first line has 1 to 99 characters; it is that line with a leading heading marker removed (a suffix of it, the line itself when it does not start with `#`), a single line shorter than 100 characters |
| UniversalFormatter.HeadingTitle | src/lib/pdf/universal-formatter.ts:735-742 | a text whose first line is the heading `# t` is titled `t` |
| UniversalFormatter.StripHeading | src/lib/pdf/universal-formatter.ts:740 | removing the leading hashes and white space leaves a suffix of the line, strictly shorter when the line starts with `#`, and a line not starting with `#` is unchanged |
| UniversalFormatter.StripHeadingPrefix | src/lib/pdf/universal-formatter.ts:740 | what a heading loses is `#` characters followed by white space, matching `^#+\s*`: every removed character is one of the two, and no `#` follows white space |
| UniversalFormatter.StripHeadingLongest | src/lib/pdf/universal-formatter.ts:740 | the removed prefix is the longest match: the rest does not start with white space, and starts with `#` only when white space was removed just before it |
| UniversalFormatter.DropHashes | src/lib/pdf/universal-formatter.ts:740 | dropping the leading run of `#` leaves a suffix that does not start with `#` |
| UniversalFormatter.Flatten | src/lib/pdf/universal-formatter.ts:762-782 | as many fields as leaf values reached through nested objects, none of them a container, each typed by its value, and nested keys prefixed with their parent's dotted path |
| UniversalFormatter.FlattenComplete | src/lib/pdf/universal-formatter.ts:764-779 | every non-container value reached by following members through nested objects (arrays are not entered) is a field, keyed by the dotted path of the keys passed, with its value and its type |
| UniversalFormatter.FlattenSound | src/lib/pdf/universal-formatter.ts:764-779 | conversely, every field's key and value are the dotted path and the value of a member reached through nested objects |
| UniversalFormatter.FlattenFlat | src/lib/pdf/universal-formatter.ts:762-782 | an object without nested objects or arrays gives its members themselves as fields, in order |
| UniversalFormatter.ExtractDataFields | src/lib/pdf/universal-formatter.ts:762-784 | the data fields are the first twenty fields of the traversal, or all of them when fewer |
| UniversalFormatter.ListsOf | src/lib/pdf/universal-formatter.ts:786-808 | one list per array reached through nested objects, arrays inside nested objects titled with their parent's dotted path |
| UniversalFormatter.ListsOfComplete | src/lib/pdf/universal-formatter.ts:788-802 | every array reached by following members through nested objects is listed, titled with its dotted path and holding all its items |
| UniversalFormatter.ListsOfSound | src/lib/pdf/universal-formatter.ts:788-802 | conversely, every list's title and items are the dotted path and the items of an array reached through nested objects |
| UniversalFormatter.ListsOfArrays | src/lib/pdf/universal-formatter.ts:790-797 | every array member of the object is listed under its dotted key with all its items |
| UniversalFormatter.StructuredTitle | src/lib/pdf/universal-formatter.ts:637 | the title of structured data is always truthy, and is `title` when truthy, else `nome` when truthy, else `name` when truthy, else `Dados Estruturados` |
| UniversalFormatter.AnalyzeStructuredContent | src/lib/pdf/universal-formatter.ts:601-643 | structured data has confidence 90, a high-importance data section holding the extracted fields exactly when there are leaf fields, and a list section holding the lists exactly when there are arrays |
| UniversalFormatter.FallbackAnalysis | src/lib/pdf/universal-formatter.ts:711-728 | the fallback is text with confidence 50 and a single section |
| UniversalFormatter.AnalyzeHtmlFlags | src/lib/pdf/universal-formatter.ts:385-422 | the table, list and heading flags hold exactly when the HTML contains the matching opening tags |
| UniversalFormatter.AnalyzeHtmlContent | src/lib/pdf/universal-formatter.ts:385-422 | an HTML document is analyzed as type html with confidence 95, one important summary section and the `Documento HTML` category; it has a title exactly when the `<title>` match succeeded, and that title is the captured text |
| UniversalFormatter.DetectCategory | src/lib/pdf/universal-formatter.ts:751-760 | legal exactly when `contrato` or `clt` appears, HR exactly when no legal keyword but a CV keyword appears, financial exactly when neither of those but `despesa` or `financeiro` appears, analysis exactly when none of those but `relatório` or `análise` appears, general exactly when none of the eight keywords appears |
| UniversalFormatter.ContractWins | src/lib/pdf/universal-formatter.ts:751-760 | content that mentions a contract is legal whatever follows |
| UniversalFormatter.SpaceBeforeCapitals | src/lib/pdf/universal-formatter.ts:909 | one space is inserted per capital, no other character is introduced, every capital follows a space, and a first character that is not a capital stays first |
| UniversalFormatter.SpaceBeforeCapitalsKeepsText | src/lib/pdf/universal-formatter.ts:909 | taking the spaces out of the result and out of the key gives the same text: only spaces are inserted and nothing else moves |
| UniversalFormatter.UnderscoresToSpaces | src/lib/pdf/universal-formatter.ts:911 | underscores become spaces and every other character stays in place |
| UniversalFormatter.CapitalizeFirst | src/lib/pdf/universal-formatter.ts:910 | only the first character may change; a lower-case ASCII first letter becomes its capital, and a string starting with a space, a capital or a line terminator is unchanged |
| UniversalFormatter.LastSegment | src/lib/pdf/universal-formatter.ts:907 | the name segment of a key contains no dot |
| UniversalFormatter.LastSegmentAfterDot | src/lib/pdf/universal-formatter.ts:907 | the segment after the last dot is the key's name, and a key without dots is its own name |
| UniversalFormatter.FormatNestedKey | src/lib/pdf/universal-formatter.ts:905-912 | a dotted key is displayed exactly like its last segment |
| UniversalFormatter.FormatFieldName | src/lib/pdf/universal-formatter.ts:905-912 | the display name has the last segment's length plus one space per capital, contains no dot or underscore, has a space before every later capital, and starts with the capital of a lower-case first letter |
| UniversalFormatter.GroupThousands | src/lib/pdf/universal-formatter.ts:920 | the grouped number starts with a digit, has a dot at every fourth position counted from the end and digits everywhere else |
| UniversalFormatter.GroupThousandsDigits | src/lib/pdf/universal-formatter.ts:920 | removing the thousands separators gives back the plain decimal digits |
| UniversalFormatter.LocaleInt | src/lib/pdf/universal-formatter.ts:920 | a pt-BR integer starts with a minus sign exactly when negative, and its digits are those of the absolute value |
| UniversalFormatter.FormatFieldValue | src/lib/pdf/universal-formatter.ts:914-930 | booleans show as yes/no marks, strings longer than 100 characters are cut to their first 100 plus `...`, shorter ones are shown as they are, and integers keep their digits |
| Connectors.CreateResult | src/lib/connectors/base.ts:25-34 | the result carries the given success, data and error, with duration 0 and the current timestamp |
| Connectors.Register | src/lib/connectors/base.ts:41-43 | the connector is found under its name afterwards, every other name finds what it did before, and a new name is listed last while a re-registered one keeps its place |
| Connectors.List | src/lib/connectors/base.ts:49-51 | the list has no duplicates and holds exactly the names that find a connector |
| Connectors.ListAfterRegisterAll | src/lib/connectors/base.ts:41-51 | after a series of registrations the list holds exactly the earlier names and the registered ones |
| Connectors.GetAfterRegisterAll | src/lib/connectors/base.ts:41-43 | a name finds the last connector registered under it |
| Connectors.RegisterAllKeeps | src/lib/connectors/base.ts:41-43 | registrations under other names do not change what a name finds |
| Connectors.NotFoundMessage | src/lib/connectors/base.ts:58 | the message is `Connector '<name>' not found` with the name recoverable from between the quotes |
| Connectors.Execute | src/lib/connectors/base.ts:53-85 | an unknown name fails with the not-found message and zero duration; a known one passes on the connector's success, data and error with the measured duration; a throw fails with its message or `Unknown error`; success implies the connector was found and succeeded |
| Connectors.ExecuteKeepsTimestamp | src/lib/connectors/base.ts:68-75 | the connector's own non-empty timestamp is kept, an absent or empty one is replaced by the current time |
| ExecutionLogger.NewLogger | src/lib/monitoring/logger.ts:32-34 | a new logger holds no log keys and no executions |
| ExecutionLogger.LogKey | src/lib/monitoring/logger.ts:44 | entries are filed under their non-empty execution id, or under `global` when it is absent or empty |
| ExecutionLogger.Log | src/lib/monitoring/logger.ts:36-51 | the stamped entry is appended to the end of its key's list; every other key's list and all metrics are unchanged |
| ExecutionLogger.LogSystem | src/lib/monitoring/logger.ts:53-95 | `debug`/`info`/`warn`/`error` append exactly one `system` entry, at their own level and with the given message and context, to the end of the context's key; the earlier entries of that key, every other key and all metrics are unchanged |
| ExecutionLogger.StartExecution | src/lib/monitoring/logger.ts:97-117 | the execution gets fresh running metrics with zero finished nodes, a new id is listed last, other executions are untouched, and `Execution started: <agent>` is logged under the execution |
| ExecutionLogger.CompleteExecution | src/lib/monitoring/logger.ts:119-146 | an unknown execution changes nothing; a known one becomes completed or failed with end time and duration `now - startTime`, keeps its node counts, start time, agent, user and node total, records a non-empty error, and gets one `execution` entry (info or error, with the outcome's message, the agent and user, and the duration) appended to its key; other executions and other keys are unchanged |
| ExecutionLogger.NodeMessage | src/lib/monitoring/logger.ts:162 | the node message is `Node completed: ` followed by the node's name for a successful node and `Node failed: ` followed by the name otherwise, so it starts with `Node completed: ` exactly when the node succeeded |
| ExecutionLogger.LogNodeExecution | src/lib/monitoring/logger.ts:148-170 | a known execution counts exactly one more completed (on success) or failed node and keeps every other metric field; the `node` entry, carrying the agent and user only when the execution is known, is appended whether or not it is known; other executions and other keys are unchanged |
| ExecutionLogger.CountStatus | src/lib/monitoring/logger.ts:198-200 | a status filter never counts more executions than there are |
| ExecutionLogger.RoundedMean | src/lib/monitoring/logger.ts:202-211 | `Math.round(sum / count)` for integers: the nearest integer, halves rounded up |
| ExecutionLogger.ExecutionStats | src/lib/monitoring/logger.ts:190-213 | `total` counts every execution, `completed`, `failed` and `running` count the executions with that status, and `avgDuration` is the rounded mean duration of completed executions (0 when none completed) |
| ExecutionLogger.StatusesPartition | src/lib/monitoring/logger.ts:197-200 | every execution has exactly one of the four statuses (completed, failed, running, cancelled), so the four counts add up to the total; the statistics report the first three |
| ExecutionLogger.CountStatusUpdate | src/lib/monitoring/logger.ts:128-131 | replacing one execution's metrics moves at most one unit between status counts |
| ExecutionLogger.CountStatusAppend | src/lib/monitoring/logger.ts:110 | adding an execution adds one to its own status count only |
| ExecutionLogger.StartCountsRunning | src/lib/monitoring/logger.ts:97-117 | starting a new execution adds one to the total and the running count and leaves completed and failed alone |
| ExecutionLogger.CompleteMovesRunning | src/lib/monitoring/logger.ts:119-146 | completing a running execution moves it from running to completed or failed, keeping the total |
| ExecutionLogger.NodeLogKeepsCounts | src/lib/monitoring/logger.ts:148-170 | logging a node's outcome leaves every status count unchanged |
| ExecutionLogger.Recent | src/lib/monitoring/logger.ts:220 | the filtered list keeps only entries of the input newer than the cutoff |
| ExecutionLogger.RecentIsFilter | src/lib/monitoring/logger.ts:220 | the kept entries are exactly `entries.filter(e => e.timestamp > cutoff)`: the newer entries, in their order |
| ExecutionLogger.RecentKeepsRecent | src/lib/monitoring/logger.ts:220 | every entry newer than the cutoff is kept |
| ExecutionLogger.RecentOfRecent | src/lib/monitoring/logger.ts:220 | filtering entries that are all newer than the cutoff gives them back unchanged |
| ExecutionLogger.PruneKey | src/lib/monitoring/logger.ts:219-226 | a key keeps exactly its recent entries, and is deleted when none remain; other keys are untouched |
| ExecutionLogger.PruneLogsKeepsRecent | src/lib/monitoring/logger.ts:219-226 | after pruning every key, a key survives exactly when it had a recent entry, and then holds exactly its recent entries |
| ExecutionLogger.PruneMetrics | src/lib/monitoring/logger.ts:229-233 | an execution is kept exactly when it started after the cutoff, with its metrics unchanged |
| ExecutionLogger.ClearOldLogs | src/lib/monitoring/logger.ts:215-236 | executions survive exactly when they started after `now - hours`, with their metrics unchanged; every key keeps exactly its newer entries, and the global key gains one `Cleared logs older than <n> hours` entry |
| MockBackend.DictGet | backend-simple.py:174-185 | `dict.get`: a present key gives its value, an absent one the default |
| MockBackend.SplitWords | backend-simple.py:216 | `str.split()` gives non-empty words containing no whitespace |
| MockBackend.SplitBlank | backend-simple.py:216 | a prompt of whitespace only has no words |
| MockBackend.SplitLeadingWord | backend-simple.py:216 | a word followed by whitespace is split off as the first word |
| MockBackend.SplitWordsJoin | backend-simple.py:216 | splitting two texts joined by whitespace gives the words of the first followed by the words of the second |
| MockBackend.ExecuteAgent | backend-simple.py:147-189 | an agent mentioning `contrato` or `rh` gets the contract report, any other the generic result naming the agent; both echo the input, succeed with 2500 ms, no node results and an `exec_` id, and the summary defaults id, name and category |
| MockBackend.UnnamedAgent | backend-simple.py:172-186 | an agent without a name shows as `Agente Desconhecido` in the output and `Agente` in the summary |
| MockBackend.Head | backend-simple.py:210 | `prompt[:100]` is the prompt's first min(100, length) characters |
| MockBackend.SimulatedAnswer | backend-simple.py:210 | the echoed answer names provider and model, contains the prompt's head and ends with `...` |
| MockBackend.LlmCall | backend-simple.py:194-219 | a contract-analysis prompt gets the analysis record, otherwise a report prompt gets the HTML report, otherwise the echoed answer; tokens are twice the word count and confidence is 95% |
| MockBackend.TokensAdd | backend-simple.py:216 | two prompts joined by a space use as many tokens as both apart |

## Left out

- I/O of every kind: DNS lookups of the full e-mail check (their answers are parameters), console output, HTTP handling around the mock backend endpoints and their 500 error paths, the connectors' own `execute`.
- `JSON.stringify`, `JSON.parse`, Python `str()` and `hash()`: not modelled; their results are inputs.
- Case mapping covers ASCII and Latin-1 only; string lengths count code points, not UTF-16 units, which differs only outside the Basic Multilingual Plane.
- `StringUtil.UpperChar` does not upper-case `ß` and `ÿ`, whose upper-case forms lie outside Latin-1.
- A JavaScript `undefined` or missing string property is modelled as the empty string where the source only tests its truthiness.
- `DependencyOrder.DependencyExecutionOrder`: requires an acyclic edge set (a rank function), because the source recurses into dependencies before marking a node visited and so never returns on a cycle.
- Floating point: `formatFileSize`, confidence fractions (carried as whole percentages), `toLocaleString` of non-integers, and cost figures.
- `ErrorHandler.NewAppError`: the error's context record and timestamp are not modelled.
- `withErrorHandling` in the error handler and `withErrorHandling`, `withRateLimit` response headers, `withTimeout` and `withLogging` in the middleware: wrappers around asynchronous handlers, whose behaviour is timing and logging; `ComposeMiddlewares` models composition over abstract middlewares.
- `formatRequirementsForPrompt`, the AI-JSON and markdown analyzers, the case-insensitive `<title>` regex match of the HTML analyzer (its captured text is a parameter of `UniversalFormatter.AnalyzeHtmlContent`) and every HTML/CSS generator of the universal formatter: bulky regex-driven templating.
- `NodeAnalyzer.BuildExecutionFlow`: the source shows a node reached by two paths of equal length twice in one round; the model keeps that behaviour rather than correcting it.
- `NodeAnalyzer.MapSchemaType` reports `file` for binary schema formats, while whether a node requires files is decided separately from its label; the two are not connected.
- The `data` payload a log entry carries (the node count of a start, the duration and outcome of a completion, an error's name, message and stack, a node's output) is not modelled: it is free-form and only read back by callers outside the core.
- Log entry ids, `getRecentExecutions` (sorts by parsed date strings) and `getAllMetrics` are not modelled.
- `ExecutionLogger.Cutoff`: only states that the cutoff is not after `now` exactly when the hours are not negative; the hour-to-millisecond scaling is its definition, and fractional hours are not modelled.
- The fixed contract report, contract analysis record and HTML report bodies of the mock backend are constructors, not their text.
- The runtime engine's own `formatCPF` helper behaves like `Forms.FormatCPF` and is not modelled twice.
- `ApiMiddleware.ValidateRequestBody`: a body that parses to `null` or to a primitive, on which the source's `in` test throws a `TypeError`, is not modelled; a parsed body is an object's set of keys.
- `Forms.ValidateField`: the value is a string; the source also receives checkbox booleans and numbers, and treats every falsy value (`false`, `0`, `null`) as empty. Here `""` stands for all of them, and a non-string value's `length` in the rules is not modelled.
- JSON objects are member lists in the order given, and the analyzers take them as they are. `JSON.parse` keeps only the last of repeated keys and `Object.keys` lists integer-like keys first, in ascending order; the model neither removes repeated keys nor reorders integer-like ones. On such input `UniversalFormatter.Flatten` and `UniversalFormatter.ListsOf` visit a repeated key once per occurrence, and the twenty fields `ExtractDataFields` keeps follow the given order.
- `executeValidation`, `executeCondition` and `executeTransformation`: they run code built at run time with `new Function`.
