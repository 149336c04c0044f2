# Chatbot proxy and setup check: decision rules

This project models the small decision rules of two Python scripts of the taskflow
repository. The first is `main.py`, a FastAPI service that forwards chat messages to a
language-model completion API. The second is `setup.py`, a script that checks whether a
machine is ready to run that service.

From `main.py` the model covers four things:

- The per-client sliding-window rate limiter. It is a class `RateLimit.RateLimiter` holding
  the map from client key to request timestamps, and its method `CheckRateLimit` mutates
  the map as `check_rate_limit` does.
- The field constraints of the request body (`ChatSchema.Validate`).
- The fallback to the default model and the conversion of messages to dictionaries.
- The choice of CORS origins from `ENVIRONMENT` and `ALLOWED_HOSTS` (`Cors`).

`ChatEndpoint.HandleChat` composes these in the order the service applies them. The body is
validated first, because the framework does that before the handler runs. Then the client
is counted against its window. Then the request is forwarded with its model normalized and
its messages converted.

From `setup.py` the model covers the four checks and the `main` aggregation (`SetupCheck`).
The facts the script reads from the machine are one `Environment` value:

- the interpreter version;
- the set of module names that import;
- the contents of `.env`, or `None` when it is missing;
- the set of paths that exist.

Timestamps are integers. The limiter only subtracts and compares them. `Sequences.Filter` is
the order-preserving filter behind both the limiter's list comprehension and the
dependency check's append loop.

## Model

| member | source | states |
|---|---|---|
| `RateLimit.Prune` | main.py:46-50 | every copy of a stored timestamp less than the period older than now survives and every other copy is dropped (counted per occurrence); the survivors are a subsequence of the stored list, relative order kept, and no more numerous |
| `RateLimit.PruneLater` | main.py:46-50 | pruning at an earlier time and then at a later one equals pruning once at the later time |
| `RateLimit.PruneAllInside` | main.py:46-50 | a list whose every timestamp is inside the window is left unchanged |
| `RateLimit.RateLimiter.History` | main.py:40 | an unseen client key reads as the empty list (defaultdict), a stored one as its list |
| `RateLimit.RateLimiter.constructor` | main.py:36-40 | the limiter starts with the given limit and period and an empty store, within the per-client bound |
| `RateLimit.RateLimiter.CheckRateLimit` | main.py:42-58 | refuses exactly when the pruned list already holds at least the limit, then storing only the pruned list; otherwise stores the pruned list with now appended, one longer; every stored entry is inside the window or is the new now; other clients untouched; no list ever exceeds the limit |
| `ChatSchema.ValidMessage` | main.py:98-100 | a message is valid exactly when its role is user, assistant or system and its content has 1..10000 characters |
| `ChatSchema.AllMessagesValid` | main.py:98-103 | true exactly when every message has one of the three roles and content of 1..10000 characters |
| `ChatSchema.ApplyDefault` | main.py:104-105 | an absent field takes its default, an explicit null stays null, a given value is kept |
| `ChatSchema.Validate` | main.py:98-105 | a body is accepted exactly when messages are given, number 1..50, each valid, and a given max_tokens lies in 1..MAX_TOKENS; an accepted body keeps its messages, keeps a given model and max_tokens, fills the defaults for absent ones and keeps an explicit null as None |
| `ChatSchema.DefaultTokensNotBounded` | main.py:105 | a body without max_tokens is accepted whatever MAX_TOKENS is and then carries the unchecked default 1024 |
| `ChatSchema.NormalizeModel` | main.py:169-180 | the result is always whitelisted; a whitelisted name is kept; any other name, or null, becomes gpt-3.5-turbo |
| `ChatSchema.NormalizeModelIdempotent` | main.py:178-180 | applying the fallback twice gives the same model as once |
| `ChatSchema.ToApiMessage` | main.py:184 | the dictionary has exactly the keys role and content, holding the message's role and content |
| `ChatSchema.ToApiMessages` | main.py:183-186 | the converted list has the same length and, position by position, the role and content of the original messages |
| `ChatSchema.ApiMessagesRoundTrip` | main.py:183-186 | reading the dictionaries back yields the original messages in their original order |
| `Cors.Split` | main.py:34 | Python's str.split with a separator always yields at least one piece |
| `Cors.JoinSplit` | main.py:34 | joining the split pieces with the separator gives back the original text |
| `Cors.SplitPiecesHaveNoSeparator` | main.py:34 | no piece of the split contains the separator |
| `Cors.SplitIsWildcard` | main.py:62 | the host list equals ["*"] exactly when the ALLOWED_HOSTS text is "*" |
| `Cors.AllowedHosts` | main.py:34 | the host list joins back to the ALLOWED_HOSTS value (default "*") and no host contains a comma |
| `Cors.Origins` | main.py:61-64 | production with hosts ["*"] gives no origins, production otherwise gives the hosts, any other environment gives ["*"] |
| `Cors.OriginsFromEnvironment` | main.py:33-34 | an unset or non-production ENVIRONMENT gives ["*"]; production with ALLOWED_HOSTS unset or "*" gives none; otherwise the non-empty host list that joins back to ALLOWED_HOSTS |
| `ChatEndpoint.ClientKey` | main.py:157 | the client's host, or "unknown" when there is none |
| `ChatEndpoint.HandleChat` | main.py:152-188 | an invalid body yields 422 and leaves the limiter untouched; a valid one is counted and yields 429 when over the limit, else is forwarded with the normalized model, converted messages and its max_tokens |
| `SetupCheck.CheckPythonVersion` | setup.py:11-18 | passes exactly when the version is at least 3.8 in (major, minor) order |
| `SetupCheck.PythonVersionMonotone` | setup.py:14 | any version newer than a passing version passes too |
| `SetupCheck.MissingExactly` | setup.py:30-37 | the missing list `Missing` holds every required package that does not import, as often as it is listed, and no other, as a subsequence of the required list |
| `SetupCheck.CheckDependencies` | setup.py:20-42 | the loop collects exactly the failing packages in list order; passes exactly when every required package imports |
| `SetupCheck.Contains` | setup.py:60 | Python's substring test: true exactly when the pattern occurs at some index |
| `SetupCheck.CheckEnvFile` | setup.py:44-69 | fails without a file; fails when the placeholder occurs, even with the key present; otherwise passes exactly when ANTHROPIC_API_KEY= occurs |
| `SetupCheck.ExampleEnvFileFails` | setup.py:60-65 | a key assignment whose value is still the placeholder contains ANTHROPIC_API_KEY= and fails |
| `SetupCheck.StaticPaths` | setup.py:73-84 | the checked paths are static, static/index.html, static/styles.css and static/app.js, in that order |
| `SetupCheck.CheckStaticFiles` | setup.py:71-89 | passes exactly when the directory and all three files exist; on failure reports the first missing path in check order, all earlier ones existing |
| `SetupCheck.RunCheck` | setup.py:98-109 | each check method returns what the reference rule `Passes` states for that check: the version rule, every required package importable, the .env rule, every static path present |
| `SetupCheck.All` | setup.py:114 | Python's all: true exactly when every element is true |
| `SetupCheck.RunSetupChecks` | setup.py:91-122 | every check runs, none skipped after a failure, one result per check in order; exit code 0 exactly when all pass, otherwise 1 |

## Left out

- The calls to the completion API (`client.chat.completions.create`, `client.models.list`) and the response and usage extraction after them are left out. They are foreign network calls. The same goes for the 500 error a failing call produces.
- FastAPI wiring is left out as framework plumbing: the middleware internals, the security headers, static mounting, `FileResponse`, the health and status endpoints and the exception handlers.
- Reading environment variables is left out. Unset variables are modelled as `None` in `Cors`. `MAX_TOKENS`, `RATE_LIMIT_REQUESTS` and `RATE_LIMIT_PERIOD` are integer parameters, and the `int(...)` parse that can raise is not modelled.
- Logging, `print` output and `uvicorn.run` are left out. They are I/O.
- `time.time()` is left out. The current time is an integer parameter, so fractional seconds are not represented.
- ChatSchema.Validate: does not check the `temperature` bound 0..2, because it is a floating-point field. A body with an out-of-range temperature is accepted here and rejected by the service.
- ChatSchema.Validate: does not model JSON type coercion or type errors; fields arrive already typed. The error list of a 422 response is reduced to a single `None`.
- RateLimit.RateLimiter.CheckRateLimit: does not model concurrent requests. The Python store is unsynchronized, and the model runs one call at a time.
- In `setup.py`, `__import__`, `Path.exists` and reading `.env` are inputs, not modelled. Exceptions other than `ImportError` are not modelled, and neither is a read error on `.env`. Paths use `/` as the separator.
- The task-list CRUD service, its HTTP layer and its browser client are not part of this model. Their code is not among the source files modelled.
