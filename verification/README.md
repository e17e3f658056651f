# AI platform guardrail gateway — Dafny model

This project models the core of a small request-guardrail gateway that sits
in front of an AI text-generation backend. It has two parts.

- **Guardrail evaluator** (`guardrail.dfy`, module `Guardrail`). It holds the
  cost estimate of a prompt and the short-circuiting allow/block decision.
  The checks run in a fixed order: length (more than 500 characters is
  refused), then unsafe words (a case-insensitive substring search over
  `password`, `ssn`, `credit card`, in that order), then cost (over 0.02 USD
  is refused). Costs are integer micro-USD: one token costs 2 micro-USD and
  the limit is 20000 micro-USD, so every comparison is exact. Block reasons
  are a tagged datatype, rendered to the program's exact wording by
  `Message`.
- **Audit recorder** (`audit_log.dfy`, module `AuditLog`). The audit log is
  an append-only `seq<Record>`. A chat call is a pure function from the old
  log to the new log and the handler's answer, and it appends exactly one
  record. The audit query returns the whole log and its length. `Run`
  serves a sequence of requests in order, and `Replay` is `Run` with the
  chat call as its step.

`text.dfy` (module `Text`) holds the string operations: ASCII lower-casing,
the substring test (`word in text`) and the four-decimal rendering of an
amount. `wrappers.dfy` holds `Option`.

The main fact proved is that the cost check can never fire.
A prompt that gets past the length check has at most 500 characters.
So it has at most 125 tokens and costs at most 250 micro-USD, far below the
20000 micro-USD limit (`CostWithinLengthLimit`, `CostCheckUnreachable`).
Therefore a prompt is allowed exactly when it is short enough and contains
no unsafe word (`AllowedIff`).

At the cost boundary the code rounds the token count down. A 40001-character
prompt gives `40001 // 4 = 10000` tokens, which costs exactly 0.02 USD and is
not over the limit (`CostBoundary`). The same holds in double precision,
since `(10000 / 1000) * 0.002` is exactly `0.02` there. Such a prompt is
refused as too long in any case.

## Model

| member | source | states |
|---|---|---|
| Text.Occurs | app/main.py:46 | the executable substring test agrees with "some position of the text starts the word", in both directions |
| Text.Lower | app/main.py:44 | lower-casing keeps the length, leaves no upper-case ASCII letter, and keeps every character that is not an upper-case ASCII letter |
| Text.LowerIdempotent | app/main.py:44 | lower-casing an already lower-cased prompt changes nothing |
| Text.NatToDecimal | app/main.py:51 | the whole part of an amount is written as non-empty decimal digits, without leading zeros, that denote the number |
| Text.FourDecimals | app/main.py:51 | the rendered amount is digits, a decimal point, then exactly four digits; the whole part has no leading zero; the digits denote the amount rounded to the nearest ten-thousandth |
| Guardrail.Tokens | app/main.py:36 | the token count is at least 1; under 4 characters it is 1; otherwise it is the largest t with 4t not above the length |
| Guardrail.EstimateCost | app/main.py:34-37 | the micro-USD cost equals the formula (tokens / 1000) * 0.002 USD in exact arithmetic, and is at least 2 micro-USD even for the empty prompt |
| Guardrail.CostLimitAgrees | app/main.py:10 | comparing the integer cost with 20000 micro-USD gives the same answer as comparing the USD formula with 0.02 |
| Guardrail.Message | app/main.py:42-51 | every block reason renders to a non-empty text |
| Guardrail.FirstBanned | app/main.py:45-47 | a returned index names a word that occurs, with no earlier word in list order occurring; no index is returned exactly when no word occurs |
| Guardrail.Validate | app/main.py:41-42 | the decision is "too long" exactly when the prompt exceeds 500 characters |
| Guardrail.ValidateChecksInOrder | app/main.py:40-53 | within the length limit a contained unsafe word blocks, naming the first one in list order; a cost block comes only after both earlier checks pass, with cost over the limit; allowed exactly when all three checks pass |
| Guardrail.UnsafeWordReason | app/main.py:44-47 | a prompt within the length limit whose first contained unsafe word in list order is w is blocked with reason "Blocked due to unsafe word: w" |
| Guardrail.PasswordReportedFirst | app/main.py:11 | a short prompt containing "password" in any case is blocked for "password", whatever other unsafe words it contains |
| Guardrail.CostWithinLengthLimit | app/main.py:9-11 | a prompt within the length limit has at most 125 tokens and costs at most 250 micro-USD, below the limit |
| Guardrail.CostCheckUnreachable | app/main.py:49-51 | no prompt is ever blocked for its cost |
| Guardrail.AllowedIff | app/main.py:40-53 | a prompt is allowed exactly when it has at most 500 characters and contains no unsafe word |
| Guardrail.LongPromptRejected | app/main.py:41-42 | any prompt over 500 characters is blocked with exactly "Prompt too long", whatever it contains |
| Guardrail.CaseInsensitive | app/main.py:44-47 | two prompts that lower-case to the same text get the same decision (under ASCII lower-casing, which keeps the length) |
| Guardrail.EmptyPromptAllowed | app/main.py:36-37 | the empty prompt counts one token, costs 2 micro-USD and is allowed |
| Guardrail.CostBoundary | app/main.py:36-37 | 40000 and 40001 characters both cost exactly the 20000 micro-USD limit; 40004 characters cost more |
| AuditLog.Preview | app/main.py:59 | the preview is the prefix of the prompt of length min(100, length): the whole prompt when it is short enough, otherwise its first 100 characters |
| AuditLog.LogDecision | app/main.py:56-63 | exactly one record is appended, the old log is a strict prefix of the new one, and the record carries the timestamp, a prefix of the prompt of length min(100, length), the flag, the reason and the cost given |
| AuditLog.Chat | app/main.py:78-111 | the new log is the old log plus the one expected record; blocked is "not allowed"; the reason is "Allowed" exactly when allowed and never empty; the answer is a refusal exactly when blocked, with the logged reason, and otherwise carries the estimated cost |
| AuditLog.AuditLogs | app/main.py:114-119 | the query returns the log itself and total_requests equals its number of records |
| AuditLog.RunAppends | app/main.py:16 | when every call appends exactly one record for its request, serving a sequence of requests appends their records in call order and keeps the starting log |
| AuditLog.ReplayAppends | app/main.py:83-105 | serving chat requests leaves the starting log followed by the expected record of each request, in call order |
| AuditLog.TotalRequestsGrowsByOne | app/main.py:117 | each chat call raises total_requests by exactly one |
| AuditLog.AuditAfterCalls | app/main.py:114-119 | after N chat calls from an empty log the query reports N requests and exactly the expected records in call order |
| AuditLog.NthRecordIsNthCall | app/main.py:57-63 | the i-th record of the log is the record of the i-th chat call |

## Left out

- The web framework: the FastAPI app, route decorators, the pydantic request and response models and the `/health` endpoint. They are plumbing around the core.
- The clock: `datetime.utcnow().isoformat()` is replaced by a timestamp string passed into each call.
- AuditLog.Record: the logged cost is the exact micro-USD amount, not `round(cost, 4)`. Python's rounding acts on binary floating point, which is not modelled.
- Text.FourDecimals: rounds the exact decimal amount with ties to even. Python's `:.4f` rounds the nearest binary double, which can differ at ties. The cost branch that uses it is proved unreachable.
- Guardrail.EstimateCost: states the source's formula in exact arithmetic, not in double precision. The rounding error of `(tokens / 1000) * 0.002` in floating point is not modelled.
- The allowed reply text: the emoji greeting and the `:.4f` cost inside it. `AuditLog.Response` carries only the cost.
- Text.Lower: lower-cases ASCII letters only. Python's `str.lower()` applies full Unicode case mapping, which can also change the string's length.
- Guardrail.CaseInsensitive: holds because ASCII lower-casing keeps the length. Under full Unicode lowering, `"İ"` (one character) lowers to two characters, so a prompt within the length limit and one over it can lower to the same text and still get different decisions.
- Concurrency: the source appends to a module-level list without locking. The model treats the log as single-threaded state threaded through the calls.
