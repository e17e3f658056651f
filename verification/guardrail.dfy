/**
 The guardrail evaluator of the gateway: the cost estimate of a prompt and
 the ordered, short-circuiting allow/block decision (length, then unsafe
 words, then cost). Amounts are integer micro-USD (millionths of a dollar),
 so the cost comparison is exact.
 */
module Guardrail {
  import opened Wrappers
  import opened Text

  /** MAX_PROMPT_LENGTH: the longest prompt, in characters, that is accepted. */
  const MaxPromptLength: nat := 500

  /** MAX_ESTIMATED_COST_USD = 0.02, in micro-USD. */
  const MaxCostMicroUsd: nat := 20000

  /** BANNED_WORDS, in the order they are scanned. */
  const BannedWords: seq<string> := ["password", "ssn", "credit card"]

  /** Characters per token in the rough estimate. */
  const CharsPerToken: nat := 4

  /** 0.002 USD per 1000 tokens is 2 micro-USD per token. */
  const MicroUsdPerToken: nat := 2

  /** `max(1, len(prompt) // 4)`: at least one token, otherwise one per four characters. */
  function Tokens(prompt: string): (t: nat)
    ensures t >= 1
    ensures |prompt| < CharsPerToken ==> t == 1
    ensures |prompt| >= CharsPerToken ==> CharsPerToken * t <= |prompt| < CharsPerToken * (t + 1)
  {
    var quotient := |prompt| / CharsPerToken;
    if quotient < 1 then 1 else quotient
  }

  /** The cost of a prompt in US dollars as the source's formula
      `(tokens / 1000) * 0.002` states it, in exact arithmetic. */
  ghost function SourceCostUsd(prompt: string): real
  {
    (Tokens(prompt) as real / 1000.0) * 0.002
  }

  /** `estimate_cost`: the estimated cost of a prompt in micro-USD. */
  function EstimateCost(prompt: string): (cost: nat)
    ensures cost as real == SourceCostUsd(prompt) * 1000000.0
    ensures cost >= 2
  {
    MicroUsdPerToken * Tokens(prompt)
  }

  /** Why a prompt was blocked; rendered to the source's wording by `Message`. */
  datatype Reason = TooLong | UnsafeWord(word: string) | CostOverLimit(costMicroUsd: nat)

  /** The outcome of `validate_prompt`: `(True, None)` or `(False, reason)`. */
  datatype Decision = Allow | Block(reason: Reason)

  /** The reason text `validate_prompt` returns. */
  function Message(reason: Reason): (text: string)
    ensures text != ""
  {
    match reason
    case TooLong => "Prompt too long"
    case UnsafeWord(word) => "Blocked due to unsafe word: " + word
    case CostOverLimit(cost) => "Estimated cost $" + FourDecimals(cost) + " exceeds limit"
  }

  /** `words[k]` is the first of `words[from..]` that occurs in `text`. */
  ghost predicate FirstHit(text: string, words: seq<string>, from: nat, k: nat)
  {
    && from <= k < |words|
    && Contains(text, words[k])
    && forall j :: from <= j < k ==> !Contains(text, words[j])
  }

  /** None of `words[from..]` occurs in `text`. */
  ghost predicate NoHit(text: string, words: seq<string>, from: nat)
  {
    forall j :: from <= j < |words| ==> !Contains(text, words[j])
  }

  /** The scan `for word in words: if word in text: return word`, from index `from` on. */
  function FirstBanned(text: string, words: seq<string>, from: nat): (k: Option<nat>)
    ensures k.Some? ==> FirstHit(text, words, from, k.value)
    ensures k.None? <==> NoHit(text, words, from)
    decreases |words| - from
  {
    if from >= |words| then None
    else if Occurs(text, words[from]) then Some(from)
    else FirstBanned(text, words, from + 1)
  }

  /** `validate_prompt`: length, then unsafe words (case-insensitively, in list
      order), then cost; the first failing check decides. The full contract is
      `ValidateChecksInOrder`, kept apart so that callers use it only when needed. */
  function Validate(prompt: string): (d: Decision)
    ensures d == Block(TooLong) <==> |prompt| > MaxPromptLength
  {
    if |prompt| > MaxPromptLength then Block(TooLong)
    else
      match FirstBanned(Lower(prompt), BannedWords, 0)
      case Some(k) => Block(UnsafeWord(BannedWords[k]))
      case None =>
        var cost := EstimateCost(prompt);
        if cost > MaxCostMicroUsd then Block(CostOverLimit(cost)) else Allow
  }

  /** The checks of `Validate` short-circuit in the order length, unsafe word,
      cost: a contained unsafe word blocks, naming the first one in list order;
      the cost check decides only once both earlier checks passed; and the
      prompt is allowed exactly when all three pass. */
  lemma ValidateChecksInOrder(prompt: string)
    ensures var d := Validate(prompt);
            && (d.Block? && d.reason.UnsafeWord? ==>
                  && |prompt| <= MaxPromptLength
                  && exists k: nat :: FirstHit(Lower(prompt), BannedWords, 0, k) && d.reason.word == BannedWords[k])
            && (|prompt| <= MaxPromptLength && !NoHit(Lower(prompt), BannedWords, 0) ==>
                  d.Block? && d.reason.UnsafeWord?)
            && (d.Block? && d.reason.CostOverLimit? ==>
                  && |prompt| <= MaxPromptLength
                  && NoHit(Lower(prompt), BannedWords, 0)
                  && d.reason.costMicroUsd == EstimateCost(prompt) > MaxCostMicroUsd)
            && (d.Allow? <==>
                  && |prompt| <= MaxPromptLength
                  && NoHit(Lower(prompt), BannedWords, 0)
                  && EstimateCost(prompt) <= MaxCostMicroUsd)
  {
    if |prompt| <= MaxPromptLength {
      var found := FirstBanned(Lower(prompt), BannedWords, 0);
      if found.Some? {
        assert FirstHit(Lower(prompt), BannedWords, 0, found.value);
      }
    }
  }

  /** Within the length limit a prompt has at most 125 tokens and costs at most
      250 micro-USD, far below the 20000 micro-USD limit. */
  lemma CostWithinLengthLimit(prompt: string)
    requires |prompt| <= MaxPromptLength
    ensures Tokens(prompt) <= MaxPromptLength / CharsPerToken
    ensures EstimateCost(prompt) <= 250 < MaxCostMicroUsd
  {
  }

  /** The integer comparison against 20000 micro-USD is the source's `> 0.02`. */
  lemma CostLimitAgrees(prompt: string)
    ensures EstimateCost(prompt) > MaxCostMicroUsd <==> SourceCostUsd(prompt) > 0.02
  {
  }

  /** The cost check never fires: no prompt is blocked for its cost. */
  lemma CostCheckUnreachable(prompt: string)
    ensures !(Validate(prompt).Block? && Validate(prompt).reason.CostOverLimit?)
  {
    ValidateChecksInOrder(prompt);
    if |prompt| <= MaxPromptLength {
      CostWithinLengthLimit(prompt);
    }
  }

  /** So a prompt is allowed exactly when it is short enough and free of unsafe words. */
  lemma AllowedIff(prompt: string)
    ensures Validate(prompt).Allow? <==>
              |prompt| <= MaxPromptLength && NoHit(Lower(prompt), BannedWords, 0)
  {
    ValidateChecksInOrder(prompt);
    if |prompt| <= MaxPromptLength {
      CostWithinLengthLimit(prompt);
    }
  }

  /** A prompt over the length limit is refused as too long whatever it contains. */
  lemma LongPromptRejected(prompt: string)
    requires |prompt| > MaxPromptLength
    ensures Validate(prompt) == Block(TooLong)
    ensures Message(Validate(prompt).reason) == "Prompt too long"
  {
  }

  /** The decision depends only on the lower-cased prompt. */
  lemma CaseInsensitive(p: string, q: string)
    requires Lower(p) == Lower(q)
    ensures Validate(p) == Validate(q)
  {
    assert |p| == |Lower(p)| == |Lower(q)| == |q|;
    ValidateChecksInOrder(p);
    ValidateChecksInOrder(q);
  }

  /** The empty prompt still counts one token: it costs 2 micro-USD and is allowed. */
  lemma EmptyPromptAllowed()
    ensures Tokens("") == 1
    ensures EstimateCost("") == 2
    ensures Validate("") == Allow
  {
    AllowedIff("");
  }

  /** The cost formula at the limit: 40000 and 40001 characters both make 10000
      tokens, exactly the limit and not over it; 40004 characters go over. */
  lemma CostBoundary()
    ensures EstimateCost(seq(40000, _ => 'a')) == MaxCostMicroUsd
    ensures EstimateCost(seq(40001, _ => 'a')) == MaxCostMicroUsd
    ensures EstimateCost(seq(40004, _ => 'a')) > MaxCostMicroUsd
  {
  }

  /** A prompt within the length limit is blocked for exactly the first unsafe
      word in list order that it contains. */
  lemma UnsafeWordReason(prompt: string, k: nat)
    requires |prompt| <= MaxPromptLength
    requires FirstHit(Lower(prompt), BannedWords, 0, k)
    ensures Validate(prompt) == Block(UnsafeWord(BannedWords[k]))
    ensures Message(Validate(prompt).reason) == "Blocked due to unsafe word: " + BannedWords[k]
  {
    var found := FirstBanned(Lower(prompt), BannedWords, 0);
    assert found.Some?;
  }

  /** Words are scanned in list order, not text order: a short prompt that
      mentions "password" anywhere, in any case, is blocked for "password",
      whatever other unsafe words it also contains. */
  lemma PasswordReportedFirst(prompt: string)
    requires |prompt| <= MaxPromptLength
    requires Contains(Lower(prompt), "password")
    ensures Validate(prompt) == Block(UnsafeWord("password"))
  {
    UnsafeWordReason(prompt, 0);
  }
}
