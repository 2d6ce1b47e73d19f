/**
 * The two-provider fallback behind every generation call (llm/safe_generate.py).
 * A provider is a function from prompt to text; `Failure(e)` stands for any
 * exception it raises, `e` being the exception's text.
 */
module Generation {
  import opened Wrappers

  type Provider = string -> Result<string, string>

  datatype ProviderName = Primary | Local

  /** The hosted provider tried first and the local provider used as fallback. */
  datatype Backends = Backends(primary: Provider, local: Provider)

  /** What a call returned (or raised) and which providers it called, in order. */
  datatype Generated = Generated(outcome: Result<string, string>, calls: seq<ProviderName>)

  /**
   * `safe_generate(prompt)`: the primary provider's text when it succeeds; on any
   * exception from it, whatever the local provider returns or raises. No retry.
   */
  function SafeGenerate(b: Backends, prompt: string): (g: Generated)
    ensures 1 <= |g.calls| <= 2 && g.calls[0] == Primary
    ensures b.primary(prompt).Success? ==> g.outcome == b.primary(prompt) && g.calls == [Primary]
    ensures b.primary(prompt).Failure? ==> g.outcome == b.local(prompt) && g.calls == [Primary, Local]
  {
    match b.primary(prompt)
    case Success(text) => Generated(Success(text), [Primary])
    case Failure(_) => Generated(b.local(prompt), [Primary, Local])
  }

  /**
   * A call fails only when both providers failed, and then it surfaces the local
   * provider's exception, the last one raised.
   */
  lemma FailureMeansBothFailed(b: Backends, prompt: string)
    ensures SafeGenerate(b, prompt).outcome.Failure?
        <==> b.primary(prompt).Failure? && b.local(prompt).Failure?
    ensures SafeGenerate(b, prompt).outcome.Failure?
        ==> SafeGenerate(b, prompt).outcome.error == b.local(prompt).error
  {
  }

  /**
   * The fallback is transparent: when the primary provider fails and the local one
   * answers `t`, the caller gets the same outcome as from a primary that answered `t`.
   */
  lemma FallbackIsTransparent(b: Backends, prompt: string, t: string)
    requires b.primary(prompt).Failure? && b.local(prompt) == Success(t)
    ensures SafeGenerate(b, prompt).outcome
         == SafeGenerate(Backends(_ => Success(t), b.local), prompt).outcome
  {
  }

  /** The dashed delimiter the migration prompts put above and below the code. */
  const Dashes := "----------------"

  /** Code between two delimiter lines, as both migration prompts embed it. */
  function Fenced(code: string): string {
    Dashes + "\n" + code + "\n" + Dashes
  }
}
