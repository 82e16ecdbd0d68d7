/**
 * The message generation client (`OpenRouterClient`, src/main.rs:78-82). Its
 * HTTP exchange is not part of this model: the answer the service gives for a
 * key and a diff is the function `respond`.
 */
module OpenRouter {
  import opened Results
  import opened Calls

  /** The service's answer for an API key and a diff: a message, or an error detail. */
  type Generator = (string, string) -> Result<string, string>

  /** A client bound to one API key; every request it makes is recorded in `log`. */
  class OpenRouterClient {
    const apiKey: string
    const respond: Generator
    ghost const log: Log

    /** `OpenRouterClient::new(&config.openrouter_api_key)`. */
    constructor(apiKey: string, respond: Generator, ghost log: Log)
      ensures this.apiKey == apiKey && this.respond == respond && this.log == log
    {
      this.apiKey := apiKey;
      this.respond := respond;
      this.log := log;
    }

    /** `generate_commit_message`: one request carrying the diff; the answer is the service's. */
    method GenerateCommitMessage(diff: string) returns (r: Result<string, string>)
      modifies log
      ensures r == respond(apiKey, diff)
      ensures log.steps == old(log.steps) + [GenerateCall(diff)]
    {
      log.steps := log.steps + [GenerateCall(diff)];
      r := respond(apiKey, diff);
    }
  }
}
