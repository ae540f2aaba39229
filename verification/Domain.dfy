/** Types shared by the LLM client and the agent loop. */
module Domain {

  /** A tool call the model asks for; params is the printed parameter map. */
  datatype ToolCall = ToolCall(id: string, name: string, params: string)

  datatype Message =
    | System(content: string)
    | User(content: string)
    | Assistant(calls: seq<ToolCall>)
    | ToolAnswer(callID: string, content: string)

  datatype Completion = Completion(text: string, calls: seq<ToolCall>, inputTokens: int, outputTokens: int,
                                   model: string)

  datatype LLMError =
    | BudgetCheckFailed
    | BudgetExceeded
    | Cancelled
    | ProviderFailed(attempt: nat)
    | AllProvidersFailed(primary: LLMError, fallback: LLMError)
}
