/** The conversation items that compaction works on. */
module Conversation {
  import opened Wrappers

  datatype ToolCall = ToolCall(id: string, name: string, arguments: string)

  datatype ContentPart = Text(text: string) | Image(url: string)

  datatype SyntheticReason = CompactionMeta | ProjectInstructions | SystemReminder | AutoContinue | OtherReason

  datatype Item =
    | System(content: string)
    | User(parts: seq<ContentPart>, synthetic: Option<SyntheticReason>)
    | Assistant(content: string, toolCalls: seq<ToolCall>)
    | ToolResult(toolCallId: string, content: string, images: seq<string>)
    | BackendToolCall(summary: string)
    | Reasoning(text: string, encrypted: string)

  /** The ids an assistant declares; a result must answer one of them. */
  function CallIds(calls: seq<ToolCall>): set<string> {
    set c <- calls :: c.id
  }

  predicate Declares(item: Item, id: string) {
    item.Assistant? && id in CallIds(item.toolCalls)
  }
}
