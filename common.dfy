/** Small value types shared by the whole model: an optional value, and the
    black-box text-generation provider that both generations of the tool ask
    for domain ideas and for a parked-domain verdict. */
module Common {

  datatype Option<+T> = None | Some(value: T)

  /** What a prompt asks the provider for. The prompt wording itself is not
      modelled; only what it embeds and which variant was chosen. */
  datatype Prompt =
    | SuggestNames(name: string, firstBatch: bool)
    | JudgeUsage(title: string, description: string, refreshUrl: Option<string>)

  /** The provider's answer: a text, or a thrown error. */
  datatype AIReply = Reply(text: string) | Failed(message: string)
}
