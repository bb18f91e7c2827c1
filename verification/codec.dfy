/** The session's view of the message codec: library calls are function values, and
    `Contract` says what a session may rely on. */
module Codecs {
  import opened Wrappers
  import opened Sequences
  import opened Messages

  type Token = nat
  type Media = nat
  type MediaList = Option<seq<Media>>

  datatype MediaPair = MediaPair(images: MediaList, videos: MediaList)

  /** Python truthiness of an optional list. */
  predicate NonEmpty(m: MediaList) {
    m.Some? && m.value != []
  }

  function Count(m: MediaList): nat {
    if m.Some? then |m.value| else 0
  }

  /** A merged token stream with its re-aligned response metadata. */
  datatype Merged = Merged(ids: seq<Token>, mask: seq<nat>, logprobs: Option<seq<real>>)

  datatype InitialCall = InitialCall(messages: seq<Message>, tools: Tools, media: MediaPair)

  datatype AssistantCall = AssistantCall(runtime: seq<Token>, assistant: seq<Token>, mask: seq<nat>,
                                         logprobs: Option<seq<real>>, assistantLogprobs: Option<seq<real>>)

  datatype ContextCall = ContextCall(previous: seq<Message>, updated: seq<Message>, runtime: seq<Token>,
                                     mask: seq<nat>, logprobs: Option<seq<real>>, tools: Tools)

  datatype Codec = Codec(
    turnSeparator: seq<Token>,
    generationPrompt: seq<Token>,
    extractMedia: seq<Message> -> Result<MediaPair>,
    buildInitial: InitialCall -> Result<seq<Token>>,
    mergeAssistant: AssistantCall -> Result<Merged>,
    appendContext: ContextCall -> Result<Merged>
  ) {
    /** The tokens that open an assistant turn. */
    function AssistantPrefix(): seq<Token> {
      turnSeparator + generationPrompt
    }

    /** Context merging refuses incremental media. */
    function MergeContext(call: ContextCall, media: MediaPair): Result<Merged> {
      if NonEmpty(media.images) || NonEmpty(media.videos) then Err(ValueRejected)
      else appendContext(call)
    }

    ghost predicate InitialContract(call: InitialCall) {
      buildInitial(call).Ok? ==> EndsWith(buildInitial(call).value, AssistantPrefix())
    }

    /** Generated tokens go after the runtime tokens, with mask 1. */
    ghost predicate AssistantContract(call: AssistantCall) {
      mergeAssistant(call).Ok? ==>
        var m := mergeAssistant(call).value;
        && m.ids == call.runtime + call.assistant
        && m.mask == call.mask + Repeat(1, |call.assistant|)
    }

    /** New context goes after the runtime tokens, with mask 0, and opens an assistant turn. */
    ghost predicate ContextContract(call: ContextCall) {
      appendContext(call).Ok? ==>
        var m := appendContext(call).value;
        && call.runtime <= m.ids
        && EndsWith(m.ids[|call.runtime|..], AssistantPrefix())
        && m.mask == call.mask + Repeat(0, |m.ids| - |call.runtime|)
    }

    /** Aligned log probabilities are kept, and those of the generated tokens go after them. */
    ghost predicate AssistantLogprobs(call: AssistantCall) {
      mergeAssistant(call).Ok? ==>
        && (call.logprobs.None? ==> mergeAssistant(call).value.logprobs.None?)
        && (call.logprobs.Some? && |call.logprobs.value| == |call.mask| && call.assistantLogprobs.Some? ==>
              mergeAssistant(call).value.logprobs == Some(call.logprobs.value + call.assistantLogprobs.value))
    }

    /** Aligned log probabilities are kept, and new context has log probability 0. */
    ghost predicate ContextLogprobs(call: ContextCall) {
      appendContext(call).Ok? ==>
        var m := appendContext(call).value;
        && (call.logprobs.None? ==> m.logprobs.None?)
        && (call.logprobs.Some? && |call.logprobs.value| == |call.mask| && |m.ids| >= |call.runtime| ==>
              m.logprobs == Some(call.logprobs.value + Zeros(|m.ids| - |call.runtime|)))
    }

    ghost predicate Contract() {
      && (forall call :: InitialContract(call))
      && (forall call :: AssistantContract(call) && AssistantLogprobs(call))
      && (forall call :: ContextContract(call) && ContextLogprobs(call))
    }
  }
}
