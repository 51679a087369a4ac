/**
 * FrontEnd/src/components/AiNodeConfigModal.tsx: the dialog that edits an AI
 * node's prompt. Its submit handler either alerts or saves then closes.
 */
module AiNodeConfig {
  import opened Wrappers
  import opened JsonValues
  import opened Strings
  import opened Types

  /** The effects of one submit, in the order they happen. */
  datatype Effect =
    | Alert(message: string)
    | Save(data: map<string, Json>)    // onSave(updatedData)
    | Close                            // onClose()
    | Crash(message: string)           // a TypeError thrown by the handler

  /** `useState(node?.data.prompt || '')`: the node's prompt when truthy, otherwise the empty text. */
  function InitialPrompt(node: Option<Node>): (prompt: Json)
    ensures node.Some? && Truthy(Get(node.value.data, "prompt")) ==> prompt == node.value.data["prompt"]
    ensures !(node.Some? && Truthy(Get(node.value.data, "prompt"))) ==> prompt == JStr("")
  {
    if node.Some? && Truthy(Get(node.value.data, "prompt")) then node.value.data["prompt"] else JStr("")
  }

  /** `if (!isOpen || !node) return null`. */
  predicate IsRendered(isOpen: bool, node: Option<Node>) {
    isOpen && node.Some?
  }

  /**
   * `handleSubmit`: an empty trimmed prompt alerts "Prompt required";
   * otherwise the untrimmed prompt is saved as `{prompt}` and the dialog
   * closes. A prompt that is not text (a non-empty non-string initial value)
   * has no `trim` and the handler throws.
   */
  function HandleSubmit(prompt: Json): (effects: seq<Effect>)
    ensures |effects| in {1, 2}
    ensures !prompt.JStr? ==> effects == [Crash("prompt.trim is not a function")]
    ensures prompt.JStr? ==> Crash("prompt.trim is not a function") !in effects
  {
    if !prompt.JStr? then [Crash("prompt.trim is not a function")]
    else if Trim(prompt.s) == "" then [Alert("Prompt required")]
    else [Save(map["prompt" := prompt]), Close]
  }

  /**
   * For a text prompt: all white space means an alert and neither save nor
   * close; anything else means exactly saving `{prompt}` unchanged and then
   * closing.
   */
  lemma SubmitAcceptsNonBlank(p: string)
    ensures IsBlank(p) <==> HandleSubmit(JStr(p)) == [Alert("Prompt required")]
    ensures !IsBlank(p) <==> HandleSubmit(JStr(p)) == [Save(map["prompt" := JStr(p)]), Close]
    ensures IsBlank(p) ==> Close !in HandleSubmit(JStr(p))
  {
    TrimEmptyIffBlank(p);
  }

  /** A save always comes first and is followed by a close. */
  lemma SaveThenClose(prompt: Json)
    ensures forall i :: 0 <= i < |HandleSubmit(prompt)| && HandleSubmit(prompt)[i].Save? ==>
      i == 0 && HandleSubmit(prompt) == [HandleSubmit(prompt)[0], Close]
  {
  }

  /** Submitting a node's non-blank text prompt without editing saves that same prompt. */
  lemma ResubmitKeepsPrompt(node: Node, p: string)
    requires Get(node.data, "prompt") == Some(JStr(p)) && !IsBlank(p)
    ensures HandleSubmit(InitialPrompt(Some(node))) == [Save(map["prompt" := JStr(p)]), Close]
  {
    assert p != "";
    assert InitialPrompt(Some(node)) == JStr(p);
    SubmitAcceptsNonBlank(p);
  }

  /** A node without a prompt opens with the empty prompt, which cannot be saved. */
  lemma MissingPromptCannotBeSaved(node: Node)
    requires "prompt" !in node.data
    ensures HandleSubmit(InitialPrompt(Some(node))) == [Alert("Prompt required")]
  {
  }
}
