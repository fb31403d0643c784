/**
 * The insertion routine of content.js (`insertCodeBlock`): the text typed in
 * the editor overlay is wrapped, verbatim, in a fenced code block and written
 * over the whole content of the host page's message input.
 */
module CodeFence {
  import opened Wrappers

  const OpenFence: string := "```\n"
  const CloseFence: string := "\n```"

  /** The formatted text: opening fence, the code unchanged, closing fence. */
  function Fence(code: string): (r: string)
    ensures |r| == |code| + |OpenFence| + |CloseFence|
    ensures r[..|OpenFence|] == OpenFence && r[|r| - |CloseFence|..] == CloseFence
    ensures r[|OpenFence|..|r| - |CloseFence|] == code
  {
    OpenFence + code + CloseFence
  }

  /**
   * The partner of `Fence`: strips one opening and one closing fence, and
   * fails on text that is not fenced.
   */
  function Unfence(s: string): (r: Option<string>)
    ensures r.Some? <==> (|s| >= |OpenFence| + |CloseFence| &&
                          s[..|OpenFence|] == OpenFence && s[|s| - |CloseFence|..] == CloseFence)
    ensures r.Some? ==> |r.value| + |OpenFence| + |CloseFence| == |s|
  {
    if |s| >= |OpenFence| + |CloseFence| &&
       s[..|OpenFence|] == OpenFence && s[|s| - |CloseFence|..] == CloseFence
    then Some(s[|OpenFence|..|s| - |CloseFence|])
    else None
  }

  /** Round trip: removing the fences gives back exactly the code. */
  lemma UnfenceFence(code: string)
    ensures Unfence(Fence(code)) == Some(code)
  {
  }

  /** Round trip the other way: fenced text is the fence of what is inside it. */
  lemma FenceUnfence(s: string)
    requires Unfence(s).Some?
    ensures Fence(Unfence(s).value) == s
  {
  }

  /** Different code gives different messages: nothing in the code is lost. */
  lemma FenceInjective(a: string, b: string)
    requires Fence(a) == Fence(b)
    ensures a == b
  {
  }

  /** Code containing fences and newlines is carried through unchanged. */
  lemma NestedFenceKept()
    ensures Fence("") == "```\n\n```"
    ensures Fence("```") == "```\n```\n```"
    ensures Unfence(Fence("a\n```\nb")) == Some("a\n```\nb")
  {
  }

  /** The host page's message input; the model keeps only its text content. */
  class MessageInput {
    var textContent: string

    constructor (text: string)
      ensures textContent == text
    {
      textContent := text;
    }
  }

  /**
   * `insertCodeBlock`: `input` is the result of looking up the first element
   * matching `[role="textbox"], [contenteditable="true"]`. With no input the
   * routine returns silently; otherwise the fenced code replaces the input's
   * content, whatever it was.
   */
  method InsertCodeBlock(input: Option<MessageInput>, code: string)
    modifies if input.Some? then {input.value} else {}
    ensures input.Some? ==> input.value.textContent == Fence(code)
  {
    if input.None? {
      return;
    }
    var formatted := OpenFence + code + CloseFence;
    input.value.textContent := formatted;
  }
}
