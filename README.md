# Code block button for Google Chat — a Dafny model of its content script

The extension's content script (`code-block-extension/content.js`) puts a
"code block" button into the message composer of Google Chat. Around a lot of
DOM plumbing it holds four pieces of decision logic, and this project models
and proves those:

- **Frame validator** (`FrameValidator`, `frame.dfy`): `isValidFrame`, a rule
  over the location's hostname and pathname. JavaScript's
  `String.prototype.includes` is modelled as a search over every position and
  proved equal to "occurs somewhere".
- **Insertion routine** (`CodeFence`, `fence.dfy`): the user's text wrapped
  verbatim between "```\n" and "\n```" and written over the whole content of
  the message input. It is a silent no-op when there is no input. `Unfence` is
  the partner of `Fence`, and the round trips are proved both ways.
- **Attachment engine** (`AttachmentEngine`, `attach.dfy`): `findMessageArea`
  tries three selectors in order. A match outside a main or complementary
  region is skipped. The anchor is the match's nearest `group`, else its
  parent. `addCodeBlockButton` attaches one button to that anchor, or does
  nothing and returns true when a button is already there. DOM queries are
  inputs: `query(s)` describes the element that `document.querySelector(s)`
  returns, through what the code asks of it (`closest` on main, complementary
  and group roles, and `parentElement`). The anchor is a `MessageArea` object
  whose fields the method updates in place.
- **Retry state machine and observer** (`Initialization`, `init.dfy`):
  `initialize` keeps `isInitialized` and `attemptCount`, with a cap of 20
  attempts. `Initializer` is a class holding those fields. Its `Initialize`
  method is tied to the pure transition `Next`. The invariant `Valid` and the
  lemmas about `Run` (any sequence of calls) and `Chain` (the chain of calls
  the retry timers make) state what the machine promises. The mutation
  observer's callback is `OnMutations`.

Three points of the code's behaviour that the model states explicitly:

- The 20th failed attempt still calls `setTimeout`, so the chain makes a 21st
  call, which returns early (content.js:160-162, 174). `ChainGivesUp` states
  this: 20 attempts and 21 calls.
- The idempotence test in `addCodeBlockButton` looks for a button inside the
  anchor (content.js:81). Only the observer callback looks in the whole
  document (content.js:184).
- This file always applies the main/complementary region check. A looser
  variant of the extension, and the transcript restyler it has, are not part
  of this model.

## Model

| member | source | states |
|---|---|---|
| FrameValidator.Includes | code-block-extension/content.js:4 | `s.includes(sub)` is true exactly when `sub` occurs at some position of `s`, not only at the start |
| FrameValidator.IsValidFrame | code-block-extension/content.js:2-5 | true iff the host is chat.google.com, or it is mail.google.com and "/chat" occurs somewhere in the path |
| FrameValidator.OtherHostsRejected | code-block-extension/content.js:3-4 | any host other than the two gives false, whatever the path |
| FrameValidator.ChatAnywhereInMailPath | code-block-extension/content.js:4 | the Gmail test is a substring test: "/chat" in the middle of the path is accepted |
| FrameValidator.FrameTable | code-block-extension/content.js:3-4 | the Gmail inbox path is rejected; every path on the chat host is accepted |
| CodeFence.Fence | code-block-extension/content.js:69 | the formatted text is 8 characters longer than the code, starts with the opening fence, ends with the closing fence, and holds the code unchanged between them |
| CodeFence.Unfence | code-block-extension/content.js:69 | partner of `Fence`: succeeds exactly on text that carries both fences, and returns what lies between them |
| CodeFence.UnfenceFence | code-block-extension/content.js:69 | removing the fences from the formatted text gives back exactly the code, for every string |
| CodeFence.FenceUnfence | code-block-extension/content.js:69 | any fenced text is the formatting of what lies inside it |
| CodeFence.FenceInjective | code-block-extension/content.js:69 | different code always gives different formatted text |
| CodeFence.NestedFenceKept | code-block-extension/content.js:69 | empty code, and code containing backticks and newlines, are carried through verbatim |
| CodeFence.InsertCodeBlock | code-block-extension/content.js:65-72 | with no input element nothing changes; otherwise the input's content becomes the fenced code, whatever it held before |
| AttachmentEngine.FirstQualifyingIsFirst | code-block-extension/content.js:20-30 | the selector search stops at the least selector whose match lies in a main or complementary region, and finds nothing exactly when none does |
| AttachmentEngine.FindMessageArea | code-block-extension/content.js:7-33 | nothing outside a valid frame; otherwise, for the first selector whose match lies in the chat area (earlier matches outside it are skipped), that match's nearest group, else its parent; nothing when no selector qualifies |
| AttachmentEngine.AddCodeBlockButton | code-block-extension/content.js:74-150 | false iff no message area is found; if the area already holds a button nothing changes and it returns true; otherwise exactly one button is added, to the existing toolbar, else the existing group, else a new toolbar appended to the relatively positioned area |
| AttachmentEngine.AddRepeatedly | code-block-extension/content.js:80-83 | calling `addCodeBlockButton` any number of times leaves exactly one button in the area |
| Initialization.Next | code-block-extension/content.js:158-175 | a call once initialised or at 20 attempts changes nothing; otherwise it counts one attempt, and on success installs the observer, on failure schedules one retry; the invariant `Valid` is preserved |
| Initialization.Run | code-block-extension/content.js:158-175 | any sequence of `initialize` calls: each call makes at most one attempt, so the count never falls and grows by at most one per call, and an initialised machine stays initialised |
| Initialization.Chain | code-block-extension/content.js:158-175 | one call, then the call each scheduled timer makes: the chain always ends in a state where no further attempt is made, keeps the invariant, and makes one call per attempt plus one final early-returning call when it gave up at the cap |
| Initialization.RunKeepsValid | code-block-extension/content.js:155-171 | after any sequence of calls the invariant holds: `attemptCount` is at most 20, one observer exactly when initialised, and one scheduled retry per failed attempt |
| Initialization.QuiescentStaysPut | code-block-extension/content.js:160-162 | once initialised or at the cap, no later call changes any state |
| Initialization.ChainFailStep | code-block-extension/content.js:173-174 | a failed attempt before the cap schedules a retry, so the chain goes on with one more call |
| Initialization.ChainSuccessStep | code-block-extension/content.js:167-171 | a successful attempt sets the flag, installs the observer and ends the chain |
| Initialization.ChainGivesUp | code-block-extension/content.js:155-174 | when none of the first 20 attempts finds an area (later outcomes are never consulted), the timer chain makes exactly 20 attempts in 21 calls and ends with 20 retries and no observer |
| Initialization.LateAreaIgnored | code-block-extension/content.js:160-162 | an area that first appears at attempt 21 is never found: the chain has already stopped at 20 attempts |
| Initialization.ChainSucceeds | code-block-extension/content.js:164-171 | when attempt k + 1 (k < 20) is the first to find an area, the chain stops after it: initialised, one observer, k retries |
| Initialization.CountTriggering | code-block-extension/content.js:180-182 | counts the childList records that added nodes; zero exactly when none did |
| Initialization.Initializer.constructor | code-block-extension/content.js:153-154 | a fresh machine is not initialised, has made no attempt, and holds the invariant |
| Initialization.Initializer.Initialize | code-block-extension/content.js:158-175 | the fields change as `Next` says; an attach attempt is made exactly when not initialised and under the cap |
| Initialization.Initializer.SetupMutationObserver | code-block-extension/content.js:177-195 | installs one observer |
| Initialization.Initializer.OnMutations | code-block-extension/content.js:179-189 | no attempt unless the frame is valid and no button is in the document; otherwise one attempt per triggering record until one succeeds, so at most one button is attached, and one is when an area is found and a record triggers |

## Left out

- Element creation, `innerHTML` and SVG markup, `cssText`, the hover handlers, and the editor modal `showCodeEditor` (content.js:35-63, 89-147). These are presentation. The model keeps only the toolbar's id, the `relative` position flag, and where the button goes.
- Real DOM semantics (`querySelector`, `closest`, `parentElement`, `appendChild`) are not modelled as a tree. Each lookup is an input of the model: an optional value or a flag.
- The input looked up by `insertCodeBlock` (first match of `[role="textbox"], [contenteditable="true"]`) is a parameter of `InsertCodeBlock`.
- The synthetic `input` event that `insertCodeBlock` dispatches (content.js:71) has no result the model can observe.
- `setTimeout` timing and its 1000 ms retry delay (content.js:156), and MutationObserver delivery and batching (content.js:174, 191-194) are not modelled. A timer firing is a call of `Initialize`. A delivered batch is a call of `OnMutations`.
- The `document.readyState` / `DOMContentLoaded` bootstrap (content.js:202-206) is left out. It only decides when the first call happens.
- Initialization.Initializer.Initialize takes the outcome of `addCodeBlockButton` as a parameter. It does not call `AddCodeBlockButton`. That outcome is true exactly when `FindMessageArea` finds an area.
- Initialization.Initializer.OnMutations takes the document-wide button test and the attach outcome as parameters. The outcome is one value for the whole batch, because the host page cannot change the DOM while the callback runs.
- AttachmentEngine.AddCodeBlockButton takes the id of the toolbar it would create as a parameter. It does not prove that id distinct from the page's other nodes.
