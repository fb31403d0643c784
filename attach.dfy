/**
 * The attachment engine of content.js: `findMessageArea` locates the anchor
 * under which the button goes, and `addCodeBlockButton` attaches one button
 * there unless one is already present.
 *
 * DOM queries are inputs. `query(s)` is what `document.querySelector(s)`
 * returns for each of the three selectors, described by what the source then
 * asks of the element (see `Candidate`).
 */
module AttachmentEngine {
  import opened Wrappers
  import opened FrameValidator

  /** The selectors of `findMessageArea`, in the order they are tried. */
  datatype Selector =
    | DataInputTypeText   // [data-input-type="text"]
    | RoleTextbox         // [role="textbox"]
    | ContentEditable     // [contenteditable="true"]

  const Selectors: seq<Selector> := [DataInputTypeText, RoleTextbox, ContentEditable]

  /**
   * An element matched by a selector, as seen through `closest` (which
   * includes the element itself) and `parentElement`: whether it lies in a
   * `main` region, whether it lies in a `complementary` region, its nearest
   * `group` element, and its parent. `A` is the type of anchors.
   */
  datatype Candidate<A> = Candidate(inMain: bool, inComplementary: bool, group: Option<A>, parent: Option<A>)

  /** The match lies in the chat area: a main or complementary region. */
  predicate InChatArea<A>(c: Candidate<A>)
  {
    c.inMain || c.inComplementary
  }

  /** The anchor of a match: its nearest `group`, else its parent (which may be null). */
  function AnchorOf<A>(c: Candidate<A>): Option<A>
  {
    if c.group.Some? then c.group else c.parent
  }

  /** Selector `s` matched an element inside the chat area. */
  predicate Qualifies<A>(query: Selector -> Option<Candidate<A>>, s: Selector)
  {
    query(s).Some? && InChatArea(query(s).value)
  }

  /** The position in `Selectors`, from `from` on, of the first selector that qualifies. */
  ghost function FirstQualifying<A>(query: Selector -> Option<Candidate<A>>, from: nat): Option<nat>
    decreases |Selectors| - from
  {
    if from >= |Selectors| then None
    else if Qualifies(query, Selectors[from]) then Some(from)
    else FirstQualifying(query, from + 1)
  }

  /**
   * `FirstQualifying` finds the least qualifying position, and finds nothing
   * exactly when no selector from `from` on qualifies.
   */
  lemma {:induction false} FirstQualifyingIsFirst<A>(query: Selector -> Option<Candidate<A>>, from: nat)
    ensures FirstQualifying(query, from).Some? ==>
      var i := FirstQualifying(query, from).value;
      from <= i < |Selectors| && Qualifies(query, Selectors[i]) &&
      forall j :: from <= j < i ==> !Qualifies(query, Selectors[j])
    ensures FirstQualifying(query, from).None? <==>
      forall j :: from <= j < |Selectors| ==> !Qualifies(query, Selectors[j])
    decreases |Selectors| - from
  {
    if from < |Selectors| && !Qualifies(query, Selectors[from]) {
      FirstQualifyingIsFirst(query, from + 1);
    }
  }

  /** What `findMessageArea` returns, as a specification. */
  ghost function MessageAreaOf<A>(loc: Location, query: Selector -> Option<Candidate<A>>): Option<A>
  {
    if !IsValidFrame(loc) then None
    else match FirstQualifying(query, 0)
      case None => None
      case Some(i) => AnchorOf(query(Selectors[i]).value)
  }

  /**
   * `findMessageArea`: nothing outside a valid frame; otherwise the anchor of
   * the first selector whose match lies in the chat area. A match outside the
   * chat area does not stop the search.
   */
  method FindMessageArea<A>(loc: Location, query: Selector -> Option<Candidate<A>>) returns (r: Option<A>)
    ensures r == MessageAreaOf(loc, query)
    ensures !IsValidFrame(loc) ==> r.None?
    ensures IsValidFrame(loc) && (forall s :: s in Selectors ==> !Qualifies(query, s)) ==> r.None?
    ensures IsValidFrame(loc) ==>
      forall i :: 0 <= i < |Selectors| && Qualifies(query, Selectors[i]) &&
                  (forall j :: 0 <= j < i ==> !Qualifies(query, Selectors[j])) ==>
        var c := query(Selectors[i]).value;
        r == (if c.group.Some? then c.group else c.parent)
  {
    FirstQualifyingIsFirst(query, 0);
    if !IsValidFrame(loc) {
      return None;
    }
    var i := 0;
    while i < |Selectors|
      invariant 0 <= i <= |Selectors|
      invariant FirstQualifying(query, 0) == FirstQualifying(query, i)
    {
      var element := query(Selectors[i]);
      if element.Some? {
        var inChatArea := element.value.inMain || element.value.inComplementary;
        if inChatArea {
          return if element.value.group.Some? then element.value.group else element.value.parent;
        }
      }
      i := i + 1;
    }
    return None;
  }

  /**
   * The anchor element that receives the button. The model keeps what the
   * source asks of it and changes in it: the first `toolbar` and the first
   * `group` element inside it (as node ids), whether it was given relative
   * positioning, and, for each `.code-block-button` inside it, the node id of
   * the toolbar holding it.
   */
  class MessageArea {
    var toolbar: Option<nat>
    var group: Option<nat>
    var relative: bool
    var buttons: seq<nat>

    constructor (toolbar: Option<nat>, group: Option<nat>)
      ensures this.toolbar == toolbar && this.group == group
      ensures !relative && buttons == []
    {
      this.toolbar := toolbar;
      this.group := group;
      relative := false;
      buttons := [];
    }

    /** `messageArea.querySelector('.code-block-button')` finds something. */
    predicate HasButton()
      reads this
    {
      buttons != []
    }
  }

  /** The objects `addCodeBlockButton` may change: the message area it finds, if any. */
  ghost function Footprint(loc: Location, query: Selector -> Option<Candidate<MessageArea>>): set<MessageArea>
  {
    match MessageAreaOf(loc, query)
    case None => {}
    case Some(a) => {a}
  }

  /**
   * `addCodeBlockButton`: false exactly when no message area is found. If
   * the area already holds a button, nothing changes and the result is true
   * (idempotence). Otherwise exactly one button is added, to the area's
   * existing toolbar, else its existing group, else to a new toolbar with id
   * `newToolbar` appended to the area, which is then positioned relatively.
   */
  method AddCodeBlockButton(loc: Location, query: Selector -> Option<Candidate<MessageArea>>, newToolbar: nat)
    returns (ok: bool)
    modifies Footprint(loc, query)
    ensures ok <==> MessageAreaOf(loc, query).Some?
    ensures ok && old(MessageAreaOf(loc, query).value.HasButton()) ==>
      unchanged(MessageAreaOf(loc, query).value)
    ensures ok && !old(MessageAreaOf(loc, query).value.HasButton()) ==>
      var a := MessageAreaOf(loc, query).value;
      && a.group == old(a.group)
      && (old(a.toolbar).Some? ==>
            a.buttons == [old(a.toolbar).value] && a.toolbar == old(a.toolbar) && a.relative == old(a.relative))
      && (old(a.toolbar).None? && old(a.group).Some? ==>
            a.buttons == [old(a.group).value] && a.toolbar == old(a.toolbar) && a.relative == old(a.relative))
      && (old(a.toolbar).None? && old(a.group).None? ==>
            a.buttons == [newToolbar] && a.toolbar == Some(newToolbar) && a.relative)
  {
    // the area found was allocated on entry, so the postconditions can speak of its old fields
    assert MessageAreaOf(loc, query).Some? ==> allocated(MessageAreaOf(loc, query).value);
    var messageArea := FindMessageArea(loc, query);
    if messageArea.None? {
      return false;
    }
    var area := messageArea.value;
    if area.HasButton() {
      return true;
    }
    var toolbar: nat;
    if area.toolbar.Some? {
      toolbar := area.toolbar.value;
    } else if area.group.Some? {
      toolbar := area.group.value;
    } else {
      toolbar := newToolbar;
      area.relative := true;
      area.toolbar := Some(newToolbar);
    }
    area.buttons := area.buttons + [toolbar];
    return true;
  }

  /**
   * Calling `addCodeBlockButton` any number of times leaves exactly one
   * button in the area it finds.
   */
  method AddRepeatedly(loc: Location, query: Selector -> Option<Candidate<MessageArea>>, newToolbar: nat, n: nat)
    requires n >= 1
    requires MessageAreaOf(loc, query).Some? && !MessageAreaOf(loc, query).value.HasButton()
    modifies Footprint(loc, query)
    ensures |MessageAreaOf(loc, query).value.buttons| == 1
  {
    var a := MessageAreaOf(loc, query).value;
    var ok := AddCodeBlockButton(loc, query, newToolbar);
    var k := 1;
    while k < n
      invariant |a.buttons| == 1
    {
      ok := AddCodeBlockButton(loc, query, newToolbar);
      k := k + 1;
    }
  }
}
