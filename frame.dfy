/**
 * The frame validator of content.js: the extension acts only in the Google
 * Chat application itself, or in the chat view embedded in Gmail.
 */
module FrameValidator {

  /** The two parts of `window.location` the validator looks at. */
  datatype Location = Location(hostname: string, pathname: string)

  const ChatHost: string := "chat.google.com"
  const MailHost: string := "mail.google.com"
  /** The path fragment that marks Gmail's embedded chat view. */
  const ChatPath: string := "/chat"

  /** `sub` occurs in `s` starting at position `i`. */
  ghost predicate OccursAt(sub: string, s: string, i: nat)
  {
    i + |sub| <= |s| && s[i..i + |sub|] == sub
  }

  /** `sub` occurs somewhere in `s` (not necessarily at the start). */
  ghost predicate IsSubstring(sub: string, s: string)
  {
    exists i: nat :: OccursAt(sub, s, i)
  }

  /** An occurrence in the tail of `s` is an occurrence in `s`, one position later. */
  lemma OccursShift(sub: string, s: string, i: nat)
    requires |s| > 0
    ensures OccursAt(sub, s[1..], i) <==> OccursAt(sub, s, i + 1)
  {
    if i + 1 + |sub| <= |s| {
      assert s[1..][i..i + |sub|] == s[i + 1..i + 1 + |sub|];
    }
  }

  /**
   * JavaScript's `s.includes(sub)`: a left-to-right search for `sub` at
   * every position of `s`.
   */
  function Includes(s: string, sub: string): (r: bool)
    ensures r <==> IsSubstring(sub, s)
    decreases |s|
  {
    if |sub| > |s| then
      assert forall i: nat :: !OccursAt(sub, s, i);
      false
    else if s[..|sub|] == sub then
      assert OccursAt(sub, s, 0);
      true
    else
      var rest := Includes(s[1..], sub);
      assert rest ==> IsSubstring(sub, s) by {
        if rest {
          var i: nat :| OccursAt(sub, s[1..], i);
          OccursShift(sub, s, i);
        }
      }
      assert IsSubstring(sub, s) ==> rest by {
        if IsSubstring(sub, s) {
          var i: nat :| OccursAt(sub, s, i);
          assert i != 0;
          OccursShift(sub, s, i - 1);
        }
      }
      rest
  }

  /**
   * `isValidFrame`: true exactly on chat.google.com, or on mail.google.com
   * when "/chat" occurs anywhere in the path.
   */
  function IsValidFrame(loc: Location): (r: bool)
    ensures r <==> (loc.hostname == ChatHost ||
                    (loc.hostname == MailHost && IsSubstring(ChatPath, loc.pathname)))
  {
    loc.hostname == ChatHost || (loc.hostname == MailHost && Includes(loc.pathname, ChatPath))
  }

  /** Any other host is rejected, whatever the path. */
  lemma OtherHostsRejected(loc: Location)
    requires loc.hostname != ChatHost && loc.hostname != MailHost
    ensures !IsValidFrame(loc)
  {
  }

  /** The Gmail test is a substring test, not a prefix test. */
  lemma ChatAnywhereInMailPath()
    ensures IsValidFrame(Location(MailHost, "/mail/u/0/chat/space"))
    ensures IsValidFrame(Location(MailHost, "/chat/u/0/"))
  {
    assert OccursAt(ChatPath, "/mail/u/0/chat/space", 9);
    assert OccursAt(ChatPath, "/chat/u/0/", 0);
  }

  /** Gmail's inbox is not a chat frame; the chat host is one on every path. */
  lemma FrameTable(path: string)
    ensures !IsValidFrame(Location(MailHost, "/mail/u/0/"))
    ensures IsValidFrame(Location(ChatHost, path))
  {
    var p := "/mail/u/0/";
    forall i: nat ensures !OccursAt(ChatPath, p, i) {
      if i + 5 <= |p| {
        assert p[i..i + 5][1] == p[i + 1];
      }
    }
  }
}
