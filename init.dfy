/**
 * The bounded retry state machine of content.js (`initializeExtension` and
 * its inner `initialize`), and the mutation observer it installs once the
 * button is attached.
 *
 * Timers and observer deliveries are not modelled as events: a timer firing
 * is a call of `Initialize`, a delivered mutation batch is a call of
 * `OnMutations`. The outcome of `addCodeBlockButton` is a parameter; it is
 * true exactly when a message area is found (see AttachmentEngine).
 */
module Initialization {
  import opened FrameValidator

  const MaxAttempts: nat := 20

  /**
   * The closure state of `initializeExtension`, with two counters the source
   * leaves implicit: how many mutation observers were installed and how many
   * retries were scheduled with `setTimeout`.
   */
  datatype InitState = InitState(isInitialized: bool, attemptCount: nat, observers: nat, retries: nat)

  const Initial: InitState := InitState(false, 0, 0, 0)

  /**
   * The invariant of the machine: at most 20 attempts; an observer is
   * installed exactly when initialised, and only once; every attempt but a
   * successful one scheduled a retry.
   */
  predicate Valid(s: InitState)
  {
    && s.attemptCount <= MaxAttempts
    && s.observers == (if s.isInitialized then 1 else 0)
    && s.retries + (if s.isInitialized then 1 else 0) == s.attemptCount
  }

  /** A call gets past the early return and makes an attach attempt. */
  predicate Attempts(s: InitState)
  {
    !s.isInitialized && s.attemptCount < MaxAttempts
  }

  /**
   * One call of `initialize`, where `attached` is what `addCodeBlockButton`
   * would return. Once initialised or at the cap, a call changes nothing.
   */
  function Next(s: InitState, attached: bool): (r: InitState)
    ensures !Attempts(s) ==> r == s
    ensures Attempts(s) ==> r.attemptCount == s.attemptCount + 1
    ensures Valid(s) ==> Valid(r)
    ensures Attempts(s) && attached ==> r.isInitialized && r.observers == s.observers + 1 && r.retries == s.retries
    ensures Attempts(s) && !attached ==> !r.isInitialized && r.observers == s.observers && r.retries == s.retries + 1
  {
    if s.isInitialized || s.attemptCount >= MaxAttempts then s
    else if attached then s.(isInitialized := true, attemptCount := s.attemptCount + 1, observers := s.observers + 1)
    else s.(attemptCount := s.attemptCount + 1, retries := s.retries + 1)
  }

  /**
   * Any sequence of calls, with the attach outcome of each. Each call makes
   * at most one attempt, so the count grows by at most one per call.
   */
  function Run(s: InitState, outcomes: seq<bool>): (r: InitState)
    ensures s.attemptCount <= r.attemptCount <= s.attemptCount + |outcomes|
    ensures s.isInitialized ==> r.isInitialized
    decreases |outcomes|
  {
    if outcomes == [] then s else Run(Next(s, outcomes[0]), outcomes[1..])
  }

  /** Whatever calls are made, the invariant holds, so attemptCount never exceeds 20. */
  lemma {:induction false} RunKeepsValid(s: InitState, outcomes: seq<bool>)
    requires Valid(s)
    ensures Valid(Run(s, outcomes)) && Run(s, outcomes).attemptCount <= MaxAttempts
    decreases |outcomes|
  {
    if outcomes != [] {
      RunKeepsValid(Next(s, outcomes[0]), outcomes[1..]);
    }
  }

  /** Once initialised or at the cap, no later call changes anything. */
  lemma {:induction false} QuiescentStaysPut(s: InitState, outcomes: seq<bool>)
    requires !Attempts(s)
    ensures Run(s, outcomes) == s
    decreases |outcomes|
  {
    if outcomes != [] {
      QuiescentStaysPut(Next(s, outcomes[0]), outcomes[1..]);
    }
  }

  /** Where a timer chain ends: the final state and the number of calls made. */
  datatype ChainEnd = ChainEnd(final: InitState, calls: nat)

  /** The outcome of attempt number `n + 1`; past the end of `outcomes` every attempt fails. */
  function OutcomeOf(outcomes: seq<bool>, n: nat): bool
  {
    n < |outcomes| && outcomes[n]
  }

  /**
   * The timer chain that `initialize` drives on its own: a call, then, if it
   * scheduled a retry, the call that timer makes, and so on. `outcomes[n]`
   * is the outcome of attempt number n + 1.
   */
  function Chain(s: InitState, outcomes: seq<bool>): (r: ChainEnd)
    ensures !Attempts(r.final)
    ensures Valid(s) ==> Valid(r.final)
    ensures !s.isInitialized ==>
      r.calls == r.final.attemptCount - s.attemptCount + (if r.final.isInitialized then 0 else 1)
    decreases MaxAttempts - s.attemptCount
  {
    if !Attempts(s) then ChainEnd(s, 1)
    else
      var t := Next(s, OutcomeOf(outcomes, s.attemptCount));
      if t.isInitialized then ChainEnd(t, 1)
      else
        var rest := Chain(t, outcomes);
        ChainEnd(rest.final, rest.calls + 1)
  }

  /** A failed attempt before the cap: the chain goes on with one more call. */
  lemma ChainFailStep(j: nat, outcomes: seq<bool>)
    requires j < MaxAttempts && !OutcomeOf(outcomes, j)
    ensures var rest := Chain(InitState(false, j + 1, 0, j + 1), outcomes);
            Chain(InitState(false, j, 0, j), outcomes) == ChainEnd(rest.final, rest.calls + 1)
  {
  }

  /** A successful attempt before the cap ends the chain. */
  lemma ChainSuccessStep(k: nat, outcomes: seq<bool>)
    requires k < MaxAttempts && OutcomeOf(outcomes, k)
    ensures Chain(InitState(false, k, 0, k), outcomes) == ChainEnd(InitState(true, k + 1, 1, k), 1)
  {
  }

  /** None of the first 20 attempts finds a message area; later outcomes are never consulted. */
  predicate FailsUpToCap(outcomes: seq<bool>)
  {
    forall i :: 0 <= i < MaxAttempts ==> !OutcomeOf(outcomes, i)
  }

  lemma {:induction false} ChainGivesUpFrom(k: nat, outcomes: seq<bool>)
    requires k <= MaxAttempts && FailsUpToCap(outcomes)
    ensures Chain(InitState(false, k, 0, k), outcomes) ==
            ChainEnd(InitState(false, MaxAttempts, 0, MaxAttempts), MaxAttempts + 1 - k)
    decreases MaxAttempts - k
  {
    if k < MaxAttempts {
      ChainFailStep(k, outcomes);
      ChainGivesUpFrom(k + 1, outcomes);
    }
  }

  /**
   * If no message area ever appears, the chain makes exactly 20 attempts and
   * gives up: the timer set by the 20th failure makes a 21st call, which
   * returns early and schedules nothing.
   */
  lemma ChainGivesUp(outcomes: seq<bool>)
    requires FailsUpToCap(outcomes)
    ensures Chain(Initial, outcomes) == ChainEnd(InitState(false, MaxAttempts, 0, MaxAttempts), MaxAttempts + 1)
  {
    ChainGivesUpFrom(0, outcomes);
  }

  /** A message area that first appears at attempt 21 is never seen: the chain has already given up. */
  lemma LateAreaIgnored()
    ensures Chain(Initial, seq(MaxAttempts, _ => false) + [true]) ==
            ChainEnd(InitState(false, MaxAttempts, 0, MaxAttempts), MaxAttempts + 1)
  {
    ChainGivesUp(seq(MaxAttempts, _ => false) + [true]);
  }

  /** Attempt number k + 1 is the first to find a message area. */
  predicate FirstSuccessAt(outcomes: seq<bool>, k: nat)
  {
    k < |outcomes| && outcomes[k] && forall i :: 0 <= i < k ==> !outcomes[i]
  }

  lemma {:induction false} ChainSucceedsFrom(j: nat, k: nat, outcomes: seq<bool>)
    requires j <= k < MaxAttempts && FirstSuccessAt(outcomes, k)
    ensures Chain(InitState(false, j, 0, j), outcomes) == ChainEnd(InitState(true, k + 1, 1, k), k + 1 - j)
    decreases k - j
  {
    if j < k {
      ChainFailStep(j, outcomes);
      ChainSucceedsFrom(j + 1, k, outcomes);
    } else {
      ChainSuccessStep(k, outcomes);
    }
  }

  /**
   * If attempt k + 1 (k < 20) is the first to find a message area, the chain
   * stops there: initialised, one observer installed, k retries scheduled;
   * the outcomes of later attempts play no part.
   */
  lemma ChainSucceeds(k: nat, outcomes: seq<bool>)
    requires k < MaxAttempts && FirstSuccessAt(outcomes, k)
    ensures Chain(Initial, outcomes) == ChainEnd(InitState(true, k + 1, 1, k), k + 1)
  {
    ChainSucceedsFrom(0, k, outcomes);
  }

  /** The kinds of change a mutation record reports. */
  datatype MutationType = ChildList | Attributes | CharacterData

  /** A mutation record: its type and how many nodes it added. */
  datatype MutationRecord = MutationRecord(kind: MutationType, addedNodes: nat)

  /** A record the observer callback reacts to. */
  predicate Triggers(m: MutationRecord)
  {
    m.kind == ChildList && m.addedNodes > 0
  }

  /** How many records of a batch the callback reacts to. */
  function CountTriggering(records: seq<MutationRecord>): (r: nat)
    ensures r <= |records|
    ensures r == 0 <==> forall k :: 0 <= k < |records| ==> !Triggers(records[k])
  {
    if records == [] then 0
    else CountTriggering(records[..|records| - 1]) + (if Triggers(records[|records| - 1]) then 1 else 0)
  }

  /** The closure state of one `initializeExtension` run. */
  class Initializer {
    var isInitialized: bool
    var attemptCount: nat
    var observers: nat
    var retries: nat

    function State(): InitState
      reads this
    {
      InitState(isInitialized, attemptCount, observers, retries)
    }

    constructor ()
      ensures State() == Initial && Valid(State())
    {
      isInitialized := false;
      attemptCount := 0;
      observers := 0;
      retries := 0;
    }

    /**
     * `initialize`: returns early when initialised or at the cap; otherwise
     * counts an attempt, and on success marks the machine initialised and
     * installs the observer, on failure schedules a retry.
     */
    method Initialize(attached: bool) returns (attempted: bool)
      modifies this
      ensures attempted == Attempts(old(State()))
      ensures State() == Next(old(State()), attached)
    {
      if isInitialized || attemptCount >= MaxAttempts {
        return false;
      }
      attemptCount := attemptCount + 1;
      if attached {
        isInitialized := true;
        SetupMutationObserver();
        return true;
      }
      retries := retries + 1;
      return true;
    }

    /** `setupMutationObserver`: installs one more observer over the document body. */
    method SetupMutationObserver()
      modifies this`observers
      ensures observers == old(observers) + 1
    {
      observers := observers + 1;
    }

    /**
     * The observer callback, over one delivered batch. For each record that
     * added child nodes it calls `addCodeBlockButton`, but only while the
     * frame is valid and no `.code-block-button` exists in the document.
     * `buttonInDocument` is that test before the batch; `areaFound` is the
     * outcome of `addCodeBlockButton`, the same for the whole batch since the
     * host page cannot change the DOM during the callback. A successful
     * attempt leaves a button in the document, so at most one attempt
     * succeeds; failed attempts are not counted against the cap of 20.
     * Returns the number of attach attempts and whether a button exists
     * afterwards.
     */
    method OnMutations(records: seq<MutationRecord>, loc: Location, buttonInDocument: bool, areaFound: bool)
      returns (attempts: nat, buttonAfter: bool)
      requires isInitialized
      ensures var acting := IsValidFrame(loc) && !buttonInDocument;
              var q := CountTriggering(records);
              && attempts == (if !acting then 0 else if areaFound then (if q > 0 then 1 else 0) else q)
              && buttonAfter == (buttonInDocument || (acting && areaFound && q > 0))
    {
      attempts := 0;
      buttonAfter := buttonInDocument;
      var i := 0;
      while i < |records|
        invariant 0 <= i <= |records|
        invariant var acting := IsValidFrame(loc) && !buttonInDocument;
                  var q := CountTriggering(records[..i]);
                  && attempts == (if !acting then 0 else if areaFound then (if q > 0 then 1 else 0) else q)
                  && buttonAfter == (buttonInDocument || (acting && areaFound && q > 0))
      {
        var mutation := records[i];
        if mutation.kind == ChildList && mutation.addedNodes > 0 {
          if IsValidFrame(loc) && !buttonAfter {
            attempts := attempts + 1;
            buttonAfter := areaFound;
          }
        }
        assert records[..i + 1][..i] == records[..i];
        i := i + 1;
      }
      assert records[..i] == records;
    }
  }
}
