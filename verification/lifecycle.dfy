/**
  The controller as the rendered page drives it: a trace of events, each
  allowed only when the page offers it. The image grid and the Validate
  button are rendered only while the challenge is not passed; the grid
  offers exactly the names of the current images; the button is disabled
  below three selections.
 */
module Lifecycle {

  import opened Wrappers
  import opened Selection
  import opened Captcha

  datatype Event =
    | Fetched(resp: Option<Challenge>)   // a `fetchCaptcha` call completes
    | Clicked(name: Name)                // a grid image is clicked
    | Ticked                             // the countdown interval fires
    | Validated(verdict: Verdict)        // a `validateCaptcha` call completes

  /** The page can produce `ev` in state `st`. */
  predicate Enabled(st: State, ev: Event) {
    match ev
    case Fetched(_) => true
    case Clicked(n) => !st.passed && n in Names(st.images)
    case Ticked => true
    case Validated(_) => SubmitEnabled(st)
  }

  /** `ev` delivers a new challenge, the only way the session changes. */
  predicate Delivers(ev: Event) {
    || (ev.Fetched? && ev.resp.Some?)
    || (ev.Validated? && ev.verdict.Passed? && ev.verdict.refetch.Some?)
  }

  /** One event applied to the state. */
  function Step(st: State, ev: Event): (r: State)
    ensures r.sessionId != st.sessionId ==> Delivers(ev)
    ensures st.passed && Enabled(st, ev) && !Delivers(ev) ==> r == st
  {
    match ev
    case Fetched(resp) => Acquire(st, resp)
    case Clicked(n) => Select(st, n)
    case Ticked => Tick(st)
    case Validated(v) => Validate(st, v)
  }

  /** Every event of `evs` is enabled when it happens. */
  predicate Admissible(st: State, evs: seq<Event>)
    decreases |evs|
  {
    |evs| == 0 || (Enabled(st, evs[0]) && Admissible(Step(st, evs[0]), evs[1..]))
  }

  /** The events of `evs` applied in order. */
  function Run(st: State, evs: seq<Event>): (r: State)
    decreases |evs|
  {
    if |evs| == 0 then st else Run(Step(st, evs[0]), evs[1..])
  }

  /** The number of clicks in `evs`. */
  function Clicks(evs: seq<Event>): (r: nat) {
    if |evs| == 0 then 0 else (if evs[0].Clicked? then 1 else 0) + Clicks(evs[1..])
  }

  /** What holds in every state the page can reach: the countdown is within
      [0, 30], the selection has no duplicates and only names shown. */
  predicate Inv(st: State) {
    && 0 <= st.timer <= TimeBudget
    && NoDup(st.selected)
    && forall n :: n in st.selected ==> n in Names(st.images)
  }

  lemma InitialInv()
    ensures Inv(Initial)
  {
  }

  /** Every enabled event keeps the invariant. */
  lemma StepKeepsInv(st: State, ev: Event)
    requires Inv(st)
    requires Enabled(st, ev)
    ensures Inv(Step(st, ev))
  {
  }

  /** Every admissible trace keeps the invariant. */
  lemma {:induction false} RunKeepsInv(st: State, evs: seq<Event>)
    requires Inv(st)
    requires Admissible(st, evs)
    ensures Inv(Run(st, evs))
    decreases |evs|
  {
    if |evs| > 0 {
      StepKeepsInv(st, evs[0]);
      RunKeepsInv(Step(st, evs[0]), evs[1..]);
    }
  }

  /** From the initial state, whatever the page and the service do, the
      countdown stays in [0, 30] and the selection stays duplicate-free. */
  lemma Reachable(evs: seq<Event>)
    requires Admissible(Initial, evs)
    ensures 0 <= Run(Initial, evs).timer <= TimeBudget
    ensures NoDup(Run(Initial, evs).selected)
  {
    InitialInv();
    RunKeepsInv(Initial, evs);
  }

  /** A trace that delivers no challenge leaves the session id alone. */
  lemma {:induction false} SessionOnlyFromAcquire(st: State, evs: seq<Event>)
    requires forall i :: 0 <= i < |evs| ==> !Delivers(evs[i])
    ensures Run(st, evs).sessionId == st.sessionId
    decreases |evs|
  {
    if |evs| > 0 {
      assert !Delivers(evs[0]);
      SessionOnlyFromAcquire(Step(st, evs[0]), evs[1..]);
    }
  }

  /** A passed challenge is frozen until a challenge is delivered: no
      enabled event that delivers nothing changes any field. */
  lemma {:induction false} PassedIsFrozen(st: State, evs: seq<Event>)
    requires st.passed
    requires Admissible(st, evs)
    requires forall i :: 0 <= i < |evs| ==> !Delivers(evs[i])
    ensures Run(st, evs) == st
    decreases |evs|
  {
    if |evs| > 0 {
      assert !Delivers(evs[0]);
      PassedIsFrozen(Step(st, evs[0]), evs[1..]);
    }
  }

  /** Each click adds at most one name; every other event adds none. */
  lemma {:induction false} SelectionGrowth(st: State, evs: seq<Event>)
    ensures |Run(st, evs).selected| <= |st.selected| + Clicks(evs)
    decreases |evs|
  {
    if |evs| > 0 {
      SelectionGrowth(Step(st, evs[0]), evs[1..]);
    }
  }

  /** Starting from an empty selection, the gate opens only after at least
      three clicks. */
  lemma GateNeedsThreeClicks(st: State, evs: seq<Event>)
    requires st.selected == []
    requires SubmitEnabled(Run(st, evs))
    ensures Clicks(evs) >= 3
  {
    SelectionGrowth(st, evs);
  }
}
