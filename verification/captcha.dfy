/**
  The challenge controller of the image captcha: the state the `App`
  component keeps in six `useState` hooks, and one pure transition per
  handler. Network answers are inputs: an acquire either delivers a
  challenge or fails, a validation either passes (and is followed by an
  acquire), fails, or is rejected (no connection, a timeout, an error
  status, or an answer whose body is the JSON literal `null`, so that
  reading `success` throws).
 */
module Captcha {

  import opened Wrappers
  import opened Selection

  /** Seconds on the countdown after every successful acquire. */
  const TimeBudget: int := 30

  /** One candidate image of a challenge: its name and where it is served. */
  datatype Image = Image(name: Name, url: string)

  /** The body of a successful `GET /api/captcha`. */
  datatype Challenge = Challenge(task: string, images: seq<Image>, sessionId: string)

  /** The component state. `timer` is a JavaScript number; it only ever
      moves by whole steps here, so `int` is exact. */
  datatype State = State(
    images: seq<Image>,
    task: string,
    selected: seq<Name>,
    sessionId: string,
    timer: int,
    passed: bool)

  /** The outcome of `POST /api/captcha/validate`. `Passed` carries the
      outcome of the acquire the handler starts right after. `Failed` is any
      answer whose `success` is missing or false, including an empty or
      non-JSON body. `TransportError` is a rejected request (no connection,
      a timeout, an error status) or an answer whose body is the JSON literal
      `null`, so that reading `success` throws. */
  datatype Verdict = Passed(refetch: Option<Challenge>) | Failed | TransportError

  /** The values the hooks start with, before the first acquire returns. */
  const Initial: State := State([], "", [], "", TimeBudget, false)

  /** The names a challenge's images offer for selection. */
  function Names(images: seq<Image>): (r: set<Name>) {
    set im | im in images :: im.name
  }

  /** `st` shows challenge `c`: task, images and session all come from it. */
  predicate Presents(st: State, c: Challenge) {
    st.task == c.task && st.images == c.images && st.sessionId == c.sessionId
  }

  /** A challenge just started: nothing selected, full countdown, not passed. */
  predicate Fresh(st: State) {
    st.selected == [] && st.timer == TimeBudget && !st.passed
  }

  /** `fetchCaptcha`: a delivered challenge replaces task, images and
      session and resets selection, countdown and the passed flag; a failed
      request (the `catch` branch) changes nothing. */
  function Acquire(st: State, resp: Option<Challenge>): (r: State)
    ensures resp.Some? ==> Presents(r, resp.value) && Fresh(r)
    ensures resp.None? ==> r == st
  {
    match resp
    case None => st
    case Some(c) => State(c.images, c.task, [], c.sessionId, TimeBudget, false)
  }

  /** `handleSelect`: toggles `name` in the selection and touches nothing else. */
  function Select(st: State, name: Name): (r: State)
    ensures r == st.(selected := r.selected)
    ensures forall y :: y in r.selected <==> (y in st.selected <==> y != name)
    ensures NoDup(st.selected) ==> NoDup(r.selected)
    ensures |r.selected| <= |st.selected| + 1
  {
    st.(selected := Toggle(st.selected, name))
  }

  /** One firing of the countdown interval: the interval only exists while
      the challenge is not passed and time is left, and each firing takes
      one second off. */
  function Tick(st: State): (r: State)
    ensures r == st.(timer := r.timer)
    ensures r.timer < st.timer <==> !st.passed && st.timer > 0
    ensures st.timer - 1 <= r.timer <= st.timer
    ensures st.timer >= 0 ==> r.timer >= 0
  {
    if !st.passed && st.timer > 0 then st.(timer := st.timer - 1) else st
  }

  /** `n` consecutive firings of the countdown. */
  function Ticks(st: State, n: nat): (r: State)
    ensures r == st.(timer := r.timer)
    ensures r.timer <= st.timer
    ensures st.timer >= 0 ==> r.timer >= 0
  {
    if n == 0 then st else Tick(Ticks(st, n - 1))
  }

  /** `validateCaptcha` once the verifier has answered. */
  function Validate(st: State, v: Verdict): (r: State)
    ensures v.Passed? && v.refetch.Some? ==> Presents(r, v.refetch.value) && Fresh(r)
    ensures v.Passed? && v.refetch.None? ==> r == st.(passed := true)
    ensures v.Failed? ==> r == st.(selected := [])
    ensures v.TransportError? ==> r == st
  {
    match v
    case Passed(refetch) => Acquire(st.(passed := true), refetch)
    case Failed => st.(selected := [])
    case TransportError => st
  }

  /** The Validate button can be pressed: it is rendered only while the
      challenge is not passed, and is disabled below three selections. */
  predicate SubmitEnabled(st: State) {
    !st.passed && |st.selected| >= 3
  }

  /** The larger of `a` and `b`. */
  function Max(a: int, b: int): (r: int) {
    if a < b then b else a
  }

  /** The countdown runs down one second per firing and then stays at zero;
      it never goes negative. */
  lemma {:induction false} TicksCountDown(st: State, n: nat)
    requires !st.passed
    requires st.timer >= 0
    ensures Ticks(st, n).timer == Max(st.timer - n, 0)
  {
    if n > 0 {
      TicksCountDown(st, n - 1);
    }
  }

  /** Once passed, the countdown is stopped for good. */
  lemma {:induction false} TicksStopWhenPassed(st: State, n: nat)
    requires st.passed
    ensures Ticks(st, n) == st
  {
    if n > 0 {
      TicksStopWhenPassed(st, n - 1);
    }
  }

  /** Expiry is not enforced: the countdown never closes the submit gate,
      so a challenge whose timer reached zero can still be validated. */
  lemma ExpiryKeepsGateOpen(st: State, n: nat)
    requires SubmitEnabled(st)
    ensures SubmitEnabled(Ticks(st, n))
    ensures st.timer <= n && st.timer >= 0 ==> Ticks(st, n).timer == 0
  {
    if st.timer <= n && st.timer >= 0 {
      TicksCountDown(st, n);
    }
  }

  /** A successful acquire forgets everything about the state before it. */
  lemma AcquireForgetsHistory(a: State, b: State, c: Challenge)
    ensures Acquire(a, Some(c)) == Acquire(b, Some(c))
  {
  }

  /** Passing followed by a successful re-fetch lands in a fresh, unpassed
      challenge; when the service issues a new session id the old one is
      gone. A failed re-fetch leaves the challenge passed, with the
      selection and session as they were. */
  lemma PassThenAcquire(st: State, refetch: Option<Challenge>)
    ensures refetch.Some? ==>
      && !Validate(st, Passed(refetch)).passed
      && Validate(st, Passed(refetch)).selected == []
      && Validate(st, Passed(refetch)).timer == TimeBudget
      && (refetch.value.sessionId != st.sessionId ==>
            Validate(st, Passed(refetch)).sessionId != st.sessionId)
    ensures refetch.None? ==>
      && Validate(st, Passed(refetch)).passed
      && Validate(st, Passed(refetch)).selected == st.selected
      && Validate(st, Passed(refetch)).sessionId == st.sessionId
  {
  }

  /** Every reset empties the selection, so the submit gate is closed
      after a successful acquire and after a failed validation. */
  lemma ResetsCloseGate(st: State, c: Challenge)
    ensures !SubmitEnabled(Acquire(st, Some(c)))
    ensures !SubmitEnabled(Validate(st, Failed))
  {
  }
}
