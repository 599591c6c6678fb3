# Image captcha challenge controller

A Dafny model of the challenge lifecycle that the `App` component of the
image-captcha front end keeps in its React state: a challenge (task, images,
session id) is acquired from the captcha service, the user toggles image
names into a selection, a 30-second countdown runs, and a validation either
passes (and a new challenge is fetched), fails (the selection is cleared) or
is rejected (no connection, a timeout, an error status) or gets an answer
whose body is the JSON literal `null`, so that reading `success` throws — in
which case nothing changes. An empty, non-JSON or `success`-less answer, or
one whose `success` is false, counts as a fail.

The six `useState` hooks become one immutable `Captcha.State`; each handler
becomes a pure transition with the network answer passed in as a value:

- `wrappers.dfy` — `Option`, the outcome of a request that may fail.
- `selection.dfy` — the selection list: `Without` (the `filter` call) and
  `Toggle` (`handleSelect` on the list), with the toggle-twice lemmas.
- `captcha.dfy` — the state, `Acquire` (`fetchCaptcha`), `Select`
  (`handleSelect`), `Tick` (one firing of the countdown interval),
  `Validate` (`validateCaptcha`) and `SubmitEnabled` (the Validate button).
- `lifecycle.dfy` — the page as an event source: which events the rendered
  page can produce in a state, traces of events, and the invariant every
  reachable state keeps.

The model keeps the behaviour of the code, including:

- toggling twice is not the identity on sequences: a present name moves to
  the end of the selection (`Selection.ToggleTwiceReorders`);
- `handleSelect` does not check that the name belongs to the images
  (`Captcha.Select`); the page only offers image names, which
  `Lifecycle.Enabled` records;
- a timer at zero causes no transition and does not close the submit gate
  (`Captcha.ExpiryKeepsGateOpen`);
- a pass whose follow-up fetch fails leaves `passed` true, with the old
  selection and session.

The submit gate is `!passed && |selected| >= 3`: the button is disabled
below three selections (src/App.tsx:98) and is rendered only while the
challenge is not passed (src/App.tsx:77-100).

## Model

| member | source | states |
|---|---|---|
| Selection.Without | src/App.tsx:44 | the filtered list holds every other name as often as before and no copy of the removed name; filtering an absent name gives back the list itself; it is strictly shorter when the name was present |
| Selection.WithoutNoDup | src/App.tsx:44 | filtering a duplicate-free list keeps it duplicate-free |
| Selection.WithoutAppend | src/App.tsx:44 | filtering distributes over concatenation, so the kept names stay in their original order |
| Selection.Toggle | src/App.tsx:43-47 | a name is in the result exactly when it was in the list xor it is the toggled name; a present name is removed (all copies), an absent one is appended at the end; duplicate-freedom is preserved |
| Selection.ToggleTwiceAbsent | src/App.tsx:42-48 | toggling an absent name twice gives back the identical list |
| Selection.ToggleTwicePresent | src/App.tsx:42-48 | toggling a present name twice in a duplicate-free list gives back the same multiset and length, with the name moved to the end |
| Selection.ToggleTwice | src/App.tsx:42-48 | on a duplicate-free list, toggling twice restores the same elements, and the same sequence when the name was absent |
| Selection.ToggleTwiceReorders | src/App.tsx:43-46 | a concrete list where toggling twice changes the order: ["a","b"] becomes ["b","a"] |
| Captcha.Acquire | src/App.tsx:14-27 | a delivered challenge sets task, images and session from the response, empties the selection, sets the timer to 30 and clears passed; a failed request leaves every field unchanged |
| Captcha.AcquireForgetsHistory | src/App.tsx:17-23 | the state after a successful acquire does not depend on the state before it |
| Captcha.Select | src/App.tsx:42-48 | only the selection changes; the toggled name flips membership, every other name keeps it, no membership check against the images is made |
| Captcha.Tick | src/App.tsx:34-39 | one firing lowers the timer by exactly one when not passed and time is left, and otherwise changes nothing; no other field changes and a non-negative timer stays non-negative |
| Captcha.Ticks | src/App.tsx:34-39 | any number of firings changes only the timer, never raises it and never takes it below zero |
| Captcha.TicksCountDown | src/App.tsx:35-36 | while not passed, n firings leave the timer at max(timer - n, 0) |
| Captcha.TicksStopWhenPassed | src/App.tsx:35 | once passed, firings change nothing |
| Captcha.ExpiryKeepsGateOpen | src/App.tsx:98 | the countdown never closes the submit gate, even when it has run down to zero |
| Captcha.Validate | src/App.tsx:51-70 | a pass marks the challenge passed and is followed by an acquire; a fail empties the selection and keeps session, task, images, timer and passed; a transport error changes nothing |
| Captcha.PassThenAcquire | src/App.tsx:59-62 | a pass with a successful re-fetch ends unpassed, with empty selection, timer 30 and a new session when the service issues one; with a failed re-fetch it stays passed with the old selection and session |
| Captcha.ResetsCloseGate | src/App.tsx:63-66 | after a successful acquire and after a failed validation the submit gate is closed |
| Captcha.SubmitEnabled | src/App.tsx:77-100 | the Validate button can be pressed exactly when the challenge is not passed and at least three names are selected |
| Lifecycle.Enabled | src/App.tsx:77-100 | clicks only on shown image names and only while not passed; a verdict only when the submit gate is open; fetches and ticks at any time |
| Lifecycle.Step | src/App.tsx:14-70 | the session id changes only on an event that delivers a challenge; a passed challenge is left unchanged by every enabled event that delivers none |
| Lifecycle.InitialInv | src/App.tsx:6-11 | the initial hook values satisfy the invariant |
| Lifecycle.StepKeepsInv | src/App.tsx:42-98 | every event the page can produce keeps the timer in [0, 30] and the selection duplicate-free and within the shown image names |
| Lifecycle.RunKeepsInv | src/App.tsx:42-98 | every admissible trace keeps the invariant |
| Lifecycle.Reachable | src/App.tsx:10-39 | from the initial state, the timer stays in [0, 30] and the selection stays duplicate-free whatever the page and the service do |
| Lifecycle.SessionOnlyFromAcquire | src/App.tsx:20 | a trace that delivers no challenge leaves the session id unchanged |
| Lifecycle.PassedIsFrozen | src/App.tsx:77-100 | a passed challenge stays exactly as it is until a challenge is delivered |
| Lifecycle.SelectionGrowth | src/App.tsx:42-48 | a trace grows the selection by at most one name per click |
| Lifecycle.GateNeedsThreeClicks | src/App.tsx:98 | from an empty selection the Validate button is enabled only after at least three clicks |

## Left out

- HTTP requests and response decoding (src/App.tsx:16-17, 53-57): responses are inputs (`Option<Challenge>`, `Verdict`); the POST body is not modelled.
- `alert` and `console.error` (src/App.tsx:25, 60, 64, 68): notifications, not state.
- Rendering, CSS classes and the image URL concatenation (src/App.tsx:72-104): presentation only; the only facts kept are which controls the page offers.
- React scheduling: `useEffect` re-runs, `setInterval`/`clearInterval` lifetimes and the mount-time fetch (src/App.tsx:29-31, 36-37); one firing of the interval is `Captcha.Tick`, and a fetch may complete at any point of a trace.
- Overlapping or out-of-order async requests: each request's completion is one atomic event; the code has no guard against races.
- Lifecycle.Enabled checks the submit gate when the verdict arrives, not when the button is pressed, so clicks made while a validation is in flight are not modelled (for example, a pass with a failed re-fetch and two names selected is reachable in the code but not in the model).
- Lifecycle.Enabled lets a fetch complete in any state, since the mount fetch and the retry button can both have a request in flight.
