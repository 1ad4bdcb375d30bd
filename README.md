# Swipe deck gesture model

A Dafny model of the two swipe-to-decide implementations in the Shoppin
product-discovery app. Each one turns a pointer drag into a live direction
hint, and at release turns it into a committed action (pass, like,
add-to-cart) or a cancel.

- `gesture.dfy` (module `Gesture`): the shared `Direction` (`left`, `right`,
  `up`, `none`), `Option`, and `Math.abs`/`max`/`min` on coordinates.
- `swipe_deck.dfy` (module `SwipeDeck`): the deck component.
  - Class `Deck` holds the component's state and refs: `currentIndex`,
    `lastAction`, `swipeDirection`, `isSwiping`, `initialX/Y`, `currentX/Y`.
  - Its methods are the three handlers plus the delayed index advance.
  - Pure functions give the move hint and clamp (`MoveHint`), the release
    decision (`EndDecision`), the cyclic product index (`ShownIndex`), and
    the label and overlay mappings.
  - `Deck.Valid()` holds five invariants that every handler keeps:
    1. A downward offset survives only when it is smaller than the
       horizontal one.
    2. Both offsets are zero whenever no drag is on.
    3. `currentIndex` plus the advances still waiting on a timer equals the
       number of logged commits.
    4. No commit ever logs the empty action.
    5. `lastAction` is the last logged action.
- `use_swipe.dfy` (module `UseSwipe`): the `useSwipe` hook.
  - The pure `DragStep` specifies one `useDrag` callback. It is built from
    `LiveHint` and `ReleaseDecision`.
  - Class `SwipeHook` holds the `position`, `direction` and `swiped` cells.
    Its `OnDrag` method is proved equal to `DragStep`.
  - `Run` folds a sequence of callbacks, and the latch lemmas are proved
    over it.

Coordinates are `real`. The DOM and the gesture library deliver fractional
numbers, and the code adds, subtracts, doubles, divides a constant by 1.5,
scales the tilt by 0.15 or 0.1, compares and tests signs. Doubling is exact in
doubles. The one constant the code computes, `SWIPE_THRESHOLD / 1.5`, is
written as the exact value of the double it evaluates to
(`UseSwipe.UpwardThreshold`). The rounding of the subtractions and of the tilt
is not modelled (see "## Left out").

Facts about the code that shape the model:
- The deck component keeps no phase state beyond `isSwiping`.
  - A second start during a drag records a new origin and keeps the current
    offsets.
  - A move while no drag is on changes nothing.
  - A release while no drag is on (mouse-leave) runs the whole handler. It
    always cancels, because the offsets are already zero.
- Reading the current product of an empty list yields `undefined` (line 22);
  the card carrying the handlers is only rendered for a non-empty list.
- The deck's release uses distance only: it commits when `|x| > 100` or
  `y < -100`. The hook's release also passes on velocity.
- A deck commit logs its action at release. The index advances when the
  300 ms timer fires. The hook calls `onSwipe` at release.
- The deck sends a committed card to `±(innerWidth + 200)` or
  `-(innerHeight + 200)`. The hook sends it to `±1500` or `-1500`.
- After a mostly downward move, the deck's hint shows `none` and the vertical
  offset is clamped to zero. So a release with `|x| > 100` then commits as
  Liked or Passed (`HintPredictsAction`).

## Model

| member | source | states |
|---|---|---|
| `SwipeDeck.ShownIndex` | src/components/SwipeDeck.tsx:22 | the product on show lies inside the deck and is the index itself until the deck wraps |
| `SwipeDeck.AdvanceShowsNext` | src/components/SwipeDeck.tsx:22 | one advance of `currentIndex` shows the next product, and the first one after the last |
| `SwipeDeck.FullTurnsReturn` | src/components/SwipeDeck.tsx:22 | advancing by any whole number of deck lengths shows the same product again |
| `SwipeDeck.Deck.CurrentProduct` | src/components/SwipeDeck.tsx:22 | the product on show is one of the deck's products, and is the one at `currentIndex` until the deck wraps |
| `SwipeDeck.LikeFullTurn` | src/components/SwipeDeck.tsx:136-143 | liking every card of a fresh n-card deck once logs each product's id in order, leaves `currentIndex` at n and shows the first product again |
| `SwipeDeck.WrapsToFirst` | src/components/SwipeDeck.tsx:140-143 | after n advances from the start, an n-card deck shows its first product again |
| `SwipeDeck.MoveHint` | src/components/SwipeDeck.tsx:72-89 | hint is left or right exactly when the drag is mostly horizontal (signed by x); up exactly when it is mostly vertical and upward; none otherwise, and then y is clamped to 0; a kept downward offset is below the horizontal one |
| `SwipeDeck.EndDecision` | src/components/SwipeDeck.tsx:109-131 | commits iff `abs(x) > 100` or `y < -100`; a horizontal commit is Liked or Passed by the sign of x with target `±(width+200)`, never Added to cart; Added to cart exactly for a mostly vertical offset with `y < -100`, with target `-(height+200)`; a commit that is neither horizontal nor below -100 is the empty action with target (0, 0), which needs `y > 100` with `abs(x) <= y` |
| `SwipeDeck.ClampedEndHasAction` | src/components/SwipeDeck.tsx:116-131 | for offsets that keep the move clamp, a commit never takes the empty-action fallthrough |
| `SwipeDeck.UnclampedEndCanLackAction` | src/components/SwipeDeck.tsx:127-131 | without the clamp, the offset (120, 150) would commit with the empty action |
| `SwipeDeck.HintPredictsAction` | src/components/SwipeDeck.tsx:72-131 | a release committed from the offsets a move left behind logs the action the move's hint announced; after a `none` hint it commits iff `abs(x) > 100` |
| `SwipeDeck.ResetOffsetsCancel` | src/components/SwipeDeck.tsx:151-153 | a release with the zeroed offsets is a cancel |
| `SwipeDeck.ActionText` | src/components/SwipeDeck.tsx:169-178 | left gives PASS, right gives LIKE, up gives ADD TO CART, each exactly; every other hint gives the empty label |
| `SwipeDeck.OverlayStyle` | src/components/SwipeDeck.tsx:157-166 | red, green or blue tint exactly for left, right or up; transparent exactly for every other hint |
| `SwipeDeck.TextNamesAction` | src/components/SwipeDeck.tsx:169-178 | the label over the card names the action a commit from that hint logs |
| `SwipeDeck.Deck.constructor` | src/components/SwipeDeck.tsx:9-19 | index 0, no last action, empty hint, no drag, zero origin and offsets |
| `SwipeDeck.Deck.Start` | src/components/SwipeDeck.tsx:33-51 | starts a drag at the pointer, changes nothing else (the offsets are not reset) |
| `SwipeDeck.Deck.Move` | src/components/SwipeDeck.tsx:54-97 | changes nothing unless a drag is on; otherwise offset = pointer − origin with the `MoveHint` clamp and hint; index, log and origin untouched; invariants kept |
| `SwipeDeck.Deck.End` | src/components/SwipeDeck.tsx:100-154 | applies `EndDecision` to the offsets; a commit logs exactly one (action, id of the product on show) and schedules one advance, leaving the index and hint for the timer; a cancel clears the hint and logs nothing; always ends the drag and zeroes the offsets; with no drag on it is a cancel; never logs the empty action |
| `SwipeDeck.Deck.AdvanceAfterAnimation` | src/components/SwipeDeck.tsx:140-143 | the commit's timer raises the index by exactly one and clears the hint, nothing else |
| `UseSwipe.LiveHint` | src/hooks/useSwipe.tsx:28-34 | left or right exactly when `abs(mx) > 2·abs(my)`, signed by mx; up exactly when `my < -abs(mx)` and `my < -30`; none otherwise |
| `UseSwipe.ReleaseDecision` | src/hooks/useSwipe.tsx:38-66 | snap back when the distance-or-velocity gate fails; past the gate a mostly horizontal drag flings left or right by the sign of mx, never up; an up fling happens exactly past the gate with `abs(mx) <= abs(my)` and `my` below the double `100/1.5` or `my < 0` with `vy < -0.5`; a sideways fling only for a mostly horizontal drag; past the gate, a drag that is neither horizontal nor upward enough snaps back, so one ending with `my >= 0` and `abs(mx) <= abs(my)` never flings |
| `UseSwipe.FlingTarget` | src/hooks/useSwipe.tsx:46-54 | a sideways fling goes to (±1500, 0) with the sign of its direction; an up fling goes to (0, −1500) |
| `UseSwipe.DragStep` | src/hooks/useSwipe.tsx:20-68 | once swiped nothing changes and nothing fires; while active the position follows (mx, my) with the live hint; at the last event a fling moves to (±1500, 0) or (0, −1500), latches `swiped`, keeps the hint and fires once; a snap back resets to (0,0) and `none`; `onSwipe` fires exactly when `swiped` flips |
| `UseSwipe.LatchedIsFinal` | src/hooks/useSwipe.tsx:22 | from a latched state any sequence of callbacks changes nothing and calls nothing |
| `UseSwipe.OnSwipeAtMostOnce` | src/hooks/useSwipe.tsx:22-56 | over any sequence of callbacks `onSwipe` is called at most once, never from a latched state, and exactly when the run ends latched; `swiped` is never reset |
| `UseSwipe.HintAgreesWithRelease` | src/hooks/useSwipe.tsx:28-51 | a left or right live hint at release becomes a fling the same way once the gate passes; an up hint never becomes a sideways fling |
| `UseSwipe.UpHintPastTwoThirdsFlingsUp` | src/hooks/useSwipe.tsx:30-56 | an up hint beyond two thirds of the threshold always flings up when the gate passes |
| `UseSwipe.Rotation` | src/hooks/useSwipe.tsx:78 | the tilt is zero exactly at x = 0, has the sign of x, and is smaller in magnitude than x |
| `UseSwipe.FlingRotation` | src/hooks/useSwipe.tsx:46-78 | a flung card is tilted 225° right, −225° left, 0° up |
| `UseSwipe.EasedTransition` | src/hooks/useSwipe.tsx:82 | the eased return transition is chosen exactly at position (0, 0), where the card is also untilted |
| `UseSwipe.EasedExactlyOnSnapBack` | src/hooks/useSwipe.tsx:82 | at the end of a drag the eased return transition is chosen exactly when `onSwipe` was not called |
| `UseSwipe.SwipeHook.constructor` | src/hooks/useSwipe.tsx:10-12 | position (0,0), hint none, not swiped, no calls |
| `UseSwipe.SwipeHook.OnDrag` | src/hooks/useSwipe.tsx:20-68 | the callback's new state and its `onSwipe` call are those of `DragStep`; the call log grows by that call only; at most one call ever (`swiped` iff one call) |

## Left out

- Double-precision rounding of the offsets (`clientX - initialX`) and of the tilt (`x * 0.15`): they are exact reals here. The comparisons they feed are modelled exactly, including the rounded `100 / 1.5`.
- Rendering: JSX, class strings, the overlay opacity, and the `style.transform`/`transition` writes. The deck's rotation factor 0.1 is only written to the DOM. The deck's release returns its target position instead of writing it.
- `ProductCard.tsx`, `App.tsx` and `capacitor.config.ts`: presentation and app shell. The product type file is not part of this model, so a product is reduced to its `id`.
- The gesture library's internals: how `movement`, `velocity`, `filterTaps`, `bounds` and `rubberband` are computed. The callback inputs are arbitrary values.
- Timers: the 300 ms `setTimeout` is the explicit method `AdvanceAfterAnimation`, which can run only while a commit's advance is pending. CSS transition timing is not modelled.
- `window.innerWidth`/`innerHeight`: parameters of `End`.
- Touch versus mouse event decoding and `preventDefault`: events are reduced to coordinates.
- `console.log`: a ghost log of (action, product id) pairs.
- React's asynchronous state batching and stale closures: setters update fields immediately. The card element is assumed mounted while its handlers run.
- SwipeDeck.Deck.End: requires a non-empty product list, because the card carrying the handlers is rendered only then (line 186). `ShownIndex` likewise takes `n > 0`; line 22 yields `undefined` for an empty list.
