/**
 * The deck component's touch/mouse handlers: a drag records an origin, every
 * move turns the offset into a live hint (clamping downward offsets), and the
 * release either commits an action on the current product or cancels.  A
 * committed card is replaced by the next product once its out-animation ends.
 */
module SwipeDeck {
  import opened Gesture

  /** A catalogue entry; the handlers read only its id. */
  datatype Product = Product(id: string)

  /** The `swipeDirection` state: '' (Cleared) or 'left', 'right', 'up', 'none'. */
  datatype Hint = Cleared | Shown(dir: Direction)

  /** The action a committed release logs; NoAction is the '' that neither branch overwrote. */
  datatype Action = Passed | Liked | AddedToCart | NoAction

  /** One `console.log` line: the action and the id of the product it applied to. */
  datatype LogEntry = LogEntry(action: Action, productId: string)

  /** The offset and hint a move leaves behind. */
  datatype Moved = Moved(hint: Direction, y: real)

  /** What a release does: return to the centre, or fly out towards (targetX, targetY). */
  datatype Decision = Cancel | Commit(action: Action, targetX: real, targetY: real)

  /** Distance a release must exceed to commit. */
  const SwipeThreshold: real := 100.0

  /** How far past the window edge a committed card is sent. */
  const OffScreenMargin: real := 200.0

  /** Position in `products` of the card on show: `currentIndex % products.length`. */
  function ShownIndex(index: nat, n: nat): (k: nat)
    requires n > 0
    ensures k < n
    ensures index < n ==> k == index
  {
    index % n
  }

  /**
   * The hint a move shows for the offset (dx, dy) from the origin, and the
   * vertical offset it keeps: a downward offset is kept only when the drag is
   * mostly horizontal, otherwise it is clamped to zero.
   */
  function MoveHint(dx: real, dy: real): (m: Moved)
    ensures (m.hint == Left || m.hint == Right) <==> Abs(dx) > Abs(dy)
    ensures m.hint == Right ==> dx > 0.0
    ensures m.hint == Left ==> dx < 0.0
    ensures m.hint == Up <==> Abs(dx) <= Abs(dy) && dy < 0.0
    ensures m.hint == Neutral <==> Abs(dx) <= Abs(dy) && dy >= 0.0
    ensures m.hint != Neutral ==> m.y == dy
    ensures m.hint == Neutral ==> m.y == 0.0
    ensures m.y > 0.0 ==> Abs(dx) > m.y
  {
    if Abs(dx) > Abs(dy) then
      Moved(if dx > 0.0 then Right else Left, dy)
    else if dy < 0.0 then
      Moved(Up, dy)
    else
      Moved(Neutral, Min(0.0, dy))
  }

  /**
   * The release decision for the offset (x, y), with the window's width and
   * height: commit when the card travelled more than the threshold sideways
   * or upwards, horizontal first.
   */
  function EndDecision(x: real, y: real, width: real, height: real): (d: Decision)
    ensures d.Commit? <==> Abs(x) > SwipeThreshold || y < -SwipeThreshold
    ensures d.Commit? && Abs(x) > Abs(y) ==>
      d == Commit(if x > 0.0 then Liked else Passed,
                  if x > 0.0 then width + OffScreenMargin else -width - OffScreenMargin,
                  0.0)
    ensures d.Commit? && Abs(x) <= Abs(y) && y < -SwipeThreshold ==>
      d == Commit(AddedToCart, 0.0, -height - OffScreenMargin)
    ensures d.Commit? && Abs(x) <= Abs(y) && y >= -SwipeThreshold ==> d == Commit(NoAction, 0.0, 0.0)
    ensures d.Commit? && d.action == AddedToCart ==> Abs(x) <= Abs(y) && y < -SwipeThreshold
    ensures d.Commit? && d.action == NoAction ==> d == Commit(NoAction, 0.0, 0.0) && y > SwipeThreshold && Abs(x) <= y
  {
    if Abs(x) > SwipeThreshold || y < -SwipeThreshold then
      if Abs(x) > Abs(y) then
        Commit(if x > 0.0 then Liked else Passed,
               if x > 0.0 then width + OffScreenMargin else -width - OffScreenMargin,
               0.0)
      else if y < -SwipeThreshold then
        Commit(AddedToCart, 0.0, -height - OffScreenMargin)
      else
        Commit(NoAction, 0.0, 0.0)
    else
      Cancel
  }

  /** `getActionText`: the label over the card for the current hint. */
  function ActionText(h: Hint): (s: string)
    ensures s != "" <==> h.Shown? && h.dir != Neutral
    ensures h == Shown(Left) <==> s == "PASS"
    ensures h == Shown(Right) <==> s == "LIKE"
    ensures h == Shown(Up) <==> s == "ADD TO CART"
  {
    match h
    case Shown(Left) => "PASS"
    case Shown(Right) => "LIKE"
    case Shown(Up) => "ADD TO CART"
    case _ => ""
  }

  /** `getOverlayStyle`: the tint over the card for the current hint. */
  function OverlayStyle(h: Hint): (s: string)
    ensures s != "bg-transparent" <==> h.Shown? && h.dir != Neutral
    ensures h == Shown(Left) <==> s == "bg-red-500/30"
    ensures h == Shown(Right) <==> s == "bg-green-500/30"
    ensures h == Shown(Up) <==> s == "bg-blue-500/30"
  {
    match h
    case Shown(Left) => "bg-red-500/30"
    case Shown(Right) => "bg-green-500/30"
    case Shown(Up) => "bg-blue-500/30"
    case _ => "bg-transparent"
  }

  /** The action a release commits to, given the hint the last move showed. */
  function ExpectedAction(hint: Direction, x: real): Action
  {
    match hint
    case Left => Passed
    case Right => Liked
    case Up => AddedToCart
    case Neutral => if x > 0.0 then Liked else Passed
  }

  /** The label over the card announces exactly the action a commit would log. */
  lemma TextNamesAction(d: Direction, x: real)
    requires d != Neutral
    ensures ActionText(Shown(d)) == match ExpectedAction(d, x)
      case Passed => "PASS"
      case Liked => "LIKE"
      case AddedToCart => "ADD TO CART"
      case NoAction => ""
  {
  }

  /**
   * Offsets a move can leave behind never take the commit branch's empty
   * fallthrough: that needs y > 100 with |x| <= y, and the move clamp keeps
   * a downward offset only below |x|.
   */
  lemma ClampedEndHasAction(x: real, y: real, width: real, height: real)
    requires y > 0.0 ==> Abs(x) > y
    ensures EndDecision(x, y, width, height).Commit? ==>
      EndDecision(x, y, width, height).action != NoAction
  {
  }

  /** Without the clamp the fallthrough is reachable: (120, 150) commits with no action. */
  lemma UnclampedEndCanLackAction(width: real, height: real)
    ensures EndDecision(120.0, 150.0, width, height) == Commit(NoAction, 0.0, 0.0)
  {
  }

  /**
   * The action a release commits from the offsets a move left behind agrees
   * with that move's hint; after a 'none' hint the clamped offset makes a
   * release with |x| > 100 commit sideways.
   */
  lemma HintPredictsAction(dx: real, dy: real, width: real, height: real)
    ensures var m := MoveHint(dx, dy);
      var d := EndDecision(dx, m.y, width, height);
      d.Commit? ==> d.action == ExpectedAction(m.hint, dx)
    ensures var m := MoveHint(dx, dy);
      m.hint == Neutral ==> (EndDecision(dx, m.y, width, height).Commit? <==> Abs(dx) > SwipeThreshold)
  {
  }

  /** A release after which the offsets were reset is a cancel. */
  lemma ResetOffsetsCancel(width: real, height: real)
    ensures EndDecision(0.0, 0.0, width, height) == Cancel
  {
  }

  /** Euclidean division leaves a unique remainder. */
  lemma RemainderUnique(a: int, n: int, q: int, r: int)
    requires n > 0 && a == q * n + r && 0 <= r < n
    ensures a % n == r
  {
    var k := q - a / n;
    assert k * n == a % n - r;
    assert k >= 1 ==> k * n - n == (k - 1) * n >= 0;
    assert k <= -1 ==> k * n + n == (k + 1) * n <= 0;
  }

  /** Advancing the index shows the next product, and the first one after the last. */
  lemma AdvanceShowsNext(index: nat, n: nat)
    requires n > 0
    ensures ShownIndex(index + 1, n) ==
      if ShownIndex(index, n) == n - 1 then 0 else ShownIndex(index, n) + 1
  {
    var q, r := index / n, index % n;
    assert index == q * n + r;
    if r == n - 1 {
      RemainderUnique(index + 1, n, q + 1, 0);
    } else {
      RemainderUnique(index + 1, n, q, r + 1);
    }
  }

  /** A full turn of the deck shows the same product again, however many turns. */
  lemma FullTurnsReturn(index: nat, turns: nat, n: nat)
    requires n > 0
    ensures ShownIndex(index + turns * n, n) == ShownIndex(index, n)
  {
    var q, r := index / n, index % n;
    assert index == q * n + r;
    assert index + turns * n == (q + turns) * n + r;
    RemainderUnique(index + turns * n, n, q + turns, r);
  }

  /** After n advances from the start, an n-card deck shows its first product again. */
  lemma WrapsToFirst(n: nat)
    requires n > 0
    ensures ShownIndex(n, n) == 0
  {
    FullTurnsReturn(0, 1, n);
  }

  /**
   * The component's state: the index of the card on show, the last logged
   * action, the hint, the drag flag, the origin and the offset refs.
   */
  class Deck {
    const products: seq<Product>
    var currentIndex: nat
    var lastAction: Option<Action>
    var swipeDirection: Hint
    var isSwiping: bool
    var initialX: real
    var initialY: real
    var currentX: real
    var currentY: real
    /** Timers a commit started whose index advance has not run yet. */
    var pendingAdvances: nat
    /** The `console.log` lines, one per commit. */
    ghost var log: seq<LogEntry>

    ghost predicate Valid()
      reads this
    {
      && (currentY > 0.0 ==> Abs(currentX) > currentY)
      && (!isSwiping ==> currentX == 0.0 && currentY == 0.0)
      && currentIndex + pendingAdvances == |log|
      && (forall k :: 0 <= k < |log| ==> log[k].action != NoAction)
      && (if log == [] then lastAction == None else lastAction == Some(log[|log| - 1].action))
    }

    /** The product the card shows (`currentProduct`). */
    function CurrentProduct(): (p: Product)
      reads this
      requires |products| > 0
      ensures p in products
      ensures currentIndex < |products| ==> p == products[currentIndex]
    {
      products[ShownIndex(currentIndex, |products|)]
    }

    constructor (products: seq<Product>)
      ensures Valid()
      ensures this.products == products && currentIndex == 0 && lastAction == None
      ensures swipeDirection == Cleared && !isSwiping && pendingAdvances == 0 && log == []
      ensures initialX == 0.0 && initialY == 0.0 && currentX == 0.0 && currentY == 0.0
    {
      this.products := products;
      currentIndex := 0;
      lastAction := None;
      swipeDirection := Cleared;
      isSwiping := false;
      initialX, initialY := 0.0, 0.0;
      currentX, currentY := 0.0, 0.0;
      pendingAdvances := 0;
      log := [];
    }

    /** `handleTouchStart` at pointer (x, y): start a drag from there. */
    method Start(x: real, y: real)
      requires Valid()
      modifies this
      ensures Valid()
      ensures isSwiping && initialX == x && initialY == y
      ensures currentX == old(currentX) && currentY == old(currentY)
      ensures swipeDirection == old(swipeDirection) && currentIndex == old(currentIndex)
      ensures lastAction == old(lastAction) && pendingAdvances == old(pendingAdvances) && log == old(log)
    {
      isSwiping := true;
      initialX := x;
      initialY := y;
    }

    /** `handleTouchMove` at pointer (x, y): nothing unless a drag is on. */
    method Move(x: real, y: real)
      requires Valid()
      modifies this
      ensures Valid()
      ensures !old(isSwiping) ==> unchanged(this)
      ensures old(isSwiping) ==>
        var m := MoveHint(x - old(initialX), y - old(initialY));
        && currentX == x - old(initialX) && currentY == m.y
        && swipeDirection == Shown(m.hint)
      ensures isSwiping == old(isSwiping) && initialX == old(initialX) && initialY == old(initialY)
      ensures currentIndex == old(currentIndex) && lastAction == old(lastAction)
      ensures pendingAdvances == old(pendingAdvances) && log == old(log)
    {
      if !isSwiping {
        return;
      }
      currentX := x - initialX;
      currentY := y - initialY;
      if Abs(currentX) > Abs(currentY) {
        if currentX > 0.0 {
          swipeDirection := Shown(Right);
        } else {
          swipeDirection := Shown(Left);
        }
      } else if currentY < 0.0 {
        swipeDirection := Shown(Up);
      } else {
        currentY := Min(0.0, currentY);
        swipeDirection := Shown(Neutral);
      }
    }

    /**
     * `handleTouchEnd` (also mouse-up and mouse-leave) in a window of the
     * given size: decide, log a commit against the product on show and
     * schedule its advance, or clear the hint; then zero the offsets.
     */
    method End(width: real, height: real) returns (d: Decision)
      requires Valid()
      requires |products| > 0
      modifies this
      ensures Valid()
      ensures d == EndDecision(old(currentX), old(currentY), width, height)
      ensures d.Commit? ==> d.action != NoAction
      ensures !old(isSwiping) ==> d == Cancel
      ensures !isSwiping && currentX == 0.0 && currentY == 0.0
      ensures currentIndex == old(currentIndex)
      ensures initialX == old(initialX) && initialY == old(initialY)
      ensures d.Commit? ==>
        && log == old(log) + [LogEntry(d.action, old(CurrentProduct()).id)]
        && lastAction == Some(d.action)
        && pendingAdvances == old(pendingAdvances) + 1
        && swipeDirection == old(swipeDirection)
      ensures d.Cancel? ==>
        && log == old(log) && lastAction == old(lastAction)
        && pendingAdvances == old(pendingAdvances)
        && swipeDirection == Cleared
    {
      isSwiping := false;
      ClampedEndHasAction(currentX, currentY, width, height);
      d := EndDecision(currentX, currentY, width, height);
      if d.Commit? {
        log := log + [LogEntry(d.action, CurrentProduct().id)];
        lastAction := Some(d.action);
        pendingAdvances := pendingAdvances + 1;
      } else {
        swipeDirection := Cleared;
      }
      currentX := 0.0;
      currentY := 0.0;
    }

    /** The timer a commit started fires: show the next product and clear the hint. */
    method AdvanceAfterAnimation()
      requires Valid()
      requires pendingAdvances > 0
      modifies this
      ensures Valid()
      ensures currentIndex == old(currentIndex) + 1
      ensures pendingAdvances == old(pendingAdvances) - 1
      ensures swipeDirection == Cleared
      ensures isSwiping == old(isSwiping) && lastAction == old(lastAction) && log == old(log)
      ensures initialX == old(initialX) && initialY == old(initialY)
      ensures currentX == old(currentX) && currentY == old(currentY)
    {
      currentIndex := currentIndex + 1;
      pendingAdvances := pendingAdvances - 1;
      swipeDirection := Cleared;
    }
  }

  /**
   * Liking every card of a fresh deck once logs each product in order and
   * brings the first product back on show.
   */
  method LikeFullTurn(products: seq<Product>) returns (deck: Deck)
    requires |products| > 0
    ensures deck.Valid() && deck.products == products
    ensures deck.currentIndex == |products| && deck.pendingAdvances == 0
    ensures |deck.log| == |products|
    ensures forall k :: 0 <= k < |products| ==> deck.log[k] == LogEntry(Liked, products[k].id)
    ensures deck.CurrentProduct() == products[0]
  {
    deck := new Deck(products);
    var i := 0;
    while i < |products|
      invariant 0 <= i <= |products|
      invariant deck.Valid() && deck.products == products
      invariant deck.currentIndex == i && deck.pendingAdvances == 0 && |deck.log| == i
      invariant forall k :: 0 <= k < i ==> deck.log[k] == LogEntry(Liked, products[k].id)
    {
      var d := LikeOnce(deck);
      i := i + 1;
    }
    WrapsToFirst(|products|);
  }

  /** Drag 120 to the right and release in a 400 by 800 window, then let the timer fire. */
  method LikeOnce(deck: Deck) returns (d: Decision)
    requires deck.Valid() && |deck.products| > 0 && deck.pendingAdvances == 0
    modifies deck
    ensures deck.Valid()
    ensures d == Commit(Liked, 600.0, 0.0)
    ensures deck.currentIndex == old(deck.currentIndex) + 1 && deck.pendingAdvances == 0
    ensures deck.log == old(deck.log) + [LogEntry(Liked, deck.products[ShownIndex(old(deck.currentIndex), |deck.products|)].id)]
  {
    deck.Start(0.0, 0.0);
    deck.Move(120.0, 0.0);
    d := deck.End(400.0, 800.0);
    deck.AdvanceAfterAnimation();
  }
}
