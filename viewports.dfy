// Viewport: a container that shows a windowed part of one component, its
// view. The scroll offsets and the view slot notify the viewport listeners
// only when they actually change, and the indexed `remove` refuses to take
// the view out.

module Viewports {
  import opened JavaLang
  import opened Awt

  /** What the viewport listeners are told, with the value before the change. */
  datatype ViewportEvent =
    | ScrollTopChanged(previousScrollTop: int32)
    | ScrollLeftChanged(previousScrollLeft: int32)
    | ViewChanged(previousView: Option<nat>)

  /** A skin, and whether its class implements `Viewport.Skin`. */
  datatype Skin = Skin(id: nat, isViewportSkin: bool)

  // ---------------------------------------------------------------------
  // remove(index, count)
  // ---------------------------------------------------------------------

  /**
   * The scan of indices `i` up to `n` that `remove` makes before removing
   * anything: `get(i)` outside the children throws, and meeting the view
   * throws UnsupportedOperationException.
   */
  function Scan(children: seq<nat>, view: Option<nat>, i: int, n: int): Outcome
    decreases n - i
  {
    if i >= n then Completed
    else if !(0 <= i < |children|) then Raised(IndexOutOfBounds)
    else if view == Some(children[i]) then Raised(UnsupportedOperation)
    else Scan(children, view, i + 1, n)
  }

  /**
   * `remove(index, count)`: the scan runs to `index + count` computed in 32
   * bits; the removal itself is the base container's, which rejects a
   * range outside the children and otherwise returns the removed run.
   */
  function RemoveResult(children: seq<nat>, view: Option<nat>, index: int32, count: int32): (r: Result<seq<nat>>)
    ensures r.Ok? ==> (0 <= index && 0 <= count && index + count <= |children|
      && r.value == children[index..index + count])
  {
    match Scan(children, view, index, Wrap32(index + count))
    case Raised(e) => Threw(e)
    case Completed =>
      if 0 <= index && 0 <= count && index + count <= |children| then Ok(children[index..index + count])
      else Threw(IndexOutOfBounds)
  }

  /** The children left by a successful `remove(index, count)`. */
  function Remaining(children: seq<nat>, index: nat, count: nat): seq<nat>
    requires index + count <= |children|
  {
    children[..index] + children[index + count..]
  }

  /** A scan that completes has met only children other than the view. */
  lemma {:induction false} ScanCompleted(children: seq<nat>, view: Option<nat>, i: int, n: int)
    requires Scan(children, view, i, n) == Completed
    ensures i < n ==> 0 <= i && n <= |children|
    ensures forall k :: i <= k < n ==> view != Some(children[k])
    decreases n - i
  {
    if i < n {
      ScanCompleted(children, view, i + 1, n);
    }
  }

  /** A scan over children in range meets the view if it is there. */
  lemma {:induction false} ScanFindsView(children: seq<nat>, view: Option<nat>, i: int, n: int)
    requires 0 <= i && n <= |children|
    ensures Scan(children, view, i, n) == Raised(UnsupportedOperation)
      <==> exists k :: i <= k < n && view == Some(children[k])
    ensures Scan(children, view, i, n) != Raised(UnsupportedOperation) ==> Scan(children, view, i, n) == Completed
    decreases n - i
  {
    if i < n {
      ScanFindsView(children, view, i + 1, n);
      if view == Some(children[i]) {
        assert exists k :: i <= k < n && view == Some(children[k]);
      } else if exists k :: i <= k < n && view == Some(children[k]) {
        var k :| i <= k < n && view == Some(children[k]);
        assert k != i;
      }
    }
  }

  /**
   * Within the children, `remove` throws UnsupportedOperationException
   * exactly when the view lies in `[index, index + count)`, and otherwise
   * removes that run.
   */
  lemma RemoveRejectsView(children: seq<nat>, view: Option<nat>, index: int32, count: int32)
    requires |children| <= INT_MAX
    requires 0 <= index && 0 <= count && index + count <= |children|
    ensures RemoveResult(children, view, index, count) == Threw(UnsupportedOperation)
      <==> exists k :: index <= k < index + count && view == Some(children[k])
    ensures RemoveResult(children, view, index, count) != Threw(UnsupportedOperation)
      ==> RemoveResult(children, view, index, count) == Ok(children[index..index + count])
  {
    assert Wrap32(index + count) == index + count;
    ScanFindsView(children, view, index, index + count);
  }

  /** A `remove` that succeeds leaves the view among the children. */
  lemma RemoveKeepsView(children: seq<nat>, view: nat, index: int32, count: int32)
    requires |children| <= INT_MAX
    requires view in children
    requires RemoveResult(children, Some(view), index, count).Ok?
    ensures view in Remaining(children, index, count)
  {
    var n := Wrap32(index + count);
    ScanCompleted(children, Some(view), index, n);
    var k :| 0 <= k < |children| && children[k] == view;
    if count > 0 {
      assert n == index + count;
    }
    if k < index {
      assert Remaining(children, index, count)[k] == view;
    } else {
      assert k >= index + count;
      assert Remaining(children, index, count)[k - count] == view;
    }
  }

  // ---------------------------------------------------------------------
  // setView
  // ---------------------------------------------------------------------

  /**
   * The children after `setView(next)` replaces `previous`: the previous
   * view removed, the next one inserted at index 0.
   */
  function ViewSwap(children: seq<nat>, previous: Option<nat>, next: Option<nat>): (r: seq<nat>)
    ensures next.Some? ==> |r| > 0 && r[0] == next.value
  {
    var kept := if previous.Some? then ListRemove(children, previous.value) else children;
    (if next.Some? then [next.value] else []) + kept
  }

  /** Every child other than the previous view is still a child after the swap. */
  lemma ViewSwapKeepsOthers(children: seq<nat>, previous: Option<nat>, next: Option<nat>)
    ensures forall c :: c in children && Some(c) != previous ==> c in ViewSwap(children, previous, next)
  {
    forall c | c in children && Some(c) != previous
      ensures c in ViewSwap(children, previous, next)
    {
      var kept := if previous.Some? then ListRemove(children, previous.value) else children;
      if previous.Some? {
        ListRemoveKeepsOthers(children, previous.value, c);
      }
      assert c in kept;
    }
  }

  /** `ArrayList.remove(x)` keeps every element other than `x`. */
  lemma ListRemoveKeepsOthers(s: seq<nat>, x: nat, c: nat)
    requires c in s && c != x
    ensures c in ListRemove(s, x)
  {
    if x in s {
      var i := FirstIndex(s, x);
      var k :| 0 <= k < |s| && s[k] == c;
      if k < i {
        assert s[..i][k] == c;
      } else {
        assert s[i + 1..][k - i - 1] == c;
      }
    }
  }

  /** The previous view, held once, is gone after a swap to another view. */
  lemma ViewSwapDropsPrevious(children: seq<nat>, previous: nat, next: Option<nat>)
    requires next != Some(previous)
    requires previous in children ==> previous !in children[FirstIndex(children, previous) + 1..]
    ensures previous !in ViewSwap(children, Some(previous), next)
  {
    if previous in children {
      var i := FirstIndex(children, previous);
      assert ListRemove(children, previous) == children[..i] + children[i + 1..];
    }
  }

  // ---------------------------------------------------------------------
  // The viewport
  // ---------------------------------------------------------------------

  class Viewport {
    var scrollTop: int32
    var scrollLeft: int32
    var view: Option<nat>
    /** The container's components, in order. */
    var children: seq<nat>
    var consumeRepaint: bool
    var repaintAllViewport: bool
    var skin: Option<Skin>
    /** Every notification the viewport listeners have received, in order. */
    var fired: seq<ViewportEvent>

    /** The view, when set, is one of the children, which a Java list indexes with an `int`. */
    ghost predicate Valid()
      reads this
    {
      && |children| <= INT_MAX
      && (view.Some? ==> view.value in children)
    }

    constructor (children: seq<nat>)
      requires |children| <= INT_MAX
      ensures Valid()
      ensures scrollTop == 0 && scrollLeft == 0 && view == None && this.children == children
      ensures !consumeRepaint && !repaintAllViewport && skin == None && fired == []
    {
      scrollTop, scrollLeft, view := 0, 0, None;
      this.children := children;
      consumeRepaint, repaintAllViewport := false, false;
      skin, fired := None, [];
    }

    /** `setSkin`: a skin, or `null`, not implementing `Viewport.Skin` is rejected. */
    method SetSkin(s: Option<Skin>) returns (outcome: Outcome)
      modifies this`skin
      ensures s.Some? && s.value.isViewportSkin <==> outcome == Completed
      ensures outcome == Completed ==> skin == s
      ensures outcome != Completed ==> outcome == Raised(IllegalArgument) && skin == old(skin)
    {
      if s.None? || !s.value.isViewportSkin {
        return Raised(IllegalArgument);
      }
      skin := s;
      return Completed;
    }

    method SetScrollTop(value: int32)
      modifies this`scrollTop, this`fired
      ensures scrollTop == value
      ensures fired == old(fired) + if value == old(scrollTop) then [] else [ScrollTopChanged(old(scrollTop))]
    {
      var previous := scrollTop;
      if value != previous {
        scrollTop := value;
        fired := fired + [ScrollTopChanged(previous)];
      }
    }

    method SetScrollLeft(value: int32)
      modifies this`scrollLeft, this`fired
      ensures scrollLeft == value
      ensures fired == old(fired) + if value == old(scrollLeft) then [] else [ScrollLeftChanged(old(scrollLeft))]
    {
      var previous := scrollLeft;
      if value != previous {
        scrollLeft := value;
        fired := fired + [ScrollLeftChanged(previous)];
      }
    }

    /**
     * `setView`: a different view replaces the previous one among the
     * children and `viewChanged` fires once; the same view changes nothing.
     * The view slot is cleared first, so removing the previous view passes
     * the guard in `remove`.
     */
    method SetView(next: Option<nat>)
      requires Valid() && |children| < INT_MAX
      modifies this`view, this`children, this`fired
      ensures Valid() && view == next
      ensures next == old(view) ==> children == old(children) && fired == old(fired)
      ensures next != old(view) ==>
        && children == ViewSwap(old(children), old(view), next)
        && fired == old(fired) + [ViewChanged(old(view))]
    {
      var previous := view;
      if next != previous {
        view := None;
        if previous.Some? {
          RemoveComponent(previous.value);
        }
        if next.Some? {
          children := [next.value] + children;
        }
        view := next;
        fired := fired + [ViewChanged(previous)];
      }
    }

    /**
     * The base container's `remove(component)`, here only ever applied
     * when the view slot is empty: finds the component and removes it
     * through `remove(index, 1)`.
     */
    method RemoveComponent(c: nat)
      requires view == None && |children| <= INT_MAX
      modifies this`children
      ensures children == ListRemove(old(children), c)
    {
      if c in children {
        var i := FirstIndex(children, c);
        var removed := Remove(i, 1);
        assert Wrap32(i + 1) == i + 1;
        ScanFindsView(old(children), view, i, i + 1);
      }
    }

    /** `remove(index, count)`, refusing to remove the view. */
    method Remove(index: int32, count: int32) returns (r: Result<seq<nat>>)
      modifies this`children
      ensures r == RemoveResult(old(children), view, index, count)
      ensures r.Ok? ==> children == Remaining(old(children), index, count)
      ensures !r.Ok? ==> children == old(children)
    {
      var i: int := index;
      var n := Wrap32(index + count);
      while i < n
        invariant Scan(children, view, i, n) == Scan(children, view, index, n)
        decreases n - i
      {
        if !(0 <= i < |children|) {
          return Threw(IndexOutOfBounds);
        }
        if view == Some(children[i]) {
          return Threw(UnsupportedOperation);
        }
        i := i + 1;
      }
      if !(0 <= index && 0 <= count && index + count <= |children|) {
        return Threw(IndexOutOfBounds);
      }
      r := Ok(children[index..index + count]);
      children := Remaining(children, index, count);
    }

    method SetConsumeRepaint(value: bool)
      modifies this`consumeRepaint
      ensures consumeRepaint == value
    {
      consumeRepaint := value;
    }

    method SetRepaintAllViewport(value: bool)
      modifies this`repaintAllViewport
      ensures repaintAllViewport == value
    {
      repaintAllViewport := value;
    }

    /** `repaint(x, y, width, height, immediate)`: the request passed on to the base container, if any. */
    method Repaint(area: Rect, immediate: bool) returns (propagated: Option<(Rect, bool)>)
      ensures consumeRepaint <==> propagated == None
      ensures propagated.Some? ==> propagated.value == (area, immediate)
    {
      if !consumeRepaint {
        return Some((area, immediate));
      }
      return None;
    }
  }

  /** Removing with a range that holds the view is refused and changes nothing; other removals keep the view. */
  lemma RemovePreservesValid(children: seq<nat>, view: Option<nat>, index: int32, count: int32)
    requires |children| <= INT_MAX
    requires view.Some? ==> view.value in children
    requires RemoveResult(children, view, index, count).Ok?
    ensures view.Some? ==> view.value in Remaining(children, index, count)
  {
    if view.Some? {
      RemoveKeepsView(children, view.value, index, count);
    }
  }
}
