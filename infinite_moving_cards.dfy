/**
 * The infinite moving cards: the scroller's children are followed by one clone
 * each, and a linear animation slides the list by half its measured width; with
 * the gap between items that is 8 pixels short of one copy, so each cycle ends
 * with a small jump. At most one animation handle is live at a time; it can be
 * paused on hover and resumed.
 */
module InfiniteMovingCards {
  import opened Wrappers

  /** A child element of the scroller: its content, its `id` attribute, and whether it carries `data-cloned="true"`. */
  datatype Node = Node(content: nat, id: Option<string>, cloned: bool)

  /** The children that are not marked as clones, in document order. */
  function Originals(children: seq<Node>): (r: seq<Node>)
    ensures forall n :: n in r <==> n in children && !n.cloned
    ensures |r| <= |children|
  {
    if |children| == 0 then []
    else (if children[0].cloned then [] else [children[0]]) + Originals(children[1..])
  }

  function CloneCount(children: seq<Node>): nat
  {
    if |children| == 0 then 0 else (if children[0].cloned then 1 else 0) + CloneCount(children[1..])
  }

  lemma {:induction false} OriginalsAppend(a: seq<Node>, b: seq<Node>)
    ensures Originals(a + b) == Originals(a) + Originals(b)
    ensures CloneCount(a + b) == CloneCount(a) + CloneCount(b)
  {
    if |a| == 0 {
      assert a + b == b;
    } else {
      assert (a + b)[1..] == a[1..] + b;
      OriginalsAppend(a[1..], b);
    }
  }

  lemma {:induction false} OriginalsIdempotent(children: seq<Node>)
    ensures Originals(Originals(children)) == Originals(children)
    ensures CloneCount(Originals(children)) == 0
  {
    if |children| > 0 {
      OriginalsIdempotent(children[1..]);
      OriginalsAppend(if children[0].cloned then [] else [children[0]], Originals(children[1..]));
    }
  }

  lemma OriginalsStep(s: seq<Node>, i: nat)
    requires i < |s|
    ensures Originals(s[..i + 1]) == Originals(s[..i]) + (if s[i].cloned then [] else [s[i]])
  {
    assert s[..i + 1] == s[..i] + [s[i]];
    OriginalsAppend(s[..i], [s[i]]);
    assert [s[i]][1..] == [];
  }

  /** One iteration of the clone-removal loop: the node at `pos` is `s[i]`, dropped when it is a clone. */
  lemma RemoveStep(s: seq<Node>, i: nat, kids: seq<Node>, pos: nat)
    requires i < |s|
    requires pos == |Originals(s[..i])| && kids == Originals(s[..i]) + s[i..]
    ensures pos < |kids| && kids[pos] == s[i]
    ensures s[i].cloned ==>
              kids[..pos] + kids[pos + 1..] == Originals(s[..i + 1]) + s[i + 1..] && pos == |Originals(s[..i + 1])|
    ensures !s[i].cloned ==>
              kids == Originals(s[..i + 1]) + s[i + 1..] && pos + 1 == |Originals(s[..i + 1])|
  {
    OriginalsStep(s, i);
    assert s[i..] == [s[i]] + s[i + 1..];
    SplitAround(Originals(s[..i]), s[i], s[i + 1..]);
  }

  /** A sequence split around one element: the parts before and after it read back. */
  lemma SplitAround(front: seq<Node>, x: Node, back: seq<Node>)
    ensures var k := front + ([x] + back);
            && |front| < |k| && k[|front|] == x
            && k[..|front|] == front && k[|front| + 1..] == back
            && k[..|front|] + k[|front| + 1..] == front + back
            && k == (front + [x]) + back
  {
    var k := front + ([x] + back);
    assert k[..|front|] == front;
    assert k[|front| + 1..] == back;
  }

  /**
   * `cloneNode(true)`, then `removeAttribute("id")` when the id is non-empty, then
   * `dataset.cloned = "true"`: the clone shows the same content, is marked, and
   * carries no non-empty id into the document.
   */
  function CloneOf(n: Node): (c: Node)
    ensures c.cloned && c.content == n.content
    ensures c.id.None? || c.id == Some("")
    ensures (n.id.None? || n.id == Some("")) ==> c.id == n.id
  {
    n.(id := if n.id.Some? && n.id.value != "" then None else n.id, cloned := true)
  }

  function Clones(nodes: seq<Node>): (r: seq<Node>)
    ensures |r| == |nodes|
    ensures forall i :: 0 <= i < |nodes| ==> r[i] == CloneOf(nodes[i])
  {
    seq(|nodes|, i requires 0 <= i < |nodes| => CloneOf(nodes[i]))
  }

  lemma {:induction false} ClonesAreAllClones(nodes: seq<Node>)
    ensures Originals(Clones(nodes)) == []
    ensures CloneCount(Clones(nodes)) == |nodes|
  {
    if |nodes| > 0 {
      assert Clones(nodes)[1..] == Clones(nodes[1..]);
      ClonesAreAllClones(nodes[1..]);
    }
  }

  /** The child list after a rebuild: the originals followed by one clone of each, in the same order. */
  function Rebuilt(children: seq<Node>): seq<Node>
  {
    Originals(children) + Clones(Originals(children))
  }

  /**
   * After a rebuild there are 2N children for N originals, exactly N of them clones;
   * the originals come first and the i-th clone copies the i-th original.
   */
  lemma RebuiltShape(children: seq<Node>)
    ensures var n := |Originals(children)|;
            && |Rebuilt(children)| == 2 * n
            && CloneCount(Rebuilt(children)) == n
            && Originals(Rebuilt(children)) == Originals(children)
            && forall i :: 0 <= i < n ==>
                 !Rebuilt(children)[i].cloned && Rebuilt(children)[n + i] == CloneOf(Rebuilt(children)[i])
  {
    var o := Originals(children);
    OriginalsAppend(o, Clones(o));
    OriginalsIdempotent(children);
    ClonesAreAllClones(o);
    forall i | 0 <= i < |o|
      ensures !o[i].cloned
    {
      assert o[i] in o;
    }
  }

  /** Rebuilding again changes nothing: clones never accumulate. */
  lemma RebuildIdempotent(children: seq<Node>)
    ensures Rebuilt(Rebuilt(children)) == Rebuilt(children)
  {
    RebuiltShape(children);
  }

  // ---------------------------------------------------------------------------
  // Animation

  datatype PlayState = Running | Paused | Stopped

  /** An animation handle: a linear slide of `x` from `from` to `to` over `duration`, repeated forever. */
  class Animation {
    const from: real
    const to: real
    const duration: nat
    var state: PlayState

    constructor(from: real, to: real, duration: nat)
      ensures this.from == from && this.to == to && this.duration == duration
      ensures state == Running
    {
      this.from, this.to, this.duration := from, to, duration;
      state := Running;
    }

    method Stop()
      modifies this
      ensures state == Stopped
    {
      state := Stopped;
    }

    method Pause()
      modifies this
      ensures state == Paused
    {
      state := Paused;
    }

    method Play()
      modifies this
      ensures state == Running
    {
      state := Running;
    }
  }

  /** The measured `scrollWidth`, or not-a-number when it cannot be read. */
  datatype Width = Px(px: nat) | NaN

  /** `scrollWidth / 2`, or nothing when that is 0 or NaN: two segments make up the whole width. */
  function SegmentWidth(scrollWidth: Width): (w: Option<real>)
    ensures w.Some? <==> scrollWidth.Px? && scrollWidth.px > 0
    ensures w.Some? ==> w.value > 0.0 && w.value + w.value == scrollWidth.px as real
  {
    match scrollWidth
    case NaN => None
    case Px(n) => if n as real / 2.0 == 0.0 then None else Some(n as real / 2.0)
  }

  /** `getAnimationDuration`. */
  function Duration(speed: string): (d: nat)
    ensures d == 20 <==> speed == "fast"
    ensures d == 40 <==> speed == "normal"
    ensures d == 80 <==> speed != "fast" && speed != "normal"
  {
    if speed == "fast" then 20 else if speed == "normal" then 40 else 80
  }

  /**
   * `(initialX, targetX)`: the animation runs over exactly one segment, between 0
   * and -w, leftwards for "left" and rightwards for any other direction.
   */
  function Offsets(direction: string, w: real): (r: (real, real))
    requires w > 0.0
    ensures (r.0 == 0.0 && r.1 == -w) || (r.0 == -w && r.1 == 0.0)
    ensures r.1 < r.0 <==> direction == "left"
    ensures r.0 - r.1 == w || r.1 - r.0 == w
  {
    if direction == "left" then (0.0, -w) else (-w, 0.0)
  }

  /** The distance one cycle travels is half the measured width, in either direction. */
  lemma TravelIsHalfTheWidth(direction: string, n: nat)
    requires n > 0
    ensures var w := SegmentWidth(Px(n)).value;
            var r := Offsets(direction, w);
            2.0 * (r.0 - r.1) == n as real || 2.0 * (r.1 - r.0) == n as real
  {
  }

  // ---------------------------------------------------------------------------
  // The strip's geometry: items of one width with a gap between neighbours

  /** The gap between items (`gap-4` on the list). */
  const ItemGap: nat := 16

  /** The width an item is drawn at: `w-[300px]` below the `md` breakpoint of 768 pixels, `md:w-[380px]` from it on. */
  function ItemWidth(innerWidth: int): (w: nat)
    ensures w == 300 <==> innerWidth < 768
    ensures w == 380 <==> innerWidth >= 768
  {
    if innerWidth < 768 then 300 else 380
  }

  /** Where the item at `index` starts: the widths and gaps of all items before it. */
  function ItemStart(index: nat, itemWidth: nat): nat
  {
    if index == 0 then 0 else ItemStart(index - 1, itemWidth) + itemWidth + ItemGap
  }

  /** The measured width of a list of `count` items: from the first item's start to the last item's end. */
  function StripWidth(count: nat, itemWidth: nat): nat
  {
    if count == 0 then 0 else ItemStart(count - 1, itemWidth) + itemWidth
  }

  lemma {:induction false} ItemStartIsLinear(index: nat, itemWidth: nat)
    ensures ItemStart(index, itemWidth) == index * (itemWidth + ItemGap)
  {
    if index > 0 {
      ItemStartIsLinear(index - 1, itemWidth);
    }
  }

  /**
   * In a strip of `n` originals followed by their `n` clones, every item and its
   * clone lie exactly `ItemStart(n)` apart: the loop is seamless when one cycle
   * travels that far.
   */
  lemma CloneLiesOnePeriodOn(i: nat, n: nat, itemWidth: nat)
    ensures ItemStart(i + n, itemWidth) - ItemStart(i, itemWidth) == ItemStart(n, itemWidth)
  {
    ItemStartIsLinear(i + n, itemWidth);
    ItemStartIsLinear(i, itemWidth);
    ItemStartIsLinear(n, itemWidth);
  }

  /**
   * As written, one cycle travels half the measured width, which is half a gap
   * (8 pixels) short of the period, so the strip jumps by that much each cycle.
   */
  lemma HalfWidthFallsShort(n: nat, itemWidth: nat)
    requires n > 0
    ensures SegmentWidth(Px(StripWidth(2 * n, itemWidth))).Some?
    ensures SegmentWidth(Px(StripWidth(2 * n, itemWidth))).value == ItemStart(n, itemWidth) as real - 8.0
  {
    ItemStartIsLinear(2 * n - 1, itemWidth);
    ItemStartIsLinear(n, itemWidth);
  }

  /** Four items on a desktop window: the strip measures 3152 pixels, one cycle travels 1576, the period is 1584. */
  lemma SeamOnFourItems()
    ensures StripWidth(8, ItemWidth(1024)) == 3152
    ensures SegmentWidth(Px(3152)) == Some(1576.0) && ItemStart(4, ItemWidth(1024)) == 1584
  {
    ItemStartIsLinear(7, 380);
    ItemStartIsLinear(4, 380);
  }

  /**
   * Half the measured width plus half the gap (the `calc(-50% - 0.5rem)` of the
   * scroll keyframes), or nothing when the width is 0 or NaN.
   */
  function SeamlessSegmentWidth(scrollWidth: Width): (w: Option<real>)
    ensures w.Some? <==> SegmentWidth(scrollWidth).Some?
    ensures w.Some? ==> w.value == SegmentWidth(scrollWidth).value + (ItemGap as real) / 2.0
  {
    match SegmentWidth(scrollWidth)
    case None => None
    case Some(half) => Some(half + (ItemGap as real) / 2.0)
  }

  /** With the half-gap correction one cycle travels exactly one period, whatever the item count and width. */
  lemma SeamlessTravelIsOnePeriod(n: nat, itemWidth: nat)
    requires n > 0
    ensures SeamlessSegmentWidth(Px(StripWidth(2 * n, itemWidth))) == Some(ItemStart(n, itemWidth) as real)
  {
    HalfWidthFallsShort(n, itemWidth);
  }

  // ---------------------------------------------------------------------------
  // The component

  class Scroller {
    const direction: string
    const speed: string
    const pauseOnHover: bool
    /** Whether the scroller element exists (`scope.current` is set). */
    const mounted: bool
    var children: seq<Node>
    var isReady: bool
    /** The `x` the scroller was last snapped to. */
    var x: real
    var current: Animation?
    /** Every animation this component has started. */
    ghost var animations: set<Animation>

    /** The handle in `current` is the only animation that has not been stopped. */
    ghost predicate Valid()
      reads this, animations
    {
      && (current != null ==> current in animations && current.state != Stopped)
      && (forall a :: a in animations && a != current ==> a.state == Stopped)
    }

    constructor(direction: string, speed: string, pauseOnHover: bool, mounted: bool, children: seq<Node>)
      ensures Valid()
      ensures this.direction == direction && this.speed == speed && this.pauseOnHover == pauseOnHover
      ensures this.mounted == mounted && this.children == children
      ensures !isReady && current == null && animations == {}
    {
      this.direction, this.speed, this.pauseOnHover, this.mounted := direction, speed, pauseOnHover, mounted;
      this.children := children;
      isReady, x, current := false, 0.0, null;
      animations := {};
    }

    /** At most one animation is live. */
    lemma AtMostOneLive()
      requires Valid()
      ensures forall a, b :: a in animations && b in animations && a.state != Stopped && b.state != Stopped ==> a == b
    {
    }

    /** Removes every child marked `data-cloned`, one `node.remove()` at a time. */
    method RemoveClones()
      modifies this`children
      ensures children == Originals(old(children))
    {
      var snapshot := children;
      var kids := children;
      var pos := 0;
      for i := 0 to |snapshot|
        invariant pos == |Originals(snapshot[..i])|
        invariant kids == Originals(snapshot[..i]) + snapshot[i..]
      {
        RemoveStep(snapshot, i, kids, pos);
        if snapshot[i].cloned {
          kids := kids[..pos] + kids[pos + 1..];
        } else {
          pos := pos + 1;
        }
      }
      assert snapshot[..|snapshot|] == snapshot;
      children := kids;
    }

    /** Appends one marked clone of every current child, in order. */
    method AppendClones()
      modifies this`children
      ensures children == old(children) + Clones(old(children))
    {
      var originalNodes := children;
      for j := 0 to |originalNodes|
        invariant children == originalNodes + Clones(originalNodes[..j])
      {
        assert Clones(originalNodes[..j + 1]) == Clones(originalNodes[..j]) + [CloneOf(originalNodes[j])];
        children := children + [CloneOf(originalNodes[j])];
      }
      assert originalNodes[..|originalNodes|] == originalNodes;
    }

    /** The clone-rebuild effect, run whenever `items` changes; `hasItems` is `items && items.length > 0`. */
    method RebuildClones(hasItems: bool)
      requires Valid()
      modifies this`children, this`isReady
      ensures Valid()
      ensures mounted && hasItems ==> children == Rebuilt(old(children)) && isReady
      ensures mounted && !hasItems ==> children == Originals(old(children)) && !isReady
      ensures !mounted ==> children == old(children) && !isReady
    {
      if mounted && hasItems {
        RemoveClones();
        AppendClones();
        isReady := true;
      } else {
        if mounted {
          RemoveClones();
        }
        isReady := false;
      }
    }

    /**
     * The animation effect. A previous handle is always stopped; a new one is
     * started, and becomes the only live handle, exactly when the component is
     * ready, has items, and the measured width is neither 0 nor NaN.
     */
    method SetupAnimation(hasItems: bool, scrollWidth: Width)
      requires Valid()
      modifies this, current
      ensures Valid()
      ensures old(current) != null ==> old(current).state == Stopped
      ensures children == old(children) && isReady == old(isReady)
      ensures var w := SegmentWidth(scrollWidth);
              if isReady && mounted && hasItems && w.Some? then
                && current != null && fresh(current) && current.state == Running
                && (current.from, current.to) == Offsets(direction, w.value)
                && current.duration == Duration(speed)
                && x == current.from
                && animations == old(animations) + {current}
              else
                current == null && animations == old(animations) && x == old(x)
    {
      if isReady && mounted && hasItems {
        var w := SegmentWidth(scrollWidth);
        if w.None? {
          if current != null {
            current.Stop();
            current := null;
          }
          return;
        }
        if current != null {
          current.Stop();
        }
        var offsets := Offsets(direction, w.value);
        x := offsets.0;
        var anim := new Animation(offsets.0, offsets.1, Duration(speed));
        current := anim;
        animations := animations + {anim};
      } else if current != null {
        current.Stop();
        current := null;
      }
    }

    /** `handleMouseEnter`: pauses the live animation when pause-on-hover is on. */
    method MouseEnter()
      requires Valid()
      modifies current
      ensures Valid()
      ensures current != null && pauseOnHover ==> current.state == Paused
      ensures current != null && !pauseOnHover ==> current.state == old(current.state)
    {
      if pauseOnHover && current != null {
        current.Pause();
      }
    }

    /** `handleMouseLeave`: resumes the live animation when pause-on-hover is on. */
    method MouseLeave()
      requires Valid()
      modifies current
      ensures Valid()
      ensures current != null && pauseOnHover ==> current.state == Running
      ensures current != null && !pauseOnHover ==> current.state == old(current.state)
    {
      if pauseOnHover && current != null {
        current.Play();
      }
    }

    /** The effect's cleanup on unmount: no animation is left running. */
    method Unmount()
      requires Valid()
      modifies current
      ensures forall a :: a in animations ==> a.state == Stopped
    {
      if current != null {
        current.Stop();
      }
    }
  }
}
