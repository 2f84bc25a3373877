/**
 * The hand animation: a clock advanced by a fixed step on every frame,
 * and the rotation about z of every tagged node recomputed from it.
 */
module Animation {
  import opened Geometry
  import opened Scene

  /** The amount one frame adds to the clock. */
  const Step: real := 0.01

  /** Radians per unit of animation time, per role; untagged nodes do not turn. */
  function Rate(role: Role): (r: real)
    requires role != Untagged
    ensures r > 0.0
  {
    match role
    case Hour => 0.1
    case Minute => 1.2
    case Chrono => 10.0
    case Subdial(c) =>
      match c
      case Seconds => 10.0
      case Minutes => 0.5
      case Hours => 0.05
  }

  /** The watch's mutable state: its clock and its flat child list. */
  datatype Watch = Watch(time: real, children: seq<Node>)

  function WithTurn(n: Node, a: Angle): Node {
    n.(rotation := n.rotation.(z := a))
  }

  /** Two nodes that agree on everything but their rotation about z. */
  predicate SameExceptTurn(a: Node, b: Node) {
    && a.shape == b.shape && a.material == b.material && a.position == b.position
    && a.rotation.x == b.rotation.x && a.rotation.y == b.rotation.y
    && a.scale == b.scale && a.role == b.role
  }

  /** Two nodes that may differ only in the z rotation of a tagged node. */
  predicate SameUpToHandTurn(a: Node, b: Node) {
    SameExceptTurn(a, b) && (a.role == Untagged ==> a == b)
  }

  /** What one frame does to one child at the new time `t`. */
  function Animate(n: Node, t: real): (m: Node)
    ensures SameUpToHandTurn(n, m)
    ensures n.role != Untagged ==> m.rotation.z == Radians(-t * Rate(n.role))
  {
    if n.role == Untagged then n else WithTurn(n, Radians(-t * Rate(n.role)))
  }

  /** Every tagged child is turned about z to minus the time `t` times its role's rate. */
  predicate HandsTurned(children: seq<Node>, t: real) {
    forall k :: 0 <= k < |children| && children[k].role != Untagged ==>
      children[k].rotation.z == Radians(-t * Rate(children[k].role))
  }

  /** The frame's visit of every child, in order. */
  function AnimateAll(nodes: seq<Node>, t: real): (r: seq<Node>)
    ensures |r| == |nodes|
    ensures forall k :: 0 <= k < |nodes| ==> SameUpToHandTurn(nodes[k], r[k])
    ensures forall k :: 0 <= k < |nodes| ==> r[k].role == nodes[k].role
    ensures HandsTurned(r, t)
  {
    seq(|nodes|, k requires 0 <= k < |nodes| => Animate(nodes[k], t))
  }

  /**
   * One frame: the clock advances by exactly one step; every tagged child
   * is turned to minus the new time times its rate; nothing else changes,
   * not the number or order of the children.
   */
  function UpdateTime(w: Watch): (w': Watch)
    ensures w'.time == w.time + Step
    ensures |w'.children| == |w.children|
    ensures forall k :: 0 <= k < |w.children| ==> SameUpToHandTurn(w.children[k], w'.children[k])
    ensures forall k :: 0 <= k < |w.children| ==> w'.children[k].role == w.children[k].role
    ensures HandsTurned(w'.children, w'.time)
  {
    var t := w.time + Step;
    Watch(t, AnimateAll(w.children, t))
  }

  /**
   * A frame's result does not depend on the hands' previous rotations:
   * two watches at the same time whose children differ only there come
   * out identical.
   */
  lemma UpdateForgetsHandTurns(w1: Watch, w2: Watch)
    requires w1.time == w2.time && |w1.children| == |w2.children|
    requires forall k :: 0 <= k < |w1.children| ==> SameUpToHandTurn(w1.children[k], w2.children[k])
    ensures UpdateTime(w1) == UpdateTime(w2)
  {
    var u1, u2 := UpdateTime(w1), UpdateTime(w2);
    forall k | 0 <= k < |u1.children|
      ensures u1.children[k] == u2.children[k]
    {
      var a, b := u1.children[k], u2.children[k];
      if w1.children[k].role != Untagged {
        assert a.rotation == b.rotation;
      }
    }
  }

  /** The watch after `n` frames. */
  function Frames(w: Watch, n: nat): Watch {
    if n == 0 then w else UpdateTime(Frames(w, n - 1))
  }

  /**
   * After n frames the clock has advanced by exactly n steps, the children
   * are the same nodes apart from their hand turns, and (once at least one
   * frame has run) every tagged child is turned to minus the time times its
   * rate.
   */
  lemma {:induction false} FramesClock(w: Watch, n: nat)
    ensures Frames(w, n).time == w.time + Step * n as real
    ensures |Frames(w, n).children| == |w.children|
    ensures forall k :: 0 <= k < |w.children| ==> SameUpToHandTurn(w.children[k], Frames(w, n).children[k])
    ensures forall k :: 0 <= k < |w.children| ==> Frames(w, n).children[k].role == w.children[k].role
    ensures n > 0 ==> HandsTurned(Frames(w, n).children, Frames(w, n).time)
  {
    if n > 0 {
      FramesClock(w, n - 1);
      var before, after := Frames(w, n - 1), Frames(w, n);
      forall k | 0 <= k < |w.children|
        ensures SameUpToHandTurn(w.children[k], after.children[k])
        ensures after.children[k].role == w.children[k].role
      {
        assert SameUpToHandTurn(before.children[k], after.children[k]);
      }
    }
  }
}
