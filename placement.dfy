/**
 * The placed content of Assets/Scripts/Augment.cs: anchor lookup by name,
 * placement onto the authoritative image (with cancellation of a pending
 * settle watch and the choice between world-pose carry-over and local-pose
 * re-parenting), and the per-frame step of the settle watch.
 * The scene graph is abstract: every mutation of the content's transform is
 * recorded, in order, in an operation log.
 */
module Placement {
  import opened Options
  import opened SettleWatch

  /** The content's parent: the session origin or a tracked image's transform. */
  datatype Parent = Origin | Target(image: nat)

  datatype Quaternion = Quaternion(x: real, y: real, z: real, w: real)

  datatype Pose = Pose(position: Vec3, rotation: Quaternion)

  /** A named alignment point inside the content, with its pose in the content's local space. */
  datatype Anchor = Anchor(name: string, localPose: Pose)

  /** The transform mutations the component performs. */
  datatype TransformOp =
    | SetParent(parent: Parent, worldPositionStays: bool)
    | MatchWorldPose(image: nat)      // world position and rotation set to the image's
    | AlignWrapper(anchorPose: Pose)  // wrapper's local pose set to the inverse of the anchor's

  /** The first anchor carrying the reported name, searched in declaration order. */
  function FindAnchor(anchors: seq<Anchor>, name: string): (r: Option<nat>)
    ensures r.Some? ==> r.value < |anchors| && anchors[r.value].name == name
    ensures r.Some? ==> forall j :: 0 <= j < r.value ==> anchors[j].name != name
    ensures r.None? <==> forall j :: 0 <= j < |anchors| ==> anchors[j].name != name
    decreases |anchors|
  {
    if anchors == [] then None
    else if anchors[0].name == name then Some(0)
    else
      match FindAnchor(anchors[1..], name)
      case None => None
      case Some(k) => Some(k + 1)
  }

  /** The parent the content ends under once the logged operations are replayed from `start`. */
  function ParentAfter(start: Parent, ops: seq<TransformOp>): Parent
    decreases |ops|
  {
    if ops == [] then start
    else
      var last := ops[|ops| - 1];
      if last.SetParent? then last.parent else ParentAfter(start, ops[..|ops| - 1])
  }

  /** Replaying a log in two parts is replaying the second from where the first ends. */
  lemma {:induction false} ParentAfterAppend(start: Parent, ops: seq<TransformOp>, more: seq<TransformOp>)
    ensures ParentAfter(start, ops + more) == ParentAfter(ParentAfter(start, ops), more)
    decreases |more|
  {
    if more == [] {
      assert ops + more == ops;
    } else {
      var all := ops + more;
      assert all[..|all| - 1] == ops + more[..|more| - 1];
      assert all[|all| - 1] == more[|more| - 1];
      ParentAfterAppend(start, ops, more[..|more| - 1]);

    }
  }

  /**
   * The operations of one placement: the cancelled watch's move under the
   * origin, the wrapper alignment, then the move onto the target, carrying
   * the world pose over when the content sits under the origin and keeping
   * its local pose otherwise.
   */
  function PlacementOps(watching: bool, parent: Parent, target: nat, anchor: Anchor): (r: seq<TransformOp>)
    ensures ParentAfter(parent, r) == Target(target)
    ensures |r| >= 2 && (r[0] == SetParent(Origin, true) <==> watching)
    ensures AlignWrapper(anchor.localPose) in r
    ensures MatchWorldPose(target) in r <==> watching || parent == Origin
    ensures SetParent(Target(target), false) in r <==> !watching && parent != Origin
    ensures var c, u := if watching then 1 else 0, watching || parent == Origin;
      |r| == c + (if u then 3 else 2) &&
      r[c] == AlignWrapper(anchor.localPose) &&
      r[|r| - 1] == SetParent(Target(target), u) &&
      (u ==> r[|r| - 2] == MatchWorldPose(target)) &&
      (forall i :: c <= i < |r| - 1 ==> !r[i].SetParent?)
  {
    var cancel := if watching then [SetParent(Origin, true)] else [];
    var underOrigin := watching || parent == Origin;
    var attach := if underOrigin then [MatchWorldPose(target), SetParent(Target(target), true)]
                  else [SetParent(Target(target), false)];
    cancel + [AlignWrapper(anchor.localPose)] + attach
  }

  class Augment {
    const anchors: seq<Anchor>
    const detachParent: bool
    ghost const initialParent: Parent
    var parent: Parent
    var watch: Watch
    var ops: seq<TransformOp>

    /**
     * The parent agrees with the operation log, and a running watch belongs
     * to content that follows a tracked image under the detach policy.
     */
    ghost predicate Valid()
      reads this
    {
      parent == ParentAfter(initialParent, ops) &&
      (watch.Watching? ==> detachParent && watch.counter <= 2 && parent.Target?)
    }

    /** Content instantiated under the transform of the tracked image `image`. */
    constructor (anchors: seq<Anchor>, detachParent: bool, image: nat)
      ensures Valid()
      ensures this.anchors == anchors && this.detachParent == detachParent
      ensures parent == Target(image) && watch == Idle && ops == []
    {
      this.anchors := anchors;
      this.detachParent := detachParent;
      initialParent := Target(image);
      parent := Target(image);
      watch := Idle;
      ops := [];
    }

    /**
     * The authority-changed handler: places onto `image` with the first anchor
     * named `anchorName`; with no such anchor nothing changes. `here` is the
     * content's world position once placed, read by a newly started watch.
     */
    method OnARTrackableDistanceMinSet(image: nat, anchorName: string, here: Vec3)
      requires Valid()
      modifies this
      ensures Valid()
      ensures FindAnchor(anchors, anchorName).None? ==>
        parent == old(parent) && watch == old(watch) && ops == old(ops)
      ensures FindAnchor(anchors, anchorName).Some? ==>
        parent == Target(image) &&
        watch == (if detachParent then Watching(0, here) else Idle) &&
        ops == old(ops) + PlacementOps(old(watch).Watching?, old(parent), image,
                                       anchors[FindAnchor(anchors, anchorName).value])
    {
      var found := FindAnchor(anchors, anchorName);
      if found.Some? {
        SetPlacement(image, anchors[found.value], here);
      }
    }

    /** Placement: cancel a pending watch, align the wrapper, attach to the image, maybe start a watch. */
    method SetPlacement(image: nat, anchor: Anchor, here: Vec3)
      requires Valid()
      modifies this
      ensures Valid()
      ensures parent == Target(image)
      ensures watch == if detachParent then Watching(0, here) else Idle
      ensures ops == old(ops) + PlacementOps(old(watch).Watching?, old(parent), image, anchor)
    {
      var wasWatching := watch.Watching?;
      if watch.Watching? {
        watch := Idle;
        ops := ops + [SetParent(Origin, true)];
        parent := Origin;
      }
      ops := ops + [AlignWrapper(anchor.localPose)];
      if parent == Origin {
        ops := ops + [MatchWorldPose(image), SetParent(Target(image), true)];
      } else {
        ops := ops + [SetParent(Target(image), false)];
      }
      parent := Target(image);
      if detachParent {
        watch := Watching(0, here);
      }
      ParentAfterAppend(initialParent, old(ops), PlacementOps(wasWatching, old(parent), image, anchor));
    }

    /**
     * One frame-end sample of the content's world position. When the watch
     * fires, the content moves under the origin keeping its world pose, and
     * the watch is over.
     */
    method Sample(pos: Vec3) returns (fired: bool)
      requires Valid()
      modifies this
      ensures Valid()
      ensures fired == Step(old(watch), pos).fired && watch == Step(old(watch), pos).next
      ensures fired ==> parent == Origin && ops == old(ops) + [SetParent(Origin, true)]
      ensures !fired ==> parent == old(parent) && ops == old(ops)
    {
      var r := Step(watch, pos);
      fired := r.fired;
      watch := r.next;
      if fired {
        ops := ops + [SetParent(Origin, true)];
        parent := Origin;
        ParentAfterAppend(initialParent, old(ops), [SetParent(Origin, true)]);
      }
    }
  }

  /**
   * A client run: a placement restarts the watch, so the still frames seen
   * before it never detach the content; three still frames after it do, once.
   */
  method CancelThenSettle(anchor: Anchor, p: Vec3, q: Vec3)
  {
    var a := new Augment([anchor], true, 1);
    a.OnARTrackableDistanceMinSet(2, anchor.name, p);
    var f1 := a.Sample(p);
    var f2 := a.Sample(p);
    assert !f1 && !f2 && a.watch == Watching(2, p);
    a.OnARTrackableDistanceMinSet(3, anchor.name, q);
    assert a.watch == Watching(0, q) && a.parent == Target(3);
    var g1 := a.Sample(q);
    var g2 := a.Sample(q);
    var g3 := a.Sample(q);
    assert !g1 && !g2 && g3 && a.parent == Origin && a.watch == Idle;
    var g4 := a.Sample(q);
    assert !g4 && a.parent == Origin;
  }
}
