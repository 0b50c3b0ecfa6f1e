/**
 * The session manager of Assets/Scripts/ARSessionManager.cs: the ordered list
 * of tracked images, the authoritative image, the back-reference to the
 * placed augment and the session's active flag, updated in place by the
 * tracking reports, the per-frame evaluation and the activation command.
 * Its outside effects become logs on the object: `events` for the
 * authority-changed events raised, `instantiated` for the parents passed to
 * Instantiate, `measured` for the images whose camera distance was taken.
 */
module SessionManagerModel {
  import opened Options
  import opened Selection

  class SessionManager {
    var active: bool
    var images: seq<Image>
    var authority: Option<Image>
    var augment: Option<nat>
    var events: seq<Event>
    var instantiated: seq<Image>
    var measured: seq<Image>

    /** The authority changes only through an event: a held authority is the one the latest event announced. */
    ghost predicate Valid()
      reads this
    {
      authority.Some? ==> events != [] && events[|events| - 1] == Changed(authority.value)
    }

    constructor (active: bool)
      ensures Valid()
      ensures this.active == active && images == [] && authority == None && augment == None
      ensures events == [] && instantiated == [] && measured == []
    {
      this.active := active;
      images := [];
      authority := None;
      augment := None;
      events := [];
      instantiated := [];
      measured := [];
    }

    /** The tri-state command: None toggles, Some(b) forces b; switching off clears the tracking state. */
    method OnSetActive(value: Option<bool>)
      requires Valid()
      modifies this`active, this`images, this`authority, this`augment
      ensures Valid()
      ensures active == if value.None? then !old(active) else value.value
      ensures active ==> images == old(images) && authority == old(authority) && augment == old(augment)
      ensures !active ==> images == [] && authority == None && augment == None
    {
      var v := if value.None? then !active else value.value;
      if v {
        active := true;
      } else {
        active := false;
        Clear();
      }
    }

    method Clear()
      modifies this`images, this`authority, this`augment
      ensures images == [] && authority == None && augment == None
    {
      images := [];
      augment := None;
      authority := None;
    }

    /**
     * Makes `candidate` authoritative, announcing it only when it differs
     * from the current authority. A null candidate replacing a held
     * authority is the null dereference of the event arguments: the
     * authority is already cleared, no event goes out, and ok is false.
     */
    method UpdateTrackedImageDistanceMin(candidate: Option<Image>) returns (ok: bool)
      modifies this`authority, this`events
      ensures authority == candidate
      ensures events == old(events) + if candidate.Some? && candidate != old(authority) then [Changed(candidate.value)] else []
      ensures ok <==> !(candidate.None? && old(authority).Some?)
    {
      ok := true;
      if authority == candidate {
        return;
      }
      authority := candidate;
      if candidate.Some? {
        events := events + [Changed(candidate.value)];
      } else {
        ok := false;
      }
    }

    /** A new image: instantiate the augment under it when none is held, append it, make it authoritative. */
    method AddTrackedImage(image: Image)
      modifies this`instantiated, this`images, this`authority, this`events
      ensures instantiated == old(instantiated) + if old(augment).None? then [image] else []
      ensures images == old(images) + [image]
      ensures authority == Some(image)
      ensures events == old(events) + if old(authority) == Some(image) then [] else [Changed(image)]
    {
      if augment.None? {
        instantiated := instantiated + [image];
      }
      images := images + [image];
      var _ := UpdateTrackedImageDistanceMin(Some(image));
    }

    /** One batched tracking report: every addition first, in order, then every removal. */
    method OnTrackedImagesChanged(added: seq<Image>, removed: seq<Image>)
      requires Valid()
      modifies this`instantiated, this`images, this`authority, this`events
      ensures Valid()
      ensures images == RemoveEach(old(images) + added, removed)
      ensures authority == if |added| == 0 then old(authority) else Some(added[|added| - 1])
      ensures events == old(events) + Announce(old(authority), added, |added|)
      ensures instantiated == old(instantiated) + if old(augment).None? then added else []
    {
      ghost var authority0, events0 := authority, events;
      AddTrackedImages(added);
      AnnounceKeepsLastEvent(authority0, added, |added|, events0);
      RemoveTrackedImages(removed);
    }

    /** The addition half of a report: AddTrackedImage for each added image, in order. */
    method AddTrackedImages(added: seq<Image>)
      modifies this`instantiated, this`images, this`authority, this`events
      ensures images == old(images) + added
      ensures authority == AuthorityAfter(old(authority), added, |added|)
      ensures events == old(events) + Announce(old(authority), added, |added|)
      ensures instantiated == old(instantiated) + if old(augment).None? then added else []
    {
      ghost var images0, authority0, events0, instantiated0 := images, authority, events, instantiated;
      for i := 0 to |added|
        invariant images == images0 + added[..i]
        invariant authority == AuthorityAfter(authority0, added, i)
        invariant events == events0 + Announce(authority0, added, i)
        invariant instantiated == instantiated0 + if augment.None? then added[..i] else []
      {
        assert added[..i + 1] == added[..i] + [added[i]];
        AddTrackedImage(added[i]);
      }
      assert added[..|added|] == added;
    }

    /** The removal half of a report: each removed image leaves the list, first occurrence only. */
    method RemoveTrackedImages(removed: seq<Image>)
      modifies this`images
      ensures images == RemoveEach(old(images), removed)
    {
      ghost var images0 := images;
      for i := 0 to |removed|
        invariant RemoveEach(images, removed[i..]) == RemoveEach(images0, removed)
      {
        assert removed[i..] == [removed[i]] + removed[i + 1..];
        images := RemoveFirst(images, removed[i]);
      }
    }

    /** The content's Start reports its augment; only here is the back-reference set. */
    method OnAugmentInstantiated(augmentId: nat)
      requires Valid()
      modifies this`augment
      ensures Valid()
      ensures augment == Some(augmentId)
    {
      augment := Some(augmentId);
    }

    /** The per-frame tick: nothing while inactive, otherwise re-evaluate the authority. */
    method Update(dist: Image -> real) returns (ok: bool)
      requires Valid()
      modifies this`authority, this`events, this`measured
      ensures Valid()
      ensures !old(active) ==> ok && authority == old(authority) && events == old(events) && measured == old(measured)
      ensures old(active) ==> authority == Selected(images, dist)
      ensures old(active) ==> events == old(events) + if authority.Some? && authority != old(authority) then [Changed(authority.value)] else []
      ensures old(active) ==> measured == old(measured) + if |images| == 1 then [] else images
      ensures old(active) ==> (ok <==> !(authority.None? && old(authority).Some?))
    {
      ok := true;
      if !active {
        return;
      }
      ok := FindTrackedImageDistanceMin(dist);
    }

    /**
     * The evaluation: a single image is taken without measuring anything;
     * otherwise every image is measured and the nearest, first on ties,
     * replaces the authority when it differs from it.
     */
    method FindTrackedImageDistanceMin(dist: Image -> real) returns (ok: bool)
      requires Valid()
      modifies this`authority, this`events, this`measured
      ensures Valid()
      ensures authority == Selected(images, dist)
      ensures events == old(events) + if authority.Some? && authority != old(authority) then [Changed(authority.value)] else []
      ensures measured == old(measured) + if |images| == 1 then [] else images
      ensures ok <==> !(authority.None? && old(authority).Some?)
    {
      if |images| == 1 {
        ok := UpdateTrackedImageDistanceMin(Some(images[0]));
      } else {
        var found, taken := ScanDistanceMin(images, dist);
        measured := measured + taken;
        ok := true;
        if found != authority {
          ok := UpdateTrackedImageDistanceMin(found);
        }
      }
    }
  }
}
