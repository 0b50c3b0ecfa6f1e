/**
 * The rules by which the session manager chooses the authoritative tracked
 * image (Assets/Scripts/ARSessionManager.cs): the first-minimum distance scan,
 * the single-image fast path, the "announce only on change" event rule and
 * the list removal the tracking reports drive.
 */
module Selection {
  import opened Options

  /** float.MaxValue, the scan's starting minimum distance. */
  const FloatMax: real := 340282346638528859811704183484516925440.0

  /** A tracked-image handle. Equality is identity; the reference-image name never changes. */
  datatype Image = Image(id: nat, referenceName: string)

  /** The authority-changed event: the new authoritative image and its reference-image name. */
  datatype Event = AuthorityChanged(target: Image, referenceName: string)

  /** The event announcing image as the new authority. */
  function Changed(image: Image): Event
  {
    AuthorityChanged(image, image.referenceName)
  }

  /** Position k holds the smallest distance below FloatMax, and no earlier position ties it. */
  ghost predicate IsFirstMin(list: seq<Image>, dist: Image -> real, k: int) {
    0 <= k < |list| && dist(list[k]) < FloatMax &&
    (forall j :: 0 <= j < k ==> dist(list[j]) > dist(list[k])) &&
    (forall j :: k < j < |list| ==> dist(list[j]) >= dist(list[k]))
  }

  /** No image of the list is strictly closer than the sentinel. */
  ghost predicate NoneBelowMax(list: seq<Image>, dist: Image -> real) {
    forall j :: 0 <= j < |list| ==> dist(list[j]) >= FloatMax
  }

  lemma FirstMinUnique(list: seq<Image>, dist: Image -> real, k1: int, k2: int)
    requires IsFirstMin(list, dist, k1) && IsFirstMin(list, dist, k2)
    ensures k1 == k2
  {
  }

  /** Index of the nearest image, first in list order on ties; None when every distance reaches the sentinel. */
  function FirstMin(list: seq<Image>, dist: Image -> real): (r: Option<nat>)
    ensures r.Some? ==> IsFirstMin(list, dist, r.value)
    ensures r.None? <==> NoneBelowMax(list, dist)
    decreases |list|
  {
    if list == [] then None
    else
      var rest := FirstMin(list[1..], dist);
      if dist(list[0]) < FloatMax && (rest.None? || dist(list[0]) <= dist(list[1 + rest.value])) then
        Some(0)
      else if rest.None? then
        None
      else
        assert list[1 + rest.value] == list[1..][rest.value];
        Some(1 + rest.value)
  }

  /** The image the multi-image scan settles on. */
  function NearestImage(list: seq<Image>, dist: Image -> real): Option<Image> {
    match FirstMin(list, dist)
    case None => None
    case Some(k) => Some(list[k])
  }

  /**
   * The image a per-frame evaluation makes authoritative: the only image
   * when there is exactly one, the nearest one otherwise.
   */
  function Selected(images: seq<Image>, dist: Image -> real): (r: Option<Image>)
    ensures |images| == 1 ==> r == Some(images[0])
    ensures |images| != 1 ==> (r.None? <==> NoneBelowMax(images, dist))
    ensures |images| != 1 && r.Some? ==> exists k :: IsFirstMin(images, dist, k) && r.value == images[k]
  {
    if |images| == 1 then Some(images[0]) else NearestImage(images, dist)
  }

  /**
   * The distance loop: keeps the image whose distance is strictly below the
   * smallest one seen so far, starting from FloatMax.
   */
  method ScanDistanceMin(list: seq<Image>, dist: Image -> real) returns (found: Option<Image>, measured: seq<Image>)
    ensures found.None? <==> NoneBelowMax(list, dist)
    ensures found == NearestImage(list, dist)
    ensures measured == list
  {
    var distanceMin := FloatMax;
    found := None;
    measured := [];
    ghost var k := -1;
    for i := 0 to |list|
      invariant measured == list[..i]
      invariant found.None? ==> distanceMin == FloatMax && NoneBelowMax(list[..i], dist)
      invariant found.Some? ==> IsFirstMin(list[..i], dist, k) && found.value == list[k] && distanceMin == dist(list[k])
    {
      var distance := dist(list[i]);
      measured := measured + [list[i]];
      if distance < distanceMin {
        distanceMin := distance;
        found := Some(list[i]);
        k := i;
      }
    }
    assert list[..|list|] == list;
    if found.Some? {
      FirstMinUnique(list, dist, k, FirstMin(list, dist).value);
    }
  }

  /** The authority after the first n of the candidates have been assigned in turn, starting at current. */
  function AuthorityAfter(current: Option<Image>, candidates: seq<Image>, n: nat): Option<Image>
    requires n <= |candidates|
  {
    if n == 0 then current else Some(candidates[n - 1])
  }

  /**
   * The events raised when the authority, starting at current, is set to
   * the first n candidates in turn: one per candidate that differs from the
   * authority it replaces, none for a re-affirmation.
   */
  function Announce(current: Option<Image>, candidates: seq<Image>, n: nat): seq<Event>
    requires n <= |candidates|
  {
    if n == 0 then []
    else
      var x := candidates[n - 1];
      Announce(current, candidates, n - 1)
      + if AuthorityAfter(current, candidates, n - 1) == Some(x) then [] else [Changed(x)]
  }

  /**
   * The authority changes only through an event: after the assignments it is
   * the image of the last event raised, or the starting one when none was.
   */
  lemma {:induction false} AnnounceLast(current: Option<Image>, candidates: seq<Image>, n: nat)
    requires n <= |candidates|
    ensures var r := Announce(current, candidates, n);
      AuthorityAfter(current, candidates, n) == if r == [] then current else Some(r[|r| - 1].target)
  {
    if n > 0 {
      AnnounceLast(current, candidates, n - 1);
    }
  }

  /** A log whose last event announced the starting authority still ends with the announcement of the authority after n assignments. */
  lemma {:induction false} AnnounceKeepsLastEvent(current: Option<Image>, candidates: seq<Image>, n: nat, log: seq<Event>)
    requires n <= |candidates|
    requires current.Some? ==> log != [] && log[|log| - 1] == Changed(current.value)
    ensures var a, l := AuthorityAfter(current, candidates, n), log + Announce(current, candidates, n);
      a.Some? ==> l != [] && l[|l| - 1] == Changed(a.value)
  {
    if n > 0 {
      var x := candidates[n - 1];
      if AuthorityAfter(current, candidates, n - 1) == Some(x) {
        AnnounceKeepsLastEvent(current, candidates, n - 1, log);
        assert Announce(current, candidates, n) == Announce(current, candidates, n - 1) + [];
      }
    }
  }

  /** No event re-announces the authority it replaces: the first differs from the start, consecutive ones differ. */
  lemma {:induction false} AnnounceNeverRepeats(current: Option<Image>, candidates: seq<Image>, n: nat)
    requires n <= |candidates|
    ensures var r := Announce(current, candidates, n);
      (|r| > 0 ==> current != Some(r[0].target)) &&
      (forall i :: 0 <= i < |r| - 1 ==> r[i].target != r[i + 1].target)
  {
    if n > 0 {
      var x := candidates[n - 1];
      var r' := Announce(current, candidates, n - 1);
      AnnounceNeverRepeats(current, candidates, n - 1);
      AnnounceLast(current, candidates, n - 1);
      if AuthorityAfter(current, candidates, n - 1) != Some(x) {
        var r := r' + [Changed(x)];
        assert r == Announce(current, candidates, n);
        forall i | 0 <= i < |r| - 1
          ensures r[i].target != r[i + 1].target
        {
          if i + 1 < |r'| {
            assert r[i] == r'[i] && r[i + 1] == r'[i + 1];
          }
        }
      }
    }
  }

  /** Re-selecting the same image over and over announces it at most once, and only if it was not already authoritative. */
  lemma {:induction false} StableSelectionAnnouncesOnce(current: Option<Image>, x: Image, candidates: seq<Image>, n: nat)
    requires 1 <= n <= |candidates|
    requires forall i :: 0 <= i < n ==> candidates[i] == x
    ensures Announce(current, candidates, n) == if current == Some(x) then [] else [Changed(x)]
  {
    if n > 1 {
      StableSelectionAnnouncesOnce(current, x, candidates, n - 1);
    }
  }

  /** Every announced event names one of the assigned images and carries that image's own reference name. */
  lemma {:induction false} AnnounceFromCandidates(current: Option<Image>, candidates: seq<Image>, n: nat)
    requires n <= |candidates|
    ensures forall e :: e in Announce(current, candidates, n) ==>
      e.target in candidates[..n] && e.referenceName == e.target.referenceName
  {
    if n > 0 {
      AnnounceFromCandidates(current, candidates, n - 1);
      assert candidates[..n] == candidates[..n - 1] + [candidates[n - 1]];
    }
  }

  /** List removal: deletes the first element equal to x, and is a no-op when there is none. */
  function RemoveFirst(s: seq<Image>, x: Image): (r: seq<Image>)
    ensures x !in s ==> r == s
    ensures |r| == if x in s then |s| - 1 else |s|
    decreases |s|
  {
    if s == [] then []
    else if s[0] == x then s[1..]
    else [s[0]] + RemoveFirst(s[1..], x)
  }

  /** When x first occurs at k, exactly that occurrence is cut out. */
  lemma {:induction false} RemoveFirstAt(s: seq<Image>, x: Image, k: nat)
    requires k < |s| && s[k] == x && x !in s[..k]
    ensures RemoveFirst(s, x) == s[..k] + s[k + 1..]
    decreases k
  {
    if k > 0 {
      assert s[0] in s[..k];
      assert s[1..][..k - 1] == s[1..k];
      RemoveFirstAt(s[1..], x, k - 1);
      assert s[..k] == [s[0]] + s[1..][..k - 1];
      assert s[k + 1..] == s[1..][k..];
    }
  }

  /** Removal takes away one copy of x when present and leaves every other element. */
  lemma {:induction false} RemoveFirstMultiset(s: seq<Image>, x: Image)
    ensures multiset(RemoveFirst(s, x)) == multiset(s) - multiset{x}
    decreases |s|
  {
    if s != [] {
      assert s == [s[0]] + s[1..];
      if s[0] != x {
        RemoveFirstMultiset(s[1..], x);
      }
    }
  }

  /** The removals of one tracking report, applied in report order. */
  function RemoveEach(s: seq<Image>, removed: seq<Image>): seq<Image>
    decreases |removed|
  {
    if removed == [] then s else RemoveEach(RemoveFirst(s, removed[0]), removed[1..])
  }

  /** Removal deletes one occurrence per reported image that is present, and nothing else. */
  lemma {:induction false} RemoveEachMultiset(s: seq<Image>, removed: seq<Image>)
    ensures multiset(RemoveEach(s, removed)) == multiset(s) - multiset(removed)
    decreases |removed|
  {
    if removed != [] {
      var x := removed[0];
      RemoveFirstMultiset(s, x);
      RemoveEachMultiset(RemoveFirst(s, x), removed[1..]);
      assert removed == [x] + removed[1..];
      assert multiset(removed) == multiset{x} + multiset(removed[1..]);
    }
  }
}
