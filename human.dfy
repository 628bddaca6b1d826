/** The walking-figure page: the scene the overlay renders, and the component that
    keeps one track and one figure in it while the route changes and models load. */
module Human {
  import opened Wrappers
  import opened PathAnimation

  /** A three.js object the component puts in the scene: a track line or a loaded figure. */
  class Object3D {
    var position: Vec3
    var quaternion: Quat

    constructor ()
      ensures position == Vec3(0.0, 0.0, 0.0) && quaternion == Quat(0.0, 0.0, 0.0, 1.0)
    {
      position := Vec3(0.0, 0.0, 0.0);
      quaternion := Quat(0.0, 0.0, 0.0, 1.0);
    }
  }

  predicate Distinct(s: seq<Object3D>)
  {
    forall i, j :: 0 <= i < j < |s| ==> s[i] != s[j]
  }

  /** The children left once x is taken out; taking out null or an absent object changes nothing. */
  function Without(s: seq<Object3D>, x: Object3D?): (r: seq<Object3D>)
    ensures x !in s ==> r == s
    ensures |r| <= |s|
  {
    if s == [] then []
    else if s[0] == x then Without(s[1..], x)
    else [s[0]] + Without(s[1..], x)
  }

  /** Exactly the children other than x remain, none of them twice if none was twice before. */
  lemma {:induction false} WithoutMembers(s: seq<Object3D>, x: Object3D?)
    ensures forall i :: 0 <= i < |Without(s, x)| ==> Without(s, x)[i] in s && Without(s, x)[i] != x
    ensures forall i :: 0 <= i < |s| && s[i] != x ==> s[i] in Without(s, x)
    ensures Distinct(s) ==> Distinct(Without(s, x))
  {
    if s != [] {
      WithoutMembers(s[1..], x);
      if s[0] != x && Distinct(s) {
        var r := [s[0]] + Without(s[1..], x);
        forall i, j | 0 <= i < j < |r|
          ensures r[i] != r[j]
        {
          if i == 0 {
            assert r[j] == Without(s[1..], x)[j - 1];
            assert r[j] in s[1..];
          }
        }
      }
    }
  }

  /** The members of a slot that are children of the scene. */
  ghost function InScene(c: seq<Object3D>, slot: set<Object3D>): set<Object3D>
  {
    set t | t in c && t in slot
  }

  /** Replacing the object held in a slot: once the held object is taken out and a new
      object appended, the new one is the only member of the slot in the scene, nothing
      appears twice, and another slot that holds neither keeps exactly its members. */
  lemma SlotReplace(c: seq<Object3D>, slot: set<Object3D>, other: set<Object3D>, held: Object3D?, x: Object3D)
    requires Distinct(c) && x !in c && x !in other
    requires held != null ==> held !in other
    requires InScene(c, slot) <= {held}
    ensures Distinct(Without(c, held) + [x])
    ensures InScene(Without(c, held) + [x], slot + {x}) == {x}
    ensures InScene(Without(c, held) + [x], other) == InScene(c, other)
  {
    var w := Without(c, held);
    WithoutMembers(c, held);
    assert x !in w;
    SlotRemove(c, slot, held);
    SlotRemove(c, other, held);
    SlotAppend(w, slot + {x}, x);
    SlotAppend(w, other, x);
    assert InScene(w, slot + {x}) == InScene(w, slot);
  }

  /** Appending an object adds it, and only it, to the slots it belongs to. */
  lemma SlotAppend(c: seq<Object3D>, slot: set<Object3D>, x: Object3D)
    ensures InScene(c + [x], slot) == InScene(c, slot) + (if x in slot then {x} else {})
  {
  }

  /** Taking an object out removes it, and only it, from every slot. */
  lemma SlotRemove(c: seq<Object3D>, slot: set<Object3D>, x: Object3D?)
    ensures InScene(Without(c, x), slot) == InScene(c, slot) - (if x == null then {} else {x})
  {
    WithoutMembers(c, x);
    forall t | t in Without(c, x)
      ensures t in c && t != x
    {
      var i :| 0 <= i < |Without(c, x)| && Without(c, x)[i] == t;
    }
    forall t | t in c && t != x
      ensures t in Without(c, x)
    {
      var i :| 0 <= i < |c| && c[i] == t;
    }
  }

  /** The slot discipline over a scene's children: the component's tracks and figures
      are told apart, nothing is a child twice, and of each kind only the held object
      may be in the scene. */
  ghost predicate Slots(c: seq<Object3D>, tracks: set<Object3D>, humans: set<Object3D>,
                        trackRef: Object3D?, humanRef: Object3D?)
  {
    && tracks !! humans
    && (trackRef != null ==> trackRef in tracks)
    && (humanRef != null ==> humanRef in humans)
    && Distinct(c)
    && InScene(c, tracks) <= {trackRef}
    && InScene(c, humans) <= {humanRef}
  }

  /** A new track replacing the held one keeps the slot discipline and is the only track shown. */
  lemma TrackReplaced(c: seq<Object3D>, tracks: set<Object3D>, humans: set<Object3D>,
                      held: Object3D?, humanRef: Object3D?, x: Object3D)
    requires Slots(c, tracks, humans, held, humanRef)
    requires x !in c && x !in tracks && x !in humans
    ensures Slots(Without(c, held) + [x], tracks + {x}, humans, x, humanRef)
    ensures InScene(Without(c, held) + [x], tracks + {x}) == {x}
    ensures InScene(Without(c, held) + [x], humans) == InScene(c, humans)
  {
    SlotReplace(c, tracks, humans, held, x);
  }

  /** A new figure replacing the held one keeps the slot discipline and is the only figure shown. */
  lemma HumanReplaced(c: seq<Object3D>, tracks: set<Object3D>, humans: set<Object3D>,
                      trackRef: Object3D?, held: Object3D?, x: Object3D)
    requires Slots(c, tracks, humans, trackRef, held)
    requires x !in c && x !in tracks && x !in humans
    ensures Slots(Without(c, held) + [x], tracks, humans + {x}, trackRef, x)
    ensures InScene(Without(c, held) + [x], humans + {x}) == {x}
    ensures InScene(Without(c, held) + [x], tracks) == InScene(c, tracks)
  {
    SlotReplace(c, humans, tracks, held, x);
  }

  /** The overlay's scene graph: its children in insertion order. */
  class Scene {
    var children: seq<Object3D>

    /** A scene never holds a child twice: adding detaches the object first. */
    constructor (initial: seq<Object3D>)
      requires Distinct(initial)
      ensures children == initial
    {
      children := initial;
    }

    /** Adding an object first detaches it from where it was, then appends it. */
    method Add(x: Object3D)
      modifies this
      ensures children == Without(old(children), x) + [x]
    {
      children := Without(children, x) + [x];
    }

    /** Removing an object that is not a child, or nothing at all, leaves the scene as it is. */
    method Remove(x: Object3D?)
      modifies this
      ensures children == Without(old(children), x)
    {
      children := Without(children, x);
    }
  }

  /** The animation component of the page: its track and figure slots, the curve of the
      current route, and the frame update installed on the overlay. */
  class RouteAnimation {
    const scene: Scene
    /** Whether the overlay reference has been set, and how many overlays were made. */
    var hasOverlay: bool
    var overlaysCreated: nat
    var trackRef: Object3D?
    var humanRef: Object3D?
    /** The curve of the latest route, the one the installed frame update reads;
        none before the first route's effect has run. */
    var curve: Option<Curve>
    var redraws: nat
    /** Every track and every figure this component has ever created. */
    ghost var tracks: set<Object3D>
    ghost var humans: set<Object3D>
    /** Model loads started and not yet completed. */
    ghost var pendingLoads: nat

    ghost predicate Valid()
      reads this, scene
    {
      && Slots(scene.children, tracks, humans, trackRef, humanRef)
      && overlaysCreated == (if hasOverlay then 1 else 0)
    }

    /** The component's tracks that are in the scene. */
    ghost function TracksShown(): set<Object3D>
      reads this, scene
    {
      InScene(scene.children, tracks)
    }

    /** The component's figures that are in the scene. */
    ghost function HumansShown(): set<Object3D>
      reads this, scene
    {
      InScene(scene.children, humans)
    }

    constructor (scene: Scene)
      requires Distinct(scene.children)
      ensures Valid() && this.scene == scene && scene.children == old(scene.children)
      ensures !hasOverlay && curve == None && trackRef == null && humanRef == null && redraws == 0
      ensures tracks == {} && humans == {} && pendingLoads == 0
    {
      this.scene := scene;
      curve := None;
      hasOverlay, overlaysCreated := false, 0;
      trackRef, humanRef := null, null;
      redraws := 0;
      tracks, humans := {}, {};
      pendingLoads := 0;
    }

    /** The overlay is made the first time the effect runs and reused after that. */
    method EnsureOverlay()
      requires Valid()
      modifies this`hasOverlay, this`overlaysCreated
      ensures Valid() && hasOverlay && overlaysCreated == 1
      ensures old(hasOverlay) ==> overlaysCreated == old(overlaysCreated)
    {
      if !hasOverlay {
        hasOverlay := true;
        overlaysCreated := overlaysCreated + 1;
      }
    }

    /** The effect that runs for each new route: make the overlay once, swap the old
        track for a new one built from the route's curve, and start loading a figure. */
    method RouteEffect(route: Curve) returns (track: Object3D)
      requires Valid()
      modifies this, scene
      ensures Valid() && fresh(track)
      ensures hasOverlay && overlaysCreated == 1
      ensures curve == Some(route) && trackRef == track && humanRef == old(humanRef)
      ensures tracks == old(tracks) + {track} && humans == old(humans)
      ensures scene.children == Without(old(scene.children), old(trackRef)) + [track]
      ensures TracksShown() == {track} && HumansShown() == old(HumansShown())
      ensures pendingLoads == old(pendingLoads) + 1 && redraws == old(redraws)
    {
      EnsureOverlay();
      curve := Some(route);
      ghost var before, held := scene.children, trackRef;
      if trackRef != null {
        scene.Remove(trackRef);
      }
      assert scene.children == Without(before, held);
      track := new Object3D();
      TrackReplaced(before, tracks, humans, held, humanRef, track);
      trackRef := track;
      tracks := tracks + {track};
      scene.Add(track);
      assert scene.children == Without(before, held) + [track];
      assert TracksShown() == {track} && HumansShown() == InScene(before, humans);
      assert old(HumansShown()) == InScene(before, humans);
      pendingLoads := pendingLoads + 1;
    }

    /** A model load completes: the figure held so far leaves the scene and the newly
        loaded one takes its place, whichever load it was. */
    method ModelLoaded() returns (human: Object3D)
      requires Valid() && pendingLoads > 0
      modifies this, scene
      ensures Valid() && fresh(human)
      ensures humanRef == human && trackRef == old(trackRef) && curve == old(curve)
      ensures humans == old(humans) + {human} && tracks == old(tracks)
      ensures scene.children == Without(old(scene.children), old(humanRef)) + [human]
      ensures HumansShown() == {human} && TracksShown() == old(TracksShown())
      ensures pendingLoads == old(pendingLoads) - 1
      ensures hasOverlay == old(hasOverlay) && overlaysCreated == old(overlaysCreated) && redraws == old(redraws)
    {
      ghost var before, held := scene.children, humanRef;
      if humanRef != null {
        scene.Remove(humanRef);
      }
      assert scene.children == Without(before, held);
      human := new Object3D();
      HumanReplaced(before, tracks, humans, trackRef, held, human);
      humanRef := human;
      humans := humans + {human};
      scene.Add(human);
      assert scene.children == Without(before, held) + [human];
      assert HumansShown() == {human} && TracksShown() == InScene(before, tracks);
      assert old(TracksShown()) == InScene(before, tracks);
      pendingLoads := pendingLoads - 1;
    }

    /** The frame update: place the figure, if one is loaded, from the clock and the
        curve alone, then ask the overlay for another redraw. A route's effect installs
        it, so it runs only once there is an overlay and a curve. */
    method Update(now: nat, rotations: Rotations)
      requires Valid() && hasOverlay && curve.Some?
      modifies this`redraws, humanRef
      ensures Valid() && redraws == old(redraws) + 1
      ensures humanRef != null ==> Pose(humanRef.position, humanRef.quaternion) == PoseAt(curve.value, rotations, now)
    {
      if humanRef != null {
        var progress := Progress(now);
        humanRef.position := curve.value.pointAt(progress);
        humanRef.quaternion := rotations.fromUnitVectors(FrontVector, curve.value.tangentAt(progress));
        humanRef.quaternion := rotations.quarterTurnX(humanRef.quaternion);
      }
      redraws := redraws + 1;
    }

    /** The effect's cleanup: take the held track and figure out of the scene. The
        references themselves are kept. */
    method Cleanup()
      requires Valid()
      modifies scene
      ensures Valid()
      ensures scene.children == Without(Without(old(scene.children), trackRef), humanRef)
      ensures TracksShown() == {} && HumansShown() == {}
    {
      ghost var before := scene.children;
      scene.Remove(trackRef);
      scene.Remove(humanRef);
      SlotRemove(before, tracks, trackRef);
      SlotRemove(Without(before, trackRef), tracks, humanRef);
      SlotRemove(before, humans, trackRef);
      SlotRemove(Without(before, trackRef), humans, humanRef);
      WithoutMembers(before, trackRef);
      WithoutMembers(Without(before, trackRef), humanRef);
    }

    /** A new route: the previous run's cleanup takes the track and the figure out, and
        then the effect runs again. Until a load completes, only the new track shows. */
    method RouteChanged(route: Curve) returns (track: Object3D)
      requires Valid()
      modifies this, scene
      ensures Valid() && fresh(track)
      ensures hasOverlay && overlaysCreated == 1 && redraws == old(redraws)
      ensures curve == Some(route) && trackRef == track && humanRef == old(humanRef)
      ensures tracks == old(tracks) + {track} && humans == old(humans)
      ensures scene.children == Without(Without(old(scene.children), old(trackRef)), old(humanRef)) + [track]
      ensures TracksShown() == {track} && HumansShown() == {}
      ensures pendingLoads == old(pendingLoads) + 1
    {
      Cleanup();
      track := RouteEffect(route);
    }
  }

  /** Two frames at the same timestamp leave the figure in the same pose, whatever pose
      it had before; with no figure loaded there is no pose to report. */
  method RepeatedFrame(a: RouteAnimation, now: nat, rotations: Rotations) returns (first: Option<Pose>, second: Option<Pose>)
    requires a.Valid() && a.hasOverlay && a.curve.Some?
    modifies a`redraws, a.humanRef
    ensures a.humanRef != null ==> first == Some(PoseAt(a.curve.value, rotations, now))
    ensures a.humanRef != null ==> second == Some(Pose(a.humanRef.position, a.humanRef.quaternion))
    ensures first == second
    ensures first.None? <==> a.humanRef == null
    ensures a.redraws == old(a.redraws) + 2
  {
    a.Update(now, rotations);
    first := if a.humanRef == null then None else Some(Pose(a.humanRef.position, a.humanRef.quaternion));
    a.Update(now, rotations);
    second := if a.humanRef == null then None else Some(Pose(a.humanRef.position, a.humanRef.quaternion));
  }
}
