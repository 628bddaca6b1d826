/** The intro page: the mutable map options driven by the renderer's animation
    loop, and the mount effect that creates the map and its overlay. */
module Intro {
  import opened CameraRamp

  /** The module-level map options record together with the renderer's animation
      loop that ramps them, and the camera that records every value it is moved to. */
  class FlyThrough {
    var tilt: int
    var zoom: int
    var heading: int
    /** Whether the renderer currently has the ramp installed as its animation loop. */
    var looping: bool
    /** Every value handed to the map's camera, oldest first. */
    var camera: seq<Ramp>

    function Options(): Ramp
      reads this
    {
      Ramp(tilt, zoom, heading)
    }

    /** The page loads with the shipped options and no animation loop yet. */
    constructor ()
      ensures Options() == Initial && !looping && camera == []
    {
      tilt, zoom, heading := 50, 400, 50;
      looping := false;
      camera := [];
    }

    /** The loader's manager reports all assets loaded: the ramp becomes the animation loop. */
    method StartLoop()
      modifies this`looping
      ensures looping
    {
      looping := true;
    }

    /** One call of the animation-loop callback: move the camera to the current
        values, then raise one field by one step or cancel the loop. */
    method Tick()
      requires looping
      modifies this
      ensures camera == old(camera) + [old(Options())]
      ensures Options() == Advance(old(Options())).next
      ensures looping <==> Advance(old(Options())).move != Cancel
    {
      camera := camera + [Options()];
      if tilt < TiltCeiling {
        tilt := tilt + 1;
      } else if zoom < ZoomCeiling {
        zoom := zoom + 1;
      } else if heading < HeadingCeiling {
        heading := heading + 1;
      } else {
        looping := false;
      }
    }

    /** The renderer calls the callback once per frame for as long as it stays installed. */
    method RunLoop() returns (ticks: nat)
      requires looping
      modifies this
      ensures !looping
      ensures camera == old(camera) + Shown(old(Options()))
      ensures Options() == Saturate(old(Options()))
      ensures ticks == Remaining(old(Options())) + 1
    {
      ghost var start := Options();
      TickCount(start);
      ShownTrace(start);
      ticks := 0;
      while looping
        invariant looping ==> ticks + |Shown(Options())| == |Shown(start)|
        invariant looping ==> camera + Shown(Options()) == old(camera) + Shown(start)
        invariant !looping ==> camera == old(camera) + Shown(start) && ticks == |Shown(start)|
        invariant Saturate(Options()) == Saturate(start)
        invariant !looping ==> AtCeilings(Options())
        decreases Remaining(Options()), looping
      {
        ghost var before := Options();
        ghost var logged := camera;
        Tick();
        ticks := ticks + 1;
        if looping {
          assert Shown(before) == [before] + Shown(Options());
          assert camera + Shown(Options()) == logged + Shown(before);
        } else {
          assert Shown(before) == [before];
        }
      }
    }
  }

  /** The map component's mount effect, guarded so that a second run creates nothing. */
  class MapMount {
    /** Whether the overlay reference has been set. */
    var hasOverlay: bool
    var mapsCreated: nat
    var overlaysCreated: nat

    ghost predicate Valid()
      reads this
    {
      mapsCreated == overlaysCreated == (if hasOverlay then 1 else 0)
    }

    constructor ()
      ensures Valid() && !hasOverlay
    {
      hasOverlay := false;
      mapsCreated, overlaysCreated := 0, 0;
    }

    /** Runs the effect: creates the map and its overlay only if no overlay exists yet. */
    method MountEffect()
      requires Valid()
      modifies this
      ensures Valid() && hasOverlay
      ensures mapsCreated == 1 && overlaysCreated == 1
      ensures old(hasOverlay) ==> mapsCreated == old(mapsCreated) && overlaysCreated == old(overlaysCreated)
    {
      if !hasOverlay {
        mapsCreated := mapsCreated + 1;
        overlaysCreated := overlaysCreated + 1;
        hasOverlay := true;
      }
    }
  }
}
