/** Choosing the walking animation clip of a loaded model by a case-insensitive
    substring match on the clip names. */
module ClipSelection {
  import opened Wrappers

  const WalkKey: string := "walk"

  /** The message the loader logs when no clip matches, as the page words it. */
  const MissingWalkMessage: string := "Walking animation found."

  /** Lower-casing of one character; only the ASCII letters A to Z have a lower case here. */
  function LowerChar(c: char): (d: char)
    ensures 'A' <= c <= 'Z' ==> 'a' <= d <= 'z' && d as int - c as int == 'a' as int - 'A' as int
    ensures !('A' <= c <= 'Z') ==> d == c
  {
    if 'A' <= c <= 'Z' then (c as int - 'A' as int + 'a' as int) as char else c
  }

  function Lower(s: string): (r: string)
    ensures |r| == |s|
    ensures forall i :: 0 <= i < |s| ==> r[i] == LowerChar(s[i])
  {
    if s == [] then [] else [LowerChar(s[0])] + Lower(s[1..])
  }

  /** Whether sub occurs in s as a contiguous piece, the empty piece occurring everywhere. */
  predicate Includes(s: string, sub: string)
    decreases |s|
  {
    if |sub| > |s| then false
    else if s[..|sub|] == sub then true
    else s != [] && Includes(s[1..], sub)
  }

  /** Whether sub occurs in s starting at position i. */
  predicate OccursAt(s: string, sub: string, i: nat)
  {
    i + |sub| <= |s| && s[i..i + |sub|] == sub
  }

  /** Includes agrees with the positional definition of a substring, in both directions. */
  lemma {:induction false} IncludesAt(s: string, sub: string)
    ensures Includes(s, sub) <==> exists i: nat :: OccursAt(s, sub, i)
    decreases |s|
  {
    if |sub| > |s| {
    } else if s[..|sub|] == sub {
      assert OccursAt(s, sub, 0);
    } else {
      IncludesAt(s[1..], sub);
      if Includes(s, sub) {
        var k: nat :| OccursAt(s[1..], sub, k);
        assert s[k + 1..k + 1 + |sub|] == s[1..][k..k + |sub|];
        assert OccursAt(s, sub, k + 1);
      } else {
        forall i: nat
          ensures !OccursAt(s, sub, i)
        {
          if i > 0 && i + |sub| <= |s| {
            assert s[i..i + |sub|] == s[1..][i - 1..i - 1 + |sub|];
            assert !OccursAt(s[1..], sub, i - 1);
          }
        }
      }
    }
  }

  /** A clip counts as a walk clip when its lower-cased name contains "walk". */
  predicate IsWalkClip(name: string)
  {
    Includes(Lower(name), WalkKey)
  }

  /** The loop over the model's clips: every match overwrites the one before,
      so the clip kept is the last whose name matches. */
  method SelectWalkClip(names: seq<string>) returns (walk: Option<nat>)
    ensures walk.Some? ==> walk.value < |names| && IsWalkClip(names[walk.value])
    ensures walk.Some? ==> forall j :: walk.value < j < |names| ==> !IsWalkClip(names[j])
    ensures walk.None? <==> forall j :: 0 <= j < |names| ==> !IsWalkClip(names[j])
  {
    walk := None;
    var index := 0;
    while index < |names|
      invariant 0 <= index <= |names|
      invariant walk.Some? ==> walk.value < index && IsWalkClip(names[walk.value])
      invariant walk.Some? ==> forall j :: walk.value < j < index ==> !IsWalkClip(names[j])
      invariant walk.None? ==> forall j :: 0 <= j < index ==> !IsWalkClip(names[j])
    {
      if Includes(Lower(names[index]), WalkKey) {
        walk := Some(index);
      }
      index := index + 1;
    }
  }

  /** What loading the model does with its clips: play the selected walk clip, or
      log the message and play nothing. */
  method PlayWalkClip(names: seq<string>) returns (playing: set<nat>, errors: seq<string>)
    ensures errors == [] <==> exists j :: 0 <= j < |names| && IsWalkClip(names[j])
    ensures errors != [] ==> playing == {} && errors == [MissingWalkMessage]
    ensures errors == [] ==> exists k :: playing == {k} && k < |names| && IsWalkClip(names[k])
                                   && forall j :: k < j < |names| ==> !IsWalkClip(names[j])
  {
    var walk := SelectWalkClip(names);
    if walk.None? {
      playing, errors := {}, [MissingWalkMessage];
    } else {
      playing, errors := {walk.value}, [];
    }
  }
}
