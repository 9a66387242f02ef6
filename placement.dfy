/**
 * The placement dispatch of the `Model` component: a model's path is mapped
 * to a fixed position, scale and rotation by an ordered chain of substring
 * tests, and only the third case asks for the glow override.
 */
module Placement {
  import opened Text

  /** A coordinate triple, as the `[x, y, z]` arrays the component passes on. */
  datatype Vec3 = Vec3(x: real, y: real, z: real)

  /** What the dispatch decides for one path. */
  datatype Placement = Placement(position: Vec3, scale: Vec3, rotation: Vec3, glow: bool)

  /** One entry of the dispatch: the path fragment it keys on and its placement. */
  datatype Rule = Rule(id: string, placement: Placement)

  const SpawnPointId: string := "stylized_spawn_point"
  const StatueId: string := "statue"
  const StagId: string := "stag_and_friends_original"

  const Origin: Vec3 := Vec3(0.0, 0.0, 0.0)

  function Uniform(k: real): Vec3 { Vec3(k, k, k) }

  ghost predicate PositiveScale(v: Vec3) { v.x > 0.0 && v.y > 0.0 && v.z > 0.0 }

  /** The values the component starts from before testing the path. */
  const DefaultPlacement: Placement := Placement(Origin, Uniform(1.0), Origin, false)
  const SpawnPointPlacement: Placement := Placement(Vec3(-4.0, 0.0, 0.0), Uniform(10.0), Origin, false)
  const StatuePlacement: Placement := Placement(Vec3(0.0, 6.0, 0.0), Uniform(1.0), Origin, false)
  const StagPlacement: Placement := Placement(Vec3(10.0, 8.0, 30.0), Uniform(5.0), Origin, true)

  /** The if/else-if chain on the path; the first test that succeeds decides. */
  function Place(path: string): (p: Placement)
    ensures p.rotation == Origin
    ensures PositiveScale(p.scale)
  {
    if Includes(path, SpawnPointId) then SpawnPointPlacement
    else if Includes(path, StatueId) then StatuePlacement
    else if Includes(path, StagId) then StagPlacement
    else DefaultPlacement
  }

  /** The same dispatch read as a table, in the order the chain tests it. */
  const Rules: seq<Rule> := [
    Rule(SpawnPointId, SpawnPointPlacement),
    Rule(StatueId, StatuePlacement),
    Rule(StagId, StagPlacement)
  ]

  /** The placement of the first rule whose fragment the path includes, else `fallback`. */
  function FirstMatch(rules: seq<Rule>, path: string, fallback: Placement): Placement
  {
    if rules == [] then fallback
    else if Includes(path, rules[0].id) then rules[0].placement
    else FirstMatch(rules[1..], path, fallback)
  }

  /** First match wins: the earliest rule whose fragment the path includes decides. */
  lemma {:induction false} FirstMatchWins(rules: seq<Rule>, path: string, fallback: Placement, k: nat)
    requires k < |rules| && Includes(path, rules[k].id)
    requires forall j :: 0 <= j < k ==> !Includes(path, rules[j].id)
    ensures FirstMatch(rules, path, fallback) == rules[k].placement
    decreases k
  {
    if k > 0 {
      assert !Includes(path, rules[0].id);
      FirstMatchWins(rules[1..], path, fallback, k - 1);
    }
  }

  /** A path no rule matches falls through to `fallback`. */
  lemma {:induction false} FirstMatchFallsThrough(rules: seq<Rule>, path: string, fallback: Placement)
    requires forall j :: 0 <= j < |rules| ==> !Includes(path, rules[j].id)
    ensures FirstMatch(rules, path, fallback) == fallback
    decreases |rules|
  {
    if rules != [] {
      assert !Includes(path, rules[0].id);
      FirstMatchFallsThrough(rules[1..], path, fallback);
    }
  }

  /** The chain and the table agree on every path. */
  lemma PlaceIsFirstMatch(path: string)
    ensures Place(path) == FirstMatch(Rules, path, DefaultPlacement)
  {
    if Includes(path, SpawnPointId) {
      FirstMatchWins(Rules, path, DefaultPlacement, 0);
    } else if Includes(path, StatueId) {
      FirstMatchWins(Rules, path, DefaultPlacement, 1);
    } else if Includes(path, StagId) {
      FirstMatchWins(Rules, path, DefaultPlacement, 2);
    } else {
      FirstMatchFallsThrough(Rules, path, DefaultPlacement);
    }
  }

  /** A path with none of the three fragments keeps the defaults and gets no glow. */
  lemma UnmatchedKeepsDefaults(path: string)
    requires !Includes(path, SpawnPointId) && !Includes(path, StatueId) && !Includes(path, StagId)
    ensures Place(path).position == Origin && Place(path).scale == Uniform(1.0)
    ensures Place(path).rotation == Origin && !Place(path).glow
  {
  }

  /** The spawn point is moved to (-4, 0, 0), scaled by 10, and never glows. */
  lemma SpawnPointCase(path: string)
    requires Includes(path, SpawnPointId)
    ensures Place(path).position == Vec3(-4.0, 0.0, 0.0) && Place(path).scale == Uniform(10.0)
    ensures !Place(path).glow
  {
  }

  /** The statue is lifted to (0, 6, 0) at unit scale, and never glows. */
  lemma StatueCase(path: string)
    requires !Includes(path, SpawnPointId) && Includes(path, StatueId)
    ensures Place(path).position == Vec3(0.0, 6.0, 0.0) && Place(path).scale == Uniform(1.0)
    ensures !Place(path).glow
  {
  }

  /** The stag group goes to (10, 8, 30) at scale 5. */
  lemma StagCase(path: string)
    requires !Includes(path, SpawnPointId) && !Includes(path, StatueId) && Includes(path, StagId)
    ensures Place(path).position == Vec3(10.0, 8.0, 30.0) && Place(path).scale == Uniform(5.0)
  {
  }

  /** The glow is asked for exactly when the third test is the first to succeed. */
  lemma GlowOnlyForStag(path: string)
    ensures Place(path).glow <==>
      !Includes(path, SpawnPointId) && !Includes(path, StatueId) && Includes(path, StagId)
  {
  }
}
