/**
 * The `Model` component as a whole: one evaluation of its body picks the
 * placement for the path and, in the glow case, rewrites the loaded scene.
 */
module ModelComponent {
  import opened Text
  import opened Placement
  import opened SceneGraph

  /**
   * One evaluation of the component body for `path` over the scene loaded
   * from it. The scene changes only when the placement asks for the glow.
   */
  method Render(path: string, scene: Node) returns (p: Placement)
    requires scene.Valid()
    modifies scene.Repr
    ensures p == Place(path)
    ensures forall n :: n in scene.Repr ==>
      n.Look() == if p.glow then Override(n.isMesh, old(n.Look())) else old(n.Look())
  {
    p := Place(path);
    if p.glow {
      scene.ApplyGlow();
    }
  }

  /**
   * Two evaluations in a row over the same loaded scene, as happens on every
   * re-render: the scene ends as it was after the first.
   */
  method Rerender(path: string, scene: Node) returns (p: Placement)
    requires scene.Valid()
    modifies scene.Repr
    ensures p == Place(path)
    ensures forall n :: n in scene.Repr ==>
      n.Look() == if p.glow then Override(n.isMesh, old(n.Look())) else old(n.Look())
  {
    var first := Render(path, scene);
    p := Render(path, scene);
    forall n | n in scene.Repr
      ensures n.Look() == if p.glow then Override(n.isMesh, old(n.Look())) else old(n.Look())
    {
      OverrideIdempotent(n.isMesh, old(n.Look()));
    }
  }

  // The scene places its three static models from `/models/<name>.glb`.
  const ModelsDir: string := "/models/"
  const GlbSuffix: string := ".glb"

  function ModelPath(name: string): string { ModelsDir + name + GlbSuffix }

  lemma SpawnPointPathMatches()
    ensures Includes(ModelPath(SpawnPointId), SpawnPointId)
  {
    IncludesInfix(ModelsDir, SpawnPointId, GlbSuffix);
  }

  lemma StatuePathMatches()
    ensures Includes(ModelPath(StatueId), StatueId)
  {
    IncludesInfix(ModelsDir, StatueId, GlbSuffix);
  }

  lemma StagPathMissesSpawnPoint()
    ensures !Includes(ModelPath(StagId), SpawnPointId)
  {
    MissingCharExcludes(ModelPath(StagId), SpawnPointId, 'y');
  }

  lemma StagPathMissesStatue()
    ensures !Includes(ModelPath(StagId), StatueId)
  {
    MissingCharExcludes(ModelPath(StagId), StatueId, 'u');
  }

  lemma StagPathMatches()
    ensures Includes(ModelPath(StagId), StagId)
  {
    IncludesInfix(ModelsDir, StagId, GlbSuffix);
  }

  lemma MixedPathMissesSpawnPoint()
    ensures !Includes(ModelPath(StatueId + "_" + StagId), SpawnPointId)
  {
    MissingCharExcludes(ModelPath(StatueId + "_" + StagId), SpawnPointId, 'y');
  }

  lemma MixedPathMatchesStatue()
    ensures Includes(ModelPath(StatueId + "_" + StagId), StatueId)
  {
    assert ModelPath(StatueId + "_" + StagId) == ModelsDir + StatueId + ("_" + StagId + GlbSuffix);
    IncludesInfix(ModelsDir, StatueId, "_" + StagId + GlbSuffix);
  }

  /** `/models/stylized_spawn_point.glb`: moved to (-4, 0, 0), scaled by 10, no glow. */
  lemma SpawnPointScenario()
    ensures Place(ModelPath(SpawnPointId)) == SpawnPointPlacement
  {
    SpawnPointPathMatches();
  }

  /** `/models/statue.glb`: lifted to (0, 6, 0), unit scale, no glow. */
  lemma StatueScenario()
    ensures Place(ModelPath(StatueId)) == StatuePlacement
  {
    StatuePathMatches();
  }

  /** `/models/stag_and_friends_original.glb`: moved to (10, 8, 30), scaled by 5, and it glows. */
  lemma StagScenario()
    ensures Place(ModelPath(StagId)) == StagPlacement
  {
    StagPathMissesSpawnPoint();
    StagPathMissesStatue();
    StagPathMatches();
  }

  /** A path naming none of the three models keeps the identity placement. */
  lemma UnknownScenario()
    ensures Place("foo.glb") == DefaultPlacement
  {
    MissingCharExcludes("foo.glb", StatueId, 's');
  }

  /** `/models/statue_stag_and_friends_original.glb` gets the statue's placement and no glow. */
  lemma StatueBeforeStag()
    ensures Place(ModelPath(StatueId + "_" + StagId)) == StatuePlacement
  {
    MixedPathMissesSpawnPoint();
    MixedPathMatchesStatue();
  }
}
