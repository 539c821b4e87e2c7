/** The fixed, ordered scene list of the home page: the intro, one scene per
    project, and the vita. Only the order and the kinds matter here; titles,
    images and descriptions are display data. */
module HomeScenes {

  datatype Scene = Home | Project(slug: string) | Vita

  /** The projects, in the order the home page lists them. */
  const ProjectSlugs: seq<string> :=
    ["digital-assets", "morphonic-lab", "new-ecologies", "ships", "sinks"]

  /** `[{kind: "home"}, ...projects.map(...), {kind: "vita"}]`. */
  function SceneList(slugs: seq<string>): (r: seq<Scene>)
    ensures |r| == |slugs| + 2
    ensures r[0] == Home && r[|r| - 1] == Vita
    ensures forall i :: 0 <= i < |slugs| ==> r[i + 1] == Project(slugs[i])
  {
    [Home] + seq(|slugs|, i requires 0 <= i < |slugs| => Project(slugs[i])) + [Vita]
  }

  const Scenes: seq<Scene> := SceneList(ProjectSlugs)

  /** `scenes.length`. */
  const N: nat := |Scenes|

  /** Seven scenes: home at 0, the five projects at 1..5, the vita at 6. */
  lemma SceneLayout()
    ensures N == |ProjectSlugs| + 2 == 7
    ensures Scenes[0] == Home && Scenes[N - 1] == Vita
    ensures forall i :: 1 <= i < N - 1 ==> Scenes[i].Project?
  {
    forall i | 1 <= i < N - 1
      ensures Scenes[i].Project?
    {
      assert Scenes[(i - 1) + 1] == Project(ProjectSlugs[i - 1]);
    }
  }
}
