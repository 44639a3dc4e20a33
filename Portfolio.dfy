/**
 * The portfolio section: six fixed projects, the filter buttons, and the
 * visible list derived from the active filter.
 */
module Portfolio {
  import opened CategoryFilter

  /** A portfolio entry; `image` is the emoji shown on its card. */
  datatype Project = Project(title: string, description: string, category: string, image: string)

  /** A filter button: its caption and the tag it selects. The caption
      field is not called `label`, which is a Dafny keyword. */
  datatype FilterOption = FilterOption(caption: string, value: string)

  /** The wildcard tag. */
  const All := "all"

  const Projects: seq<Project> := [
    Project("Brand Video Campaign", "A series of engaging promotional videos for a major brand launch.", "video", "🎥"),
    Project("Corporate Identity Design", "Complete visual identity system including logo and brand guidelines.", "design", "🎨"),
    Project("Short Film Script", "Award-winning script for an independent short film production.", "script", "✍️"),
    Project("Social Media Graphics", "Eye-catching visual content for various social media platforms.", "design", "📱"),
    Project("Documentary Series", "Multi-episode documentary series about environmental conservation.", "video", "🎬"),
    Project("Web Series Script", "Original script for a six-episode web series.", "script", "📝")
  ]

  const Filters: seq<FilterOption> := [
    FilterOption("All", "all"),
    FilterOption("Video", "video"),
    FilterOption("Design", "design"),
    FilterOption("Script", "script")
  ]

  /** `activeFilter` when the section mounts. */
  const InitialFilter := All

  /** The filter callback: every project under the wildcard, otherwise only
      those of the active category. */
  predicate Shows(activeFilter: string, p: Project) {
    if activeFilter == All then true else p.category == activeFilter
  }

  /** `Shows` for one active filter, as the callback passed to `filter`. */
  function ShowsFor(activeFilter: string): Project -> bool {
    p => Shows(activeFilter, p)
  }

  /** `filteredProjects` for the given active filter. */
  function FilteredProjects(activeFilter: string): (r: seq<Project>)
    ensures activeFilter == All ==> r == Projects
    ensures activeFilter != All ==> forall p | p in r :: p in Projects && p.category == activeFilter
    ensures forall i | 0 <= i < |Projects| && Projects[i].category == activeFilter :: Projects[i] in r
  {
    var keep := ShowsFor(activeFilter);
    if activeFilter == All then
      FilterKeepsAll(Projects, keep);
      Filter(Projects, keep)
    else
      Filter(Projects, keep)
  }

  /** The visible list is the order-preserving selection of the projects
      the active filter shows. */
  lemma FilteredProjectsInOrder(activeFilter: string) returns (idx: seq<int>)
    ensures SelectsPositions(Projects, ShowsFor(activeFilter), FilteredProjects(activeFilter), idx)
  {
    idx := FilterSelectsPositions(Projects, ShowsFor(activeFilter));
  }

  /** Re-filtering the visible list by the same filter returns it unchanged. */
  lemma FilteredProjectsIdempotent(activeFilter: string)
    ensures Filter(FilteredProjects(activeFilter), ShowsFor(activeFilter)) == FilteredProjects(activeFilter)
  {
    FilterIdempotent(Projects, ShowsFor(activeFilter));
  }

  /** The `design` filter shows the two design pieces, in list order. */
  lemma DesignFilter()
    ensures FilteredProjects("design") == [Projects[1], Projects[3]]
  {
    var keep := ShowsFor("design");
    var ps := Projects;
    forall j | 0 <= j < |ps| ensures keep(ps[j]) <==> j in [1, 3] {
      assert ps[j].category == ["video", "design", "script", "design", "video", "script"][j];
    }
    SelectionIsFilter(ps, keep, [ps[1], ps[3]], [1, 3]);
  }

  /** A tag no project carries shows nothing. */
  lemma UnknownTagShowsNothing(activeFilter: string)
    requires activeFilter != All
    requires forall p | p in Projects :: p.category != activeFilter
    ensures FilteredProjects(activeFilter) == []
  {
    FilterKeepsNone(Projects, ShowsFor(activeFilter));
  }

  /** The filter starts as the wildcard, which is one of the buttons, and
      every project's category is the value of one of the other buttons. */
  lemma FilterValuesCoverCategories()
    ensures exists f | f in Filters :: f.value == InitialFilter
    ensures forall p | p in Projects :: exists i | 1 <= i < |Filters| :: Filters[i].value == p.category
  {
    assert Filters[0].value == InitialFilter;
    forall p | p in Projects ensures exists i | 1 <= i < |Filters| :: Filters[i].value == p.category {
      if p.category == "video" { assert Filters[1].value == p.category; }
      else if p.category == "design" { assert Filters[2].value == p.category; }
      else { assert Filters[3].value == p.category; }
    }
  }
}
