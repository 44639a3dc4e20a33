/**
 * The projects section: six fixed projects, the category buttons with
 * their capitalised captions, and the visible list for the selected
 * category.
 */
module Projects {
  import opened CategoryFilter

  /** A project card; `color` fills its image area. */
  datatype Project = Project(title: string, description: string, color: string, category: string)

  /** The wildcard category. */
  const All := "all"

  const Projects: seq<Project> := [
    Project("Digital Experience", "Interactive web application with modern UI/UX design", "#ff6b6b", "web"),
    Project("Brand Identity", "Complete brand identity design and guidelines", "#4ecdc4", "design"),
    Project("Mobile App", "Cross-platform mobile application development", "#45b7d1", "mobile"),
    Project("E-Commerce Platform", "Full-featured online shopping experience", "#96ceb4", "web"),
    Project("UI Kit Design", "Comprehensive design system for digital products", "#ff9f43", "design"),
    Project("Social Media App", "Feature-rich social networking platform", "#0abde3", "mobile")
  ]

  const Categories: seq<string> := ["all", "web", "mobile", "design"]

  /** `selectedCategory` when the section mounts. */
  const InitialCategory := All

  /** The filter callback: the project belongs to the category. */
  function InCategory(category: string): Project -> bool {
    (p: Project) => p.category == category
  }

  /** `filteredProjects`: the whole list under the wildcard, otherwise the
      projects of the selected category. */
  function FilteredProjects(selected: string): (r: seq<Project>)
    ensures selected == All ==> r == Projects
    ensures selected != All ==> forall p | p in r :: p in Projects && p.category == selected
    ensures selected != All ==> forall i | 0 <= i < |Projects| && Projects[i].category == selected :: Projects[i] in r
  {
    if selected == All then Projects else Filter(Projects, InCategory(selected))
  }

  /** For a real category the visible list is the order-preserving
      selection of that category's projects. */
  lemma FilteredProjectsInOrder(selected: string) returns (idx: seq<int>)
    requires selected != All
    ensures SelectsPositions(Projects, InCategory(selected), FilteredProjects(selected), idx)
  {
    idx := FilterSelectsPositions(Projects, InCategory(selected));
  }

  /** The `web` button selects the two web projects, in list order. */
  lemma WebCategory()
    ensures FilteredProjects("web") == [Projects[0], Projects[3]]
  {
    var ps := Projects;
    forall j | 0 <= j < |ps| ensures InCategory("web")(ps[j]) <==> j in [0, 3] {
      assert ps[j].category == ["web", "design", "mobile", "web", "design", "mobile"][j];
    }
    SelectionIsFilter(ps, InCategory("web"), [ps[0], ps[3]], [0, 3]);
  }

  /** The `mobile` button selects the two mobile projects, in list order. */
  lemma MobileCategory()
    ensures FilteredProjects("mobile") == [Projects[2], Projects[5]]
  {
    var ps := Projects;
    forall j | 0 <= j < |ps| ensures InCategory("mobile")(ps[j]) <==> j in [2, 5] {
      assert ps[j].category == ["web", "design", "mobile", "web", "design", "mobile"][j];
    }
    SelectionIsFilter(ps, InCategory("mobile"), [ps[2], ps[5]], [2, 5]);
  }

  /** The `design` button selects the two design projects, in list order. */
  lemma DesignCategory()
    ensures FilteredProjects("design") == [Projects[1], Projects[4]]
  {
    var ps := Projects;
    forall j | 0 <= j < |ps| ensures InCategory("design")(ps[j]) <==> j in [1, 4] {
      assert ps[j].category == ["web", "design", "mobile", "web", "design", "mobile"][j];
    }
    SelectionIsFilter(ps, InCategory("design"), [ps[1], ps[4]], [1, 4]);
  }

  /** Every project's category has a button of its own. */
  lemma CategoriesCoverProjects()
    ensures forall p | p in Projects :: p.category in Categories[1..]
  {
    var ps := Projects;
    forall p | p in ps ensures p.category in Categories[1..] {
      var j :| 0 <= j < |ps| && ps[j] == p;
      assert ps[j].category == ["web", "design", "mobile", "web", "design", "mobile"][j];
      assert Categories[1..] == ["web", "mobile", "design"];
    }
  }

  /** The three real categories split the six projects between them:
      their selections hold six projects in all, and every project is in
      one of them. */
  lemma CategoriesPartitionProjects()
    ensures |FilteredProjects("web")| + |FilteredProjects("mobile")| + |FilteredProjects("design")| == |Projects|
    ensures forall p | p in Projects ::
      p in FilteredProjects("web") || p in FilteredProjects("mobile") || p in FilteredProjects("design")
  {
    WebCategory();
    MobileCategory();
    DesignCategory();
    CategoriesCoverProjects();
  }

  /** The selected category starts as the wildcard, which has a button. */
  lemma InitialCategoryHasButton()
    ensures InitialCategory == Categories[0]
    ensures FilteredProjects(InitialCategory) == Projects
  {
  }

  // ---------------------------------------------------------------------
  // Button captions
  // ---------------------------------------------------------------------

  /** `toUpperCase` on one character, for the ASCII letters. */
  function UpperCase(c: char): (u: char)
    ensures 'a' <= c <= 'z' ==> 'A' <= u <= 'Z' && u as int - 'A' as int == c as int - 'a' as int
    ensures !('a' <= c <= 'z') ==> u == c
  {
    if 'a' <= c <= 'z' then (c as int - 'a' as int + 'A' as int) as char else c
  }

  /** `category.charAt(0).toUpperCase() + category.slice(1)`. */
  function Caption(category: string): (s: string)
    ensures |s| == |category|
    ensures category != "" ==> s[0] == UpperCase(category[0]) && s[1..] == category[1..]
  {
    if category == "" then "" else [UpperCase(category[0])] + category[1..]
  }

  /** Capitalising twice is the same as capitalising once. */
  lemma CaptionIdempotent(category: string)
    ensures Caption(Caption(category)) == Caption(category)
  {
    if category != "" {
      var c := category[0];
      assert UpperCase(UpperCase(c)) == UpperCase(c);
    }
  }

  /** The four buttons read All, Web, Mobile and Design. */
  lemma CategoryCaptions()
    ensures Caption(Categories[0]) == "All"
    ensures Caption(Categories[1]) == "Web"
    ensures Caption(Categories[2]) == "Mobile"
    ensures Caption(Categories[3]) == "Design"
  {
  }
}
