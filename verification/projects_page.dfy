/** The projects list page: the colour of a project's status and the removal
    of a project from the list held in the page's state. */
module ProjectsPage {
  import opened Text

  /** A project card's data (`kind` is the project's `type`). */
  datatype Project = Project(
    id: int, name: string, description: string, kind: string,
    images: nat, status: string, progress: nat, lastUpdated: string)

  /** The list the page starts from. */
  const DummyProjects: seq<Project> := [
    Project(1, "Object Detection", "Detect and classify objects in images", "object-detection",
            245, "Active", 85, "2 hours ago"),
    Project(2, "Face Recognition", "Facial recognition and analysis", "classification",
            180, "Training", 45, "1 day ago"),
    Project(3, "Scene Classification", "Classify different types of scenes", "classification",
            320, "Active", 92, "3 days ago")
  ]

  const Green: string := "text-green-500"
  const Blue: string := "text-blue-500"
  const Yellow: string := "text-yellow-500"
  const Muted: string := "text-muted-foreground"

  /** `getStatusColor`: a switch on the lower-cased status, giving one of
      four colours, the muted one exactly for an unknown status. */
  function StatusColor(status: string): (r: string)
    ensures r in {Green, Blue, Yellow, Muted}
    ensures r == Muted <==> ToLower(status) !in {"active", "training", "paused"}
  {
    var s := ToLower(status);
    if s == "active" then Green
    else if s == "training" then Blue
    else if s == "paused" then Yellow
    else Muted
  }

  /** Each known status, in any letter case, has its colour; every other
      status is muted. */
  lemma StatusColorCases(status: string)
    ensures StatusColor(status) == Green <==> ToLower(status) == "active"
    ensures StatusColor(status) == Blue <==> ToLower(status) == "training"
    ensures StatusColor(status) == Yellow <==> ToLower(status) == "paused"
    ensures StatusColor(status) == Muted <==> ToLower(status) !in {"active", "training", "paused"}
  {
  }

  /** The colour depends on the status only up to letter case. */
  lemma StatusColorIgnoresCase(a: string, b: string)
    requires ToLower(a) == ToLower(b)
    ensures StatusColor(a) == StatusColor(b)
  {
  }

  /** Lower-casing a status first does not change its colour. */
  lemma StatusColorOfLowered(status: string)
    ensures StatusColor(ToLower(status)) == StatusColor(status)
  {
    ToLowerIdempotent(status);
  }

  /** "Active", "ACTIVE" and "active" are all green. */
  lemma ActiveInAnyCase()
    ensures StatusColor("Active") == Green && StatusColor("ACTIVE") == Green && StatusColor("active") == Green
  {
    assert ToLower("Active") == "active";
    assert ToLower("ACTIVE") == "active";
    assert ToLower("active") == "active";
  }

  /** `xs` is `ys` with some elements left out, the rest in their order. */
  predicate IsSubsequence<T(==)>(xs: seq<T>, ys: seq<T>)
    decreases |ys|
  {
    if xs == [] then true
    else if ys == [] then false
    else (xs[0] == ys[0] && IsSubsequence(xs[1..], ys[1..])) || IsSubsequence(xs, ys[1..])
  }

  /** `prev.filter(project => project.id !== id)`. The result keeps exactly
      the projects with another id, each as often as before and in the same
      relative order. */
  function WithoutId(projects: seq<Project>, id: int): (r: seq<Project>)
    ensures forall p :: p in r <==> p in projects && p.id != id
    ensures forall p :: multiset(r)[p] == if p.id == id then 0 else multiset(projects)[p]
    ensures IsSubsequence(r, projects)
  {
    if projects == [] then []
    else
      var rest := WithoutId(projects[1..], id);
      assert projects == [projects[0]] + projects[1..];
      if projects[0].id == id then rest else [projects[0]] + rest
  }

  /** Deleting an id no project has leaves the list as it is. */
  lemma {:induction false} DeleteAbsent(projects: seq<Project>, id: int)
    requires forall p :: p in projects ==> p.id != id
    ensures WithoutId(projects, id) == projects
  {
    if projects != [] {
      var p, rest := projects[0], projects[1..];
      assert projects == [p] + rest;
      assert p in projects;
      forall q | q in rest ensures q.id != id {
        assert q in projects;
      }
      DeleteAbsent(rest, id);
      WithoutIdCons(p, rest, id);
    }
  }

  /** Deleting the same id twice is deleting it once. */
  lemma DeleteIdempotent(projects: seq<Project>, id: int)
    ensures WithoutId(WithoutId(projects, id), id) == WithoutId(projects, id)
  {
    DeleteAbsent(WithoutId(projects, id), id);
  }

  lemma WithoutIdCons(p: Project, rest: seq<Project>, id: int)
    ensures WithoutId([p] + rest, id) == (if p.id == id then [] else [p]) + WithoutId(rest, id)
  {
    assert ([p] + rest)[0] == p && ([p] + rest)[1..] == rest;
  }

  /** Deleting two ids gives the same list in either order. */
  lemma {:induction false} DeleteCommutes(projects: seq<Project>, a: int, b: int)
    ensures WithoutId(WithoutId(projects, a), b) == WithoutId(WithoutId(projects, b), a)
  {
    if projects != [] {
      var p, rest := projects[0], projects[1..];
      DeleteCommutes(rest, a, b);
      WithoutIdCons(p, rest, a);
      WithoutIdCons(p, rest, b);
      assert projects == [p] + rest;
      if p.id != a {
        WithoutIdCons(p, WithoutId(rest, a), b);
      }
      if p.id != b {
        WithoutIdCons(p, WithoutId(rest, b), a);
      }
    }
  }

  /** The page's state: the list of projects shown. */
  class ProjectsPage {
    var projects: seq<Project>

    constructor ()
      ensures projects == DummyProjects
    {
      projects := DummyProjects;
    }

    /** `handleDeleteProject(id)`: replaces the list by its filtered copy. */
    method DeleteProject(id: int)
      modifies this
      ensures projects == WithoutId(old(projects), id)
      ensures forall p :: p in projects ==> p.id != id
    {
      projects := WithoutId(projects, id);
    }
  }
}
