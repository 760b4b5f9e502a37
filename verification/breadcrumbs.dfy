/** The breadcrumb trail shown above a project's pages: derived from the
    current pathname and the route's `id` parameter. */
module Breadcrumbs {
  import opened Wrappers
  import opened Text

  /** One entry of the trail (the source calls `title` its `label`). */
  datatype Crumb = Crumb(title: string, href: string, current: bool)

  const ProjectsHref: string := "/dashboard/projects"

  /** The project workflow stages a trail can end in. */
  datatype Stage = Images | Annotate | Train | Test

  function Slug(s: Stage): string
  {
    match s
    case Images => "images"
    case Annotate => "annotate"
    case Train => "train"
    case Test => "test"
  }

  function Label(s: Stage): string
  {
    match s
    case Images => "Images"
    case Annotate => "Annotate"
    case Train => "Train"
    case Test => "Test"
  }

  /** The order in which the pathname is tested for a stage segment. */
  const Priority: seq<Stage> := [Images, Annotate, Train, Test]

  /** The first stage of `stages` whose `/slug` occurs in the pathname. */
  function FirstIncluded(pathname: string, stages: seq<Stage>): Option<Stage>
  {
    if stages == [] then None
    else if Includes(pathname, "/" + Slug(stages[0])) then Some(stages[0])
    else FirstIncluded(pathname, stages[1..])
  }

  /** The stage a pathname belongs to, if any. */
  function StageOf(pathname: string): Option<Stage>
  {
    FirstIncluded(pathname, Priority)
  }

  /** The stages a trail ending in `s` walks through, in order. */
  function Path(s: Stage): seq<Stage>
  {
    match s
    case Images => [Images]
    case Annotate => [Images, Annotate]
    case Train => [Images, Train]
    case Test => [Images, Train, Test]
  }

  /** The page of project `id` for stage `s`. */
  function StageHref(id: string, s: Stage): string
  {
    ProjectsHref + "/" + id + "/" + Slug(s)
  }

  /** One crumb per stage of `path`; only the last one is current. */
  function StageCrumbs(id: string, path: seq<Stage>): seq<Crumb>
  {
    seq(|path|, i requires 0 <= i < |path| => Crumb(Label(path[i]), StageHref(id, path[i]), i == |path| - 1))
  }

  /** The reference trail: the Projects crumb, then the stages leading to the
      pathname's stage. */
  function Trail(pathname: string, id: string): (r: seq<Crumb>)
    ensures |r| >= 1
    ensures r[0] == Crumb("Projects", ProjectsHref, pathname == ProjectsHref)
    ensures StageOf(pathname).None? ==> |r| == 1
    ensures forall i :: 1 <= i < |r| ==> !r[i].current || i == |r| - 1
  {
    var root := Crumb("Projects", ProjectsHref, pathname == ProjectsHref);
    match StageOf(pathname)
    case None => [root]
    case Some(s) => [root] + StageCrumbs(id, Path(s))
  }

  /** Builds the trail as the page does: start from the Projects crumb and
      push the crumbs of the first branch whose segment the pathname
      contains. */
  method BuildTrail(pathname: string, id: string) returns (breadcrumbs: seq<Crumb>)
    ensures breadcrumbs == Trail(pathname, id)
  {
    var images, annotate := "/dashboard/projects/" + id + "/images", "/dashboard/projects/" + id + "/annotate";
    var train, test := "/dashboard/projects/" + id + "/train", "/dashboard/projects/" + id + "/test";
    StageHrefSpelled(id);
    StageOfChain(pathname);
    breadcrumbs := [Crumb("Projects", "/dashboard/projects", pathname == "/dashboard/projects")];
    if Includes(pathname, "/images") {
      breadcrumbs := breadcrumbs + [Crumb("Images", images, true)];
      assert StageOf(pathname) == Some(Images);
    } else if Includes(pathname, "/annotate") {
      breadcrumbs := breadcrumbs + [Crumb("Images", images, false), Crumb("Annotate", annotate, true)];
      assert StageOf(pathname) == Some(Annotate);
    } else if Includes(pathname, "/train") {
      breadcrumbs := breadcrumbs + [Crumb("Images", images, false), Crumb("Train", train, true)];
      assert StageOf(pathname) == Some(Train);
    } else if Includes(pathname, "/test") {
      breadcrumbs := breadcrumbs + [Crumb("Images", images, false), Crumb("Train", train, false), Crumb("Test", test, true)];
      assert StageOf(pathname) == Some(Test);
    } else {
      assert StageOf(pathname) == None;
    }
  }

  /** The segments are tried in the order images, annotate, train, test: the
      first one the pathname contains decides the stage. */
  lemma StageOfChain(pathname: string)
    ensures StageOf(pathname) ==
      if Includes(pathname, "/images") then Some(Images)
      else if Includes(pathname, "/annotate") then Some(Annotate)
      else if Includes(pathname, "/train") then Some(Train)
      else if Includes(pathname, "/test") then Some(Test)
      else None
  {
    assert "/" + Slug(Images) == "/images" && "/" + Slug(Annotate) == "/annotate";
    assert "/" + Slug(Train) == "/train" && "/" + Slug(Test) == "/test";
    assert FirstIncluded(pathname, [Test]) == if Includes(pathname, "/test") then Some(Test) else None by {
      assert [Test][1..] == [];
    }
    assert FirstIncluded(pathname, [Train, Test]) ==
      if Includes(pathname, "/train") then Some(Train) else FirstIncluded(pathname, [Test]) by {
      assert [Train, Test][1..] == [Test];
    }
    assert FirstIncluded(pathname, [Annotate, Train, Test]) ==
      if Includes(pathname, "/annotate") then Some(Annotate) else FirstIncluded(pathname, [Train, Test]) by {
      assert [Annotate, Train, Test][1..] == [Train, Test];
    }
    assert Priority[1..] == [Annotate, Train, Test];
  }

  /** The hrefs of the stage pages, spelled out as the page writes them. */
  lemma StageHrefSpelled(id: string)
    ensures StageHref(id, Images) == "/dashboard/projects/" + id + "/images"
    ensures StageHref(id, Annotate) == "/dashboard/projects/" + id + "/annotate"
    ensures StageHref(id, Train) == "/dashboard/projects/" + id + "/train"
    ensures StageHref(id, Test) == "/dashboard/projects/" + id + "/test"
  {
    forall s: Stage ensures StageHref(id, s) == "/dashboard/projects/" + id + "/" + Slug(s) {
      assert ProjectsHref + "/" == "/dashboard/projects/";
    }
  }

  /** In the projects list's path every `/` is followed by a letter that
      starts no stage segment. */
  lemma ProjectsHrefSlashes()
    ensures forall i :: 0 <= i < |ProjectsHref| - 1 && ProjectsHref[i] == '/' ==>
      ProjectsHref[i + 1] !in {'i', 'a', 't'}
  {
    forall i | 0 <= i < |ProjectsHref| - 1 && ProjectsHref[i] == '/'
      ensures ProjectsHref[i + 1] !in {'i', 'a', 't'}
    {
      assert i == 0 || i == 10;
    }
  }

  /** `/dashboard/projects` contains no stage segment. */
  lemma ProjectsHrefLacks(s: Stage)
    ensures !Includes(ProjectsHref, "/" + Slug(s))
  {
    var needle := "/" + Slug(s);
    assert needle[0] == '/' && needle[1] == Slug(s)[0];
    ProjectsHrefSlashes();
    NotIncludedByFollower(ProjectsHref, needle, '/', {'i', 'a', 't'});
  }

  /** The projects list itself belongs to no stage. */
  lemma ProjectsHrefHasNoStage()
    ensures StageOf(ProjectsHref) == None
  {
    ProjectsHrefLacks(Images);
    ProjectsHrefLacks(Annotate);
    ProjectsHrefLacks(Train);
    ProjectsHrefLacks(Test);
    StageOfChain(ProjectsHref);
  }

  /** A pathname that reaches a stage is not the projects list. */
  lemma StagedIsNotProjects(pathname: string)
    requires StageOf(pathname).Some?
    ensures pathname != ProjectsHref
  {
    ProjectsHrefHasNoStage();
  }

  /** Trail lengths: 1 outside any stage, 2 for images, 3 for annotate and
      train, 4 for test. */
  lemma TrailLength(pathname: string, id: string)
    ensures |Trail(pathname, id)| ==
      match StageOf(pathname)
      case None => 1
      case Some(Images) => 2
      case Some(Annotate) => 3
      case Some(Train) => 3
      case Some(Test) => 4
  {
  }

  /** A pathname containing `/images` gets the Images trail, whatever later
      segment it also contains. */
  lemma ImagesTakesPriority(pathname: string, id: string)
    requires Includes(pathname, "/images")
    ensures Trail(pathname, id) ==
      [Crumb("Projects", ProjectsHref, false), Crumb("Images", ProjectsHref + "/" + id + "/images", true)]
  {
    StageOfChain(pathname);
    assert StageOf(pathname) == Some(Images);
    StagedIsNotProjects(pathname);
    assert StageHref(id, Images) == ProjectsHref + "/" + id + "/images";
    assert StageCrumbs(id, Path(Images)) == [Crumb("Images", StageHref(id, Images), true)];
  }

  /** In a trail that reaches a stage, the last crumb is the only current one. */
  lemma OnlyLastIsCurrent(pathname: string, id: string)
    requires StageOf(pathname).Some?
    ensures forall i :: 0 <= i < |Trail(pathname, id)| ==>
      (Trail(pathname, id)[i].current <==> i == |Trail(pathname, id)| - 1)
  {
    StagedIsNotProjects(pathname);
  }

  /** At most one crumb of any trail is current. */
  lemma AtMostOneCurrent(pathname: string, id: string, i: nat, j: nat)
    requires i < |Trail(pathname, id)| && j < |Trail(pathname, id)|
    requires Trail(pathname, id)[i].current && Trail(pathname, id)[j].current
    ensures i == j
  {
    if StageOf(pathname).Some? {
      OnlyLastIsCurrent(pathname, id);
    }
  }

  /** Every crumb after the first is titled by a stage and links to that
      stage's page of the same project. */
  lemma StageCrumbHrefs(pathname: string, id: string, i: nat)
    requires 1 <= i < |Trail(pathname, id)|
    ensures exists s: Stage ::
      && Trail(pathname, id)[i].title == Label(s)
      && Trail(pathname, id)[i].href == ProjectsHref + "/" + id + "/" + Slug(s)
  {
    var s := Path(StageOf(pathname).value)[i - 1];
    assert Trail(pathname, id)[i].href == StageHref(id, s);
  }

  /** The test trail walks Projects, Images, Train, Test. */
  lemma TestTrailOrder(pathname: string, id: string)
    requires StageOf(pathname) == Some(Test)
    ensures |Trail(pathname, id)| == 4
    ensures Trail(pathname, id)[0].title == "Projects" && Trail(pathname, id)[1].title == "Images"
    ensures Trail(pathname, id)[2].title == "Train" && Trail(pathname, id)[3].title == "Test"
  {
  }

  /** Distinct stages have distinct pages. */
  lemma StageHrefInjective(id: string, s: Stage, u: Stage)
    requires StageHref(id, s) == StageHref(id, u)
    ensures s == u
  {
    var prefix := ProjectsHref + "/" + id + "/";
    assert StageHref(id, s) == prefix + Slug(s) && StageHref(id, u) == prefix + Slug(u);
    assert Slug(s) == StageHref(id, s)[|prefix|..];
    assert Slug(u) == StageHref(id, u)[|prefix|..];
  }

  /** The hrefs of one trail are pairwise distinct, so they can key the
      rendered list. */
  lemma HrefsDistinct(pathname: string, id: string, i: nat, j: nat)
    requires i < j < |Trail(pathname, id)|
    ensures Trail(pathname, id)[i].href != Trail(pathname, id)[j].href
  {
    var t := Trail(pathname, id);
    var path := Path(StageOf(pathname).value);
    assert t[j].href == StageHref(id, path[j - 1]);
    if i == 0 {
      assert |t[j].href| > |ProjectsHref|;
    } else {
      assert t[i].href == StageHref(id, path[i - 1]);
      if t[i].href == t[j].href {
        StageHrefInjective(id, path[i - 1], path[j - 1]);
      }
    }
  }

  /** A crumb as rendered: a chevron before it or not, and emphasised or muted. */
  datatype RenderedCrumb = RenderedCrumb(separator: bool, crumb: Crumb, emphasised: bool)

  /** The rendering of a trail, one item per crumb in order: a chevron
      before every crumb but the first, and the current crumb emphasised. */
  function Render(trail: seq<Crumb>): (r: seq<RenderedCrumb>)
    ensures |r| == |trail|
    ensures forall i :: 0 <= i < |r| ==> r[i].crumb == trail[i]
    ensures forall i :: 0 <= i < |r| ==> (r[i].separator <==> i > 0)
    ensures forall i :: 0 <= i < |r| ==> r[i].emphasised == trail[i].current
  {
    seq(|trail|, i requires 0 <= i < |trail| => RenderedCrumb(i > 0, trail[i], trail[i].current))
  }

  function CountSeparators(items: seq<RenderedCrumb>): nat
  {
    if items == [] then 0
    else (if items[|items| - 1].separator then 1 else 0) + CountSeparators(items[..|items| - 1])
  }

  /** A chevron separates consecutive crumbs: a non-empty trail of n crumbs
      renders n - 1 of them. */
  lemma {:induction false} SeparatorCount(trail: seq<Crumb>)
    requires trail != []
    ensures CountSeparators(Render(trail)) == |trail| - 1
    decreases |trail|
  {
    var r := Render(trail);
    if |trail| > 1 {
      var front := trail[..|trail| - 1];
      SeparatorCount(front);
      assert r[..|r| - 1] == Render(front);
    }
  }
}
