/** The "Create Project" dialog: its schema, its default values, and what a
    successful submission does (close the dialog, reset the form, open the
    new project's images page). */
module CreateProjectDialog {
  import opened Wrappers
  import opened Text
  import opened FormSchema
  import Breadcrumbs
  import DashboardLayout

  /** The form's fields (`projectType` is the field `type`); `None` is a
      field never filled in. */
  datatype ProjectFormValues = ProjectFormValues(
    name: Option<string>, description: Option<string>, projectType: Option<string>)

  const NameMessage: string := "Project name must be at least 3 characters"
  const DescriptionMessage: string := "Description must be at least 10 characters"
  const ProjectTypes: seq<string> := ["object-detection", "classification", "segmentation"]
  const SuccessMessage: string := "Project created successfully"

  /** Only the type has a default. */
  const DefaultValues: ProjectFormValues := ProjectFormValues(None, None, Some("object-detection"))

  /** `projectFormSchema`: the issues of each field, in the schema's field
      order; at most one per field, and only about the schema's fields. */
  function ProjectIssues(values: ProjectFormValues): (r: seq<Issue>)
    ensures |r| <= 3
    ensures forall k :: 0 <= k < |r| ==> r[k].path in {"name", "description", "type"}
    ensures forall k, m :: 0 <= k < m < |r| ==> r[k].path != r[m].path
  {
    MinLength("name", values.name, 3, NameMessage)
    + MinLength("description", values.description, 10, DescriptionMessage)
    + OneOf("type", values.projectType, ProjectTypes)
  }

  /** The schema accepts exactly a name of at least 3 characters, a
      description of at least 10 and one of the three project types. */
  lemma AcceptsIff(values: ProjectFormValues)
    ensures ProjectIssues(values) == [] <==>
      && values.name.Some? && |values.name.value| >= 3
      && values.description.Some? && |values.description.value| >= 10
      && values.projectType.Some? && values.projectType.value in ProjectTypes
  {
  }

  /** A name shorter than 3 characters is reported with its message. */
  lemma ShortNameRejected(values: ProjectFormValues)
    requires values.name.Some? && |values.name.value| < 3
    ensures TooSmall("name", 3, NameMessage) in ProjectIssues(values)
  {
  }

  /** A description shorter than 10 characters is reported with its message. */
  lemma ShortDescriptionRejected(values: ProjectFormValues)
    requires values.description.Some? && |values.description.value| < 10
    ensures TooSmall("description", 10, DescriptionMessage) in ProjectIssues(values)
  {
    assert ProjectIssues(values)[|MinLength("name", values.name, 3, NameMessage)|]
      == TooSmall("description", 10, DescriptionMessage);
  }

  /** A type outside the three project types is rejected. */
  lemma UnknownTypeRejected(values: ProjectFormValues)
    requires values.projectType.Some? && values.projectType.value !in ProjectTypes
    ensures InvalidEnumValue("type", ProjectTypes) in ProjectIssues(values)
  {
    var issues := ProjectIssues(values);
    assert issues[|issues| - 1] == InvalidEnumValue("type", ProjectTypes);
  }

  /** The default type is one of the project types; an untouched form still
      lacks its name and description. */
  lemma DefaultValuesChecked()
    ensures DefaultValues.projectType.value in ProjectTypes
    ensures ProjectIssues(DefaultValues) == [Required("name"), Required("description")]
  {
  }

  /** `Math.floor(draw * 1000) + 1` for a draw of `Math.random()`. */
  function ProjectId(draw: real): (id: int)
    requires 0.0 <= draw < 1.0
    ensures 1 <= id <= 1000
  {
    (draw * 1000.0).Floor + 1
  }

  /** Every id from 1 to 1000 is drawn by some value in [0, 1). */
  lemma ProjectIdCoversRange(id: int)
    requires 1 <= id <= 1000
    ensures var draw := (id - 1) as real / 1000.0; 0.0 <= draw < 1.0 && ProjectId(draw) == id
  {
    var draw := (id - 1) as real / 1000.0;
    assert draw * 1000.0 == (id - 1) as real;
  }

  /** The images page of project `id`: the Images stage page the
      breadcrumbs link to, for the id written in decimal. */
  function ImagesRoute(id: nat): (r: string)
    ensures r == Breadcrumbs.StageHref(NatToString(id), Breadcrumbs.Images)
  {
    assert Breadcrumbs.ProjectsHref + "/" == "/dashboard/projects/";
    "/dashboard/projects/" + NatToString(id) + "/images"
  }

  /** The images pages of distinct projects differ. */
  lemma ImagesRouteInjective(a: nat, b: nat)
    requires ImagesRoute(a) == ImagesRoute(b)
    ensures a == b
  {
    var ta, tb := NatToString(a), NatToString(b);
    var prefix := "/dashboard/projects/";
    assert |ta| == |tb|;
    assert ta == ImagesRoute(a)[|prefix|..|prefix| + |ta|];
    assert tb == ImagesRoute(b)[|prefix|..|prefix| + |tb|];
    NatToStringInjective(a, b);
  }

  /** On the new project's images page the breadcrumbs read
      Projects > Images, with Images current and linking to that page. */
  lemma CreatedProjectTrail(id: nat)
    ensures Breadcrumbs.Trail(ImagesRoute(id), NatToString(id)) == [
      Breadcrumbs.Crumb("Projects", "/dashboard/projects", false),
      Breadcrumbs.Crumb("Images", ImagesRoute(id), true)]
  {
    var route := ImagesRoute(id);
    var at := |"/dashboard/projects/" + NatToString(id)|;
    assert route[at..at + |"/images"|] == "/images";
    IncludesAt(route, "/images", at);
    Breadcrumbs.ImagesTakesPriority(route, NatToString(id));
    assert Breadcrumbs.ProjectsHref + "/" + NatToString(id) + "/images" == route;
  }

  /** The header over the new project's images page is the fallback title. */
  lemma CreatedProjectTitle(id: nat)
    ensures DashboardLayout.Title(ImagesRoute(id)) == "Dashboard"
  {
    DashboardLayout.LongPathnameFallsBack(ImagesRoute(id));
  }

  /** The dialog's state: whether it is open, the form's values, and the
      routes pushed onto the router so far. */
  class Dialog {
    var open: bool
    var values: ProjectFormValues
    var pushed: seq<string>

    constructor ()
      ensures !open && values == DefaultValues && pushed == []
    {
      open, values, pushed := false, DefaultValues, [];
    }

    /** `setOpen`: the trigger button opens the dialog, Cancel and the
        dialog's own close control close it. */
    method SetOpen(isOpen: bool)
      modifies this
      ensures open == isOpen && values == old(values) && pushed == old(pushed)
    {
      open := isOpen;
    }

    /** The user edits the form. */
    method Edit(newValues: ProjectFormValues)
      modifies this
      ensures values == newValues && open == old(open) && pushed == old(pushed)
    {
      values := newValues;
    }

    /** Submitting: the schema checks the values; on any issue nothing else
        happens. Otherwise, once the simulated creation resolves, the dialog
        closes, the form returns to its defaults, and the router goes to the
        images page of a project id drawn from `draw`. */
    method Submit(draw: real) returns (issues: seq<Issue>, toast: Option<string>)
      requires 0.0 <= draw < 1.0
      modifies this
      ensures issues == ProjectIssues(old(values))
      ensures issues != [] ==>
        open == old(open) && values == old(values) && pushed == old(pushed) && toast == None
      ensures issues == [] ==>
        && !open && values == DefaultValues && toast == Some(SuccessMessage)
        && pushed == old(pushed) + [ImagesRoute(ProjectId(draw))]
    {
      issues := ProjectIssues(values);
      toast := None;
      if issues == [] {
        open := false;
        values := DefaultValues;
        var projectId := (draw * 1000.0).Floor + 1;
        pushed := pushed + ["/dashboard/projects/" + NatToString(projectId) + "/images"];
        toast := Some(SuccessMessage);
      }
    }
  }
}
