# Vision Studio dashboard rules, modelled in Dafny

Vision Studio is a client-side dashboard for computer-vision projects. Most
of its pages are presentation only. This project models the small rules
those pages apply, with pathnames, route parameters and random draws as
inputs:

- **Breadcrumbs** (`breadcrumbs.dfy`). The trail over a project's pages
  starts with a Projects crumb. It then gets the crumbs of the first stage
  segment (`/images`, `/annotate`, `/train`, `/test`) that the pathname
  contains. `BuildTrail` pushes crumbs onto a local list, as the component
  does. It is proved equal to `Trail`, a reference definition built from a
  priority list of stages and the stage path each one walks. The lemmas
  about `Trail` give its lengths, which crumb is current, its hrefs and the
  separators between crumbs.
- **Confusion matrix** (`confusion_matrix.dfy`). This covers the row totals
  (a left fold, as `reduce` does it), the largest count (`Math.max` over the
  flattened matrix) and what each cell shows: its percentage of the row, its
  fill opacity and whether it is on the diagonal. Counts are exact reals.
  `Number` keeps the NaN and ±Infinity that a zero divisor or an empty
  matrix produce.
- **Projects list** (`projects_page.dfy`). The status colour is a switch on
  the lower-cased status. Deleting a project filters the page's list by id.
  The list is the state of class `ProjectsPage`.
- **Forms** (`form_schema.dfy`, `create_project_dialog.dfy`,
  `profile_form.dfy`). These are the zod field checks as functions that
  return the issues found. A field never filled in is `None`, which zod
  rejects as "Required". The dialog is a class holding `open`, the form
  values and the routes pushed. `Submit` either reports issues and changes
  nothing, or closes the dialog, resets the form and navigates to
  `/dashboard/projects/{id}/images`, where `id = floor(draw * 1000) + 1`.
- **Sidebar and header** (`dashboard_layout.dfy`). This covers the fixed
  navigation table, the highlighted button and the header title
  (`find(...)?.name || "Dashboard"`).
- `text.dfy` models `includes`, ASCII `toLowerCase` and the decimal text of
  a number. `wrappers.dfy` holds `Option`.

## Model

| member | source | states |
|---|---|---|
| Text.Includes | components/breadcrumbs.tsx:26 | the empty needle is always found, and a needle longer than the pathname never is |
| Text.IncludesIff | components/breadcrumbs.tsx:26 | `includes` is true exactly when the needle occurs at some index of the pathname |
| Text.IncludesSound | components/breadcrumbs.tsx:26 | when `includes` is true, the needle occurs at the index returned |
| Text.IncludesComplete | components/breadcrumbs.tsx:26 | a needle occurring at any index is found by `includes` |
| Text.ToLower | app/dashboard/projects/page.tsx:62 | lower-casing keeps the length, turns every upper-case letter into its lower-case letter, and keeps every other character |
| Text.ToLowerIdempotent | app/dashboard/projects/page.tsx:62 | lower-casing an already lower-cased status changes nothing |
| Text.NatToString | app/dashboard/projects/components/create-project-dialog.tsx:71 | the id in the route is written as decimal digits with no leading zero |
| Text.NatToStringRoundTrip | app/dashboard/projects/components/create-project-dialog.tsx:71 | reading the decimal text back gives the id |
| Text.NatToStringInjective | app/dashboard/projects/components/create-project-dialog.tsx:71 | different ids are written differently |
| Breadcrumbs.BuildTrail | components/breadcrumbs.tsx:16-76 | the pushed trail equals the reference trail: the Projects crumb, then the crumbs of the first matching stage's path |
| Breadcrumbs.StageOfChain | components/breadcrumbs.tsx:26-58 | segments are tried in the order images, annotate, train, test, and the first one contained decides |
| Breadcrumbs.ProjectsHrefLacks | components/breadcrumbs.tsx:20-58 | `/dashboard/projects` contains none of `/images`, `/annotate`, `/train`, `/test` |
| Breadcrumbs.ProjectsHrefHasNoStage | components/breadcrumbs.tsx:19-58 | `/dashboard/projects` contains no stage segment |
| Breadcrumbs.StagedIsNotProjects | components/breadcrumbs.tsx:20 | a pathname with a stage is never the projects list, so its Projects crumb is not current |
| Breadcrumbs.Trail | components/breadcrumbs.tsx:16-76 | the reference trail opens with Projects → `/dashboard/projects`, current exactly when the pathname equals it; it has no other crumb when no stage matches, and no crumb but the last after the first is current |
| Breadcrumbs.TrailLength | components/breadcrumbs.tsx:26-76 | the trail has 2 crumbs for images, 3 for annotate and for train, 4 for test, and 1 otherwise |
| Breadcrumbs.ImagesTakesPriority | components/breadcrumbs.tsx:26-31 | any pathname containing `/images` gets exactly Projects (not current) and Images (current), whatever else it contains |
| Breadcrumbs.OnlyLastIsCurrent | components/breadcrumbs.tsx:29-75 | when a stage matches, a crumb is current exactly when it is the last one |
| Breadcrumbs.AtMostOneCurrent | components/breadcrumbs.tsx:16-75 | no trail has two current crumbs |
| Breadcrumbs.StageCrumbHrefs | components/breadcrumbs.tsx:29-73 | every crumb after the first is titled by a stage and links to `/dashboard/projects/{id}/{segment}` of that same stage and id |
| Breadcrumbs.StageHrefInjective | components/breadcrumbs.tsx:29-73 | different stages of one project link to different pages |
| Breadcrumbs.TestTrailOrder | components/breadcrumbs.tsx:58-75 | the test trail reads Projects, Images, Train, Test |
| Breadcrumbs.HrefsDistinct | components/breadcrumbs.tsx:82 | the hrefs of one trail are pairwise distinct, so they are valid list keys |
| Breadcrumbs.Render | components/breadcrumbs.tsx:81-95 | one rendered item per crumb, in trail order, with a chevron before every crumb but the first and the current crumb emphasised |
| Breadcrumbs.SeparatorCount | components/breadcrumbs.tsx:83-85 | a trail of n crumbs renders n − 1 chevrons |
| ConfusionMatrix.Reduce | components/confusion-matrix.tsx:15 | the left fold `reduce((a, b) => a + b, acc)` is `acc` plus the row's sum |
| ConfusionMatrix.RowSums | components/confusion-matrix.tsx:15 | one total per row, and total `i` is the sum of row `i` |
| ConfusionMatrix.MaxOf | components/confusion-matrix.tsx:18 | `Math.max` over a list is `-Infinity` exactly for the empty list; otherwise it is an element that bounds every element |
| ConfusionMatrix.Flat | components/confusion-matrix.tsx:18 | `flat()` is empty exactly when every row is |
| ConfusionMatrix.FlatMembers | components/confusion-matrix.tsx:18 | `flat()` holds exactly the matrix's cells |
| ConfusionMatrix.MaxValue | components/confusion-matrix.tsx:18 | `maxValue` is either finite or `-Infinity`, never NaN or `+Infinity` |
| ConfusionMatrix.MaxValueBoundsCells | components/confusion-matrix.tsx:18 | in a matrix with a cell, `maxValue` is finite and at least every cell |
| ConfusionMatrix.MaxValueIsACell | components/confusion-matrix.tsx:18 | a finite `maxValue` is some cell's count; it is `-Infinity` exactly when no row has a cell |
| ConfusionMatrix.Divide | components/confusion-matrix.tsx:72-73 | dividing by a non-zero number is the exact quotient; dividing by zero is never finite |
| ConfusionMatrix.Percentage | components/confusion-matrix.tsx:72 | over a non-zero row total the percentage is `value / total * 100`; over a zero total it is never finite, and NaN exactly for a zero count |
| ConfusionMatrix.Intensity | components/confusion-matrix.tsx:73 | against a non-zero maximum the intensity is `value / maxValue`; against a zero maximum it is never finite, and NaN exactly for a zero count |
| ConfusionMatrix.Opacity | components/confusion-matrix.tsx:87 | `Math.max(0.1, intensity * 0.9)` is at least 0.1 for a finite intensity, within [0.1, 0.9] for one in [0, 1], and NaN for NaN |
| ConfusionMatrix.SumOfPercentages | components/confusion-matrix.tsx:72 | the percentages of a row's counts add up to the row sum's percentage |
| ConfusionMatrix.ShownShares | components/confusion-matrix.tsx:72 | over a non-zero row total, every hover percentage is finite and is the count's exact share `value / total * 100` |
| ConfusionMatrix.RenderRow | components/confusion-matrix.tsx:64-89 | row `i` is labelled `labels[i]` (undefined past the labels), has one cell per count, and a cell takes the correct-prediction colour exactly when `i == j` |
| ConfusionMatrix.Render | components/confusion-matrix.tsx:42-68 | the column headers are `labels` in order, and row `i` is rendered from row `i`'s counts, its sum and the overall maximum |
| ConfusionMatrix.RowPercentagesSumTo100 | components/confusion-matrix.tsx:71-72 | over a non-zero total, every hover percentage of a row is finite and they add up to 100 |
| ConfusionMatrix.MatrixRowPercentagesSumTo100 | components/confusion-matrix.tsx:15-72 | in the rendered matrix, a row with a non-zero `rowSums` entry shows percentages adding up to 100 |
| ConfusionMatrix.OpacityBounds | components/confusion-matrix.tsx:73-87 | with non-negative counts and a positive maximum, intensity lies in [0, 1] and opacity in [0.1, 0.9] |
| ConfusionMatrix.ZeroMaximumOpacityIsNaN | components/confusion-matrix.tsx:18-87 | in a matrix whose counts are all zero, `maxValue` is 0 and every cell's percentage and opacity are NaN, so the 0.1 floor does not apply |
| ProjectsPage.StatusColor | app/dashboard/projects/page.tsx:61-71 | the colour is one of green, blue, yellow and muted, and muted exactly when the lower-cased status is none of active, training, paused |
| ProjectsPage.StatusColorCases | app/dashboard/projects/page.tsx:61-71 | active → green, training → blue, paused → yellow in any letter case; every other status is muted |
| ProjectsPage.StatusColorIgnoresCase | app/dashboard/projects/page.tsx:62 | statuses equal up to letter case get the same colour |
| ProjectsPage.StatusColorOfLowered | app/dashboard/projects/page.tsx:62 | lower-casing a status first does not change its colour |
| ProjectsPage.ActiveInAnyCase | app/dashboard/projects/page.tsx:62-64 | "Active", "ACTIVE" and "active" are all green |
| ProjectsPage.WithoutId | app/dashboard/projects/page.tsx:75 | the filtered list keeps exactly the projects with another id, each as often as before, in their original relative order |
| ProjectsPage.DeleteAbsent | app/dashboard/projects/page.tsx:75 | deleting an id no project has leaves the list unchanged |
| ProjectsPage.DeleteIdempotent | app/dashboard/projects/page.tsx:75 | deleting the same id twice equals deleting it once |
| ProjectsPage.DeleteCommutes | app/dashboard/projects/page.tsx:75 | deleting two ids gives the same list in either order |
| ProjectsPage.ProjectsPage.constructor | app/dashboard/projects/page.tsx:24-59 | the page starts from the three dummy projects |
| ProjectsPage.ProjectsPage.DeleteProject | app/dashboard/projects/page.tsx:74-76 | the new list is the old one filtered by id, and no project with that id remains |
| FormSchema.MinLength | app/dashboard/projects/components/create-project-dialog.tsx:40-41 | a string field passes exactly when present and at least the minimum long; otherwise one "Required" or one too-small issue with the field's message |
| FormSchema.MaxLength | app/dashboard/profile/page.tsx:27 | a string field passes exactly when present and at most the maximum long; otherwise one "Required" or one too-big issue with the field's message |
| FormSchema.OneOf | app/dashboard/projects/components/create-project-dialog.tsx:42 | an enum field passes exactly when present and one of the options; otherwise one "Required" or one invalid-enum issue |
| FormSchema.Email | app/dashboard/profile/page.tsx:26 | an e-mail field passes exactly when present and accepted by the address check; otherwise one "Required" or one issue with the field's message |
| CreateProjectDialog.ProjectIssues | app/dashboard/projects/components/create-project-dialog.tsx:39-43 | the schema reports at most one issue per field, each about `name`, `description` or `type` |
| CreateProjectDialog.AcceptsIff | app/dashboard/projects/components/create-project-dialog.tsx:39-43 | the project schema accepts exactly a name of ≥ 3 characters, a description of ≥ 10 and one of the three types |
| CreateProjectDialog.ShortNameRejected | app/dashboard/projects/components/create-project-dialog.tsx:40 | a name under 3 characters is reported with "Project name must be at least 3 characters" |
| CreateProjectDialog.ShortDescriptionRejected | app/dashboard/projects/components/create-project-dialog.tsx:41 | a description under 10 characters is reported with "Description must be at least 10 characters" |
| CreateProjectDialog.UnknownTypeRejected | app/dashboard/projects/components/create-project-dialog.tsx:42 | a type other than object-detection, classification or segmentation is rejected |
| CreateProjectDialog.DefaultValuesChecked | app/dashboard/projects/components/create-project-dialog.tsx:47-49 | the default type "object-detection" satisfies the enum; an untouched form lacks only its name and description |
| CreateProjectDialog.ProjectId | app/dashboard/projects/components/create-project-dialog.tsx:70 | for a draw in [0, 1) the generated id lies in [1, 1000] |
| CreateProjectDialog.ProjectIdCoversRange | app/dashboard/projects/components/create-project-dialog.tsx:70 | every id in [1, 1000] comes from some draw in [0, 1) |
| CreateProjectDialog.ImagesRoute | app/dashboard/projects/components/create-project-dialog.tsx:71 | the pushed route is the Images page the breadcrumbs link to, for the id written in decimal |
| CreateProjectDialog.ImagesRouteInjective | app/dashboard/projects/components/create-project-dialog.tsx:71 | different ids navigate to different pages |
| CreateProjectDialog.CreatedProjectTrail | app/dashboard/projects/components/create-project-dialog.tsx:71 | on the new project's page the breadcrumbs read Projects > Images, with Images current and linking to that page |
| CreateProjectDialog.CreatedProjectTitle | app/dashboard/projects/components/create-project-dialog.tsx:71 | the header over the new project's page is "Dashboard" |
| CreateProjectDialog.Dialog.constructor | app/dashboard/projects/components/create-project-dialog.tsx:53-57 | the dialog starts closed, with the default values and nothing pushed |
| CreateProjectDialog.Dialog.SetOpen | app/dashboard/projects/components/create-project-dialog.tsx:80-82 | opening or closing changes only `open` |
| CreateProjectDialog.Dialog.Edit | app/dashboard/projects/components/create-project-dialog.tsx:94-162 | editing the form changes only the values |
| CreateProjectDialog.Dialog.Submit | app/dashboard/projects/components/create-project-dialog.tsx:59-77 | issues are the schema's; with issues nothing changes; otherwise the dialog closes, the form resets and `/dashboard/projects/{id}/images` is pushed |
| ProfileForm.ProfileIssues | app/dashboard/profile/page.tsx:24-30 | the schema reports at most one issue per field, each about `name`, `email` or `bio`; `company` and `role` never raise one |
| ProfileForm.AcceptsIff | app/dashboard/profile/page.tsx:24-30 | the profile schema accepts exactly a name of ≥ 2 characters, a valid address and a bio of ≤ 160 characters |
| ProfileForm.ShortNameRejected | app/dashboard/profile/page.tsx:25 | a name under 2 characters is reported with "Name must be at least 2 characters" |
| ProfileForm.InvalidEmailRejected | app/dashboard/profile/page.tsx:26 | an address failing the e-mail check is reported with "Invalid email address" |
| ProfileForm.BioLimit | app/dashboard/profile/page.tsx:27 | a bio of at most 160 characters (the empty one included) raises no bio issue; a longer one is reported |
| ProfileForm.OptionalFieldsIgnored | app/dashboard/profile/page.tsx:28-29 | company and role, absent or any string, never change the outcome |
| ProfileForm.DefaultsAccepted | app/dashboard/profile/page.tsx:34-40 | the default name and bio meet their limits, so the defaults pass when the default address does |
| DashboardLayout.Find | app/dashboard/layout.tsx:96 | `find` returns the first entry whose href equals the pathname, and nothing exactly when no entry's href does |
| DashboardLayout.IsActive | app/dashboard/layout.tsx:73 | a sidebar button is highlighted when its href is the pathname; its properties are stated by AtMostOneActive and ActiveGivesTitle |
| DashboardLayout.Title | app/dashboard/layout.tsx:96-97 | the header title is "Dashboard" or the name of an entry whose href is the pathname |
| DashboardLayout.NavigationOrder | app/dashboard/layout.tsx:16-42 | the sidebar lists Overview, Projects, Analytics, Profile, Settings in that order |
| DashboardLayout.NavigationWellFormed | app/dashboard/layout.tsx:16-42 | the entries' hrefs are distinct, and no entry's name is empty or "Dashboard" |
| DashboardLayout.AtMostOneActive | app/dashboard/layout.tsx:73 | at most one sidebar button is highlighted |
| DashboardLayout.ActiveGivesTitle | app/dashboard/layout.tsx:73-96 | the highlighted button's name is the header title |
| DashboardLayout.TitleFallback | app/dashboard/layout.tsx:96-97 | the title is "Dashboard" exactly when no entry's href equals the pathname |
| DashboardLayout.LongPathnameFallsBack | app/dashboard/layout.tsx:96-97 | any pathname longer than every href, such as `/dashboard/projects/3/images`, has the title "Dashboard" |

## Left out

- Rendering is not modelled: JSX, Tailwind classes other than the colour and highlight choices, and icons. This is presentation only.
- React and Next.js plumbing is not modelled: `useParams`, `usePathname`, `useState`, `useForm` and `router.back`. Of the toasts, only the create dialog's success text is modelled (the `toast` that `Dialog.Submit` returns); the "Creating project..." loading toast and the profile page's toast are not. The pathname, the route's `id`, the form values and the random draw are parameters. Pushed routes are recorded in `Dialog.pushed`.
- `Math.random` is the parameter `draw`, required to lie in [0, 1) as `Math.random` guarantees.
- CreateProjectDialog.Dialog.Submit: the one-second `setTimeout` before success is collapsed, so success happens at once. The `toast.promise` error branch cannot be reached, because the promise always resolves.
- ProfileForm: zod's e-mail regex is a library internal. It is the parameter `isEmail`. Submitting the profile only raises a toast, so it is not modelled.
- zod measures length in UTF-16 code units. The model uses sequence length.
- Text.ToLower: letters outside ASCII are left unchanged. JavaScript's `toLowerCase` also lowers non-ASCII letters. The statuses compared against are ASCII, so colours differ only for statuses that lower-case to one of them through a non-ASCII letter.
- ConfusionMatrix: numbers are exact reals. `Number` covers only the NaN and infinities that division by zero and `Math.max` of nothing produce. Rounding, signed zero, non-finite counts and the `toFixed(1)` text are not modelled.
- ConfusionMatrix.OpacityBounds: the [0.1, 0.9] opacity range holds only for a positive maximum. When every count is 0, `maxValue` is 0, `0 / 0` is NaN and `Math.max(0.1, NaN)` is NaN, so the component passes NaN as the opacity and shows `NaN%`; ZeroMaximumOpacityIsNaN states this case.
- ConfusionMatrix: the React keys of the column headers, which are the labels themselves, are not modelled.
- Breadcrumbs: the `projectName` prop is never used by the component. `params.id` is taken as a string; an absent or array-valued parameter is not modelled.
- The annotation canvas, its coordinate mapping and its undo/redo history are not part of this model.
- The analytics and settings pages, the performance chart, the navbar, the back button, the landing page and the root layouts are not part of this model. They hold static data, a theme toggle or markup only.
