/** The dashboard / projects-listing page object: reading the project list,
    finding and opening a project, and reaching the projects page. */
module DashboardPage {
  import opened Wrappers
  import opened Text
  import opened Search
  import opened Browser
  import PageFactory

  const PROJECTS_LINK: Selector := "a[href*=\"/projects\"], a[href*=\"project\"]"
  const PROJECT_TABLE: Selector := ".table-list, .project-table"
  const PROJECT_LINKS: Selector := "a[href*=\"project/show\"]"
  const PAGE_TITLE: Selector := "h1, .page-header h1"
  const SIDEBAR_PROJECTS: Selector := "#sidebar a[href*=\"projects\"]"
  const SIDEBAR_DASHBOARD: Selector := "#sidebar a[href*=\"dashboard\"]"

  /** The buttons `click_new_project` tries, in order. */
  const NEW_PROJECT_SELECTORS: seq<Selector> := [
    "a[href*=\"project/create\"]",
    ".btn-blue[href*=\"create\"]",
    "a:has-text(\"New project\")",
    "a:has-text(\"Create\")",
    "a[title*=\"project\"]",
    ".btn[href*=\"create\"]"
  ]

  const NEW_PROJECT_NOT_FOUND: string := "Could not find 'New Project' button"

  /** The default of the page object's `base_url` (note the trailing slash). */
  const DEFAULT_BASE_URL: string := "http://localhost:8080/"

  /** The listing page as the page object reads it: the URL, the visible
      selectors, the texts of the project-title elements and of the
      project links (in rendered order), and the text of the page heading. */
  datatype ListingView = ListingView(
    url: string,
    visible: set<Selector>,
    titleTexts: seq<Option<string>>,
    linkTexts: seq<Option<string>>,
    headingText: string)

  // ---------------------------------------------------------------------
  // URLs built from the base URL

  /** `f"{base_url}/{path}"` as the source writes it. */
  function AppendPathAsWritten(base: string, path: string): string {
    base + "/" + path
  }

  /** `dashboard_url`, built once from the base URL as the source writes it. */
  function DashboardUrl(base: string): string {
    AppendPathAsWritten(base, "dashboard")
  }

  /** The URL of `path` under `base`, joined by exactly one slash: the
      corrected form of `AppendPathAsWritten`. */
  function JoinUrl(base: string, path: string): string {
    TrimTrailingSlashes(base) + "/" + path
  }

  /** The base URL without its trailing slashes. */
  function TrimTrailingSlashes(s: string): (r: string)
    ensures |r| <= |s| && r == s[..|r|]
    ensures r == [] || r[|r| - 1] != '/'
    ensures forall k :: |r| <= k < |s| ==> s[k] == '/'
    decreases |s|
  {
    if |s| > 0 && s[|s| - 1] == '/' then TrimTrailingSlashes(s[..|s| - 1]) else s
  }

  /** The URL as written is the base URL, one slash and the path, so a base
      URL ending in "/" leaves two slashes in front of the path. */
  lemma AppendPathAsWrittenSpec(base: string, path: string)
    ensures var r := AppendPathAsWritten(base, path);
      |r| == |base| + 1 + |path| && r[..|base|] == base && r[|base|] == '/' && r[|base| + 1..] == path
    ensures |base| > 0 && base[|base| - 1] == '/' ==>
      AppendPathAsWritten(base, path)[|base| - 1..|base| + 1] == "//"
  {
    var r := AppendPathAsWritten(base, path);
    assert r == base + ("/" + path);
    if |base| > 0 && base[|base| - 1] == '/' {
      assert r[|base| - 1] == '/' && r[|base|] == '/';
    }
  }

  /** `JoinUrl` agrees with the source whenever the base URL has no
      trailing slash, ignores a trailing slash on the base URL, and never
      puts two slashes in front of the path. */
  lemma JoinUrlSpec(base: string, path: string)
    ensures (base == [] || base[|base| - 1] != '/') ==> JoinUrl(base, path) == AppendPathAsWritten(base, path)
    ensures JoinUrl(base + "/", path) == JoinUrl(base, path)
    ensures var r := JoinUrl(base, path);
      |r| > |path| && r[|r| - |path|..] == path && r[|r| - |path| - 1] == '/' &&
      (|r| == |path| + 1 || r[|r| - |path| - 2] != '/')
  {
  }

  /** With the page object's own default base URL, the dashboard URL and
      the projects fallback as written get a doubled slash; with the
      factory's default base URL (no trailing slash) they do not. */
  lemma DefaultDashboardUrlAsWritten()
    ensures DashboardUrl(DEFAULT_BASE_URL) == "http://localhost:8080//dashboard"
    ensures NavigateToDashboard(DEFAULT_BASE_URL, {})[0] == NavigateTo("http://localhost:8080//dashboard")
    ensures GoToProjects(DEFAULT_BASE_URL, {})[0] == NavigateTo("http://localhost:8080//projects")
    ensures DashboardUrl(PageFactory.DEFAULT_BASE_URL) == "http://localhost:8080/dashboard"
  {
  }

  /** Corrected, both defaults (this page's and the factory's) lead to the
      same single-slash URLs. */
  lemma DefaultDashboardUrlCorrected()
    ensures JoinUrl(DEFAULT_BASE_URL, "dashboard") == "http://localhost:8080/dashboard"
    ensures JoinUrl(PageFactory.DEFAULT_BASE_URL, "dashboard") == JoinUrl(DEFAULT_BASE_URL, "dashboard")
    ensures JoinUrl(DEFAULT_BASE_URL, "projects") == "http://localhost:8080/projects"
  {
  }

  // ---------------------------------------------------------------------
  // Navigation with a fallback

  /** `go_to_projects`: click the sidebar link if it is visible, else the
      projects link if that is visible, else load `<base>/projects`; then
      wait for the page to load. */
  function GoToProjects(base: string, visible: set<Selector>): (r: seq<Action>)
    ensures |r| == 2 && r[1] == WaitForLoad
    ensures r[0] == Click(SIDEBAR_PROJECTS) <==> SIDEBAR_PROJECTS in visible
    ensures r[0] == Click(PROJECTS_LINK) <==> SIDEBAR_PROJECTS !in visible && PROJECTS_LINK in visible
    ensures r[0].NavigateTo? <==> SIDEBAR_PROJECTS !in visible && PROJECTS_LINK !in visible
    ensures r[0].NavigateTo? ==> r[0].url == AppendPathAsWritten(base, "projects")
    ensures r[0].Click? ==> r[0].selector in visible
    ensures r[0].Click? || r[0].NavigateTo?
  {
    var step :=
      if SIDEBAR_PROJECTS in visible then Click(SIDEBAR_PROJECTS)
      else if PROJECTS_LINK in visible then Click(PROJECTS_LINK)
      else NavigateTo(AppendPathAsWritten(base, "projects"));
    [step, WaitForLoad]
  }

  /** `navigate_to_dashboard`: click the sidebar dashboard link if it is
      visible, else load the dashboard URL; then wait. */
  function NavigateToDashboard(base: string, visible: set<Selector>): (r: seq<Action>)
    ensures |r| == 2 && r[1] == WaitForLoad
    ensures r[0] == Click(SIDEBAR_DASHBOARD) <==> SIDEBAR_DASHBOARD in visible
    ensures r[0] == NavigateTo(DashboardUrl(base)) <==> SIDEBAR_DASHBOARD !in visible
  {
    [if SIDEBAR_DASHBOARD in visible then Click(SIDEBAR_DASHBOARD) else NavigateTo(DashboardUrl(base)), WaitForLoad]
  }

  /** `click_new_project`: go to the projects page (where `listing` is
      visible now and `projects` is visible afterwards), then click the
      first visible of the six new-project buttons and wait; raise when
      none of the six is visible. */
  method ClickNewProject(base: string, listing: set<Selector>, projects: set<Selector>) returns (run: Run)
    ensures |run.actions| >= 2 && run.actions[..2] == GoToProjects(base, listing)
    ensures run.raised.Some? <==>
      forall j :: 0 <= j < |NEW_PROJECT_SELECTORS| ==> NEW_PROJECT_SELECTORS[j] !in projects
    ensures run.raised.Some? ==>
      run.raised.value == NEW_PROJECT_NOT_FOUND && run.actions == GoToProjects(base, listing)
    ensures FirstVisible(NEW_PROJECT_SELECTORS, projects).Some? ==>
      run.actions == GoToProjects(base, listing) +
        [Click(NEW_PROJECT_SELECTORS[FirstVisible(NEW_PROJECT_SELECTORS, projects).value]), WaitForLoad]
  {
    var before := GoToProjects(base, listing);
    var k := FindFirstVisible(NEW_PROJECT_SELECTORS, projects);
    FirstVisibleSpec(NEW_PROJECT_SELECTORS, projects);
    if k.Some? {
      run := Run(before + [Click(NEW_PROJECT_SELECTORS[k.value]), WaitForLoad], None);
    } else {
      run := Run(before, Some(NEW_PROJECT_NOT_FOUND));
    }
  }

  // ---------------------------------------------------------------------
  // Reading the project list

  /** `get_project_names`: nothing when the project table is not visible,
      otherwise the stripped, non-empty title texts in rendered order. */
  function ProjectNames(view: ListingView): seq<string> {
    if PROJECT_TABLE !in view.visible then [] else StrippedTexts(view.titleTexts)
  }

  /** `is_project_listed`: exact membership in the project names. */
  predicate IsProjectListed(view: ListingView, name: string) {
    name in ProjectNames(view)
  }

  /** A project is listed exactly when the table is visible and some title
      element has a present, non-empty text that strips to exactly `name`. */
  lemma IsProjectListedSpec(view: ListingView, name: string)
    ensures IsProjectListed(view, name) <==>
      PROJECT_TABLE in view.visible &&
      exists i :: 0 <= i < |view.titleTexts| && Truthy(view.titleTexts[i]) && Strip(view.titleTexts[i].value) == name
  {
    StrippedTextsMember(view.titleTexts, name);
  }

  /** `get_project_count`, the number of names `get_project_names` returns:
      0 without the table, never more than the number of title elements,
      and exactly that number when every title has text. */
  function ProjectCount(view: ListingView): (n: nat)
    ensures PROJECT_TABLE !in view.visible ==> n == 0
    ensures n <= |view.titleTexts|
    ensures PROJECT_TABLE in view.visible && (forall i :: 0 <= i < |view.titleTexts| ==> Truthy(view.titleTexts[i])) ==>
      n == |view.titleTexts|
  {
    StrippedTextsLength(view.titleTexts);
    |ProjectNames(view)|
  }

  /** The count is the length of the project list, and it is positive
      exactly when some project is listed. */
  lemma ProjectCountSpec(view: ListingView)
    ensures ProjectCount(view) == |ProjectNames(view)|
    ensures ProjectCount(view) > 0 <==> exists name :: IsProjectListed(view, name)
  {
    if ProjectCount(view) > 0 {
      assert IsProjectListed(view, ProjectNames(view)[0]);
    }
  }

  /** The link test of `click_project`: the link has text and that
      (unstripped) text contains the name. */
  function LinkMatches(name: string): Option<string> -> bool {
    t => Truthy(t) && Contains(t.value, name)
  }

  /** The link `click_project` opens, if any. */
  function ProjectLinkFor(linkTexts: seq<Option<string>>, name: string): (r: Option<nat>)
    ensures r.Some? ==> r.value < |linkTexts|
  {
    FirstMatch(linkTexts, LinkMatches(name))
  }

  /** `click_project` opens the first link, in order, whose text contains
      the name, and finds none exactly when no link matches. */
  lemma ProjectLinkForSpec(linkTexts: seq<Option<string>>, name: string)
    ensures forall k: nat :: ProjectLinkFor(linkTexts, name) == Some(k) <==>
      k < |linkTexts| && Truthy(linkTexts[k]) && Contains(linkTexts[k].value, name) &&
      forall j :: 0 <= j < k ==> !(Truthy(linkTexts[j]) && Contains(linkTexts[j].value, name))
    ensures ProjectLinkFor(linkTexts, name) == None <==>
      forall j :: 0 <= j < |linkTexts| ==> !(Truthy(linkTexts[j]) && Contains(linkTexts[j].value, name))
  {
    FirstMatchSpec(linkTexts, LinkMatches(name));
  }

  function ProjectNotFound(name: string): string {
    "Project '" + name + "' not found in project list"
  }

  /** `click_project`: click the matching link and wait, or raise "not
      found" without doing anything. */
  method ClickProject(view: ListingView, name: string) returns (run: Run)
    ensures run.raised.Some? <==> ProjectLinkFor(view.linkTexts, name).None?
    ensures run.raised.Some? ==> run == Run([], Some(ProjectNotFound(name)))
    ensures ProjectLinkFor(view.linkTexts, name).Some? ==>
      run == Run([ClickMatch(PROJECT_LINKS, ProjectLinkFor(view.linkTexts, name).value), WaitForLoad], None)
  {
    var k := FindFirst(view.linkTexts, LinkMatches(name));
    if k.Some? {
      run := Run([ClickMatch(PROJECT_LINKS, k.value), WaitForLoad], None);
    } else {
      run := Run([], Some(ProjectNotFound(name)));
    }
  }

  /** Listing is exact membership and opening is a substring search: with
      one project called "QA 2", "QA" is not listed, yet
      `click_project("QA")` opens that project. */
  lemma ListedIsNotSubstring()
    ensures var view := ListingView("", {PROJECT_TABLE}, [Some("QA 2")], [Some("QA 2")], "");
      IsProjectListed(view, "QA 2") && !IsProjectListed(view, "QA") &&
      ProjectLinkFor(view.linkTexts, "QA") == Some(0)
  {
    var view := ListingView("", {PROJECT_TABLE}, [Some("QA 2")], [Some("QA 2")], "");
    assert StripLeft("QA 2") == "QA 2";
    assert StripRight("QA 2") == "QA 2";
    assert StrippedTexts(view.titleTexts) == ["QA 2"];
    assert "QA 2"[..2] == "QA";
  }

  // ---------------------------------------------------------------------
  // Where are we?

  /** `get_page_title`: the heading text when the heading is visible,
      else "". */
  function PageTitle(view: ListingView): (r: string)
    ensures PAGE_TITLE in view.visible ==> r == view.headingText
    ensures PAGE_TITLE !in view.visible ==> r == ""
  {
    if PAGE_TITLE in view.visible then view.headingText else ""
  }

  /** `is_on_projects_page`. */
  predicate IsOnProjectsPage(view: ListingView) {
    Contains(Lower(view.url), "project") ||
    Contains(Lower(PageTitle(view)), "project") ||
    PROJECT_TABLE in view.visible
  }

  /** Any of the three signs is enough: a visible project table (so in
      particular a non-empty project list), a URL containing "project" in
      any case (every URL the factory classifies "dashboard" by its URL
      contains "projects"), or a visible heading containing "project". */
  lemma IsOnProjectsPageSpec(view: ListingView, hasPostForm: bool)
    ensures ProjectNames(view) != [] ==> IsOnProjectsPage(view)
    ensures PAGE_TITLE in view.visible && Contains(Lower(view.headingText), "project") ==> IsOnProjectsPage(view)
    ensures PageFactory.CurrentPageType(view.url, hasPostForm, false) == PageFactory.DashboardTag ==>
      IsOnProjectsPage(view)
    ensures !IsOnProjectsPage(view) <==>
      !Contains(Lower(view.url), "project") && !Contains(Lower(PageTitle(view)), "project") &&
      PROJECT_TABLE !in view.visible
  {
    if Contains(Lower(view.url), "projects") {
      ContainsInfix(Lower(view.url), "projects", 0, 7);
      assert "projects"[0..7] == "project";
    }
  }
}
