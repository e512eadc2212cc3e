/** The page factory: it classifies the current browser location by ordered
    substring rules on the lower-cased URL plus two DOM signals, and maps
    the resulting tag to a page object, falling back to the dashboard. */
module PageFactory {
  import opened Text

  /** The string `get_current_page_type` returns. */
  datatype PageTag = LoginTag | SettingsTag | ProjectTag | TaskTag | DashboardTag | UnknownTag

  /** The five page-object classes the factory can build. */
  datatype PageKind = LoginKind | DashboardKind | ProjectKind | TaskKind | SettingsKind

  /** The default of the factory's `base_url`. */
  const DEFAULT_BASE_URL: string := "http://localhost:8080"

  /** The factory's own state: the browser page (left abstract) and the
      base URL it hands to every page object it builds. */
  datatype Factory = Factory(baseUrl: string)

  /** A page object as the factory builds it: its class and its base URL. */
  datatype PageObject = PageObject(kind: PageKind, baseUrl: string)

  /** `get_current_page_type`. `hasPostForm` and `hasProjectTable` say
      whether `query_selector('form[method="post"]')` and
      `query_selector('.project-table')` found an element. */
  function CurrentPageType(url: string, hasPostForm: bool, hasProjectTable: bool): PageTag {
    var u := Lower(url);
    if Contains(u, "login") || hasPostForm then LoginTag
    else if Contains(u, "project/edit") || Contains(u, "settings") then SettingsTag
    else if Contains(u, "project/show") || Contains(u, "board") then ProjectTag
    else if Contains(u, "task") then TaskTag
    else if Contains(u, "projects") || hasProjectTable then DashboardTag
    else UnknownTag
  }

  /** The classification rules taken one at a time, with no order between
      them: `RuleFires(t, u, ...)` says that rule `t` matches the
      lower-cased URL `u`. The last rule, "unknown", always matches. */
  predicate RuleFires(t: PageTag, u: string, hasPostForm: bool, hasProjectTable: bool) {
    match t
    case LoginTag => Contains(u, "login") || hasPostForm
    case SettingsTag => Contains(u, "project/edit") || Contains(u, "settings")
    case ProjectTag => Contains(u, "project/show") || Contains(u, "board")
    case TaskTag => Contains(u, "task")
    case DashboardTag => Contains(u, "projects") || hasProjectTable
    case UnknownTag => true
  }

  /** The position of each rule in the chain. */
  function Rank(t: PageTag): nat {
    match t
    case LoginTag => 0
    case SettingsTag => 1
    case ProjectTag => 2
    case TaskTag => 3
    case DashboardTag => 4
    case UnknownTag => 5
  }

  /** First match wins: the classifier answers `t` exactly when rule `t`
      matches and no rule ranked before it does. */
  lemma ClassifierIsFirstMatch(url: string, hasPostForm: bool, hasProjectTable: bool, t: PageTag)
    ensures CurrentPageType(url, hasPostForm, hasProjectTable) == t <==>
      RuleFires(t, Lower(url), hasPostForm, hasProjectTable) &&
      forall e: PageTag :: Rank(e) < Rank(t) ==> !RuleFires(e, Lower(url), hasPostForm, hasProjectTable)
  {
    var u := Lower(url);
    var r := CurrentPageType(url, hasPostForm, hasProjectTable);
    assert RuleFires(r, u, hasPostForm, hasProjectTable);
    forall e: PageTag | Rank(e) < Rank(r) ensures !RuleFires(e, u, hasPostForm, hasProjectTable) {
      match e
      case LoginTag =>
      case SettingsTag =>
      case ProjectTag =>
      case TaskTag =>
      case DashboardTag =>
      case UnknownTag =>
    }
    if r != t {
      if Rank(t) < Rank(r) {
        assert !RuleFires(t, u, hasPostForm, hasProjectTable);
      } else {
        assert Rank(r) < Rank(t);
      }
    }
  }

  /** The URL is lower-cased before any test, so its case never matters. */
  lemma ClassifierIgnoresCase(a: string, b: string, hasPostForm: bool, hasProjectTable: bool)
    requires Lower(a) == Lower(b)
    ensures CurrentPageType(a, hasPostForm, hasProjectTable) == CurrentPageType(b, hasPostForm, hasProjectTable)
    ensures CurrentPageType(a, hasPostForm, hasProjectTable) == CurrentPageType(Lower(a), hasPostForm, hasProjectTable)
  {
    LowerIdempotent(a);
  }

  /** "login" wins whenever the URL contains "login" or a post form is
      present, whatever else the URL contains. */
  lemma LoginRule(url: string, hasPostForm: bool, hasProjectTable: bool)
    ensures CurrentPageType(url, hasPostForm, hasProjectTable) == LoginTag <==>
      Contains(Lower(url), "login") || hasPostForm
  {
  }

  /** "settings" is the answer exactly when the login rule does not match
      and the URL contains "project/edit" or "settings"; so a URL with both
      "board" and "settings" is a settings page, not a project page. */
  lemma SettingsRule(url: string, hasPostForm: bool, hasProjectTable: bool)
    ensures CurrentPageType(url, hasPostForm, hasProjectTable) == SettingsTag <==>
      !RuleFires(LoginTag, Lower(url), hasPostForm, hasProjectTable) &&
      (Contains(Lower(url), "project/edit") || Contains(Lower(url), "settings"))
    ensures (!RuleFires(LoginTag, Lower(url), hasPostForm, hasProjectTable) &&
      Contains(Lower(url), "board") && Contains(Lower(url), "settings")) ==>
      CurrentPageType(url, hasPostForm, hasProjectTable) == SettingsTag
  {
  }

  /** "task" is the answer only when none of the login, settings and project
      rules match; so a URL with both "board" and "task" is a project page. */
  lemma TaskRule(url: string, hasPostForm: bool, hasProjectTable: bool)
    ensures CurrentPageType(url, hasPostForm, hasProjectTable) == TaskTag <==>
      !RuleFires(LoginTag, Lower(url), hasPostForm, hasProjectTable) &&
      !RuleFires(SettingsTag, Lower(url), hasPostForm, hasProjectTable) &&
      !RuleFires(ProjectTag, Lower(url), hasPostForm, hasProjectTable) &&
      Contains(Lower(url), "task")
    ensures (!RuleFires(LoginTag, Lower(url), hasPostForm, hasProjectTable) &&
      !RuleFires(SettingsTag, Lower(url), hasPostForm, hasProjectTable) &&
      Contains(Lower(url), "board") && Contains(Lower(url), "task")) ==>
      CurrentPageType(url, hasPostForm, hasProjectTable) == ProjectTag
  {
  }

  /** "unknown" is the answer exactly when none of the five rules match. */
  lemma UnknownRule(url: string, hasPostForm: bool, hasProjectTable: bool)
    ensures CurrentPageType(url, hasPostForm, hasProjectTable) == UnknownTag <==>
      forall e: PageTag :: e != UnknownTag ==> !RuleFires(e, Lower(url), hasPostForm, hasProjectTable)
  {
    ClassifierIsFirstMatch(url, hasPostForm, hasProjectTable, UnknownTag);
    forall e: PageTag ensures e != UnknownTag <==> Rank(e) < Rank(UnknownTag) {
    }
  }

  /** The dispatch table of `get_appropriate_page_object`: each tag to its
      own page object, and "unknown" to the dashboard (fail open). */
  function PageObjectFor(f: Factory, tag: PageTag): (p: PageObject)
    ensures p.baseUrl == f.baseUrl
  {
    var kind := match tag
      case LoginTag => LoginKind
      case DashboardTag => DashboardKind
      case ProjectTag => ProjectKind
      case TaskTag => TaskKind
      case SettingsTag => SettingsKind
      case UnknownTag => DashboardKind;
    PageObject(kind, f.baseUrl)
  }

  /** The tag the classifier gives to the page that each kind stands for. */
  function TagOf(kind: PageKind): PageTag {
    match kind
    case LoginKind => LoginTag
    case DashboardKind => DashboardTag
    case ProjectKind => ProjectTag
    case TaskKind => TaskTag
    case SettingsKind => SettingsTag
  }

  /** Every tag other than "unknown" maps to its own kind, every kind is
      reached, and "unknown" maps to the dashboard. */
  lemma DispatchRoundTrip(f: Factory, kind: PageKind, tag: PageTag)
    ensures PageObjectFor(f, TagOf(kind)).kind == kind
    ensures tag != UnknownTag ==> TagOf(PageObjectFor(f, tag).kind) == tag
    ensures PageObjectFor(f, UnknownTag).kind == DashboardKind
  {
  }

  /** `get_appropriate_page_object`: classify, then dispatch. */
  function AppropriatePageObject(f: Factory, url: string, hasPostForm: bool, hasProjectTable: bool): PageObject {
    PageObjectFor(f, CurrentPageType(url, hasPostForm, hasProjectTable))
  }

  /** The factory always builds one of its five page objects with its own
      base URL; it builds a dashboard exactly when the page was classified
      "dashboard" or "unknown", and otherwise the kind of the tag. */
  lemma AppropriatePageObjectFailsOpen(f: Factory, url: string, hasPostForm: bool, hasProjectTable: bool)
    ensures AppropriatePageObject(f, url, hasPostForm, hasProjectTable).baseUrl == f.baseUrl
    ensures AppropriatePageObject(f, url, hasPostForm, hasProjectTable).kind == DashboardKind <==>
      CurrentPageType(url, hasPostForm, hasProjectTable) in {DashboardTag, UnknownTag}
    ensures CurrentPageType(url, hasPostForm, hasProjectTable) != UnknownTag ==>
      TagOf(AppropriatePageObject(f, url, hasPostForm, hasProjectTable).kind) == CurrentPageType(url, hasPostForm, hasProjectTable)
  {
  }

  /** The guard of `ensure_logged_in`: a login is performed only when a post
      form is present AND the URL contains "login". */
  predicate EnsureLoggedInLogsIn(url: string, hasPostForm: bool) {
    hasPostForm && Contains(Lower(url), "login")
  }

  /** The guard is stricter than the classifier's login rule: whenever it
      logs in, the page is classified "login", but a page classified
      "login" only because of its post form does not trigger a login. */
  lemma EnsureLoggedInStricterThanClassifier(url: string, hasProjectTable: bool)
    ensures EnsureLoggedInLogsIn(url, true) ==> CurrentPageType(url, true, hasProjectTable) == LoginTag
    ensures !Contains(Lower(url), "login") ==>
      CurrentPageType(url, true, hasProjectTable) == LoginTag && !EnsureLoggedInLogsIn(url, true)
    ensures CurrentPageType("", true, hasProjectTable) == LoginTag && !EnsureLoggedInLogsIn("", true)
  {
  }
}
