# Kanboard page objects: decision and search logic

This project models the Kanboard UI test harness at the level of its page
objects. It covers the page factory, the dashboard / projects-listing page
and the project (board) page. A browser page is plain data:

- a URL string;
- the set of selectors currently visible;
- the ordered texts of the elements a query returns, where a text may be
  absent (`None`).

A page object never performs a click, a fill, a navigation or a wait. It
records each one as a `Browser.Action`. An operation that may raise returns
a `Browser.Run`: the actions in order plus the message it raised with, if
any.

Modules, in dependency order:

- `Wrappers`: the `Option` datatype.
- `Text`: substring search, ASCII lower-casing and whitespace stripping, the
  three string operations the page objects use.
- `Search`: the one loop shape the page objects repeat, a scan that stops at
  the first element passing a test, proved against a recursive
  specification.
- `Browser`: selectors, actions, runs, Python truthiness of an element
  text, `[t.strip() for t in texts if t]`, and the first-visible-selector
  choice.
- `PageFactory`: the page-kind classifier, the dispatch to a page object
  and the `ensure_logged_in` guard.
- `DashboardPage`: URLs built from the base URL, the navigation fallbacks,
  the project list, opening a project, and whether the projects page is
  shown.
- `ProjectPage`: project creation, adding one task or several, the project
  title, searching the board, and the checks `move_task_to_column` makes
  before it moves anything.

Each loop of the source (`for ... return`, `for ... break ... else`, the
loop of `add_multiple_tasks`) is a `method` with a `while` loop. Its
`ensures` ties the result to a specification function, and lemmas prove
what the source promises about that function.

`click_project` looks only at the project links on the current page; it
does not page through a longer list, and neither does the model.

The URLs the dashboard page loads (`dashboard_url` and the projects
fallback of `go_to_projects`) are built as the source writes them,
`f"{base_url}/{path}"`, so the doubled slash under "## Findings" is part of
the model. `DashboardPage.JoinUrl` is the corrected join, proved to agree
with the source whenever the base URL has no trailing slash, as with the
factory's default base URL.

## Model

| member | source | states |
|---|---|---|
| Text.Contains | pages/project_page.py:192 | Python's `sub in s` on strings, defined by recursion on `s`; its meaning is stated by `Text.ContainsIff` |
| Text.ContainsIff | pages/project_page.py:192 | `Contains(s, sub)` holds exactly when `sub` occurs in `s` at some index, like Python's `in` on strings |
| Text.ContainsInfix | pages/dashboard_page.py:144 | a string containing `sub` also contains every infix of `sub` (so "projects" in a URL implies "project") |
| Text.Lower | pages/page_factory.py:87 | Python's `lower()` on the ASCII letters; its properties are stated by the two lemmas below |
| Text.LowerIdempotent | pages/page_factory.py:87 | lower-casing twice equals lower-casing once |
| Text.LowerKeepsContains | pages/project_page.py:203 | a substring match survives lower-casing both sides |
| Text.StripLeft | pages/dashboard_page.py:90 | the result is a suffix, does not start with whitespace, and only whitespace was removed |
| Text.StripRight | pages/dashboard_page.py:90 | the result is a prefix, does not end with whitespace, and only whitespace was removed |
| Text.Strip | pages/dashboard_page.py:90 | the stripped text is no longer than the input and has no whitespace at either end; whitespace is space, tab, line feed, vertical tab, form feed, carriage return and U+001C to U+001F |
| Text.StripIsInfix | pages/dashboard_page.py:90 | the stripped text occurs inside the original |
| Text.StripEmptyIff | pages/dashboard_page.py:90 | stripping gives "" exactly when the text is all whitespace |
| Text.StripIdempotent | pages/dashboard_page.py:90 | stripping twice equals stripping once |
| Search.FirstMatchFrom | pages/project_page.py:190-195 | a found index is at or after the start, in range, and its element passes the test |
| Search.FirstMatch | pages/project_page.py:190-195 | a found index is in range and its element passes the test |
| Search.FirstMatchSpec | pages/project_page.py:190-195 | first match wins: `k` is found exactly when element `k` passes and no earlier one does; nothing is found exactly when no element passes |
| Search.FindFirst | pages/project_page.py:190-195 | the scanning loop returns exactly the first match |
| Browser.StrippedTexts | pages/dashboard_page.py:90 | the comprehension never yields more entries than elements |
| Browser.StrippedTextsAppend | pages/dashboard_page.py:90 | rendered order is kept: the entries for a concatenation are the two parts' entries, one after the other |
| Browser.StrippedTextsMember | pages/dashboard_page.py:90 | `x` is listed exactly when some element has a present, non-empty text that strips to `x` |
| Browser.StrippedTextsLength | pages/dashboard_page.py:90 | nothing is dropped when every text is non-empty; the result is empty exactly when no text is |
| Browser.FirstVisible | pages/dashboard_page.py:75-77 | the chosen candidate is in range and visible |
| Browser.FirstVisibleSpec | pages/dashboard_page.py:75-81 | the chosen candidate is visible and every earlier one is not; nothing is chosen exactly when no candidate is visible |
| Browser.FindFirstVisible | pages/dashboard_page.py:75-79 | the selector loop picks exactly the first visible candidate |
| PageFactory.CurrentPageType | pages/page_factory.py:80-100 | the if/elif chain on the lower-cased URL and the two DOM flags; no contract of its own, its rules are stated by the lemmas below |
| PageFactory.ClassifierIsFirstMatch | pages/page_factory.py:87-100 | the classifier answers tag `t` exactly when rule `t` matches and no rule ranked before it does |
| PageFactory.ClassifierIgnoresCase | pages/page_factory.py:87 | URLs equal up to case are classified alike, and a URL is classified like its lower-cased form |
| PageFactory.LoginRule | pages/page_factory.py:89-90 | "login" exactly when the URL contains "login" or a post form is present |
| PageFactory.SettingsRule | pages/page_factory.py:91-94 | "settings" exactly when the login rule fails and the URL contains "project/edit" or "settings"; a URL with "board" and "settings" is a settings page |
| PageFactory.TaskRule | pages/page_factory.py:93-96 | "task" exactly when the login, settings and project rules all fail and the URL contains "task"; a URL with "board" and "task" is a project page |
| PageFactory.UnknownRule | pages/page_factory.py:97-100 | "unknown" exactly when none of the five rules matches |
| PageFactory.PageObjectFor | pages/page_factory.py:26-44 | every page object the factory builds carries the factory's base URL |
| PageFactory.DispatchRoundTrip | pages/page_factory.py:109-123 | each page kind is reached from its own tag, every tag except "unknown" maps back to itself, and "unknown" maps to the dashboard |
| PageFactory.AppropriatePageObject | pages/page_factory.py:102-123 | classify, then dispatch with the dashboard as default; no contract of its own, stated by `AppropriatePageObjectFailsOpen` |
| PageFactory.AppropriatePageObjectFailsOpen | pages/page_factory.py:102-123 | the result is a dashboard exactly when the page is classified "dashboard" or "unknown", and otherwise the kind of its tag, always with the factory's base URL |
| PageFactory.EnsureLoggedInLogsIn | pages/page_factory.py:134-135 | the guard of `ensure_logged_in`: a post form and "login" in the lower-cased URL; compared with the classifier by the lemma below |
| PageFactory.EnsureLoggedInStricterThanClassifier | pages/page_factory.py:134-135 | a page the guard logs in on is classified "login"; a page with a post form and no "login" in its URL is classified "login" but does not trigger a login |
| DashboardPage.AppendPathAsWritten | pages/dashboard_page.py:41 | `f"{base_url}/{path}"`, used by `dashboard_url` and by the projects fallback at line 56; stated by `AppendPathAsWrittenSpec` |
| DashboardPage.DashboardUrl | pages/dashboard_page.py:41 | `dashboard_url`, built as written; stated by `DefaultDashboardUrlAsWritten` |
| DashboardPage.AppendPathAsWrittenSpec | pages/dashboard_page.py:41 | the URL is the base URL, one slash and the path, so a base URL ending in "/" leaves "//" in front of the path |
| DashboardPage.DefaultDashboardUrlAsWritten | pages/dashboard_page.py:38-56 | with this page's default base URL the dashboard URL, the dashboard navigation fallback and the projects fallback all get a doubled slash; with the factory's default base URL the dashboard URL has one |
| DashboardPage.TrimTrailingSlashes | pages/dashboard_page.py:41 | the result is the longest prefix not ending in "/", and only slashes were removed |
| DashboardPage.JoinUrl | pages/dashboard_page.py:41 | the corrected join, one slash between the base URL without trailing slashes and the path; stated by `JoinUrlSpec` |
| DashboardPage.JoinUrlSpec | pages/dashboard_page.py:41 | the corrected join agrees with the source whenever the base has no trailing slash, ignores one trailing slash, and puts exactly one slash before the path |
| DashboardPage.DefaultDashboardUrlCorrected | pages/dashboard_page.py:38-41 | corrected, this page's default and the factory's default both give `http://localhost:8080/dashboard`, and the projects URL `http://localhost:8080/projects` |
| DashboardPage.GoToProjects | pages/dashboard_page.py:47-58 | a click on the sidebar link exactly when it is visible, on the projects link exactly when only that one is, otherwise a load of `base_url + "/projects"` built as written; then a wait |
| DashboardPage.NavigateToDashboard | pages/dashboard_page.py:148-155 | a click on the sidebar dashboard link exactly when it is visible, otherwise a load of `dashboard_url` built as written; then a wait |
| DashboardPage.ClickNewProject | pages/dashboard_page.py:60-81 | first performs `go_to_projects`; raises "Could not find 'New Project' button" after it, with no further effect, exactly when none of the six buttons is visible; otherwise clicks the first visible one (as `FirstVisibleSpec` characterises it) and waits |
| DashboardPage.ProjectNames | pages/dashboard_page.py:83-90 | `get_project_names`; stated by `IsProjectListedSpec`, `ProjectCount` and `Browser.StrippedTextsMember` |
| DashboardPage.IsProjectListed | pages/dashboard_page.py:92-95 | exact membership in `ProjectNames`; stated by `IsProjectListedSpec` |
| DashboardPage.IsProjectListedSpec | pages/dashboard_page.py:83-95 | listed exactly when the table is visible and some title text strips to exactly the name |
| DashboardPage.ProjectCount | pages/dashboard_page.py:83-137 | 0 without the project table, at most the number of title elements, and all of them when every title has text |
| DashboardPage.ProjectCountSpec | pages/dashboard_page.py:135-137 | the count equals the length of `get_project_names()`, and is positive exactly when some project is listed |
| DashboardPage.ProjectLinkFor | pages/dashboard_page.py:102-103 | a chosen link is in range |
| DashboardPage.ProjectLinkForSpec | pages/dashboard_page.py:100-108 | the first link whose present, unstripped text contains the name; none exactly when no link's text does |
| DashboardPage.ClickProject | pages/dashboard_page.py:97-108 | clicks the chosen link and waits, or raises "not found" without any effect exactly when no link matches |
| DashboardPage.ListedIsNotSubstring | pages/dashboard_page.py:92-108 | with one project "QA 2", "QA" is not listed yet `click_project("QA")` opens it |
| DashboardPage.PageTitle | pages/dashboard_page.py:118-122 | the heading text exactly when the heading is visible, and "" otherwise |
| DashboardPage.IsOnProjectsPage | pages/dashboard_page.py:139-146 | the three-way `or`; stated by `IsOnProjectsPageSpec` |
| DashboardPage.IsOnProjectsPageSpec | pages/dashboard_page.py:139-146 | false exactly when none of the three signs holds; a non-empty project list, a heading containing "project", or a URL the factory classifies "dashboard" by its URL each suffice |
| ProjectPage.FillIfGiven | pages/project_page.py:65-66 | an optional field is filled exactly when a value is given and the field is visible |
| ProjectPage.ClickFirstVisible | pages/project_page.py:80-83 | at most one click; no click exactly when no candidate is visible; otherwise one click on a visible candidate before which no candidate is visible |
| ProjectPage.CreateProject | pages/project_page.py:59-85 | never raises; fills the name, the optional fields, clicks the first visible submit button and waits; with no submit button visible it clicks nothing |
| ProjectPage.AddTaskRun | pages/project_page.py:87-125 | the effects of one `add_task` call; stated by `AddTaskRunSpec` |
| ProjectPage.AddTaskRunSpec | pages/project_page.py:87-125 | raises "Could not find 'Add Task' button" before any effect exactly when no add-task selector is visible; otherwise clicks the first visible one, waits, fills the title, then fills the description if given and visible and clicks the first visible save button if any, and ends with a wait |
| ProjectPage.AddTask | pages/project_page.py:87-125 | the selector loops perform exactly the run `AddTaskRun` describes |
| ProjectPage.GetProjectTitle | pages/project_page.py:249-262 | the text of the first visible of the four heading selectors, or "" when none is visible |
| ProjectPage.Get | pages/project_page.py:244-245 | `task_data.get(key, '')`; stated by `TaskRequestDefaults` |
| ProjectPage.TaskRequests | pages/project_page.py:243-247 | the `add_task` calls the loop makes, in input order; stated by the three lemmas below |
| ProjectPage.TaskRequestsAppend | pages/project_page.py:243-247 | input order is kept: the calls for a concatenation are the two parts' calls, one after the other |
| ProjectPage.TaskRequestsSpec | pages/project_page.py:243-247 | a call is made exactly for an entry with a non-empty title, with that entry's description; no call has an empty title; never more calls than entries |
| ProjectPage.TaskRequestDefaults | pages/project_page.py:244-246 | a missing description becomes ""; an entry without a title makes no call |
| ProjectPage.MultipleTaskRuns | pages/project_page.py:241-247 | the runs of the loop, one per call, stopping after a call that raised; stated by the two lemmas below |
| ProjectPage.MultipleTaskRunsCalls | pages/project_page.py:241-247 | the runs are those of a prefix of the calls `TaskRequests` lists, each in order and with its own number |
| ProjectPage.MultipleTaskRunsStops | pages/project_page.py:241-247 | every run but the last completed; the loop stops short of the calls only right after a run that raised; when the last run completed every call was made |
| ProjectPage.AddMultipleTasks | pages/project_page.py:241-247 | the loop produces exactly the runs `MultipleTaskRuns` describes, with each call seeing the page of its own number |
| ProjectPage.TaskFor | pages/project_page.py:186-195 | a chosen card is in range |
| ProjectPage.TaskForSpec | pages/project_page.py:186-195 | the first card whose text (absent read as "") contains the title, case-sensitively; none exactly when no card's text does |
| ProjectPage.FindTaskByTitle | pages/project_page.py:186-195 | the loop returns exactly that card |
| ProjectPage.ColumnFor | pages/project_page.py:197-206 | a chosen column is in range |
| ProjectPage.ColumnForSpec | pages/project_page.py:197-206 | the first column whose lower-cased text contains the lower-cased title; none exactly when none does; the title's case never matters; an exact-case match is found or an earlier column is |
| ProjectPage.FindColumnByTitle | pages/project_page.py:197-206 | the loop returns exactly that column |
| ProjectPage.TasksInColumn | pages/project_page.py:208-216 | `get_tasks_in_column`; stated by `TasksInColumnSpec` |
| ProjectPage.TasksInColumnSpec | pages/project_page.py:208-216 | no matching column gives no tasks; otherwise a task is listed exactly when a card of the first matching column has a non-empty text that strips to it |
| ProjectPage.IsTaskInColumn | pages/project_page.py:218-221 | `any(task_title in task ...)`; stated by `IsTaskInColumnSpec` |
| ProjectPage.IsTaskInColumnSpec | pages/project_page.py:218-221 | a task is in a column exactly when a column matches and one of its cards has a non-empty text whose stripped form contains the title |
| ProjectPage.CountTasksInColumn | pages/project_page.py:208-239 | 0 without a matching column, at most the number of cards in the first matching one, and all of them when every card has text |
| ProjectPage.CountTasksInColumnSpec | pages/project_page.py:237-239 | the count equals the length of `get_tasks_in_column`, and is positive whenever a task is in the column |
| ProjectPage.AllColumnNames | pages/project_page.py:227-230 | `get_all_column_names`; stated by `AllColumnNamesSpec` |
| ProjectPage.AllColumnNamesSpec | pages/project_page.py:227-230 | a name is listed exactly when a column-title text strips to it, and titles keep their order |
| ProjectPage.MoveTaskToColumn | pages/project_page.py:127-137 | a missing task is reported first, then a missing column; a move is attempted exactly when both are found, on the first matching task and column |

## Left out

- Playwright itself: visibility, element texts and `get_element_text` are inputs; clicks, fills, navigations and waits are recorded, not performed, and are assumed to succeed.
- The page after a navigation is a separate input: `ClickNewProject` takes the listing before and the projects page after; `AddTask` takes the board and the task form; `AddMultipleTasks` takes the board and form seen by each call, by call number.
- Text.Lower: ASCII letters only, while Python's `lower()` is Unicode-aware.
- Text.Strip: removes the whitespace characters below U+0080 only; Python's `strip()` also removes whitespace above it (U+0085, U+00A0, U+2028 and the other Unicode spaces), which the model keeps.
- PageFactory.AppropriatePageObject: the page objects are reduced to their class and base URL; `query_selector` presence (any match, visible or not) is a boolean input, while the dashboard page's visibility tests read the `visible` selector set of its `ListingView`.
- The move itself in `move_task_to_column` (drag and drop, the catch-all fallback) and `move_task_via_menu` (pages/project_page.py:139-184): browser behaviour; only the not-found checks are modelled.
- `move_task_to_done` and `is_task_in_done_column`: fixed-argument calls of modelled operations.
- `add_task`'s `column` parameter: accepted and never used by the source.
- `navigate` (pages/dashboard_page.py:43-45): a single load of `dashboard_url`, the same URL, built as written, that the fallback branch of `NavigateToDashboard` loads.
- `search_project`, `logout`, `count_tasks_on_board`, `is_on_board_view`, `switch_to_board_view`, `delete_project`, `go_back_to_projects`: outside the core this model covers (classification and dispatch, the listing and board searches, and the selector choice of the operations above); their own visibility tests, selector fallbacks and confirmation steps are not modelled.
- `navigate_and_login`, `create_authenticated_session` and `take_screenshot` (pages/page_factory.py:46-78, 142-146): a real login and filesystem writes.
- The factory's `logout` (pages/page_factory.py:137-140): it only delegates to the dashboard page's `logout`, which is outside the modelled core (see above).
- The `BasePage` helpers are not part of this model; their behaviour is taken as described above.
- pages/login_page.py and pages/task_page.py: outside the modelled core; their visibility fallbacks (`get_error_message`, `get_page_header`, `set_remember_me`, `get_task_description`) are not modelled.
- pages/locators.py: a table of CSS strings; selectors are opaque labels.
- config/app_settings.py: environment reads; the file is not valid Python as shown, and `get_number_of_tasks`, which a test calls, is not defined in it.
- The tests and tests/conftest.py: browser scenarios checked by SQL queries, the session file, the database retry with sleeps, and wall-clock timing.
- `navigate_to_project` and `navigate_to_task`: called by tests (tests/test_task_lifecycle.py:36, 63) but defined in no page object, so there is nothing to model.

## Findings

| source | as written | input that shows it | evidently intended | confidence | as-written member | corrected member |
|---|---|---|---|---|---|---|
| pages/dashboard_page.py:38-41 | the dashboard URL joins the base URL and "dashboard" with "/", but this page's default base URL already ends in "/"; the projects fallback at line 56 joins the same way | a `DashboardPage` created with its default base URL gets `http://localhost:8080//dashboard` and `http://localhost:8080//projects` | one slash between base URL and path, as the factory's default base URL (no trailing slash) gives | not executed; medium, since the server may tolerate the doubled slash | DashboardPage.DefaultDashboardUrlAsWritten | DashboardPage.JoinUrlSpec |
