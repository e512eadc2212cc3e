/** The project page object: the project-creation form, adding tasks, and
    reading the board (tasks, columns, which task is in which column). */
module ProjectPage {
  import opened Wrappers
  import opened Text
  import opened Search
  import opened Browser

  const PROJECT_NAME_INPUT: Selector := "input[name=\"name\"]"
  const PROJECT_DESCRIPTION_INPUT: Selector := "textarea[name=\"description\"]"
  const PROJECT_IDENTIFIER_INPUT: Selector := "input[name=\"identifier\"]"
  const CREATE_PROJECT_BUTTON: Selector := "input[type=\"submit\"], button[type=\"submit\"]"
  const SAVE_BUTTON: Selector := "button:has-text(\"Save\"), input[value=\"Save\"]"
  const ADD_TASK_BUTTON: Selector := "a[href*=\"task/create\"], .btn[href*=\"task/create\"]"
  const TASK_TITLE_INPUT: Selector := "input[name=\"title\"]"
  const TASK_DESCRIPTION_INPUT: Selector := "textarea[name=\"description\"]"

  /** The submit buttons `create_project` tries, in order. */
  const SUBMIT_SELECTORS: seq<Selector> :=
    [CREATE_PROJECT_BUTTON, SAVE_BUTTON, "input[type=\"submit\"]", "button[type=\"submit\"]"]

  /** The add-task buttons `add_task` tries, in order. */
  const ADD_TASK_SELECTORS: seq<Selector> :=
    [ADD_TASK_BUTTON, "a[href*=\"task/create\"]", "a:has-text(\"Add a task\")", ".add-task-button"]

  /** The save buttons of the task form `add_task` tries, in order. */
  const SAVE_TASK_SELECTORS: seq<Selector> :=
    ["input[type=\"submit\"]", "button[type=\"submit\"]", "button:has-text(\"Save\")", ".btn-blue"]

  /** The headings `get_project_title` tries, in order. */
  const TITLE_SELECTORS: seq<Selector> :=
    ["h1", ".page-header h1", ".project-header h1", ".breadcrumb li:last-child"]

  const ADD_TASK_NOT_FOUND: string := "Could not find 'Add Task' button"

  /** One board column: its whole text and the texts of the task cards
      inside it, in rendered order. */
  datatype Column = Column(text: Option<string>, taskTexts: seq<Option<string>>)

  /** The board as the page object reads it: the texts of all task cards,
      the columns, and the texts of the column-title elements. */
  datatype Board = Board(taskTexts: seq<Option<string>>, columns: seq<Column>, columnTitleTexts: seq<Option<string>>)

  // ---------------------------------------------------------------------
  // Forms and their selector fallbacks

  /** An optional field: filled only when a value is given and the field is
      visible. */
  function FillIfGiven(field: Selector, value: string, visible: set<Selector>): (r: seq<Action>)
    ensures r == [Fill(field, value)] <==> value != "" && field in visible
    ensures r == [] <==> value == "" || field !in visible
  {
    if value != "" && field in visible then [Fill(field, value)] else []
  }

  /** A `for ... break` loop with no `else`: click the first visible
      candidate, or do nothing at all. */
  function ClickFirstVisible(candidates: seq<Selector>, visible: set<Selector>): (r: seq<Action>)
    ensures |r| <= 1
    ensures r == [] <==> forall j :: 0 <= j < |candidates| ==> candidates[j] !in visible
    ensures r != [] ==>
      exists k :: 0 <= k < |candidates| && r == [Click(candidates[k])] &&
        candidates[k] in visible && forall j :: 0 <= j < k ==> candidates[j] !in visible
  {
    FirstVisibleSpec(candidates, visible);
    match FirstVisible(candidates, visible)
    case Some(k) => [Click(candidates[k])]
    case None => []
  }

  /** `create_project`: fill the name, fill the description and identifier
      when given and visible, click the first visible submit button, and
      wait. It never raises: with no submit button visible it simply
      clicks nothing. */
  method CreateProject(name: string, description: string, identifier: string, form: set<Selector>) returns (run: Run)
    ensures run.raised == None
    ensures run.actions ==
      [Fill(PROJECT_NAME_INPUT, name)] +
      FillIfGiven(PROJECT_DESCRIPTION_INPUT, description, form) +
      FillIfGiven(PROJECT_IDENTIFIER_INPUT, identifier, form) +
      ClickFirstVisible(SUBMIT_SELECTORS, form) +
      [WaitForLoad]
    ensures (forall j :: 0 <= j < |SUBMIT_SELECTORS| ==> SUBMIT_SELECTORS[j] !in form) ==>
      forall a :: a in run.actions ==> !a.Click?
  {
    var actions := [Fill(PROJECT_NAME_INPUT, name)];
    actions := actions + FillIfGiven(PROJECT_DESCRIPTION_INPUT, description, form);
    actions := actions + FillIfGiven(PROJECT_IDENTIFIER_INPUT, identifier, form);
    var k := FindFirstVisible(SUBMIT_SELECTORS, form);
    if k.Some? {
      actions := actions + [Click(SUBMIT_SELECTORS[k.value])];
    }
    run := Run(actions + [WaitForLoad], None);
  }

  /** What `add_task(title, description)` does, with `board` visible before
      the click and `form` visible on the task form: click the first
      visible add-task button and wait, fill the title, fill the
      description when given and visible, click the first visible save
      button (or nothing), and wait. With no add-task button visible it
      raises before doing anything. */
  function AddTaskRun(title: string, description: string, board: set<Selector>, form: set<Selector>): Run {
    match FirstVisible(ADD_TASK_SELECTORS, board)
    case None => Run([], Some(ADD_TASK_NOT_FOUND))
    case Some(k) =>
      Run([Click(ADD_TASK_SELECTORS[k]), WaitForLoad, Fill(TASK_TITLE_INPUT, title)] +
        FillIfGiven(TASK_DESCRIPTION_INPUT, description, form) +
        ClickFirstVisible(SAVE_TASK_SELECTORS, form) +
        [WaitForLoad], None)
  }

  /** `add_task` raises exactly when no add-task selector is visible, and
      then before any effect; otherwise it clicks the first visible add-task
      control, waits, fills the title, fills the description if given,
      clicks the first visible save button if any, and ends by waiting for
      the page to load. */
  lemma AddTaskRunSpec(title: string, description: string, board: set<Selector>, form: set<Selector>)
    ensures var r := AddTaskRun(title, description, board, form);
      (r.raised.Some? <==> forall j :: 0 <= j < |ADD_TASK_SELECTORS| ==> ADD_TASK_SELECTORS[j] !in board) &&
      (r.raised.Some? ==> r == Run([], Some(ADD_TASK_NOT_FOUND))) &&
      (r.raised.None? ==>
        |r.actions| >= 4 &&
        (exists k :: 0 <= k < |ADD_TASK_SELECTORS| && r.actions[0] == Click(ADD_TASK_SELECTORS[k]) &&
          ADD_TASK_SELECTORS[k] in board && forall j :: 0 <= j < k ==> ADD_TASK_SELECTORS[j] !in board) &&
        r.actions[1] == WaitForLoad && r.actions[2] == Fill(TASK_TITLE_INPUT, title) &&
        r.actions[3..|r.actions| - 1] ==
          FillIfGiven(TASK_DESCRIPTION_INPUT, description, form) + ClickFirstVisible(SAVE_TASK_SELECTORS, form) &&
        r.actions[|r.actions| - 1] == WaitForLoad)
  {
    FirstVisibleSpec(ADD_TASK_SELECTORS, board);
    var r := AddTaskRun(title, description, board, form);
    if r.raised.None? {
      var k := FirstVisible(ADD_TASK_SELECTORS, board).value;
      var head := [Click(ADD_TASK_SELECTORS[k]), WaitForLoad, Fill(TASK_TITLE_INPUT, title)];
      var middle := FillIfGiven(TASK_DESCRIPTION_INPUT, description, form) + ClickFirstVisible(SAVE_TASK_SELECTORS, form);
      assert r.actions == head + middle + [WaitForLoad];
      assert r.actions[3..|r.actions| - 1] == middle;
      assert r.actions[0] == Click(ADD_TASK_SELECTORS[k]);
    }
  }

  /** `add_task`, step by step. */
  method AddTask(title: string, description: string, board: set<Selector>, form: set<Selector>) returns (run: Run)
    ensures run == AddTaskRun(title, description, board, form)
  {
    var k := FindFirstVisible(ADD_TASK_SELECTORS, board);
    if k.None? {
      return Run([], Some(ADD_TASK_NOT_FOUND));
    }
    var actions := [Click(ADD_TASK_SELECTORS[k.value]), WaitForLoad, Fill(TASK_TITLE_INPUT, title)];
    actions := actions + FillIfGiven(TASK_DESCRIPTION_INPUT, description, form);
    var save := FindFirstVisible(SAVE_TASK_SELECTORS, form);
    if save.Some? {
      actions := actions + [Click(SAVE_TASK_SELECTORS[save.value])];
    }
    run := Run(actions + [WaitForLoad], None);
  }

  /** `get_project_title`: the text of the first visible heading selector,
      or "" when none is visible. `textOf` stands for `get_element_text`. */
  method GetProjectTitle(visible: set<Selector>, textOf: Selector -> string) returns (title: string)
    ensures FirstVisible(TITLE_SELECTORS, visible) == None ==> title == ""
    ensures FirstVisible(TITLE_SELECTORS, visible).Some? ==>
      title == textOf(TITLE_SELECTORS[FirstVisible(TITLE_SELECTORS, visible).value])
    ensures (forall j :: 0 <= j < |TITLE_SELECTORS| ==> TITLE_SELECTORS[j] !in visible) ==> title == ""
  {
    var k := FindFirstVisible(TITLE_SELECTORS, visible);
    FirstVisibleSpec(TITLE_SELECTORS, visible);
    if k.Some? {
      return textOf(TITLE_SELECTORS[k.value]);
    }
    return "";
  }

  // ---------------------------------------------------------------------
  // Adding several tasks

  /** One entry of `add_multiple_tasks`' input: a dictionary with the
      optional keys "title" and "description". */
  type TaskData = map<string, string>

  /** `task_data.get(key, '')`. */
  function Get(data: TaskData, key: string): string {
    if key in data then data[key] else ""
  }

  /** One `add_task(title, description)` call. */
  datatype TaskRequest = TaskRequest(title: string, description: string)

  /** The `add_task` calls `add_multiple_tasks` issues: one per entry whose
      title is non-empty, in input order. */
  function TaskRequests(data: seq<TaskData>): seq<TaskRequest> {
    if data == [] then []
    else
      (if Get(data[0], "title") != "" then [TaskRequest(Get(data[0], "title"), Get(data[0], "description"))] else []) +
      TaskRequests(data[1..])
  }

  /** Input order is kept: the calls for a concatenation are the calls for
      its parts, one after the other. */
  lemma {:induction false} TaskRequestsAppend(a: seq<TaskData>, b: seq<TaskData>)
    ensures TaskRequests(a + b) == TaskRequests(a) + TaskRequests(b)
  {
    if a == [] {
      assert a + b == b;
    } else {
      var head := if Get(a[0], "title") != "" then [TaskRequest(Get(a[0], "title"), Get(a[0], "description"))] else [];
      assert (a + b)[0] == a[0];
      assert (a + b)[1..] == a[1..] + b;
      assert TaskRequests(a + b) == head + TaskRequests(a[1..] + b);
      TaskRequestsAppend(a[1..], b);
      assert TaskRequests(a) == head + TaskRequests(a[1..]);
    }
  }

  /** A call is issued exactly for an entry with a non-empty title, with
      that entry's description or "" when it has none; no call has an empty
      title, and there are never more calls than entries. */
  lemma {:induction false} TaskRequestsSpec(data: seq<TaskData>, req: TaskRequest)
    ensures req in TaskRequests(data) <==>
      exists i :: 0 <= i < |data| && Get(data[i], "title") == req.title != "" &&
        Get(data[i], "description") == req.description
    ensures forall q :: q in TaskRequests(data) ==> q.title != ""
    ensures |TaskRequests(data)| <= |data|
  {
    if data != [] {
      TaskRequestsSpec(data[1..], req);
      if i :| 1 <= i < |data| && Get(data[i], "title") == req.title != "" && Get(data[i], "description") == req.description {
        assert data[1..][i - 1] == data[i];
      }
      if i :| (0 <= i < |data[1..]| && Get(data[1..][i], "title") == req.title != "" &&
        Get(data[1..][i], "description") == req.description) {
        assert data[i + 1] == data[1..][i];
      }
    }
  }

  /** An entry with a title and no description becomes a call with the
      empty description; an entry without a title is skipped. */
  lemma TaskRequestDefaults(entry: TaskData)
    ensures "title" in entry && entry["title"] != "" && "description" !in entry ==>
      TaskRequests([entry]) == [TaskRequest(entry["title"], "")]
    ensures Get(entry, "title") == "" ==> TaskRequests([entry]) == []
  {
  }

  /** The call `add_task(q.title, q.description)` made as call number `k`,
      which sees `boardAt(k)` before the click and `formAt(k)` on the form. */
  function AddTaskAt(boardAt: nat -> set<Selector>, formAt: nat -> set<Selector>): (TaskRequest, nat) -> Run {
    (q: TaskRequest, k: nat) => AddTaskRun(q.title, q.description, boardAt(k), formAt(k))
  }

  /** What `add_multiple_tasks` does with the entries `data` when `n`
      calls were made before them, `call(q, k)` being the run of call
      number `k`: each entry with a title makes the next call, and a call
      that raises ends the loop. */
  function MultipleTaskRuns(data: seq<TaskData>, n: nat, call: (TaskRequest, nat) -> Run): seq<Run>
    decreases |data|
  {
    if data == [] then []
    else if Get(data[0], "title") == "" then MultipleTaskRuns(data[1..], n, call)
    else
      var run := call(TaskRequest(Get(data[0], "title"), Get(data[0], "description")), n);
      [run] + (if run.raised.Some? then [] else MultipleTaskRuns(data[1..], n + 1, call))
  }

  /** The loop makes the calls `TaskRequests` lists, in order: the runs
      are those of a prefix of the calls, each with its own number. */
  lemma {:induction false} MultipleTaskRunsCalls(data: seq<TaskData>, n: nat, call: (TaskRequest, nat) -> Run)
    ensures |MultipleTaskRuns(data, n, call)| <= |TaskRequests(data)|
    ensures forall j :: 0 <= j < |MultipleTaskRuns(data, n, call)| ==>
      MultipleTaskRuns(data, n, call)[j] == call(TaskRequests(data)[j], n + j)
    decreases |data|
  {
    if data != [] {
      var title, description := Get(data[0], "title"), Get(data[0], "description");
      var r, r' := MultipleTaskRuns(data, n, call), MultipleTaskRuns(data[1..], n + 1, call);
      var q, q' := TaskRequests(data), TaskRequests(data[1..]);
      if title == "" {
        MultipleTaskRunsCalls(data[1..], n, call);
        assert r == MultipleTaskRuns(data[1..], n, call) && q == q';
      } else {
        var run := call(TaskRequest(title, description), n);
        assert q == [TaskRequest(title, description)] + q';
        if run.raised.Some? {
          assert r == [run];
        } else {
          MultipleTaskRunsCalls(data[1..], n + 1, call);
          assert r == [run] + r';
          forall j | 1 <= j < |r| ensures r[j] == call(q[j], n + j) {
            assert r[j] == r'[j - 1] && q[j] == q'[j - 1];
          }
        }
      }
    }
  }

  /** The loop stops at the first call that raises: every run but the last
      completed, it stops short of the last call only right after a run
      that raised, and when the last run completed every call was made. */
  lemma {:induction false} MultipleTaskRunsStops(data: seq<TaskData>, n: nat, call: (TaskRequest, nat) -> Run)
    ensures var r, q := MultipleTaskRuns(data, n, call), TaskRequests(data);
      (forall j :: 0 <= j < |r| - 1 ==> r[j].raised == None) &&
      (|r| < |q| ==> r != [] && r[|r| - 1].raised.Some?) &&
      ((r == [] || r[|r| - 1].raised == None) ==> |r| == |q|)
    decreases |data|
  {
    if data != [] {
      var title, description := Get(data[0], "title"), Get(data[0], "description");
      var r, r' := MultipleTaskRuns(data, n, call), MultipleTaskRuns(data[1..], n + 1, call);
      var q, q' := TaskRequests(data), TaskRequests(data[1..]);
      if title == "" {
        MultipleTaskRunsStops(data[1..], n, call);
      } else {
        var run := call(TaskRequest(title, description), n);
        assert |q| == 1 + |q'|;
        if run.raised.None? {
          MultipleTaskRunsStops(data[1..], n + 1, call);
          assert r == [run] + r';
          forall j | 1 <= j < |r| - 1 ensures r[j].raised == None {
            assert r[j] == r'[j - 1];
          }
          if r' != [] {
            assert r[|r| - 1] == r'[|r'| - 1];
          }
        }
      }
    }
  }

  /** `add_multiple_tasks`, step by step. */
  method AddMultipleTasks(data: seq<TaskData>, boardAt: nat -> set<Selector>, formAt: nat -> set<Selector>)
    returns (runs: seq<Run>)
    ensures runs == MultipleTaskRuns(data, 0, AddTaskAt(boardAt, formAt))
  {
    ghost var call := AddTaskAt(boardAt, formAt);
    ghost var total := MultipleTaskRuns(data, 0, call);
    runs := [];
    var i := 0;
    assert data[0..] == data;
    while i < |data|
      invariant i <= |data|
      invariant runs + MultipleTaskRuns(data[i..], |runs|, call) == total
    {
      MultipleTaskRunsStep(data, i, |runs|, call);
      var title := Get(data[i], "title");
      var description := Get(data[i], "description");
      if title != "" {
        var run := AddTask(title, description, boardAt(|runs|), formAt(|runs|));
        assert run == call(TaskRequest(title, description), |runs|);
        AppendAssociative(runs, [run], MultipleTaskRuns(data[i + 1..], |runs| + 1, call));
        if run.raised.Some? {
          return runs + [run];
        }
        runs := runs + [run];
      }
      i := i + 1;
    }
    assert data[i..] == [];
  }

  lemma AppendAssociative<T>(a: seq<T>, b: seq<T>, c: seq<T>)
    ensures a + b + c == a + (b + c)
  {
  }

  /** One step of the loop over the entries: the runs of the entries from
      `i` on are those of entry `i`, if it has a title, followed, unless
      its call raised, by those of the entries after it. */
  lemma MultipleTaskRunsStep(data: seq<TaskData>, i: nat, n: nat, call: (TaskRequest, nat) -> Run)
    requires i < |data|
    ensures MultipleTaskRuns(data[i..], n, call) ==
      if Get(data[i], "title") == "" then MultipleTaskRuns(data[i + 1..], n, call)
      else
        var run := call(TaskRequest(Get(data[i], "title"), Get(data[i], "description")), n);
        [run] + (if run.raised.Some? then [] else MultipleTaskRuns(data[i + 1..], n + 1, call))
  {
  }

  // ---------------------------------------------------------------------
  // Searching the board

  /** The task test of `find_task_by_title`: the card's text, or "" when it
      has none, contains the title (case-sensitive). */
  function TaskMatches(title: string): Option<string> -> bool {
    t => Contains(OrEmpty(t), title)
  }

  /** The card `find_task_by_title` returns, if any. */
  function TaskFor(taskTexts: seq<Option<string>>, title: string): (r: Option<nat>)
    ensures r.Some? ==> r.value < |taskTexts|
  {
    FirstMatch(taskTexts, TaskMatches(title))
  }

  /** The first card, in order, whose text contains the title; none exactly
      when no card's text does. */
  lemma TaskForSpec(taskTexts: seq<Option<string>>, title: string)
    ensures forall k: nat :: TaskFor(taskTexts, title) == Some(k) <==>
      k < |taskTexts| && Contains(OrEmpty(taskTexts[k]), title) &&
      forall j :: 0 <= j < k ==> !Contains(OrEmpty(taskTexts[j]), title)
    ensures TaskFor(taskTexts, title) == None <==>
      forall j :: 0 <= j < |taskTexts| ==> !Contains(OrEmpty(taskTexts[j]), title)
  {
    FirstMatchSpec(taskTexts, TaskMatches(title));
  }

  /** `find_task_by_title`. */
  method FindTaskByTitle(board: Board, title: string) returns (r: Option<nat>)
    ensures r == TaskFor(board.taskTexts, title)
  {
    r := FindFirst(board.taskTexts, TaskMatches(title));
  }

  /** The column test of `find_column_by_title`: the lower-cased column
      text (or "") contains the lower-cased title. */
  function ColumnMatches(title: string): Column -> bool {
    (c: Column) => Contains(Lower(OrEmpty(c.text)), Lower(title))
  }

  /** The column `find_column_by_title` returns, if any. */
  function ColumnFor(columns: seq<Column>, title: string): (r: Option<nat>)
    ensures r.Some? ==> r.value < |columns|
  {
    FirstMatch(columns, ColumnMatches(title))
  }

  /** The first column, in order, whose text contains the title ignoring
      case; the case of the title never matters; and a column whose text
      contains the title exactly is found, or an earlier one is. */
  lemma ColumnForSpec(columns: seq<Column>, title: string, other: string)
    ensures forall k: nat :: ColumnFor(columns, title) == Some(k) <==>
      k < |columns| && Contains(Lower(OrEmpty(columns[k].text)), Lower(title)) &&
      forall j :: 0 <= j < k ==> !Contains(Lower(OrEmpty(columns[j].text)), Lower(title))
    ensures ColumnFor(columns, title) == None <==>
      forall j :: 0 <= j < |columns| ==> !Contains(Lower(OrEmpty(columns[j].text)), Lower(title))
    ensures Lower(other) == Lower(title) ==> ColumnFor(columns, other) == ColumnFor(columns, title)
    ensures forall i :: 0 <= i < |columns| && Contains(OrEmpty(columns[i].text), title) ==>
      ColumnFor(columns, title).Some? && ColumnFor(columns, title).value <= i
  {
    FirstMatchSpec(columns, ColumnMatches(title));
    forall i | 0 <= i < |columns| && Contains(OrEmpty(columns[i].text), title)
      ensures ColumnFor(columns, title).Some? && ColumnFor(columns, title).value <= i
    {
      LowerKeepsContains(OrEmpty(columns[i].text), title);
    }
  }

  /** `find_column_by_title`. */
  method FindColumnByTitle(board: Board, title: string) returns (r: Option<nat>)
    ensures r == ColumnFor(board.columns, title)
  {
    r := FindFirst(board.columns, ColumnMatches(title));
  }

  /** `get_tasks_in_column`: nothing when no column matches, otherwise the
      stripped, non-empty task texts of the matching column. */
  function TasksInColumn(board: Board, column: string): seq<string> {
    match ColumnFor(board.columns, column)
    case None => []
    case Some(k) => StrippedTexts(board.columns[k].taskTexts)
  }

  /** No column, no tasks; otherwise a task title is listed exactly when
      some card of the first matching column has a non-empty text that
      strips to it. */
  lemma TasksInColumnSpec(board: Board, column: string, x: string)
    ensures ColumnFor(board.columns, column) == None ==> TasksInColumn(board, column) == []
    ensures ColumnFor(board.columns, column).Some? ==>
      var cards := board.columns[ColumnFor(board.columns, column).value].taskTexts;
      (x in TasksInColumn(board, column) <==>
        exists i :: 0 <= i < |cards| && Truthy(cards[i]) && Strip(cards[i].value) == x)
  {
    if ColumnFor(board.columns, column).Some? {
      StrippedTextsMember(board.columns[ColumnFor(board.columns, column).value].taskTexts, x);
    }
  }

  /** `is_task_in_column`: some listed task of the column contains the
      title. */
  predicate IsTaskInColumn(board: Board, task: string, column: string) {
    var tasks := TasksInColumn(board, column);
    exists k :: 0 <= k < |tasks| && Contains(tasks[k], task)
  }

  /** A task is in a column exactly when a column matches and one of its
      cards has a non-empty text whose stripped form contains the title. */
  lemma IsTaskInColumnSpec(board: Board, task: string, column: string)
    ensures IsTaskInColumn(board, task, column) <==>
      ColumnFor(board.columns, column).Some? &&
      var cards := board.columns[ColumnFor(board.columns, column).value].taskTexts;
      exists i :: 0 <= i < |cards| && Truthy(cards[i]) && Contains(Strip(cards[i].value), task)
  {
    var tasks := TasksInColumn(board, column);
    if ColumnFor(board.columns, column).Some? {
      var cards := board.columns[ColumnFor(board.columns, column).value].taskTexts;
      if k :| 0 <= k < |tasks| && Contains(tasks[k], task) {
        StrippedTextsMember(cards, tasks[k]);
      }
      if i :| 0 <= i < |cards| && Truthy(cards[i]) && Contains(Strip(cards[i].value), task) {
        StrippedTextsMember(cards, Strip(cards[i].value));
        var k :| 0 <= k < |tasks| && tasks[k] == Strip(cards[i].value);
      }
    }
  }

  /** `count_tasks_in_column`, the number of tasks `get_tasks_in_column`
      lists: 0 without a matching column, never more than the number of
      cards in that column, and exactly that number when every card has
      text. */
  function CountTasksInColumn(board: Board, column: string): (n: nat)
    ensures ColumnFor(board.columns, column) == None ==> n == 0
    ensures ColumnFor(board.columns, column).Some? ==>
      var cards := board.columns[ColumnFor(board.columns, column).value].taskTexts;
      n <= |cards| && ((forall i :: 0 <= i < |cards| ==> Truthy(cards[i])) ==> n == |cards|)
  {
    if ColumnFor(board.columns, column).Some? then
      StrippedTextsLength(board.columns[ColumnFor(board.columns, column).value].taskTexts);
      |TasksInColumn(board, column)|
    else
      |TasksInColumn(board, column)|
  }

  /** The count is the length of the column's task list, and it is
      positive whenever a task is in the column. */
  lemma CountTasksInColumnSpec(board: Board, task: string, column: string)
    ensures CountTasksInColumn(board, column) == |TasksInColumn(board, column)|
    ensures IsTaskInColumn(board, task, column) ==> CountTasksInColumn(board, column) > 0
  {
  }

  /** `get_all_column_names`: the stripped, non-empty column titles. */
  function AllColumnNames(board: Board): seq<string> {
    StrippedTexts(board.columnTitleTexts)
  }

  /** A name is listed exactly when some column-title element has a
      non-empty text that strips to it, and titles keep their order. */
  lemma AllColumnNamesSpec(board: Board, x: string, more: seq<Option<string>>)
    ensures x in AllColumnNames(board) <==>
      exists i :: 0 <= i < |board.columnTitleTexts| && Truthy(board.columnTitleTexts[i]) &&
        Strip(board.columnTitleTexts[i].value) == x
    ensures AllColumnNames(board.(columnTitleTexts := board.columnTitleTexts + more)) ==
      AllColumnNames(board) + StrippedTexts(more)
  {
    StrippedTextsMember(board.columnTitleTexts, x);
    StrippedTextsAppend(board.columnTitleTexts, more);
  }

  // ---------------------------------------------------------------------
  // Moving a task: the checks made before any move is tried

  /** How `move_task_to_column` starts: it raises when the task or the
      column cannot be found, and otherwise goes on to move that task card
      to that column. */
  datatype MoveStart = Refused(message: string) | Attempt(task: nat, column: nat)

  function TaskNotFound(task: string): string {
    "Task '" + task + "' not found on board"
  }

  function ColumnNotFound(column: string): string {
    "Column '" + column + "' not found"
  }

  /** `move_task_to_column`, up to the move itself: the missing task is
      reported first, then the missing column; a move is attempted exactly
      when both are found, and then on the first matching task and column. */
  method MoveTaskToColumn(board: Board, task: string, column: string) returns (r: MoveStart)
    ensures TaskFor(board.taskTexts, task) == None ==> r == Refused(TaskNotFound(task))
    ensures TaskFor(board.taskTexts, task).Some? && ColumnFor(board.columns, column) == None ==>
      r == Refused(ColumnNotFound(column))
    ensures r.Attempt? <==> TaskFor(board.taskTexts, task).Some? && ColumnFor(board.columns, column).Some?
    ensures r.Attempt? ==>
      Some(r.task) == TaskFor(board.taskTexts, task) && Some(r.column) == ColumnFor(board.columns, column)
  {
    var t := FindTaskByTitle(board, task);
    if t.None? {
      return Refused(TaskNotFound(task));
    }
    var c := FindColumnByTitle(board, column);
    if c.None? {
      return Refused(ColumnNotFound(column));
    }
    return Attempt(t.value, c.value);
  }
}
