/**
  The spreadsheet export (excel-export-service/src/excel.ts): a tree of projects, subprojects and workflowitems
  written as rows of six streamed sheets.

  C stands for the formatted cells of a row other than ids, names and the subproject's currency.  Formatting a row
  may throw, which ends the export there.  A subproject's budgets are written by an asynchronous callback that nobody
  awaits: a row of theirs that throws does not keep the other ones from being written, but ends the service at the
  next await (excel-export-service/src/index.ts).
*/
module ExcelExport {
  import opened Prelude

  datatype Document = Document(id: string, hash: string)
  datatype Workflowitem<C> = Workflowitem(id: string, name: string, cells: C, documents: seq<Document>)
  datatype Subproject<C> = Subproject(
    id: string, name: string, currency: string, cells: C, budgets: seq<C>, items: seq<Workflowitem<C>>)
  datatype Project<C> = Project(id: string, name: string, cells: C, budgets: seq<C>, subprojects: seq<Subproject<C>>)

  datatype Row<C> =
    | ProjectRow(projectId: string, projectName: string, cells: C)
    | ProjectBudgetRow(projectId: string, projectName: string, cells: C)
    | SubprojectRow(projectId: string, projectName: string, subprojectId: string, subprojectName: string,
                    currency: string, cells: C)
    | SubprojectBudgetRow(projectId: string, projectName: string, subprojectId: string, subprojectName: string,
                          cells: C)
    | WorkflowitemRow(projectId: string, projectName: string, subprojectId: string, subprojectName: string,
                      currency: string, workflowitemId: string, workflowitemName: string, cells: C)
    | DocumentRow(projectId: string, projectName: string, subprojectId: string, subprojectName: string,
                  workflowitemId: string, workflowitemName: string, documentId: string, hash: string)

  // ---------------------------------------------------------------- the rows, in the order they are committed

  function DocumentRows<C>(p: Project<C>, s: Subproject<C>, w: Workflowitem<C>, ds: seq<Document>): seq<Row<C>> {
    if ds == [] then [] else
      [DocumentRow(p.id, p.name, s.id, s.name, w.id, w.name, ds[0].id, ds[0].hash)] + DocumentRows(p, s, w, ds[1..])
  }

  function ItemRow<C>(p: Project<C>, s: Subproject<C>, w: Workflowitem<C>): Row<C> {
    WorkflowitemRow(p.id, p.name, s.id, s.name, s.currency, w.id, w.name, w.cells)
  }

  function ItemCommits<C>(p: Project<C>, s: Subproject<C>, w: Workflowitem<C>): seq<Row<C>> {
    [ItemRow(p, s, w)] + DocumentRows(p, s, w, w.documents)
  }

  function ItemsCommits<C>(p: Project<C>, s: Subproject<C>, ws: seq<Workflowitem<C>>): seq<Row<C>> {
    if ws == [] then [] else ItemCommits(p, s, ws[0]) + ItemsCommits(p, s, ws[1..])
  }

  function SubprojectBudgetRows<C>(p: Project<C>, s: Subproject<C>, bs: seq<C>): seq<Row<C>> {
    if bs == [] then [] else
      [SubprojectBudgetRow(p.id, p.name, s.id, s.name, bs[0])] + SubprojectBudgetRows(p, s, bs[1..])
  }

  function SubRow<C>(p: Project<C>, s: Subproject<C>): Row<C> {
    SubprojectRow(p.id, p.name, s.id, s.name, s.currency, s.cells)
  }

  function SubprojectCommits<C>(p: Project<C>, s: Subproject<C>): seq<Row<C>> {
    [SubRow(p, s)] + SubprojectBudgetRows(p, s, s.budgets) + ItemsCommits(p, s, s.items)
  }

  function SubprojectsCommits<C>(p: Project<C>, ss: seq<Subproject<C>>): seq<Row<C>> {
    if ss == [] then [] else SubprojectCommits(p, ss[0]) + SubprojectsCommits(p, ss[1..])
  }

  function ProjectBudgetRows<C>(p: Project<C>, bs: seq<C>): seq<Row<C>> {
    if bs == [] then [] else [ProjectBudgetRow(p.id, p.name, bs[0])] + ProjectBudgetRows(p, bs[1..])
  }

  function ProjectCommits<C>(p: Project<C>): seq<Row<C>> {
    [ProjectRow(p.id, p.name, p.cells)] + ProjectBudgetRows(p, p.budgets) + SubprojectsCommits(p, p.subprojects)
  }

  /** The whole export. */
  function Commits<C>(ps: seq<Project<C>>): seq<Row<C>> {
    if ps == [] then [] else ProjectCommits(ps[0]) + Commits(ps[1..])
  }

  // ---------------------------------------------------------------- the six sheets

  datatype Kind = Projects | ProjectBudgets | Subprojects | SubprojectBudgets | Workflowitems | Documents

  function KindOf<C>(r: Row<C>): Kind {
    match r
    case ProjectRow(_, _, _) => Projects
    case ProjectBudgetRow(_, _, _) => ProjectBudgets
    case SubprojectRow(_, _, _, _, _, _) => Subprojects
    case SubprojectBudgetRow(_, _, _, _, _) => SubprojectBudgets
    case WorkflowitemRow(_, _, _, _, _, _, _, _) => Workflowitems
    case DocumentRow(_, _, _, _, _, _, _, _) => Documents
  }

  /** The rows of one sheet among those committed. */
  function Sheet<C>(kind: Kind, log: seq<Row<C>>): seq<Row<C>> {
    if log == [] then [] else OfKind(kind, log[0]) + Sheet(kind, log[1..])
  }

  function OfKind<C>(kind: Kind, r: Row<C>): seq<Row<C>> {
    if KindOf(r) == kind then [r] else []
  }

  lemma {:induction false} SheetAppend<C>(kind: Kind, a: seq<Row<C>>, b: seq<Row<C>>)
    ensures Sheet(kind, a + b) == Sheet(kind, a) + Sheet(kind, b)
  {
    if a == [] {
      assert a + b == b;
    } else {
      SheetAppend(kind, a[1..], b);
      assert (a + b)[1..] == a[1..] + b;
      ConcatAssoc(OfKind(kind, a[0]), Sheet(kind, a[1..]), Sheet(kind, b));
    }
  }

  /** All six sheets. */
  datatype Sheets<C> = Sheets(
    projects: seq<Row<C>>, projectBudgets: seq<Row<C>>,
    subprojects: seq<Row<C>>, subprojectBudgets: seq<Row<C>>,
    workflowitems: seq<Row<C>>, documents: seq<Row<C>>)

  function SheetsOf<C>(log: seq<Row<C>>): Sheets<C> {
    Sheets(Sheet(Projects, log), Sheet(ProjectBudgets, log), Sheet(Subprojects, log),
           Sheet(SubprojectBudgets, log), Sheet(Workflowitems, log), Sheet(Documents, log))
  }

  function Add<C>(sheets: Sheets<C>, row: Row<C>): Sheets<C> {
    match KindOf(row)
    case Projects => sheets.(projects := sheets.projects + [row])
    case ProjectBudgets => sheets.(projectBudgets := sheets.projectBudgets + [row])
    case Subprojects => sheets.(subprojects := sheets.subprojects + [row])
    case SubprojectBudgets => sheets.(subprojectBudgets := sheets.subprojectBudgets + [row])
    case Workflowitems => sheets.(workflowitems := sheets.workflowitems + [row])
    case Documents => sheets.(documents := sheets.documents + [row])
  }

  lemma SheetSnoc<C>(kind: Kind, log: seq<Row<C>>, row: Row<C>)
    ensures Sheet(kind, log + [row]) == if KindOf(row) == kind then Sheet(kind, log) + [row] else Sheet(kind, log)
  {
    SheetAppend(kind, log, [row]);
    assert Sheet(kind, [row]) == OfKind(kind, row);
  }

  lemma SheetsSnoc<C>(log: seq<Row<C>>, row: Row<C>)
    ensures SheetsOf(log + [row]) == Add(SheetsOf(log), row)
  {
    SheetSnoc(Projects, log, row);
    SheetSnoc(ProjectBudgets, log, row);
    SheetSnoc(Subprojects, log, row);
    SheetSnoc(SubprojectBudgets, log, row);
    SheetSnoc(Workflowitems, log, row);
    SheetSnoc(Documents, log, row);
  }

  /** The elements of a, in this order, are among those of b. */
  ghost predicate Part<T>(a: seq<T>, b: seq<T>) {
    a == [] || (b != [] && ((a[0] == b[0] && Part(a[1..], b[1..])) || Part(a, b[1..])))
  }

  /** The rows that did not throw. */
  function Survivors<T>(rows: seq<T>, thrown: seq<bool>): seq<T>
    requires |thrown| == |rows|
  {
    if rows == [] then []
    else
      var n := |rows| - 1;
      Survivors(rows[..n], thrown[..n]) + if thrown[n] then [] else [rows[n]]
  }

  /** A row was written after one that threw. */
  predicate Late(thrown: seq<bool>) {
    exists i, j :: 0 <= i < j < |thrown| && thrown[i] && !thrown[j]
  }

  /** Rows of budgets, all of the subproject whose row is the last one of `head`. */
  ghost predicate BudgetsOfLast<C>(head: seq<Row<C>>, block: seq<Row<C>>) {
    block == [] ||
    (head != [] && forall i :: 0 <= i < |block| ==>
      block[i].SubprojectBudgetRow? && IsParent(head[|head| - 1], block[i]))
  }

  ghost predicate TornAt<C>(rows: seq<Row<C>>, cut: seq<Row<C>>, head: seq<Row<C>>, block: seq<Row<C>>,
                            tail: seq<Row<C>>, thrown: seq<bool>) {
    && rows == head + block + tail && BudgetsOfLast(head, block)
    && |thrown| == |block| && cut == head + Survivors(block, thrown)
  }

  /**
    A start of the rows, or a start that ends with a subproject's row, followed by those rows of its budgets that did
    not throw; `late` says whether one was written after one that threw.
  */
  ghost predicate Torn<C(!new)>(rows: seq<Row<C>>, cut: seq<Row<C>>, late: bool) {
    exists head, block, tail, thrown :: TornAt(rows, cut, head, block, tail, thrown) && late == Late(thrown)
  }

  lemma TornStart<C(!new)>(rows: seq<Row<C>>, rest: seq<Row<C>>)
    ensures Torn(rows + rest, rows, false)
  {
    assert TornAt(rows + rest, rows, rows, [], rest, []);
  }

  lemma TornMore<C(!new)>(rows: seq<Row<C>>, cut: seq<Row<C>>, late: bool, rest: seq<Row<C>>)
    requires Torn(rows, cut, late)
    ensures Torn(rows + rest, cut, late)
  {
    var head, block, tail, thrown :| TornAt(rows, cut, head, block, tail, thrown) && late == Late(thrown);
    ConcatAssoc(head + block, tail, rest);
    assert TornAt(rows + rest, cut, head, block, tail + rest, thrown);
  }

  lemma TornBehind<C(!new)>(first: seq<Row<C>>, rows: seq<Row<C>>, cut: seq<Row<C>>, late: bool)
    requires Torn(rows, cut, late)
    ensures Torn(first + rows, first + cut, late)
  {
    var head, block, tail, thrown :| TornAt(rows, cut, head, block, tail, thrown) && late == Late(thrown);
    ConcatAssoc(first, head, block);
    ConcatAssoc(first, head + block, tail);
    ConcatAssoc(first, head, Survivors(block, thrown));
    assert TornAt(first + rows, first + cut, first + head, block, tail, thrown);
  }

  /** The log grew by the given rows or, when something threw, by a torn piece of them. */
  ghost predicate Extended<C(!new)>(before: seq<Row<C>>, after: seq<Row<C>>, rows: seq<Row<C>>, ok: bool, late: bool) {
    before <= after && if ok then !late && after == before + rows else Torn(rows, after[|before|..], late)
  }

  lemma ExtendedNothing<C(!new)>(a: seq<Row<C>>, r: seq<Row<C>>)
    ensures Extended(a, a, r, false, false)
  {
    var none: seq<Row<C>> := [];
    TornStart(none, r);
    assert none + r == r && a[|a|..] == none;
  }

  lemma ExtendedThen<C(!new)>(a: seq<Row<C>>, b: seq<Row<C>>, c: seq<Row<C>>, r: seq<Row<C>>, t: seq<Row<C>>,
                              ok: bool, late: bool)
    requires Extended(a, b, r, true, false) && Extended(b, c, t, ok, late)
    ensures Extended(a, c, r + t, ok, late)
  {
    ConcatAssoc(a, r, t);
    if !ok {
      TornBehind(r, t, c[|b|..], late);
      assert c[|a|..] == r + c[|b|..];
    }
  }

  lemma ExtendedCut<C(!new)>(a: seq<Row<C>>, b: seq<Row<C>>, r: seq<Row<C>>, t: seq<Row<C>>, late: bool)
    requires Extended(a, b, r, false, late)
    ensures Extended(a, b, r + t, false, late)
  {
    TornMore(r, b[|a|..], late, t);
  }

  /**
    The streaming workbook; `log` is every row committed so far, in order, and `failed` says that formatting,
    committing or fetching has thrown.  `late` says that a row of a subproject's budgets was written after one that
    threw.
  */
  class Workbook<C(!new)> {
    var projectSheet: seq<Row<C>>
    var projectProjectedBudgetsSheet: seq<Row<C>>
    var subprojectSheet: seq<Row<C>>
    var subprojectProjectedBudgetsSheet: seq<Row<C>>
    var workflowitemSheet: seq<Row<C>>
    var documentSheet: seq<Row<C>>
    ghost var log: seq<Row<C>>
    ghost var failed: bool
    ghost var late: bool

    function View(): Sheets<C>
      reads this
    {
      Sheets(projectSheet, projectProjectedBudgetsSheet, subprojectSheet, subprojectProjectedBudgetsSheet,
             workflowitemSheet, documentSheet)
    }

    ghost predicate Valid()
      reads this
    {
      View() == SheetsOf(log)
    }

    constructor ()
      ensures Valid() && log == [] && !failed && !late
    {
      projectSheet, projectProjectedBudgetsSheet, subprojectSheet := [], [], [];
      subprojectProjectedBudgetsSheet, workflowitemSheet, documentSheet := [], [], [];
      log, failed, late := [], false, false;
    }

    /** addRow(...).commit(): the row goes to the sheet it belongs to. */
    method Commit(row: Row<C>)
      modifies this
      ensures View() == Add(old(View()), row) && log == old(log)
      ensures failed == old(failed) && late == old(late)
    {
      match row {
        case ProjectRow(_, _, _) =>
          projectSheet := projectSheet + [row];
        case ProjectBudgetRow(_, _, _) =>
          projectProjectedBudgetsSheet := projectProjectedBudgetsSheet + [row];
        case SubprojectRow(_, _, _, _, _, _) =>
          subprojectSheet := subprojectSheet + [row];
        case SubprojectBudgetRow(_, _, _, _, _) =>
          subprojectProjectedBudgetsSheet := subprojectProjectedBudgetsSheet + [row];
        case WorkflowitemRow(_, _, _, _, _, _, _, _) =>
          workflowitemSheet := workflowitemSheet + [row];
        case DocumentRow(_, _, _, _, _, _, _, _) =>
          documentSheet := documentSheet + [row];
      }
    }

    /** Something outside this model may throw. */
    method Try() returns (ok: bool)
      modifies this`failed
      ensures failed == (old(failed) || !ok)
    {
      ok := *;
      failed := failed || !ok;
    }

    /** Formatting the row may throw before it is committed. */
    method AddRow(row: Row<C>) returns (ok: bool)
      requires Valid()
      modifies this
      ensures Valid()
      ensures log == (if ok then old(log) + [row] else old(log)) && late == old(late)
      ensures failed == (old(failed) || !ok)
    {
      ok := Try();
      if ok {
        SheetsSnoc(log, row);
        Commit(row);
        log := log + [row];
      }
    }

    /** Commits the rows one by one until one of them throws. */
    method AddRows(rows: seq<Row<C>>) returns (ok: bool)
      requires Valid() && !late
      modifies this
      ensures Valid() && Extended(old(log), log, rows, ok, late)
      ensures failed == (old(failed) || !ok)
    {
      ghost var start := log;
      for i := 0 to |rows|
        invariant Valid() && Extended(start, log, rows[..i], true, late) && failed == old(failed)
      {
        SplitAt(rows, i);
        ghost var mid := log;
        ok := AddRow(rows[i]);
        if !ok {
          ExtendedNothing(mid, [rows[i]]);
        }
        ExtendedThen(start, mid, log, rows[..i], [rows[i]], ok, late);
        if !ok {
          ExtendedCut(start, log, rows[..i] + [rows[i]], rows[i + 1..], late);
          return;
        }
      }
      assert rows[..|rows|] == rows;
      ok := true;
    }

    /** The innermost loop: the workflowitems of one subproject, which are fetched first. */
    method WriteWorkflowitems(p: Project<C>, s: Subproject<C>) returns (ok: bool)
      requires Valid() && !late
      modifies this
      ensures Valid() && Extended(old(log), log, ItemsCommits(p, s, s.items), ok, late)
      ensures failed == (old(failed) || !ok)
    {
      ghost var start := log;
      ok := Try();
      if !ok {
        ExtendedNothing(start, ItemsCommits(p, s, s.items));
        return;
      }
      for i := 0 to |s.items|
        invariant Valid() && Extended(start, log, ItemsCommits(p, s, s.items[..i]), true, late) && failed == old(failed)
      {
        ItemsSplit(p, s, s.items, i);
        ghost var done, mid := ItemsCommits(p, s, s.items[..i]), log;
        ok := WriteWorkflowitem(p, s, s.items[i]);
        ExtendedThen(start, mid, log, done, ItemCommits(p, s, s.items[i]), ok, late);
        if !ok {
          ExtendedCut(start, log, done + ItemCommits(p, s, s.items[i]), ItemsCommits(p, s, s.items[i + 1..]), late);
          return;
        }
      }
      assert s.items[..|s.items|] == s.items;
      ok := true;
    }

    method WriteWorkflowitem(p: Project<C>, s: Subproject<C>, w: Workflowitem<C>) returns (ok: bool)
      requires Valid() && !late
      modifies this
      ensures Valid() && Extended(old(log), log, ItemCommits(p, s, w), ok, late)
      ensures failed == (old(failed) || !ok)
    {
      ghost var start := log;
      ok := AddRow(ItemRow(p, s, w));
      if !ok {
        ExtendedNothing(start, ItemCommits(p, s, w));
        return;
      }
      ghost var mid := log;
      ok := AddRows(DocumentRows(p, s, w, w.documents));
      ExtendedThen(start, mid, log, [ItemRow(p, s, w)], DocumentRows(p, s, w, w.documents), ok, late);
    }

    /** Commits each row that does not throw. */
    method AddEachRow(rows: seq<Row<C>>) returns (ok: bool, ghost thrown: seq<bool>)
      requires Valid() && !late
      modifies this
      ensures |thrown| == |rows| && (ok <==> true !in thrown)
      ensures Valid() && log == old(log) + Survivors(rows, thrown) && late == Late(thrown)
      ensures failed == (old(failed) || !ok)
    {
      ok, thrown := true, [];
      for i := 0 to |rows|
        invariant |thrown| == i && (ok <==> true !in thrown)
        invariant Valid() && log == old(log) + Survivors(rows[..i], thrown)
        invariant failed == (old(failed) || !ok) && !late
      {
        LogNext(old(log), rows, thrown, i);
        var one := AddRow(rows[i]);
        ok := ok && one;
        thrown := thrown + [!one];
      }
      assert rows[..|rows|] == rows;
      late := Late(thrown);
    }

    /** The middle loop: the subprojects of one project, which are fetched first. */
    method WriteSubprojects(p: Project<C>) returns (ok: bool)
      requires Valid() && !late
      modifies this
      ensures Valid() && Extended(old(log), log, SubprojectsCommits(p, p.subprojects), ok, late)
      ensures failed == (old(failed) || !ok)
    {
      ghost var start := log;
      ok := Try();
      if !ok {
        ExtendedNothing(start, SubprojectsCommits(p, p.subprojects));
        return;
      }
      for i := 0 to |p.subprojects|
        invariant Valid() && Extended(start, log, SubprojectsCommits(p, p.subprojects[..i]), true, late)
        invariant failed == old(failed)
      {
        SubprojectsSplit(p, p.subprojects, i);
        ghost var done, mid := SubprojectsCommits(p, p.subprojects[..i]), log;
        ok := WriteSubproject(p, p.subprojects[i]);
        ghost var rows := SubprojectCommits(p, p.subprojects[i]);
        ExtendedThen(start, mid, log, done, rows, ok, late);
        if !ok {
          ExtendedCut(start, log, done + rows, SubprojectsCommits(p, p.subprojects[i + 1..]), late);
          return;
        }
      }
      assert p.subprojects[..|p.subprojects|] == p.subprojects;
      ok := true;
    }

    /** A budget row that threw ends the service while the workflowitems are being fetched. */
    method WriteSubproject(p: Project<C>, s: Subproject<C>) returns (ok: bool)
      requires Valid() && !late
      modifies this
      ensures Valid() && Extended(old(log), log, SubprojectCommits(p, s), ok, late)
      ensures failed == (old(failed) || !ok)
    {
      ghost var start := log;
      ghost var row, budgets, items := SubRow(p, s), SubprojectBudgetRows(p, s, s.budgets), ItemsCommits(p, s, s.items);
      ok := AddRow(SubRow(p, s));
      if !ok {
        ExtendedNothing(start, SubprojectCommits(p, s));
        return;
      }
      ghost var thrown;
      ok, thrown := AddEachRow(SubprojectBudgetRows(p, s, s.budgets));
      ConcatAssoc(start, [row], Survivors(budgets, thrown));
      if !ok {
        BudgetsTorn(p, s, thrown);
        assert log[|start|..] == [row] + Survivors(budgets, thrown);
        return;
      }
      NoneThrown(budgets, thrown);
      ghost var mid := log;
      ok := WriteWorkflowitems(p, s);
      ExtendedThen(start, mid, log, [row] + budgets, items, ok, late);
    }

    method WriteProject(p: Project<C>) returns (ok: bool)
      requires Valid() && !late
      modifies this
      ensures Valid() && Extended(old(log), log, ProjectCommits(p), ok, late)
      ensures failed == (old(failed) || !ok)
    {
      ghost var start, row := log, ProjectRow(p.id, p.name, p.cells);
      ghost var budgets, subs := ProjectBudgetRows(p, p.budgets), SubprojectsCommits(p, p.subprojects);
      ok := AddRow(ProjectRow(p.id, p.name, p.cells));
      if !ok {
        ExtendedNothing(start, ProjectCommits(p));
        return;
      }
      ghost var mid := log;
      ok := AddRows(ProjectBudgetRows(p, p.budgets));
      ExtendedThen(start, mid, log, [row], budgets, ok, late);
      if !ok {
        ExtendedCut(start, log, [row] + budgets, subs, late);
        return;
      }
      mid := log;
      ok := WriteSubprojects(p);
      ExtendedThen(start, mid, log, [row] + budgets, subs, ok, late);
    }

    /**
      writeXLSX: the export stops at the first error, and what is committed by then stays committed.  If it succeeds,
      its sheets hold the whole tree.
    */
    method WriteXLSX(projects: seq<Project<C>>) returns (ok: bool)
      requires Valid() && log == [] && !late
      modifies this
      ensures Valid() && if ok then log == Commits(projects) else Torn(Commits(projects), log, late)
      ensures !late ==> log <= Commits(projects)
      ensures late && Different(Commits(projects)) ==> !(log <= Commits(projects))
      ensures ok && DistinctIds(projects) ==> ReadTree(View()) == projects
      ensures failed == (old(failed) || !ok)
    {
      ghost var start := log;
      ok := Try();
      if !ok {
        ExtendedNothing(start, Commits(projects));
        assert log[|start|..] == log;
        return;
      }
      ok := WriteProjects(projects);
      assert log[|start|..] == log;
      if ok {
        assert [] + Commits(projects) == Commits(projects);
        if DistinctIds(projects) {
          SheetsRebuildTree(projects);
        }
        ok := Try();
        TornStart(Commits(projects), []);
        assert Commits(projects) + [] == Commits(projects);
      } else {
        TornIsStartIff(Commits(projects), log, late);
      }
    }

    /** The outer loop. */
    method WriteProjects(projects: seq<Project<C>>) returns (ok: bool)
      requires Valid() && !late
      modifies this
      ensures Valid() && Extended(old(log), log, Commits(projects), ok, late)
      ensures failed == (old(failed) || !ok)
    {
      ghost var start := log;
      for i := 0 to |projects|
        invariant Valid() && Extended(start, log, Commits(projects[..i]), true, late)
        invariant failed == old(failed)
      {
        CommitsSplit(projects, i);
        ghost var done, mid := Commits(projects[..i]), log;
        ok := WriteProject(projects[i]);
        ExtendedThen(start, mid, log, done, ProjectCommits(projects[i]), ok, late);
        if !ok {
          ExtendedCut(start, log, done + ProjectCommits(projects[i]), Commits(projects[i + 1..]), late);
          return;
        }
      }
      assert projects[..|projects|] == projects;
      ok := true;
    }
  }

  // ---------------------------------------------------------------- parts

  lemma {:induction false} PartSnoc<T>(a: seq<T>, b: seq<T>, x: T)
    requires Part(a, b)
    ensures Part(a, b + [x]) && Part(a + [x], b + [x])
    decreases |b|
  {
    var bx := b + [x];
    if b == [] {
      assert (a + [x])[1..] == [];
    } else {
      assert bx[1..] == b[1..] + [x];
      if a != [] && a[0] == b[0] && Part(a[1..], b[1..]) {
        PartSnoc(a[1..], b[1..], x);
        assert (a + [x])[1..] == a[1..] + [x];
      } else {
        PartSnoc(a, b[1..], x);
      }
    }
  }

  /** Appending to the whole, or the same in front of both, leaves a part a part. */
  lemma {:induction false} PartMore<T>(front: seq<T>, a: seq<T>, b: seq<T>, rest: seq<T>)
    requires Part(a, b)
    ensures Part(a, b + rest) && Part(front + a, front + b + rest)
    decreases |front|, |b|
  {
    if front != [] {
      PartMore(front[1..], a, b, rest);
      assert (front + a)[1..] == front[1..] + a && (front + b + rest)[1..] == front[1..] + b + rest;
    } else {
      assert front + a == a && front + b + rest == b + rest;
      if a != [] {
        assert (b + rest)[1..] == b[1..] + rest;
        if a[0] == b[0] && Part(a[1..], b[1..]) {
          PartMore([], a[1..], b[1..], rest);
        } else {
          PartMore([], a, b[1..], rest);
        }
      }
    }
  }

  lemma {:induction false} PartMember<T>(a: seq<T>, b: seq<T>, x: T)
    requires Part(a, b) && x in a
    ensures x in b
    decreases |b|
  {
    if a[0] == b[0] && Part(a[1..], b[1..]) {
      if x != a[0] {
        PartMember(a[1..], b[1..], x);
      }
    } else {
      PartMember(a, b[1..], x);
    }
  }

  lemma {:induction false} SheetPart<C>(kind: Kind, a: seq<Row<C>>, b: seq<Row<C>>)
    requires Part(a, b)
    ensures Part(Sheet(kind, a), Sheet(kind, b))
    decreases |b|
  {
    if a != [] {
      if a[0] == b[0] && Part(a[1..], b[1..]) {
        SheetPart(kind, a[1..], b[1..]);
        PartMore(OfKind(kind, a[0]), Sheet(kind, a[1..]), Sheet(kind, b[1..]), []);
        assert OfKind(kind, b[0]) + Sheet(kind, b[1..]) + [] == Sheet(kind, b);
      } else {
        SheetPart(kind, a, b[1..]);
        PartLater(OfKind(kind, b[0]), Sheet(kind, a), Sheet(kind, b[1..]));
      }
    }
  }

  lemma {:induction false} PartLater<T>(front: seq<T>, a: seq<T>, b: seq<T>)
    requires Part(a, b)
    ensures Part(a, front + b)
  {
    if front == [] {
      assert front + b == b;
    } else {
      PartLater(front[1..], a, b);
      assert (front + b)[1..] == front[1..] + b;
    }
  }

  // ---------------------------------------------------------------- rows that throw

  lemma SurvivorsSnoc<T>(rows: seq<T>, thrown: seq<bool>, i: nat)
    requires i < |rows| && |thrown| == i
    ensures Survivors(rows[..i + 1], thrown + [true]) == Survivors(rows[..i], thrown)
    ensures Survivors(rows[..i + 1], thrown + [false]) == Survivors(rows[..i], thrown) + [rows[i]]
  {
    assert rows[..i + 1][..i] == rows[..i];
    assert (thrown + [true])[..i] == thrown && (thrown + [false])[..i] == thrown;
  }

  /** One more row behind the survivors so far. */
  lemma LogNext<T>(start: seq<T>, rows: seq<T>, thrown: seq<bool>, i: nat)
    requires i < |rows| && |thrown| == i
    ensures start + Survivors(rows[..i + 1], thrown + [true]) == start + Survivors(rows[..i], thrown)
    ensures start + Survivors(rows[..i + 1], thrown + [false]) == (start + Survivors(rows[..i], thrown)) + [rows[i]]
  {
    SurvivorsSnoc(rows, thrown, i);
    ConcatAssoc(start, Survivors(rows[..i], thrown), [rows[i]]);
  }

  lemma {:induction false} NoneThrown<T>(rows: seq<T>, thrown: seq<bool>)
    requires |thrown| == |rows| && true !in thrown
    ensures Survivors(rows, thrown) == rows && !Late(thrown)
  {
    if rows != [] {
      var n := |rows| - 1;
      assert thrown[n] in thrown;
      NoneThrown(rows[..n], thrown[..n]);
      assert rows == rows[..n] + [rows[n]];
    }
  }

  lemma {:induction false} SurvivorsPart<T>(rows: seq<T>, thrown: seq<bool>)
    requires |thrown| == |rows|
    ensures Part(Survivors(rows, thrown), rows)
  {
    if rows != [] {
      var n := |rows| - 1;
      var kept := Survivors(rows[..n], thrown[..n]);
      SurvivorsPart(rows[..n], thrown[..n]);
      PartSnoc(kept, rows[..n], rows[n]);
      assert rows == rows[..n] + [rows[n]];
      assert Survivors(rows, thrown) == if thrown[n] then kept else kept + [rows[n]];
    }
  }

  lemma {:induction false} SurvivorsLength<T>(rows: seq<T>, thrown: seq<bool>)
    requires |thrown| == |rows|
    ensures |Survivors(rows, thrown)| <= |rows| && (true in thrown ==> |Survivors(rows, thrown)| < |rows|)
  {
    if rows != [] {
      var n := |rows| - 1;
      SurvivorsLength(rows[..n], thrown[..n]);
      assert thrown == thrown[..n] + [thrown[n]];
    }
  }

  /** Where the j-th row ends up, if it did not throw. */
  lemma {:induction false} SurvivorAt<T>(rows: seq<T>, thrown: seq<bool>, i: nat, j: nat) returns (q: nat)
    requires |thrown| == |rows| && i < j < |rows| && thrown[i] && !thrown[j]
    ensures q < j && q < |Survivors(rows, thrown)| && Survivors(rows, thrown)[q] == rows[j]
  {
    var n := |rows| - 1;
    if j < n {
      q := SurvivorAt(rows[..n], thrown[..n], i, j);
    } else {
      assert thrown[..n][i] in thrown[..n];
      SurvivorsLength(rows[..n], thrown[..n]);
      q := |Survivors(rows[..n], thrown[..n])|;
    }
  }

  /** No two of them are the same. */
  ghost predicate Different<T>(rows: seq<T>) {
    forall i, j :: 0 <= i < j < |rows| ==> rows[i] != rows[j]
  }

  /** As long as nothing is written after a row that threw, the survivors are a start of the rows. */
  lemma {:induction false} InTimeIsStart<T>(rows: seq<T>, thrown: seq<bool>)
    requires |thrown| == |rows| && !Late(thrown)
    ensures Survivors(rows, thrown) <= rows
  {
    if rows != [] {
      var n := |rows| - 1;
      assert rows == rows[..n] + [rows[n]];
      var last := thrown[n];
      if last {
        forall i, j | 0 <= i < j < n
          ensures thrown[..n][i] ==> thrown[..n][j]
        {
          assert thrown[i] ==> thrown[j];
        }
        InTimeIsStart(rows[..n], thrown[..n]);
      } else {
        forall i | 0 <= i < n
          ensures !thrown[..n][i]
        {
          assert !thrown[i] || last;
        }
        NoneThrown(rows[..n], thrown[..n]);
      }
    }
  }

  /** Of different rows the survivors are a start exactly if none was written after one that threw. */
  lemma {:induction false} SurvivorsAreStartIff<T>(rows: seq<T>, thrown: seq<bool>)
    requires |thrown| == |rows| && Different(rows)
    ensures Survivors(rows, thrown) <= rows <==> !Late(thrown)
  {
    if Late(thrown) {
      var i, j :| 0 <= i < j < |thrown| && thrown[i] && !thrown[j];
      var q := SurvivorAt(rows, thrown, i, j);
      assert rows[q] != rows[j];
    } else {
      InTimeIsStart(rows, thrown);
    }
  }

  /** A torn log is a start of the rows exactly if what is left of the budgets is a start of theirs. */
  lemma TornIsStart<C>(rows: seq<Row<C>>, cut: seq<Row<C>>, head: seq<Row<C>>, block: seq<Row<C>>,
                       tail: seq<Row<C>>, thrown: seq<bool>)
    requires TornAt(rows, cut, head, block, tail, thrown)
    ensures cut <= rows <==> Survivors(block, thrown) <= block
  {
    var kept := Survivors(block, thrown);
    SurvivorsLength(block, thrown);
    assert rows[|head|..|head| + |kept|] == block[..|kept|];
    assert cut[|head|..] == kept && cut[..|head|] == rows[..|head|] == head;
    if cut <= rows {
      assert rows[..|cut|] == cut;
      assert rows[..|cut|][|head|..] == rows[|head|..|cut|];
    } else {
      assert rows[..|cut|] == rows[..|head|] + rows[|head|..|cut|];
    }
  }

  /** For different rows: the log of an export that failed is a start of them exactly if it is not late. */
  lemma TornIsStartIff<C(!new)>(rows: seq<Row<C>>, cut: seq<Row<C>>, late: bool)
    requires Torn(rows, cut, late)
    ensures !late ==> cut <= rows
    ensures Different(rows) ==> (cut <= rows <==> !late)
  {
    var head, block, tail, thrown :| TornAt(rows, cut, head, block, tail, thrown) && late == Late(thrown);
    TornIsStart(rows, cut, head, block, tail, thrown);
    if !late {
      InTimeIsStart(block, thrown);
    } else if Different(rows) {
      forall i, j | 0 <= i < j < |block|
        ensures block[i] != block[j]
      {
        assert block[i] == rows[|head| + i] && block[j] == rows[|head| + j];
      }
      SurvivorsAreStartIff(block, thrown);
    }
  }

  /** What is left of a subproject's rows when some of its budget rows threw. */
  lemma BudgetsTorn<C(!new)>(p: Project<C>, s: Subproject<C>, thrown: seq<bool>)
    requires |thrown| == |SubprojectBudgetRows(p, s, s.budgets)|
    ensures Torn(SubprojectCommits(p, s), [SubRow(p, s)] + Survivors(SubprojectBudgetRows(p, s, s.budgets), thrown),
                 Late(thrown))
  {
    var head, block, tail := [SubRow(p, s)], SubprojectBudgetRows(p, s, s.budgets), ItemsCommits(p, s, s.items);
    SubprojectBudgetRowsParent(p, s, s.budgets);
    SubprojectBudgetRowsIds(p, s, s.budgets);
    forall i | 0 <= i < |block|
      ensures block[i].SubprojectBudgetRow? && IsParent(head[|head| - 1], block[i])
    {
      assert KindOf(block[i]) == SubprojectBudgets;
    }
    assert TornAt(SubprojectCommits(p, s), head + Survivors(block, thrown), head, block, tail, thrown);
  }

  /** A start of the survivors is what is left when all later rows throw as well. */
  lemma {:induction false} FewerSurvive<T>(rows: seq<T>, thrown: seq<bool>, m: nat) returns (more: seq<bool>)
    requires |thrown| == |rows| && m <= |Survivors(rows, thrown)|
    ensures |more| == |rows| && Survivors(rows, more) == Survivors(rows, thrown)[..m]
    ensures Late(more) ==> Late(thrown)
  {
    var all := Survivors(rows, thrown);
    if m == |all| {
      more := thrown;
      assert all[..m] == all;
    } else {
      var n := |rows| - 1;
      var front := FewerSurvive(rows[..n], thrown[..n], m);
      more := front + [true];
      assert more[..n] == front;
      if Late(more) {
        var i, j :| 0 <= i < j < |more| && more[i] && !more[j];
        assert front[i] && !front[j];
        var k, l :| 0 <= k < l < n && thrown[..n][k] && !thrown[..n][l];
        assert thrown[k] && !thrown[l];
      }
    }
  }

  /** Whatever was in the log before is torn, too. */
  lemma TornEarlier<C(!new)>(rows: seq<Row<C>>, cut: seq<Row<C>>, late: bool, earlier: seq<Row<C>>) returns (l: bool)
    requires Torn(rows, cut, late) && earlier <= cut
    ensures Torn(rows, earlier, l) && (l ==> late)
  {
    var head, block, tail, thrown :| TornAt(rows, cut, head, block, tail, thrown) && late == Late(thrown);
    var n, kept := |earlier|, Survivors(block, thrown);
    if n <= |head| {
      ConcatAssoc(head, block, tail);
      assert earlier == head[..n] && head == head[..n] + head[n..];
      ConcatAssoc(head[..n], head[n..], block + tail);
      TornStart(head[..n], head[n..] + (block + tail));
      l := false;
    } else {
      var more := FewerSurvive(block, thrown, n - |head|);
      assert earlier == cut[..n] == head + kept[..n - |head|];
      assert TornAt(rows, earlier, head, block, tail, more);
      l := Late(more);
    }
  }

  /** A project with one subproject of two budgets. */
  function TwoBudgets(): Project<string> {
    Project("p", "P", "", [], [TwoBudgetsInside()])
  }

  function TwoBudgetsInside(): Subproject<string> {
    Subproject("s", "S", "EUR", "", ["0", "1"], [])
  }

  lemma TwoBudgetsRows(first: Row<string>, second: Row<string>)
    requires first == SubprojectBudgetRow("p", "P", "s", "S", "0") &&
        second == SubprojectBudgetRow("p", "P", "s", "S", "1")
    ensures SubprojectBudgetRows(TwoBudgets(), TwoBudgetsInside(), ["0", "1"]) == [first, second]
    ensures Survivors([first, second], [true, false]) == [second]
  {
    assert ["0", "1"][1..] == ["1"] && ["1"][1..] == [];
    assert SubprojectBudgetRows(TwoBudgets(), TwoBudgetsInside(), ["1"]) == [second] + [];
    var rows, thrown := [first, second], [true, false];
    assert rows[..1] == [first] && thrown[..1] == [true];
    assert rows[..1][..0] == [] && thrown[..1][..0] == [];
    assert Survivors(rows[..1], thrown[..1]) == [];
  }

  lemma TwoBudgetsCommits(head: seq<Row<string>>)
    requires head == [ProjectRow("p", "P", "")]
    ensures Commits([TwoBudgets()]) == head + SubprojectCommits(TwoBudgets(), TwoBudgetsInside())
  {
    SubprojectsSingle(TwoBudgets(), TwoBudgetsInside());
    CommitsSingle(TwoBudgets());
    assert head + [] == head;
  }

  /** If the first one throws, the second is written all the same, and the log is no start of the rows. */
  lemma LateExample()
    ensures var row, second := SubRow(TwoBudgets(), TwoBudgetsInside()), SubprojectBudgetRow("p", "P", "s", "S", "1");
            var log := [ProjectRow("p", "P", "")] + ([row] + [second]);
            Torn(Commits([TwoBudgets()]), log, true) && !(log <= Commits([TwoBudgets()]))
  {
    var p, s, head, thrown := TwoBudgets(), TwoBudgetsInside(), [ProjectRow("p", "P", "")], [true, false];
    var first, second := SubprojectBudgetRow("p", "P", "s", "S", "0"), SubprojectBudgetRow("p", "P", "s", "S", "1");
    TwoBudgetsRows(first, second);
    TwoBudgetsCommits(head);
    assert thrown[0] && !thrown[1];
    BudgetsTorn(p, s, thrown);
    TornBehind(head, SubprojectCommits(p, s), [SubRow(p, s)] + [second], true);
    assert Commits([p])[2] == SubprojectCommits(p, s)[1] == first;
  }

  // ---------------------------------------------------------------- the rows of several children in turn

  lemma {:induction false} ItemsAppend<C>(p: Project<C>, s: Subproject<C>, a: seq<Workflowitem<C>>,
                                          b: seq<Workflowitem<C>>)
    ensures ItemsCommits(p, s, a + b) == ItemsCommits(p, s, a) + ItemsCommits(p, s, b)
  {
    if a == [] {
      assert a + b == b;
    } else {
      ItemsAppend(p, s, a[1..], b);
      assert (a + b)[1..] == a[1..] + b;
      ConcatAssoc(ItemCommits(p, s, a[0]), ItemsCommits(p, s, a[1..]), ItemsCommits(p, s, b));
    }
  }

  lemma ItemsSingle<C>(p: Project<C>, s: Subproject<C>, w: Workflowitem<C>)
    ensures ItemsCommits(p, s, [w]) == ItemCommits(p, s, w)
  {
    assert [w][1..] == [];
  }

  lemma ItemsSplit<C>(p: Project<C>, s: Subproject<C>, ws: seq<Workflowitem<C>>, i: nat)
    requires i < |ws|
    ensures ItemsCommits(p, s, ws[..i + 1]) == ItemsCommits(p, s, ws[..i]) + ItemCommits(p, s, ws[i])
    ensures ItemsCommits(p, s, ws) ==
            ItemsCommits(p, s, ws[..i]) + ItemCommits(p, s, ws[i]) + ItemsCommits(p, s, ws[i + 1..])
  {
    assert ws[..i + 1] == ws[..i] + [ws[i]] && ws == ws[..i + 1] + ws[i + 1..];
    ItemsAppend(p, s, ws[..i], [ws[i]]);
    ItemsAppend(p, s, ws[..i + 1], ws[i + 1..]);
    ItemsSingle(p, s, ws[i]);
  }

  lemma {:induction false} SubprojectsAppend<C>(p: Project<C>, a: seq<Subproject<C>>, b: seq<Subproject<C>>)
    ensures SubprojectsCommits(p, a + b) == SubprojectsCommits(p, a) + SubprojectsCommits(p, b)
  {
    if a == [] {
      assert a + b == b;
    } else {
      SubprojectsAppend(p, a[1..], b);
      assert (a + b)[1..] == a[1..] + b;
      ConcatAssoc(SubprojectCommits(p, a[0]), SubprojectsCommits(p, a[1..]), SubprojectsCommits(p, b));
    }
  }

  lemma SubprojectsSingle<C>(p: Project<C>, s: Subproject<C>)
    ensures SubprojectsCommits(p, [s]) == SubprojectCommits(p, s)
  {
    assert [s][1..] == [];
  }

  lemma SubprojectsSplit<C>(p: Project<C>, ss: seq<Subproject<C>>, i: nat)
    requires i < |ss|
    ensures SubprojectsCommits(p, ss[..i + 1]) == SubprojectsCommits(p, ss[..i]) + SubprojectCommits(p, ss[i])
    ensures SubprojectsCommits(p, ss) ==
            SubprojectsCommits(p, ss[..i]) + SubprojectCommits(p, ss[i]) + SubprojectsCommits(p, ss[i + 1..])
  {
    assert ss[..i + 1] == ss[..i] + [ss[i]] && ss == ss[..i + 1] + ss[i + 1..];
    SubprojectsAppend(p, ss[..i], [ss[i]]);
    SubprojectsAppend(p, ss[..i + 1], ss[i + 1..]);
    SubprojectsSingle(p, ss[i]);
  }

  lemma {:induction false} CommitsAppend<C>(a: seq<Project<C>>, b: seq<Project<C>>)
    ensures Commits(a + b) == Commits(a) + Commits(b)
  {
    if a == [] {
      assert a + b == b;
    } else {
      CommitsAppend(a[1..], b);
      assert (a + b)[0] == a[0] && (a + b)[1..] == a[1..] + b;
      assert Commits(a + b) == ProjectCommits(a[0]) + Commits(a[1..] + b);
      ConcatAssoc(ProjectCommits(a[0]), Commits(a[1..]), Commits(b));
    }
  }

  lemma CommitsSingle<C>(p: Project<C>)
    ensures Commits([p]) == ProjectCommits(p)
  {
    assert [p][1..] == [];
  }

  lemma CommitsNext<C>(ps: seq<Project<C>>, i: nat)
    requires i < |ps|
    ensures Commits(ps[..i + 1]) == Commits(ps[..i]) + ProjectCommits(ps[i])
  {
    assert ps[..i + 1] == ps[..i] + [ps[i]];
    CommitsAppend(ps[..i], [ps[i]]);
    CommitsSingle(ps[i]);
  }

  lemma CommitsSplit<C>(ps: seq<Project<C>>, i: nat)
    requires i < |ps|
    ensures Commits(ps[..i + 1]) == Commits(ps[..i]) + ProjectCommits(ps[i])
    ensures Commits(ps) == Commits(ps[..i]) + ProjectCommits(ps[i]) + Commits(ps[i + 1..])
  {
    CommitsNext(ps, i);
    CommitsAppend(ps[..i + 1], ps[i + 1..]);
    assert ps == ps[..i + 1] + ps[i + 1..];
  }

  // ---------------------------------------------------------------- reading the sheets back

  datatype Level = ByProject | BySubproject | ByItem

  /** The row has this id in its column for the level. */
  predicate At<C>(level: Level, id: string, r: Row<C>) {
    match level
    case ByProject => r.projectId == id
    case BySubproject => !r.ProjectRow? && !r.ProjectBudgetRow? && r.subprojectId == id
    case ByItem => (r.WorkflowitemRow? || r.DocumentRow?) && r.workflowitemId == id
  }

  function Select<C>(level: Level, id: string, rows: seq<Row<C>>): seq<Row<C>> {
    if rows == [] then [] else IfAt(level, id, rows[0]) + Select(level, id, rows[1..])
  }

  function IfAt<C>(level: Level, id: string, r: Row<C>): seq<Row<C>> {
    if At(level, id, r) then [r] else []
  }

  /** Every sheet restricted to the rows with this id. */
  function Narrow<C>(level: Level, id: string, sheets: Sheets<C>): Sheets<C> {
    Sheets(Select(level, id, sheets.projects), Select(level, id, sheets.projectBudgets),
           Select(level, id, sheets.subprojects), Select(level, id, sheets.subprojectBudgets),
           Select(level, id, sheets.workflowitems), Select(level, id, sheets.documents))
  }

  function ReadDocuments<C>(rows: seq<Row<C>>): seq<Document> {
    if rows == [] then [] else
      (if rows[0].DocumentRow? then [Document(rows[0].documentId, rows[0].hash)] else []) + ReadDocuments(rows[1..])
  }

  function ReadBudgets<C>(rows: seq<Row<C>>): seq<C> {
    if rows == [] then [] else (if rows[0].DocumentRow? then [] else [rows[0].cells]) + ReadBudgets(rows[1..])
  }

  function ReadItem<C>(r: Row<C>, sheets: Sheets<C>): Workflowitem<C>
    requires r.WorkflowitemRow?
  {
    var own := Narrow(ByItem, r.workflowitemId, sheets);
    Workflowitem(r.workflowitemId, r.workflowitemName, r.cells, ReadDocuments(own.documents))
  }

  function ReadItems<C>(rows: seq<Row<C>>, sheets: Sheets<C>): seq<Workflowitem<C>> {
    if rows == [] then [] else
      (if rows[0].WorkflowitemRow? then [ReadItem(rows[0], sheets)] else []) + ReadItems(rows[1..], sheets)
  }

  function ReadSubproject<C>(r: Row<C>, sheets: Sheets<C>): Subproject<C>
    requires r.SubprojectRow?
  {
    var own := Narrow(BySubproject, r.subprojectId, sheets);
    Subproject(r.subprojectId, r.subprojectName, r.currency, r.cells,
               ReadBudgets(own.subprojectBudgets), ReadItems(own.workflowitems, own))
  }

  function ReadSubprojects<C>(rows: seq<Row<C>>, sheets: Sheets<C>): seq<Subproject<C>> {
    if rows == [] then [] else
      (if rows[0].SubprojectRow? then [ReadSubproject(rows[0], sheets)] else []) + ReadSubprojects(rows[1..], sheets)
  }

  function ReadProject<C>(r: Row<C>, sheets: Sheets<C>): Project<C>
    requires r.ProjectRow?
  {
    var own := Narrow(ByProject, r.projectId, sheets);
    Project(r.projectId, r.projectName, r.cells, ReadBudgets(own.projectBudgets), ReadSubprojects(own.subprojects, own))
  }

  function ReadProjects<C>(rows: seq<Row<C>>, sheets: Sheets<C>): seq<Project<C>> {
    if rows == [] then [] else
      (if rows[0].ProjectRow? then [ReadProject(rows[0], sheets)] else []) + ReadProjects(rows[1..], sheets)
  }

  /** The tree read from the six sheets, joining rows by their parent-id columns. */
  function ReadTree<C>(sheets: Sheets<C>): seq<Project<C>> {
    ReadProjects(sheets.projects, sheets)
  }

  predicate DistinctItems<C>(ws: seq<Workflowitem<C>>) {
    forall i, j :: 0 <= i < j < |ws| ==> ws[i].id != ws[j].id
  }

  predicate UniqueSubprojects<C>(ss: seq<Subproject<C>>) {
    forall i, j :: 0 <= i < j < |ss| ==> ss[i].id != ss[j].id
  }

  predicate UniqueProjects<C>(ps: seq<Project<C>>) {
    forall i, j :: 0 <= i < j < |ps| ==> ps[i].id != ps[j].id
  }

  predicate DistinctSubprojects<C>(ss: seq<Subproject<C>>) {
    UniqueSubprojects(ss) && forall i :: 0 <= i < |ss| ==> DistinctItems(ss[i].items)
  }

  /** Sibling ids are distinct at every level. */
  predicate DistinctIds<C>(ps: seq<Project<C>>) {
    UniqueProjects(ps) && forall i :: 0 <= i < |ps| ==> DistinctSubprojects(ps[i].subprojects)
  }

  lemma {:induction false} SelectAppend<C>(level: Level, id: string, a: seq<Row<C>>, b: seq<Row<C>>)
    ensures Select(level, id, a + b) == Select(level, id, a) + Select(level, id, b)
  {
    if a == [] {
      assert a + b == b;
    } else {
      SelectAppend(level, id, a[1..], b);
      assert (a + b)[1..] == a[1..] + b;
      ConcatAssoc(IfAt(level, id, a[0]), Select(level, id, a[1..]), Select(level, id, b));
    }
  }

  /** Choosing a sheet and choosing a parent commute. */
  lemma {:induction false} SelectSheet<C>(level: Level, id: string, kind: Kind, log: seq<Row<C>>)
    ensures Select(level, id, Sheet(kind, log)) == Sheet(kind, Select(level, id, log))
  {
    if log != [] {
      SelectSheet(level, id, kind, log[1..]);
      SelectAppend(level, id, OfKind(kind, log[0]), Sheet(kind, log[1..]));
      SheetAppend(kind, IfAt(level, id, log[0]), Select(level, id, log[1..]));
      SelectOne(level, id, log[0]);
      SheetOne(kind, log[0]);
    }
  }

  lemma NarrowSheets<C>(level: Level, id: string, log: seq<Row<C>>)
    ensures Narrow(level, id, SheetsOf(log)) == SheetsOf(Select(level, id, log))
  {
    SelectSheet(level, id, Projects, log);
    SelectSheet(level, id, ProjectBudgets, log);
    SelectSheet(level, id, Subprojects, log);
    SelectSheet(level, id, SubprojectBudgets, log);
    SelectSheet(level, id, Workflowitems, log);
    SelectSheet(level, id, Documents, log);
  }

  lemma SelectOne<C>(level: Level, id: string, r: Row<C>)
    ensures Select(level, id, [r]) == IfAt(level, id, r)
  {
    assert [r][1..] == [];
  }

  lemma SheetOne<C>(kind: Kind, r: Row<C>)
    ensures Sheet(kind, [r]) == OfKind(kind, r)
  {
    assert [r][1..] == [];
  }

  ghost predicate AllAt<C>(level: Level, id: string, rows: seq<Row<C>>) {
    forall i :: 0 <= i < |rows| ==> At(level, id, rows[i])
  }

  ghost predicate NoneAt<C>(level: Level, id: string, rows: seq<Row<C>>) {
    forall i :: 0 <= i < |rows| ==> !At(level, id, rows[i])
  }

  ghost predicate AllOfKind<C>(kind: Kind, rows: seq<Row<C>>) {
    forall i :: 0 <= i < |rows| ==> KindOf(rows[i]) == kind
  }

  ghost predicate NoneOfKind<C>(kind: Kind, rows: seq<Row<C>>) {
    forall i :: 0 <= i < |rows| ==> KindOf(rows[i]) != kind
  }

  lemma {:induction false} SelectAllOrNone<C>(level: Level, id: string, rows: seq<Row<C>>)
    ensures AllAt(level, id, rows) ==> Select(level, id, rows) == rows
    ensures NoneAt(level, id, rows) ==> Select(level, id, rows) == []
  {
    if rows != [] {
      SelectAllOrNone(level, id, rows[1..]);
      assert AllAt(level, id, rows) ==> AllAt(level, id, rows[1..]) && At(level, id, rows[0]);
      assert NoneAt(level, id, rows) ==> NoneAt(level, id, rows[1..]) && !At(level, id, rows[0]);
    }
  }

  lemma {:induction false} SheetAllOrNone<C>(kind: Kind, rows: seq<Row<C>>)
    ensures AllOfKind(kind, rows) ==> Sheet(kind, rows) == rows
    ensures NoneOfKind(kind, rows) ==> Sheet(kind, rows) == []
  {
    if rows != [] {
      SheetAllOrNone(kind, rows[1..]);
      assert AllOfKind(kind, rows) ==> AllOfKind(kind, rows[1..]) && KindOf(rows[0]) == kind;
      assert NoneOfKind(kind, rows) ==> NoneOfKind(kind, rows[1..]) && KindOf(rows[0]) != kind;
    }
  }

  // ---- every row carries the ids of its own branch

  lemma {:induction false} DocumentRowsIds<C>(p: Project<C>, s: Subproject<C>, w: Workflowitem<C>, ds: seq<Document>)
    ensures var rows := DocumentRows(p, s, w, ds);
            AllOfKind(Documents, rows) && AllAt(ByProject, p.id, rows) && AllAt(BySubproject, s.id, rows) &&
            AllAt(ByItem, w.id, rows) && ReadDocuments(rows) == ds
  {
    if ds != [] {
      DocumentRowsIds(p, s, w, ds[1..]);
    }
  }

  lemma ItemCommitsIds<C>(p: Project<C>, s: Subproject<C>, w: Workflowitem<C>)
    ensures var rows := ItemCommits(p, s, w);
            AllAt(ByProject, p.id, rows) && AllAt(BySubproject, s.id, rows) && AllAt(ByItem, w.id, rows) &&
              ItemRows(rows)
  {
    DocumentRowsIds(p, s, w, w.documents);
  }

  lemma ItemSheet<C>(kind: Kind, p: Project<C>, s: Subproject<C>, w: Workflowitem<C>)
    ensures Sheet(kind, ItemCommits(p, s, w)) ==
            match kind
            case Workflowitems => [ItemRow(p, s, w)]
            case Documents => DocumentRows(p, s, w, w.documents)
            case _ => []
  {
    var documents := DocumentRows(p, s, w, w.documents);
    DocumentRowsIds(p, s, w, w.documents);
    SheetAppend(kind, [ItemRow(p, s, w)], documents);
    SheetOne(kind, ItemRow(p, s, w));
    SheetAllOrNone(kind, documents);
    assert kind != Documents ==> NoneOfKind(kind, documents);
    Units(OfKind(kind, ItemRow(p, s, w)), [], Sheet(kind, documents));
  }

  /** Only rows of workflowitems and documents. */
  ghost predicate ItemRows<C>(rows: seq<Row<C>>) {
    forall i :: 0 <= i < |rows| ==> rows[i].WorkflowitemRow? || rows[i].DocumentRow?
  }

  lemma {:induction false} ItemsCommitsIds<C>(p: Project<C>, s: Subproject<C>, ws: seq<Workflowitem<C>>)
    ensures var rows := ItemsCommits(p, s, ws);
            AllAt(ByProject, p.id, rows) && AllAt(BySubproject, s.id, rows) && ItemRows(rows)
  {
    if ws != [] {
      ItemsCommitsIds(p, s, ws[1..]);
      ItemCommitsIds(p, s, ws[0]);
    }
  }

  lemma {:induction false} SubprojectBudgetRowsIds<C>(p: Project<C>, s: Subproject<C>, bs: seq<C>)
    ensures var rows := SubprojectBudgetRows(p, s, bs);
            AllOfKind(SubprojectBudgets, rows) && AllAt(ByProject, p.id, rows) && AllAt(BySubproject, s.id, rows) &&
            ReadBudgets(rows) == bs
  {
    if bs != [] {
      SubprojectBudgetRowsIds(p, s, bs[1..]);
    }
  }

  lemma {:induction false} ProjectBudgetRowsIds<C>(p: Project<C>, bs: seq<C>)
    ensures var rows := ProjectBudgetRows(p, bs);
            AllOfKind(ProjectBudgets, rows) && AllAt(ByProject, p.id, rows) && ReadBudgets(rows) == bs
  {
    if bs != [] {
      ProjectBudgetRowsIds(p, bs[1..]);
    }
  }

  lemma SubprojectCommitsIds<C>(p: Project<C>, s: Subproject<C>)
    ensures var rows := SubprojectCommits(p, s);
            AllAt(ByProject, p.id, rows) && AllAt(BySubproject, s.id, rows) && SubprojectRows(rows)
  {
    SubprojectBudgetRowsIds(p, s, s.budgets);
    ItemsCommitsIds(p, s, s.items);
  }

  /** One sheet's part of a row, its budget rows and the rows below. */
  lemma ThreeParts<C>(kind: Kind, r: Row<C>, budgetKind: Kind, budgets: seq<Row<C>>, rest: seq<Row<C>>)
    requires AllOfKind(budgetKind, budgets) && KindOf(r) != budgetKind
    requires kind == KindOf(r) || kind == budgetKind ==> NoneOfKind(kind, rest)
    ensures Sheet(kind, [r] + budgets + rest) ==
            if kind == KindOf(r) then [r] else if kind == budgetKind then budgets else Sheet(kind, rest)
  {
    SheetAppend(kind, [r] + budgets, rest);
    SheetAppend(kind, [r], budgets);
    SheetOne(kind, r);
    SheetAllOrNone(kind, budgets);
    SheetAllOrNone(kind, rest);
    assert kind != budgetKind ==> NoneOfKind(kind, budgets);
    Units(OfKind(kind, r), Sheet(kind, budgets), Sheet(kind, rest));
  }

  lemma Units<T>(a: seq<T>, b: seq<T>, c: seq<T>)
    ensures a == [] && b == [] ==> a + b + c == c
    ensures a == [] && c == [] ==> a + b + c == b
    ensures b == [] && c == [] ==> a + b + c == a
  {
  }

  lemma SubprojectSheet<C>(kind: Kind, p: Project<C>, s: Subproject<C>)
    ensures Sheet(kind, SubprojectCommits(p, s)) ==
            if kind == Subprojects then [SubRow(p, s)]
            else if kind == SubprojectBudgets then SubprojectBudgetRows(p, s, s.budgets)
            else Sheet(kind, ItemsCommits(p, s, s.items))
  {
    SubprojectBudgetRowsIds(p, s, s.budgets);
    ItemsCommitsIds(p, s, s.items);
    var budgets := SubprojectBudgetRows(p, s, s.budgets);
    ThreeParts(kind, SubRow(p, s), SubprojectBudgets, budgets, ItemsCommits(p, s, s.items));
  }

  lemma ProjectSheet<C>(kind: Kind, p: Project<C>)
    ensures Sheet(kind, ProjectCommits(p)) ==
            if kind == Projects then [ProjectRow(p.id, p.name, p.cells)]
            else if kind == ProjectBudgets then ProjectBudgetRows(p, p.budgets)
            else Sheet(kind, SubprojectsCommits(p, p.subprojects))
  {
    ProjectBudgetRowsIds(p, p.budgets);
    SubprojectsCommitsIds(p, p.subprojects);
    ThreeParts(kind, ProjectRow(p.id, p.name, p.cells), ProjectBudgets, ProjectBudgetRows(p, p.budgets),
               SubprojectsCommits(p, p.subprojects));
  }

  /** Only rows below the project level. */
  ghost predicate SubprojectRows<C>(rows: seq<Row<C>>) {
    forall i :: 0 <= i < |rows| ==> !rows[i].ProjectRow? && !rows[i].ProjectBudgetRow?
  }

  lemma {:induction false} SubprojectsCommitsIds<C>(p: Project<C>, ss: seq<Subproject<C>>)
    ensures var rows := SubprojectsCommits(p, ss); AllAt(ByProject, p.id, rows) && SubprojectRows(rows)
  {
    if ss != [] {
      SubprojectsCommitsIds(p, ss[1..]);
      SubprojectCommitsIds(p, ss[0]);
    }
  }

  lemma ProjectCommitsIds<C>(p: Project<C>)
    ensures AllAt(ByProject, p.id, ProjectCommits(p))
  {
    ProjectBudgetRowsIds(p, p.budgets);
    SubprojectsCommitsIds(p, p.subprojects);
  }

  // ---- choosing a branch gives back exactly its rows

  /** The rows of one branch are all chosen under its own id, and none under another id. */
  lemma SelectBranch<C>(level: Level, own: string, id: string, branch: seq<Row<C>>, rest: seq<Row<C>>)
    requires AllAt(level, own, branch)
    ensures Select(level, id, branch + rest) == (if id == own then branch else []) + Select(level, id, rest)
  {
    SelectAppend(level, id, branch, rest);
    SelectAllOrNone(level, id, branch);
    if id != own {
      assert forall i :: 0 <= i < |branch| ==> At(level, own, branch[i]);
      assert NoneAt(level, id, branch);
    }
  }

  lemma {:induction false} SelectItem<C>(p: Project<C>, s: Subproject<C>, ws: seq<Workflowitem<C>>, j: nat)
    requires DistinctItems(ws) && j < |ws|
    ensures Select(ByItem, ws[j].id, ItemsCommits(p, s, ws)) == ItemCommits(p, s, ws[j])
  {
    ItemCommitsIds(p, s, ws[0]);
    SelectBranch(ByItem, ws[0].id, ws[j].id, ItemCommits(p, s, ws[0]), ItemsCommits(p, s, ws[1..]));
    if j == 0 {
      OtherItems(p, s, ws[1..], ws[j].id);
    } else {
      SelectItem(p, s, ws[1..], j - 1);
    }
  }

  lemma {:induction false} OtherItems<C>(p: Project<C>, s: Subproject<C>, ws: seq<Workflowitem<C>>, id: string)
    requires forall i :: 0 <= i < |ws| ==> ws[i].id != id
    ensures Select(ByItem, id, ItemsCommits(p, s, ws)) == []
  {
    if ws != [] {
      OtherItems(p, s, ws[1..], id);
      ItemCommitsIds(p, s, ws[0]);
      SelectBranch(ByItem, ws[0].id, id, ItemCommits(p, s, ws[0]), ItemsCommits(p, s, ws[1..]));
    }
  }

  lemma {:induction false} SelectSubproject<C>(p: Project<C>, ss: seq<Subproject<C>>, j: nat)
    requires UniqueSubprojects(ss) && j < |ss|
    ensures Select(BySubproject, ss[j].id, SubprojectsCommits(p, ss)) == SubprojectCommits(p, ss[j])
  {
    SubprojectCommitsIds(p, ss[0]);
    SelectBranch(BySubproject, ss[0].id, ss[j].id, SubprojectCommits(p, ss[0]), SubprojectsCommits(p, ss[1..]));
    if j == 0 {
      OtherSubprojects(p, ss[1..], ss[j].id);
    } else {
      SelectSubproject(p, ss[1..], j - 1);
    }
  }

  lemma {:induction false} OtherSubprojects<C>(p: Project<C>, ss: seq<Subproject<C>>, id: string)
    requires forall i :: 0 <= i < |ss| ==> ss[i].id != id
    ensures Select(BySubproject, id, SubprojectsCommits(p, ss)) == []
  {
    if ss != [] {
      OtherSubprojects(p, ss[1..], id);
      SubprojectCommitsIds(p, ss[0]);
      SelectBranch(BySubproject, ss[0].id, id, SubprojectCommits(p, ss[0]), SubprojectsCommits(p, ss[1..]));
    }
  }

  lemma {:induction false} SelectProject<C>(ps: seq<Project<C>>, j: nat)
    requires UniqueProjects(ps) && j < |ps|
    ensures Select(ByProject, ps[j].id, Commits(ps)) == ProjectCommits(ps[j])
  {
    ProjectCommitsIds(ps[0]);
    assert Commits(ps) == ProjectCommits(ps[0]) + Commits(ps[1..]);
    SelectBranch(ByProject, ps[0].id, ps[j].id, ProjectCommits(ps[0]), Commits(ps[1..]));
    if j == 0 {
      OtherProjects(ps[1..], ps[j].id);
    } else {
      SelectProject(ps[1..], j - 1);
    }
  }

  lemma {:induction false} OtherProjects<C>(ps: seq<Project<C>>, id: string)
    requires forall i :: 0 <= i < |ps| ==> ps[i].id != id
    ensures Select(ByProject, id, Commits(ps)) == []
  {
    if ps != [] {
      OtherProjects(ps[1..], id);
      ProjectCommitsIds(ps[0]);
      SelectBranch(ByProject, ps[0].id, id, ProjectCommits(ps[0]), Commits(ps[1..]));
    }
  }

  /** Rows that are not at the level fall away. */
  lemma SelectBelow<C>(level: Level, id: string, above: seq<Row<C>>, rows: seq<Row<C>>)
    requires NoneAt(level, id, above)
    ensures Select(level, id, above + rows) == Select(level, id, rows)
  {
    SelectAppend(level, id, above, rows);
    SelectAllOrNone(level, id, above);
  }

  // ---- the round trip, level by level

  lemma {:induction false} ItemRowsSheet<C>(p: Project<C>, s: Subproject<C>, ws: seq<Workflowitem<C>>)
    ensures var rows := Sheet(Workflowitems, ItemsCommits(p, s, ws));
            |rows| == |ws| && forall i :: 0 <= i < |ws| ==> rows[i] == ItemRow(p, s, ws[i])
  {
    if ws != [] {
      ItemRowsSheet(p, s, ws[1..]);
      SheetAppend(Workflowitems, ItemCommits(p, s, ws[0]), ItemsCommits(p, s, ws[1..]));
      ItemSheet(Workflowitems, p, s, ws[0]);
    }
  }

  lemma {:induction false} ReadItemsIs<C>(rows: seq<Row<C>>, sheets: Sheets<C>, ws: seq<Workflowitem<C>>)
    requires |rows| == |ws|
    requires forall i :: 0 <= i < |ws| ==> rows[i].WorkflowitemRow? && ReadItem(rows[i], sheets) == ws[i]
    ensures ReadItems(rows, sheets) == ws
  {
    if ws != [] {
      ReadItemsIs(rows[1..], sheets, ws[1..]);
    }
  }

  lemma ReadItemBack<C>(p: Project<C>, s: Subproject<C>, i: nat)
    requires DistinctItems(s.items) && i < |s.items|
    ensures ReadItem(ItemRow(p, s, s.items[i]), SheetsOf(SubprojectCommits(p, s))) == s.items[i]
  {
    var w, above := s.items[i], [SubRow(p, s)] + SubprojectBudgetRows(p, s, s.budgets);
    SubprojectBudgetRowsIds(p, s, s.budgets);
    assert NoneAt(ByItem, w.id, above);
    SelectBelow(ByItem, w.id, above, ItemsCommits(p, s, s.items));
    SelectItem(p, s, s.items, i);
    NarrowSheets(ByItem, w.id, SubprojectCommits(p, s));
    ItemSheet(Documents, p, s, w);
    DocumentRowsIds(p, s, w, w.documents);
  }

  lemma ReadItemsBack<C>(p: Project<C>, s: Subproject<C>)
    requires DistinctItems(s.items)
    ensures var sheets := SheetsOf(SubprojectCommits(p, s)); ReadItems(sheets.workflowitems, sheets) == s.items
  {
    var sheets := SheetsOf(SubprojectCommits(p, s));
    SubprojectSheet(Workflowitems, p, s);
    ItemRowsSheet(p, s, s.items);
    forall i | 0 <= i < |s.items|
      ensures ReadItem(ItemRow(p, s, s.items[i]), sheets) == s.items[i]
    {
      ReadItemBack(p, s, i);
    }
    ReadItemsIs(sheets.workflowitems, sheets, s.items);
  }

  lemma {:induction false} SubprojectRowsSheet<C>(p: Project<C>, ss: seq<Subproject<C>>)
    ensures var rows := Sheet(Subprojects, SubprojectsCommits(p, ss));
            |rows| == |ss| && forall i :: 0 <= i < |ss| ==> rows[i] == SubRow(p, ss[i])
  {
    if ss != [] {
      SubprojectRowsSheet(p, ss[1..]);
      SheetAppend(Subprojects, SubprojectCommits(p, ss[0]), SubprojectsCommits(p, ss[1..]));
      SubprojectSheet(Subprojects, p, ss[0]);
    }
  }

  lemma {:induction false} ReadSubprojectsIs<C>(rows: seq<Row<C>>, sheets: Sheets<C>, ss: seq<Subproject<C>>)
    requires |rows| == |ss|
    requires forall i :: 0 <= i < |ss| ==> rows[i].SubprojectRow? && ReadSubproject(rows[i], sheets) == ss[i]
    ensures ReadSubprojects(rows, sheets) == ss
  {
    if ss != [] {
      ReadSubprojectsIs(rows[1..], sheets, ss[1..]);
    }
  }

  lemma ReadSubprojectBack<C>(p: Project<C>, i: nat)
    requires DistinctSubprojects(p.subprojects) && i < |p.subprojects|
    ensures ReadSubproject(SubRow(p, p.subprojects[i]), SheetsOf(ProjectCommits(p))) == p.subprojects[i]
  {
    var s, above := p.subprojects[i], [ProjectRow(p.id, p.name, p.cells)] + ProjectBudgetRows(p, p.budgets);
    ProjectBudgetRowsIds(p, p.budgets);
    assert NoneAt(BySubproject, s.id, above);
    SelectBelow(BySubproject, s.id, above, SubprojectsCommits(p, p.subprojects));
    SelectSubproject(p, p.subprojects, i);
    NarrowSheets(BySubproject, s.id, ProjectCommits(p));
    SubprojectSheet(SubprojectBudgets, p, s);
    SubprojectBudgetRowsIds(p, s, s.budgets);
    ReadItemsBack(p, s);
  }

  lemma ReadSubprojectsBack<C>(p: Project<C>)
    requires DistinctSubprojects(p.subprojects)
    ensures var sheets := SheetsOf(ProjectCommits(p)); ReadSubprojects(sheets.subprojects, sheets) == p.subprojects
  {
    var sheets := SheetsOf(ProjectCommits(p));
    ProjectSheet(Subprojects, p);
    SubprojectRowsSheet(p, p.subprojects);
    forall i | 0 <= i < |p.subprojects|
      ensures ReadSubproject(SubRow(p, p.subprojects[i]), sheets) == p.subprojects[i]
    {
      ReadSubprojectBack(p, i);
    }
    ReadSubprojectsIs(sheets.subprojects, sheets, p.subprojects);
  }

  lemma {:induction false} ProjectRowsSheet<C>(ps: seq<Project<C>>)
    ensures var rows := Sheet(Projects, Commits(ps));
            |rows| == |ps| && forall i :: 0 <= i < |ps| ==> rows[i] == ProjectRow(ps[i].id, ps[i].name, ps[i].cells)
  {
    if ps != [] {
      ProjectRowsSheet(ps[1..]);
      SheetAppend(Projects, ProjectCommits(ps[0]), Commits(ps[1..]));
      ProjectSheet(Projects, ps[0]);
    }
  }

  lemma {:induction false} ReadProjectsIs<C>(rows: seq<Row<C>>, sheets: Sheets<C>, ps: seq<Project<C>>)
    requires |rows| == |ps|
    requires forall i :: 0 <= i < |ps| ==> rows[i].ProjectRow? && ReadProject(rows[i], sheets) == ps[i]
    ensures ReadProjects(rows, sheets) == ps
  {
    if ps != [] {
      ReadProjectsIs(rows[1..], sheets, ps[1..]);
    }
  }

  lemma ReadProjectBack<C>(ps: seq<Project<C>>, i: nat)
    requires DistinctIds(ps) && i < |ps|
    ensures ReadProject(ProjectRow(ps[i].id, ps[i].name, ps[i].cells), SheetsOf(Commits(ps))) == ps[i]
  {
    SelectProject(ps, i);
    NarrowSheets(ByProject, ps[i].id, Commits(ps));
    ProjectSheet(ProjectBudgets, ps[i]);
    ProjectBudgetRowsIds(ps[i], ps[i].budgets);
    ReadSubprojectsBack(ps[i]);
  }

  /** The six sheets of a complete export determine the exported tree. */
  lemma SheetsRebuildTree<C>(ps: seq<Project<C>>)
    requires DistinctIds(ps)
    ensures ReadTree(SheetsOf(Commits(ps))) == ps
  {
    var sheets := SheetsOf(Commits(ps));
    ProjectRowsSheet(ps);
    forall i | 0 <= i < |ps|
      ensures ReadProject(ProjectRow(ps[i].id, ps[i].name, ps[i].cells), sheets) == ps[i]
    {
      ReadProjectBack(ps, i);
    }
    ReadProjectsIs(sheets.projects, sheets, ps);
  }

  // ---------------------------------------------------------------- which rows, in which order

  /** The row is that of the subproject or of something in it, with the ids and names of everything above. */
  ghost predicate RowInside<C(!new)>(p: Project<C>, s: Subproject<C>, r: Row<C>) {
    match r
    case ProjectRow(_, _, _) => false
    case ProjectBudgetRow(_, _, _) => false
    case SubprojectRow(_, _, _, _, _, _) => r == SubprojectRow(p.id, p.name, s.id, s.name, s.currency, s.cells)
    case SubprojectBudgetRow(_, _, _, _, cells) =>
      r == SubprojectBudgetRow(p.id, p.name, s.id, s.name, cells) && cells in s.budgets
    case WorkflowitemRow(_, _, _, _, _, _, _, _) =>
      exists w :: w in s.items && r == WorkflowitemRow(p.id, p.name, s.id, s.name, s.currency, w.id, w.name, w.cells)
    case DocumentRow(_, _, _, _, _, _, id, hash) =>
      exists w :: w in s.items && Document(id, hash) in w.documents &&
        r == DocumentRow(p.id, p.name, s.id, s.name, w.id, w.name, id, hash)
  }

  /** The row is that of some part of the tree. */
  ghost predicate RowOf<C(!new)>(ps: seq<Project<C>>, r: Row<C>) {
    match r
    case ProjectRow(_, _, _) => exists p :: p in ps && r == ProjectRow(p.id, p.name, p.cells)
    case ProjectBudgetRow(_, _, cells) =>
      exists p :: p in ps && r == ProjectBudgetRow(p.id, p.name, cells) && cells in p.budgets
    case _ => exists p, s :: p in ps && s in p.subprojects && RowInside(p, s, r)
  }

  lemma {:induction false} DocumentRowsHold<C>(p: Project<C>, s: Subproject<C>, w: Workflowitem<C>, ds: seq<Document>,
                                               r: Row<C>)
    ensures r in DocumentRows(p, s, w, ds) <==>
            r.DocumentRow? && r == DocumentRow(p.id, p.name, s.id, s.name, w.id, w.name, r.documentId, r.hash) &&
            Document(r.documentId, r.hash) in ds
  {
    if ds != [] {
      DocumentRowsHold(p, s, w, ds[1..], r);
    }
  }

  lemma {:induction false} SubprojectBudgetRowsHold<C>(p: Project<C>, s: Subproject<C>, bs: seq<C>, r: Row<C>)
    ensures r in SubprojectBudgetRows(p, s, bs) <==>
            r.SubprojectBudgetRow? && r == SubprojectBudgetRow(p.id, p.name, s.id, s.name, r.cells) && r.cells in bs
  {
    if bs != [] {
      SubprojectBudgetRowsHold(p, s, bs[1..], r);
    }
  }

  lemma {:induction false} ProjectBudgetRowsHold<C>(p: Project<C>, bs: seq<C>, r: Row<C>)
    ensures r in ProjectBudgetRows(p, bs) <==>
            r.ProjectBudgetRow? && r == ProjectBudgetRow(p.id, p.name, r.cells) && r.cells in bs
  {
    if bs != [] {
      ProjectBudgetRowsHold(p, bs[1..], r);
    }
  }

  lemma {:induction false} ItemsHold<C(!new)>(p: Project<C>, s: Subproject<C>, ws: seq<Workflowitem<C>>, r: Row<C>)
    ensures r in ItemsCommits(p, s, ws) <==> exists w :: w in ws && r in ItemCommits(p, s, w)
  {
    if ws != [] {
      ItemsHold(p, s, ws[1..], r);
      assert ws == [ws[0]] + ws[1..];
    }
  }

  lemma {:induction false} SubprojectsHold<C(!new)>(p: Project<C>, ss: seq<Subproject<C>>, r: Row<C>)
    ensures r in SubprojectsCommits(p, ss) <==> exists s :: s in ss && r in SubprojectCommits(p, s)
  {
    if ss != [] {
      SubprojectsHold(p, ss[1..], r);
      assert ss == [ss[0]] + ss[1..];
    }
  }

  lemma {:induction false} ProjectsHold<C(!new)>(ps: seq<Project<C>>, r: Row<C>)
    ensures r in Commits(ps) <==> exists p :: p in ps && r in ProjectCommits(p)
  {
    if ps != [] {
      ProjectsHold(ps[1..], r);
      assert ps == [ps[0]] + ps[1..];
    }
  }

  lemma SubprojectHolds<C(!new)>(p: Project<C>, s: Subproject<C>, r: Row<C>)
    ensures r in SubprojectCommits(p, s) <==> RowInside(p, s, r)
  {
    SubprojectBudgetRowsHold(p, s, s.budgets, r);
    ItemsHold(p, s, s.items, r);
    forall w: Workflowitem<C>
      ensures r in ItemCommits(p, s, w) <==> r == ItemRow(p, s, w) || r in DocumentRows(p, s, w, w.documents)
      ensures r in DocumentRows(p, s, w, w.documents) <==>
              r.DocumentRow? && Document(r.documentId, r.hash) in w.documents &&
              r == DocumentRow(p.id, p.name, s.id, s.name, w.id, w.name, r.documentId, r.hash)
    {
      DocumentRowsHold(p, s, w, w.documents, r);
    }
  }

  lemma ProjectHolds<C(!new)>(p: Project<C>, r: Row<C>)
    ensures r in ProjectCommits(p) <==>
            || r == ProjectRow(p.id, p.name, p.cells)
            || (r.ProjectBudgetRow? && r == ProjectBudgetRow(p.id, p.name, r.cells) && r.cells in p.budgets)
            || exists s :: s in p.subprojects && RowInside(p, s, r)
  {
    ProjectBudgetRowsHold(p, p.budgets, r);
    SubprojectsHold(p, p.subprojects, r);
    forall s: Subproject<C>
      ensures r in SubprojectCommits(p, s) <==> RowInside(p, s, r)
    {
      SubprojectHolds(p, s, r);
    }
  }

  /** The rows of an export are exactly those of the parts of the tree. */
  lemma CommitsHold<C(!new)>(ps: seq<Project<C>>, r: Row<C>)
    ensures r in Commits(ps) <==> RowOf(ps, r)
  {
    ProjectsHold(ps, r);
    forall p: Project<C>
      ensures r in ProjectCommits(p) <==>
              || r == ProjectRow(p.id, p.name, p.cells)
              || (r.ProjectBudgetRow? && r == ProjectBudgetRow(p.id, p.name, r.cells) && r.cells in p.budgets)
              || exists s :: s in p.subprojects && RowInside(p, s, r)
    {
      ProjectHolds(p, r);
    }
  }

  /** What may stand before a row: budgets and documents follow what they belong to, and branches stay together. */
  predicate Follows<C>(previous: Row<C>, r: Row<C>) {
    match r
    case ProjectRow(_, _, _) => true
    case ProjectBudgetRow(pid, _, _) =>
      (previous.ProjectRow? || previous.ProjectBudgetRow?) && previous.projectId == pid
    case SubprojectRow(pid, _, _, _, _, _) => previous.projectId == pid
    case SubprojectBudgetRow(pid, _, sid, _, _) =>
      (previous.SubprojectRow? || previous.SubprojectBudgetRow?) &&
      previous.projectId == pid && previous.subprojectId == sid
    case WorkflowitemRow(pid, _, sid, _, _, _, _, _) =>
      !previous.ProjectRow? && !previous.ProjectBudgetRow? &&
      previous.projectId == pid && previous.subprojectId == sid
    case DocumentRow(pid, _, sid, _, wid, _, _, _) =>
      (previous.WorkflowitemRow? || previous.DocumentRow?) &&
      previous.projectId == pid && previous.subprojectId == sid && previous.workflowitemId == wid
  }

  predicate DepthFirst<C>(rows: seq<Row<C>>) {
    forall i :: 0 < i < |rows| ==> Follows(rows[i - 1], rows[i])
  }

  lemma DepthFirstAppend<C>(a: seq<Row<C>>, b: seq<Row<C>>)
    requires DepthFirst(a) && DepthFirst(b) && (a != [] && b != [] ==> Follows(a[|a| - 1], b[0]))
    ensures DepthFirst(a + b)
  {
    var ab := a + b;
    forall i | 0 < i < |ab|
      ensures Follows(ab[i - 1], ab[i])
    {
      if i < |a| {
        assert Follows(a[i - 1], a[i]);
      } else if i > |a| {
        assert Follows(b[i - |a| - 1], b[i - |a|]);
      }
    }
  }

  lemma {:induction false} DocumentsDepthFirst<C>(p: Project<C>, s: Subproject<C>, w: Workflowitem<C>,
                                                  ds: seq<Document>)
    ensures DepthFirst(DocumentRows(p, s, w, ds))
  {
    if ds != [] {
      DocumentsDepthFirst(p, s, w, ds[1..]);
      DocumentRowsIds(p, s, w, ds[1..]);
      DepthFirstAppend(DocumentRows(p, s, w, ds)[..1], DocumentRows(p, s, w, ds[1..]));
    }
  }

  lemma {:induction false} SubprojectBudgetsDepthFirst<C>(p: Project<C>, s: Subproject<C>, bs: seq<C>)
    ensures DepthFirst(SubprojectBudgetRows(p, s, bs))
  {
    if bs != [] {
      SubprojectBudgetsDepthFirst(p, s, bs[1..]);
      DepthFirstAppend(SubprojectBudgetRows(p, s, bs)[..1], SubprojectBudgetRows(p, s, bs[1..]));
    }
  }

  lemma {:induction false} ProjectBudgetsDepthFirst<C>(p: Project<C>, bs: seq<C>)
    ensures DepthFirst(ProjectBudgetRows(p, bs))
  {
    if bs != [] {
      ProjectBudgetsDepthFirst(p, bs[1..]);
      DepthFirstAppend(ProjectBudgetRows(p, bs)[..1], ProjectBudgetRows(p, bs[1..]));
    }
  }

  lemma ItemDepthFirst<C>(p: Project<C>, s: Subproject<C>, w: Workflowitem<C>)
    ensures DepthFirst(ItemCommits(p, s, w))
  {
    DocumentsDepthFirst(p, s, w, w.documents);
    DocumentRowsIds(p, s, w, w.documents);
    DepthFirstAppend([ItemRow(p, s, w)], DocumentRows(p, s, w, w.documents));
  }

  lemma {:induction false} ItemsDepthFirst<C>(p: Project<C>, s: Subproject<C>, ws: seq<Workflowitem<C>>)
    ensures var rows := ItemsCommits(p, s, ws);
            DepthFirst(rows) && (rows != [] ==> rows[0] == ItemRow(p, s, ws[0]))
  {
    if ws != [] {
      ItemsDepthFirst(p, s, ws[1..]);
      ItemDepthFirst(p, s, ws[0]);
      ItemCommitsIds(p, s, ws[0]);
      DepthFirstAppend(ItemCommits(p, s, ws[0]), ItemsCommits(p, s, ws[1..]));
    }
  }

  lemma SubprojectDepthFirst<C>(p: Project<C>, s: Subproject<C>)
    ensures DepthFirst(SubprojectCommits(p, s))
  {
    var row, budgets, items := SubRow(p, s), SubprojectBudgetRows(p, s, s.budgets), ItemsCommits(p, s, s.items);
    SubprojectBudgetsDepthFirst(p, s, s.budgets);
    SubprojectBudgetRowsIds(p, s, s.budgets);
    DepthFirstAppend([row], budgets);
    ItemsDepthFirst(p, s, s.items);
    DepthFirstAppend([row] + budgets, items);
  }

  lemma {:induction false} SubprojectsDepthFirst<C>(p: Project<C>, ss: seq<Subproject<C>>)
    ensures var rows := SubprojectsCommits(p, ss);
            DepthFirst(rows) && (rows != [] ==> rows[0] == SubRow(p, ss[0]))
  {
    if ss != [] {
      SubprojectsDepthFirst(p, ss[1..]);
      SubprojectDepthFirst(p, ss[0]);
      SubprojectCommitsIds(p, ss[0]);
      DepthFirstAppend(SubprojectCommits(p, ss[0]), SubprojectsCommits(p, ss[1..]));
    }
  }

  lemma ProjectDepthFirst<C>(p: Project<C>)
    ensures DepthFirst(ProjectCommits(p))
  {
    var row, budgets, subs :=
      ProjectRow(p.id, p.name, p.cells), ProjectBudgetRows(p, p.budgets), SubprojectsCommits(p, p.subprojects);
    ProjectBudgetsDepthFirst(p, p.budgets);
    ProjectBudgetRowsIds(p, p.budgets);
    DepthFirstAppend([row], budgets);
    SubprojectsDepthFirst(p, p.subprojects);
    DepthFirstAppend([row] + budgets, subs);
  }

  /** The rows are committed depth first: whatever belongs to a row comes before the next row of its kind. */
  lemma {:induction false} CommitsDepthFirst<C>(ps: seq<Project<C>>)
    ensures var rows := Commits(ps);
            DepthFirst(rows) && (rows != [] ==> rows[0] == ProjectRow(ps[0].id, ps[0].name, ps[0].cells))
  {
    if ps != [] {
      CommitsDepthFirst(ps[1..]);
      ProjectDepthFirst(ps[0]);
      DepthFirstAppend(ProjectCommits(ps[0]), Commits(ps[1..]));
    }
  }

  // ---------------------------------------------------------------- every commit leaves the sheets closed

  /** The row q is the one r's parent columns speak of, names and currency included. */
  predicate IsParent<C>(q: Row<C>, r: Row<C>) {
    match r
    case ProjectRow(_, _, _) => false
    case ProjectBudgetRow(pid, pname, _) => q.ProjectRow? && q.projectId == pid && q.projectName == pname
    case SubprojectRow(pid, pname, _, _, _, _) => q.ProjectRow? && q.projectId == pid && q.projectName == pname
    case SubprojectBudgetRow(pid, pname, sid, sname, _) =>
      q.SubprojectRow? && q.projectId == pid && q.projectName == pname && q.subprojectId == sid &&
        q.subprojectName == sname
    case WorkflowitemRow(pid, pname, sid, sname, currency, _, _, _) =>
      q.SubprojectRow? && q.projectId == pid && q.projectName == pname && q.subprojectId == sid &&
      q.subprojectName == sname && q.currency == currency
    case DocumentRow(pid, pname, sid, sname, wid, wname, _, _) =>
      q.WorkflowitemRow? && q.projectId == pid && q.projectName == pname && q.subprojectId == sid &&
      q.subprojectName == sname && q.workflowitemId == wid && q.workflowitemName == wname
  }

  ghost predicate AllChildren<C>(q: Row<C>, rows: seq<Row<C>>) {
    forall i :: 0 <= i < |rows| ==> IsParent(q, rows[i])
  }

  ghost predicate HasParent<C>(rows: seq<Row<C>>, r: Row<C>) {
    r.ProjectRow? || exists i :: 0 <= i < |rows| && IsParent(rows[i], r)
  }

  /** Each row's parent was committed before it, either among the rows of `above` or in `rows` itself. */
  ghost predicate Supported<C>(above: seq<Row<C>>, rows: seq<Row<C>>) {
    forall i :: 0 <= i < |rows| ==> HasParent(above, rows[i]) || HasParent(rows[..i], rows[i])
  }

  lemma HasParentIn<C>(some: seq<Row<C>>, more: seq<Row<C>>, r: Row<C>)
    requires HasParent(some, r) && forall i :: 0 <= i < |some| ==> some[i] in more
    ensures HasParent(more, r)
  {
    if !r.ProjectRow? {
      var i :| 0 <= i < |some| && IsParent(some[i], r);
      var j :| 0 <= j < |more| && more[j] == some[i];
    }
  }

  lemma SupportedAppend<C>(above: seq<Row<C>>, a: seq<Row<C>>, b: seq<Row<C>>)
    requires Supported(above, a) && Supported(above + a, b)
    ensures Supported(above, a + b)
  {
    var ab := a + b;
    forall i | 0 <= i < |ab|
      ensures HasParent(above, ab[i]) || HasParent(ab[..i], ab[i])
    {
      if i < |a| {
        assert ab[..i] == a[..i];
      } else {
        var k := i - |a|;
        assert ab[i] == b[k] && ab[..i] == a + b[..k];
        if HasParent(above + a, b[k]) && !b[k].ProjectRow? {
          var j :| 0 <= j < |above + a| && IsParent((above + a)[j], b[k]);
          if j >= |above| {
            assert IsParent(ab[..i][j - |above|], b[k]);
          } else {
            assert IsParent(above[j], b[k]);
          }
        } else if HasParent(b[..k], b[k]) {
          HasParentIn(b[..k], ab[..i], b[k]);
        }
      }
    }
  }

  lemma SupportedMore<C>(some: seq<Row<C>>, more: seq<Row<C>>, rows: seq<Row<C>>)
    requires Supported(some, rows) && forall i :: 0 <= i < |some| ==> some[i] in more
    ensures Supported(more, rows)
  {
    forall i | 0 <= i < |rows|
      ensures HasParent(more, rows[i]) || HasParent(rows[..i], rows[i])
    {
      if HasParent(some, rows[i]) {
        HasParentIn(some, more, rows[i]);
      }
    }
  }

  /** One row, and rows that all have it as their parent. */
  lemma SupportedFamily<C>(above: seq<Row<C>>, r: Row<C>, children: seq<Row<C>>)
    requires HasParent(above, r) && AllChildren(r, children)
    ensures Supported(above, [r] + children)
  {
    var rows := [r] + children;
    forall i | 0 <= i < |rows|
      ensures HasParent(above, rows[i]) || HasParent(rows[..i], rows[i])
    {
      if i > 0 {
        assert rows[i] == children[i - 1] && rows[..i][0] == r;
        assert IsParent(r, children[i - 1]);
      }
    }
  }

  lemma {:induction false} DocumentRowsParent<C>(p: Project<C>, s: Subproject<C>, w: Workflowitem<C>, ds: seq<Document>)
    ensures AllChildren(ItemRow(p, s, w), DocumentRows(p, s, w, ds))
  {
    if ds != [] {
      DocumentRowsParent(p, s, w, ds[1..]);
    }
  }

  lemma {:induction false} SubprojectBudgetRowsParent<C>(p: Project<C>, s: Subproject<C>, bs: seq<C>)
    ensures AllChildren(SubRow(p, s), SubprojectBudgetRows(p, s, bs))
  {
    if bs != [] {
      SubprojectBudgetRowsParent(p, s, bs[1..]);
    }
  }

  lemma {:induction false} ProjectBudgetRowsParent<C>(p: Project<C>, bs: seq<C>)
    ensures AllChildren(ProjectRow(p.id, p.name, p.cells), ProjectBudgetRows(p, bs))
  {
    if bs != [] {
      ProjectBudgetRowsParent(p, bs[1..]);
    }
  }

  lemma {:induction false} ItemsSupported<C>(p: Project<C>, s: Subproject<C>, ws: seq<Workflowitem<C>>)
    ensures Supported([SubRow(p, s)], ItemsCommits(p, s, ws))
  {
    if ws != [] {
      var above, first, rest := [SubRow(p, s)], ItemCommits(p, s, ws[0]), ItemsCommits(p, s, ws[1..]);
      DocumentRowsParent(p, s, ws[0], ws[0].documents);
      assert IsParent(above[0], ItemRow(p, s, ws[0]));
      SupportedFamily(above, ItemRow(p, s, ws[0]), DocumentRows(p, s, ws[0], ws[0].documents));
      ItemsSupported(p, s, ws[1..]);
      SupportedMore(above, above + first, rest);
      SupportedAppend(above, first, rest);
    }
  }

  lemma SubprojectSupported<C>(p: Project<C>, s: Subproject<C>)
    ensures Supported([ProjectRow(p.id, p.name, p.cells)], SubprojectCommits(p, s))
  {
    var above, own := [ProjectRow(p.id, p.name, p.cells)], [SubRow(p, s)] + SubprojectBudgetRows(p, s, s.budgets);
    SubprojectBudgetRowsParent(p, s, s.budgets);
    assert IsParent(above[0], SubRow(p, s));
    SupportedFamily(above, SubRow(p, s), SubprojectBudgetRows(p, s, s.budgets));
    ItemsSupported(p, s, s.items);
    assert (above + own)[1] == SubRow(p, s);
    SupportedMore([SubRow(p, s)], above + own, ItemsCommits(p, s, s.items));
    SupportedAppend(above, own, ItemsCommits(p, s, s.items));
  }

  lemma {:induction false} SubprojectsSupported<C>(p: Project<C>, ss: seq<Subproject<C>>)
    ensures Supported([ProjectRow(p.id, p.name, p.cells)], SubprojectsCommits(p, ss))
  {
    if ss != [] {
      var above, first := [ProjectRow(p.id, p.name, p.cells)], SubprojectCommits(p, ss[0]);
      SubprojectSupported(p, ss[0]);
      SubprojectsSupported(p, ss[1..]);
      SupportedMore(above, above + first, SubprojectsCommits(p, ss[1..]));
      SupportedAppend(above, first, SubprojectsCommits(p, ss[1..]));
    }
  }

  lemma ProjectSupported<C>(p: Project<C>)
    ensures Supported([], ProjectCommits(p))
  {
    var r, budgets := ProjectRow(p.id, p.name, p.cells), ProjectBudgetRows(p, p.budgets);
    var own, rest := [r] + budgets, SubprojectsCommits(p, p.subprojects);
    ProjectBudgetRowsParent(p, p.budgets);
    SupportedFamily([], r, budgets);
    SubprojectsSupported(p, p.subprojects);
    assert ([] + own)[0] == r;
    SupportedMore([r], [] + own, rest);
    SupportedAppend([], own, rest);
  }

  lemma {:induction false} CommitsSupported<C>(ps: seq<Project<C>>)
    ensures Supported([], Commits(ps))
  {
    if ps != [] {
      ProjectSupported(ps[0]);
      CommitsSupported(ps[1..]);
      SupportedMore([], [] + ProjectCommits(ps[0]), Commits(ps[1..]));
      SupportedAppend([], ProjectCommits(ps[0]), Commits(ps[1..]));
    }
  }

  function ParentSheet<C>(sheets: Sheets<C>, r: Row<C>): seq<Row<C>> {
    match KindOf(r)
    case Projects => []
    case ProjectBudgets => sheets.projects
    case Subprojects => sheets.projects
    case SubprojectBudgets => sheets.subprojects
    case Workflowitems => sheets.subprojects
    case Documents => sheets.workflowitems
  }

  lemma {:induction false} SheetMember<C>(kind: Kind, log: seq<Row<C>>, r: Row<C>)
    ensures r in Sheet(kind, log) <==> r in log && KindOf(r) == kind
  {
    if log != [] {
      SheetMember(kind, log[1..], r);
    }
  }

  /**
    At every commit on the way to where the export ends, finished or not: each row's parent stands in its sheet
    already, and each sheet is a prefix of the complete one - but for the subprojects' budgets, of which rows are
    missing in between if the export is late.
  */
  lemma EveryCommitClosed<C(!new)>(ps: seq<Project<C>>, end: seq<Row<C>>, late: bool, log: seq<Row<C>>, kind: Kind,
                                   r: Row<C>)
    requires Torn(Commits(ps), end, late) && log <= end
    ensures !late || kind != SubprojectBudgets ==> Sheet(kind, log) <= Sheet(kind, Commits(ps))
    ensures Part(Sheet(kind, log), Sheet(kind, Commits(ps)))
    ensures r in Sheet(kind, log) ==> HasParent(ParentSheet(SheetsOf(log), r), r)
  {
    var all := Commits(ps);
    var l := TornEarlier(all, end, late, log);
    var head, block, tail, thrown :| TornAt(all, log, head, block, tail, thrown) && l == Late(thrown);
    TornSheets(all, log, head, block, tail, thrown, kind);
    SheetMember(kind, log, r);
    if r in Sheet(kind, log) && !r.ProjectRow? {
      var j := TornParent(ps, log, head, block, tail, thrown, r);
      ParentInSheet(log, j, r);
    }
  }

  lemma TornSheets<C>(all: seq<Row<C>>, log: seq<Row<C>>, head: seq<Row<C>>, block: seq<Row<C>>, tail: seq<Row<C>>,
                      thrown: seq<bool>, kind: Kind)
    requires TornAt(all, log, head, block, tail, thrown)
    ensures kind != SubprojectBudgets || !Late(thrown) ==> Sheet(kind, log) <= Sheet(kind, all)
    ensures Part(Sheet(kind, log), Sheet(kind, all))
  {
    SurvivorsPart(block, thrown);
    PartMore(head, Survivors(block, thrown), block, tail);
    SheetPart(kind, log, all);
    if !Late(thrown) {
      TornIsStart(all, log, head, block, tail, thrown);
      InTimeIsStart(block, thrown);
      SheetOfStart(kind, log, all);
    } else if kind != SubprojectBudgets {
      OtherSheet(kind, head, block, thrown);
      assert head <= all;
      SheetOfStart(kind, head, all);
    }
  }

  lemma SheetOfStart<C>(kind: Kind, log: seq<Row<C>>, all: seq<Row<C>>)
    requires log <= all
    ensures Sheet(kind, log) <= Sheet(kind, all)
  {
    assert all == log + all[|log|..];
    SheetAppend(kind, log, all[|log|..]);
  }

  lemma OtherSheet<C>(kind: Kind, head: seq<Row<C>>, block: seq<Row<C>>, thrown: seq<bool>)
    requires |thrown| == |block| && BudgetsOfLast(head, block) && kind != SubprojectBudgets
    ensures Sheet(kind, head + Survivors(block, thrown)) == Sheet(kind, head)
  {
    var kept := Survivors(block, thrown);
    SurvivorsPart(block, thrown);
    forall i | 0 <= i < |kept|
      ensures KindOf(kept[i]) != kind
    {
      PartMember(kept, block, kept[i]);
    }
    SheetAppend(kind, head, kept);
    SheetAllOrNone(kind, kept);
  }

  lemma TornParent<C>(ps: seq<Project<C>>, log: seq<Row<C>>, head: seq<Row<C>>, block: seq<Row<C>>, tail: seq<Row<C>>,
                      thrown: seq<bool>, r: Row<C>)
    returns (j: nat)
    requires TornAt(Commits(ps), log, head, block, tail, thrown) && r in log && !r.ProjectRow?
    ensures j < |log| && IsParent(log[j], r)
  {
    var kept := Survivors(block, thrown);
    var i :| 0 <= i < |log| && log[i] == r;
    if i < |head| {
      CommitsSupported(ps);
      var all := Commits(ps);
      assert all[i] == r && HasParent(all[..i], r);
      j :| 0 <= j < |all[..i]| && IsParent(all[..i][j], r);
      assert log[j] == all[j] == all[..i][j];
    } else {
      assert r in kept;
      SurvivorsPart(block, thrown);
      PartMember(kept, block, r);
      j := |head| - 1;
    }
  }

  lemma ParentInSheet<C>(log: seq<Row<C>>, j: nat, r: Row<C>)
    requires j < |log| && IsParent(log[j], r)
    ensures HasParent(ParentSheet(SheetsOf(log), r), r)
  {
    var q := log[j];
    SheetMember(KindOf(q), log, q);
    var sheet := Sheet(KindOf(q), log);
    var k :| 0 <= k < |sheet| && sheet[k] == q;
    assert ParentSheet(SheetsOf(log), r) == sheet;
  }

  /** Each of the six sheets holds the committed rows of its own kind. */
  lemma SheetsHold<C>(log: seq<Row<C>>, r: Row<C>)
    ensures r in SheetsOf(log).projects <==> r in log && r.ProjectRow?
    ensures r in SheetsOf(log).projectBudgets <==> r in log && r.ProjectBudgetRow?
    ensures r in SheetsOf(log).subprojects <==> r in log && r.SubprojectRow?
    ensures r in SheetsOf(log).subprojectBudgets <==> r in log && r.SubprojectBudgetRow?
    ensures r in SheetsOf(log).workflowitems <==> r in log && r.WorkflowitemRow?
    ensures r in SheetsOf(log).documents <==> r in log && r.DocumentRow?
  {
    SheetMember(Projects, log, r);
    SheetMember(ProjectBudgets, log, r);
    SheetMember(Subprojects, log, r);
    SheetMember(SubprojectBudgets, log, r);
    SheetMember(Workflowitems, log, r);
    SheetMember(Documents, log, r);
  }
}
