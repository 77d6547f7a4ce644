/**
  The provisioning driver (provisioning/src/index.js): it walks a template tree, finds or creates each node, and
  closes what the template says is closed.  Every request may fail without effect, which cuts the run short there.
  It is proved to carry out a start of the requests the template calls for.
*/
module Provisioning {
  import opened Prelude
  import opened ProvisioningRequests
  import opened TemplateOrder

  // ---------------------------------------------------------------- the API

  function WithNewSubproject(p: Project, name: string): Project {
    p.(subprojects := p.subprojects + [Subproject(name, Open, [])])
  }

  function WithItems(p: Project, s: nat, items: seq<Item>): Project
    requires s < |p.subprojects|
  {
    p.(subprojects := p.subprojects[s := p.subprojects[s].(items := items)])
  }

  function WithStatus(p: Project, s: nat, status: Status): Project
    requires s < |p.subprojects|
  {
    p.(subprojects := p.subprojects[s := p.subprojects[s].(status := status)])
  }

  class Api {
    var projects: seq<Project>
    /** Close requests that did not meet their guard. */
    var refused: nat
    /** Whether a request has failed for another reason. */
    ghost var failed: bool

    constructor (projects: seq<Project>)
      ensures this.projects == projects && refused == 0 && !failed
    {
      this.projects, refused, failed := projects, 0, false;
    }

    /** A request that changes no name and no status: authentication, lists, updates, grants, assignments. */
    method Other() returns (ok: bool)
      modifies this`failed
      ensures failed == (old(failed) || !ok)
    {
      ok := *;
      failed := failed || !ok;
    }

    method CreateProject(name: string) returns (ok: bool)
      modifies this`projects, this`failed
      ensures failed == (old(failed) || !ok)
      ensures projects == if ok then old(projects) + [Project(name, Open, [])] else old(projects)
    {
      ok := Other();
      if ok {
        projects := projects + [Project(name, Open, [])];
      }
    }

    method CreateSubproject(p: nat, name: string) returns (ok: bool)
      requires p < |projects|
      modifies this`projects, this`failed
      ensures failed == (old(failed) || !ok)
      ensures projects ==
              if ok then
                old(projects)[p := WithNewSubproject(old(projects)[p], name)]
              else old(projects)
    {
      ok := Other();
      if ok {
        projects := projects[p := WithNewSubproject(projects[p], name)];
      }
    }

    method CreateWorkflowitem(p: nat, s: nat, name: string) returns (ok: bool)
      requires p < |projects| && s < |projects[p].subprojects|
      modifies this`projects, this`failed
      ensures failed == (old(failed) || !ok)
      ensures projects ==
              if ok then
                old(projects)[p := WithItems(old(projects)[p], s,
                                             old(projects)[p].subprojects[s].items + [Item(name, Open)])]
              else old(projects)
    {
      ok := Other();
      if ok {
        projects := projects[p := WithItems(projects[p], s, projects[p].subprojects[s].items + [Item(name, Open)])];
      }
    }

    /** An item that is closed already is accepted without a look at the others. */
    method CloseWorkflowitem(p: nat, s: nat, i: nat) returns (ok: bool)
      requires p < |projects| && s < |projects[p].subprojects| && i < |projects[p].subprojects[s].items|
      modifies this
      ensures var items := old(projects)[p].subprojects[s].items;
              var closed := items[i := items[i].(status := Closed)];
              && refused == (if MayCloseItem(items, i) then old(refused) else old(refused) + 1)
              && (ok ==> MayCloseItem(items, i))
              && projects == if ok then old(projects)[p := WithItems(old(projects)[p], s, closed)]
                             else old(projects)
      ensures refused == old(refused) <==>
              || old(projects)[p].subprojects[s].items[i].status == Closed
              || forall j :: 0 <= j < i ==> old(projects)[p].subprojects[s].items[j].status == Closed
      ensures failed == (old(failed) || (!ok && refused == old(refused)))
    {
      var items := projects[p].subprojects[s].items;
      if !MayCloseItem(items, i) {
        refused := refused + 1;
        return false;
      }
      ok := Other();
      if ok {
        projects := projects[p := WithItems(projects[p], s, items[i := items[i].(status := Closed)])];
      }
    }

    method CloseSubproject(p: nat, s: nat) returns (ok: bool)
      requires p < |projects| && s < |projects[p].subprojects|
      modifies this
      ensures refused == if MayCloseSubproject(old(projects)[p].subprojects[s]) then old(refused) else old(refused) + 1
      ensures ok ==> MayCloseSubproject(old(projects)[p].subprojects[s])
      ensures projects == if ok then old(projects)[p := WithStatus(old(projects)[p], s, Closed)] else old(projects)
      ensures refused == old(refused) <==>
              || old(projects)[p].subprojects[s].status == Closed
              || forall i :: i in old(projects)[p].subprojects[s].items ==> i.status == Closed
      ensures failed == (old(failed) || (!ok && refused == old(refused)))
    {
      if !MayCloseSubproject(projects[p].subprojects[s]) {
        refused := refused + 1;
        return false;
      }
      ok := Other();
      if ok {
        projects := projects[p := WithStatus(projects[p], s, Closed)];
      }
    }

    method CloseProject(p: nat) returns (ok: bool)
      requires p < |projects|
      modifies this
      ensures refused == if MayCloseProject(old(projects)[p]) then old(refused) else old(refused) + 1
      ensures ok ==> MayCloseProject(old(projects)[p])
      ensures projects == if ok then old(projects)[p := old(projects)[p].(status := Closed)] else old(projects)
      ensures refused == old(refused) <==>
              old(projects)[p].status == Closed || forall s :: s in old(projects)[p].subprojects ==> s.status == Closed
      ensures failed == (old(failed) || (!ok && refused == old(refused)))
    {
      if !MayCloseProject(projects[p]) {
        refused := refused + 1;
        return false;
      }
      ok := Other();
      if ok {
        projects := projects[p := projects[p].(status := Closed)];
      }
    }
  }

  // ---------------------------------------------------------------- the driver

  /** No other project has changed. */
  predicate OnlyAt(before: seq<Project>, p: nat, after: seq<Project>) {
    |after| == |before| && forall q :: 0 <= q < |before| && q != p ==> after[q] == before[q]
  }

  /** The subproject with this name is at this place. */
  predicate At(p: Project, s: nat, name: string) {
    Find(SubprojectNames(p.subprojects), name) == Some(s)
  }

  lemma AtKept(p: Project, r: Request, s: nat, name: string)
    requires At(p, s, name)
    ensures At(Apply(p, r), s, name)
  {
    NamesKept(p, r);
    if r.AddSubproject? {
      FindAppend(SubprojectNames(p.subprojects), [r.sub], name);
    }
  }

  lemma {:induction false} AtKeptByRun(p: Project, rs: seq<Request>, s: nat, name: string)
    requires At(p, s, name)
    ensures At(Run(p, rs), s, name)
    decreases rs
  {
    if rs != [] {
      AtKept(p, rs[0], s, name);
      AtKeptByRun(Apply(p, rs[0]), rs[1..], s, name);
    }
  }

  /** The API's requests on a project in terms of names. */
  lemma ItemEffects(p: Project, s: nat, sub: string, name: string)
    requires At(p, s, sub)
    ensures var items := p.subprojects[s].items;
            var i := Find(ItemNames(items), name);
            && (i.None? ==> Apply(p, AddItem(sub, name)) == WithItems(p, s, items + [Item(name, Open)]) &&
                            Find(ItemNames(items + [Item(name, Open)]), name) == Some(|items|))
            && (i.Some? ==> Apply(p, AddItem(sub, name)) == p)
            && (i.Some? ==>
                 Apply(p, CloseItem(sub, name)) ==
                 WithItems(p, s, items[i.value := items[i.value].(status := Closed)]))
            && (i.Some? && items[i.value].status == Closed ==> Apply(p, CloseItem(sub, name)) == p)
            && (i.Some? ==> (Refused(p, CloseItem(sub, name)) <==> !MayCloseItem(items, i.value)))
  {
    var items := p.subprojects[s].items;
    assert ItemNames(items + [Item(name, Open)]) == ItemNames(items) + [name];
    FindAppend(ItemNames(items), [name], name);
    assert p.subprojects[s := p.subprojects[s]] == p.subprojects;
    var i := Find(ItemNames(items), name);
    if i.Some? && items[i.value].status == Closed {
      assert items[i.value := items[i.value].(status := Closed)] == items;
    }
  }

  lemma OneRequest(p: Project, r: Request, rest: seq<Request>)
    requires !Refused(p, r)
    ensures Outcome(p, [r] + rest, 0, p, false, false) && Outcome(p, [r] + rest, 1, Apply(p, r), false, false)
    ensures RanAll(p, [r], Apply(p, r))
  {
    RanNext(p, [r] + rest, 0, p);
    RunOne(p, r);
  }

  /** Where the work on one item can end. */
  lemma ItemOutcomes(p: Project, s: nat, sub: string, t: ItemTemplate)
    requires At(p, s, sub)
    ensures var rs, mid, close := ItemRequests(sub, t), Apply(p, AddItem(sub, t.name)), CloseItem(sub, t.name);
            && Outcome(p, rs, 0, p, false, false) && Outcome(p, rs, 1, mid, false, false) && At(mid, s, sub)
            && (!t.closed ==> Outcome(p, rs, 1, mid, true, false))
            && (t.closed && Refused(mid, close) ==> Outcome(p, rs, 1, mid, false, true))
            && (t.closed && !Refused(mid, close) ==>
                  Outcome(p, rs, 2, Apply(mid, close), true, false) && At(Apply(mid, close), s, sub))
  {
    var add, close := AddItem(sub, t.name), CloseItem(sub, t.name);
    AtKept(p, add, s, sub);
    OneRequest(p, add, if t.closed then [close] else []);
    if t.closed {
      AtKept(Apply(p, add), close, s, sub);
      OutcomeLast(p, [add], Apply(p, add), close);
    } else {
      assert [add] + [] == [add];
    }
  }

  /** provisionWorkflowitem. */
  method ProvisionWorkflowitem(api: Api, p: nat, s: nat, sub: string, t: ItemTemplate) returns (ok: bool, ghost n: nat)
    requires p < |api.projects| && At(api.projects[p], s, sub)
    modifies api
    ensures p < |api.projects| && OnlyAt(old(api.projects), p, api.projects)
    ensures Outcome(old(api.projects)[p], ItemRequests(sub, t), n, api.projects[p], ok, api.refused != old(api.refused))
    ensures !ok ==> api.failed || api.refused != old(api.refused)
    ensures api.refused >= old(api.refused) && (old(api.failed) ==> api.failed)
  {
    ghost var start := api.projects[p];
    n := 0;
    ItemOutcomes(start, s, sub, t);
    ItemEffects(start, s, sub, t.name);
    ok := api.Other();
    if !ok {
      return;
    }
    var i := Find(ItemNames(api.projects[p].subprojects[s].items), t.name);
    if i.None? {
      ok := api.CreateWorkflowitem(p, s, t.name);
      if !ok {
        return;
      }
      n := 1;
      ok := api.Other();
      if !ok {
        return;
      }
      i := Find(ItemNames(api.projects[p].subprojects[s].items), t.name);
    }
    ghost var mid := api.projects[p];
    assert mid == Apply(start, AddItem(sub, t.name));
    ok := ProvisionFoundWorkflowitem(api, p, s, i.value, sub, t);
    n := if ok && t.closed then 2 else 1;
  }

  /** The rest of provisionWorkflowitem once the item is there. */
  method ProvisionFoundWorkflowitem(api: Api, p: nat, s: nat, i: nat, sub: string, t: ItemTemplate)
    returns (ok: bool)
    requires p < |api.projects| && At(api.projects[p], s, sub)
    requires Find(ItemNames(api.projects[p].subprojects[s].items), t.name) == Some(i)
    modifies api
    ensures p < |api.projects| && OnlyAt(old(api.projects), p, api.projects)
    ensures var mid, close := old(api.projects)[p], CloseItem(sub, t.name);
            && (!ok || !t.closed ==> api.projects[p] == mid)
            && (ok && t.closed ==> !Refused(mid, close) && api.projects[p] == Apply(mid, close))
            && (api.refused != old(api.refused) ==> !ok && t.closed && Refused(mid, close))
    ensures !ok ==> api.failed || api.refused != old(api.refused)
    ensures api.refused >= old(api.refused) && (old(api.failed) ==> api.failed)
  {
    ItemEffects(api.projects[p], s, sub, t.name);
    ok := true;
    if api.projects[p].subprojects[s].items[i].status == Open {
      ok := api.Other();
      if !ok {
        return;
      }
      if t.closed {
        ok := api.CloseWorkflowitem(p, s, i);
      }
    }
  }

  /** The loop over a subproject's workflows. */
  method ProvisionWorkflowitems(api: Api, p: nat, s: nat, t: SubprojectTemplate) returns (ok: bool, ghost n: nat)
    requires p < |api.projects| && At(api.projects[p], s, t.name)
    modifies api
    ensures p < |api.projects| && OnlyAt(old(api.projects), p, api.projects)
    ensures Outcome(old(api.projects)[p], ItemsRequests(t.name, t.items), n, api.projects[p], ok,
                    api.refused != old(api.refused))
    ensures !ok ==> api.failed || api.refused != old(api.refused)
    ensures api.refused >= old(api.refused) && (old(api.failed) ==> api.failed)
  {
    ghost var start := api.projects[p];
    for k := 0 to |t.items|
      invariant p < |api.projects| && OnlyAt(old(api.projects), p, api.projects)
      invariant RanAll(start, ItemsRequests(t.name, t.items[..k]), api.projects[p])
      invariant api.refused == old(api.refused) && (old(api.failed) ==> api.failed)
    {
      ghost var mid := api.projects[p];
      AtKeptByRun(start, ItemsRequests(t.name, t.items[..k]), s, t.name);
      ok, n := ProvisionWorkflowitem(api, p, s, t.name, t.items[k]);
      n := ItemsStep(start, t.name, t.items, k, mid, n, api.projects[p], ok, api.refused != old(api.refused));
      if !ok {
        return;
      }
    }
    ItemsEnd(start, t.name, t.items, api.projects[p]);
    ok, n := true, |ItemsRequests(t.name, t.items)|;
  }

  lemma CloseEffect(p: Project, s: nat, sub: string)
    requires At(p, s, sub)
    ensures Apply(p, CloseSubproject(sub)) == WithStatus(p, s, Closed)
    ensures Refused(p, CloseSubproject(sub)) <==> !MayCloseSubproject(p.subprojects[s])
  {
  }

  /** The rest of provisionSubproject once the subproject is there. */
  method ProvisionFoundSubproject(api: Api, p: nat, s: nat, t: SubprojectTemplate) returns (ok: bool, ghost n: nat)
    requires p < |api.projects| && At(api.projects[p], s, t.name)
    modifies api
    ensures p < |api.projects| && OnlyAt(old(api.projects), p, api.projects)
    ensures Outcome(old(api.projects)[p], InnerRequests(t), n, api.projects[p], ok, api.refused != old(api.refused))
    ensures !ok ==> api.failed || api.refused != old(api.refused)
    ensures api.refused >= old(api.refused) && (old(api.failed) ==> api.failed)
  {
    ghost var start, rs := api.projects[p], ItemsRequests(t.name, t.items);
    NothingYet(start, InnerRequests(t));
    n := 0;
    ok := api.Other();
    if !ok {
      return;
    }
    ok, n := ProvisionWorkflowitems(api, p, s, t);
    ghost var mid, close := api.projects[p], CloseSubproject(t.name);
    if !ok {
      OutcomeCut(start, rs, n, mid, api.refused != old(api.refused), if t.closed then [close] else []);
      return;
    }
    OutcomeAll(start, rs, mid);
    if t.closed {
      AtKeptByRun(start, rs, s, t.name);
      CloseEffect(mid, s, t.name);
      OutcomeLast(start, rs, mid, close);
      ok := api.Other();
      if !ok {
        return;
      }
      ok := api.CloseSubproject(p, s);
      n := if ok then |rs| + 1 else |rs|;
    } else {
      assert InnerRequests(t) == rs;
    }
  }

  lemma NothingYet(p: Project, rs: seq<Request>)
    ensures Outcome(p, rs, 0, p, false, false)
  {
  }

  lemma AddEffect(p: Project, name: string)
    ensures var i := Find(SubprojectNames(p.subprojects), name);
            Apply(p, AddSubproject(name)) ==
            if i.Some? then p else WithNewSubproject(p, name)
    ensures Find(SubprojectNames(Apply(p, AddSubproject(name)).subprojects), name).Some?
  {
    NamesKept(p, AddSubproject(name));
  }

  /**
    The start of provisionSubproject: an error of creating is swallowed, but then there is no subproject to work on.
  */
  method FindOrCreateSubproject(api: Api, p: nat, name: string) returns (s: Option<nat>)
    requires p < |api.projects|
    modifies api
    ensures p < |api.projects| && OnlyAt(old(api.projects), p, api.projects)
    ensures || api.projects[p] == old(api.projects)[p]
            || api.projects[p] == Apply(old(api.projects)[p], AddSubproject(name))
    ensures s.Some? ==> api.projects[p] == Apply(old(api.projects)[p], AddSubproject(name))
    ensures s.Some? ==> At(api.projects[p], s.value, name)
    ensures s.None? ==> api.failed
    ensures api.refused == old(api.refused) && (old(api.failed) ==> api.failed)
  {
    AddEffect(api.projects[p], name);
    var ok := api.Other();
    if !ok {
      return None;
    }
    s := Find(SubprojectNames(api.projects[p].subprojects), name);
    if s.None? {
      ok := api.CreateSubproject(p, name);
      if ok {
        ok := api.Other();
      }
      s := if ok then Find(SubprojectNames(api.projects[p].subprojects), name) else None;
    }
  }

  /** provisionSubproject. */
  method ProvisionSubproject(api: Api, p: nat, t: SubprojectTemplate) returns (ok: bool, ghost n: nat)
    requires p < |api.projects|
    modifies api
    ensures p < |api.projects| && OnlyAt(old(api.projects), p, api.projects)
    ensures Outcome(old(api.projects)[p], SubprojectRequests(t), n, api.projects[p], ok,
        api.refused != old(api.refused))
    ensures !ok ==> api.failed || api.refused != old(api.refused)
    ensures api.refused >= old(api.refused) && (old(api.failed) ==> api.failed)
  {
    ghost var start, add := api.projects[p], AddSubproject(t.name);
    OneRequest(start, add, InnerRequests(t));
    var s := FindOrCreateSubproject(api, p, t.name);
    ghost var mid := api.projects[p];
    if s.None? {
      ok, n := false, if mid == start then 0 else 1;
      return;
    }
    ok, n := ProvisionFoundSubproject(api, p, s.value, t);
    OutcomeThen(start, [add], mid, InnerRequests(t), n, api.projects[p], ok, api.refused != old(api.refused));
    n := 1 + n;
  }

  /** The loop over a project's subprojects. */
  method ProvisionSubprojects(api: Api, p: nat, t: ProjectTemplate) returns (ok: bool, ghost n: nat)
    requires p < |api.projects|
    modifies api
    ensures p < |api.projects| && OnlyAt(old(api.projects), p, api.projects)
    ensures Outcome(old(api.projects)[p], SubprojectsRequests(t.subprojects), n, api.projects[p], ok,
                    api.refused != old(api.refused))
    ensures !ok ==> api.failed || api.refused != old(api.refused)
    ensures api.refused >= old(api.refused) && (old(api.failed) ==> api.failed)
  {
    ghost var start, ts := api.projects[p], t.subprojects;
    for k := 0 to |t.subprojects|
      invariant p < |api.projects| && OnlyAt(old(api.projects), p, api.projects)
      invariant RanAll(start, SubprojectsRequests(ts[..k]), api.projects[p])
      invariant api.refused == old(api.refused) && (old(api.failed) ==> api.failed)
    {
      ghost var mid := api.projects[p];
      ok, n := ProvisionSubproject(api, p, t.subprojects[k]);
      n := SubprojectsStep(start, ts, k, mid, n, api.projects[p], ok, api.refused != old(api.refused));
      if !ok {
        return;
      }
    }
    SubprojectsEnd(start, ts, api.projects[p]);
    ok, n := true, |SubprojectsRequests(ts)|;
  }

  /** The rest of provisionFromData once the project is there. */
  method ProvisionFoundProject(api: Api, p: nat, t: ProjectTemplate) returns (ok: bool, ghost n: nat)
    requires p < |api.projects|
    modifies api
    ensures p < |api.projects| && OnlyAt(old(api.projects), p, api.projects)
    ensures Outcome(old(api.projects)[p], Requests(t), n, api.projects[p], ok, api.refused != old(api.refused))
    ensures !ok ==> api.failed || api.refused != old(api.refused)
    ensures api.refused >= old(api.refused) && (old(api.failed) ==> api.failed)
  {
    ghost var start, rs := api.projects[p], SubprojectsRequests(t.subprojects);
    NothingYet(start, Requests(t));
    n := 0;
    ok := api.Other();
    if !ok {
      return;
    }
    ok, n := ProvisionSubprojects(api, p, t);
    ghost var mid := api.projects[p];
    if !ok {
      OutcomeCut(start, rs, n, mid, api.refused != old(api.refused), if t.closed then [CloseProject] else []);
      return;
    }
    OutcomeAll(start, rs, mid);
    if t.closed {
      OutcomeLast(start, rs, mid, CloseProject);
      ok := api.Other();
      if !ok {
        return;
      }
      ok := api.CloseProject(p);
      n := if ok then |rs| + 1 else |rs|;
    } else {
      assert Requests(t) == rs;
    }
  }

  function FoundProject(projects: seq<Project>, name: string): seq<Project> {
    if Find(ProjectNames(projects), name).Some? then projects else projects + [Project(name, Open, [])]
  }

  lemma FoundProjectAt(projects: seq<Project>, name: string)
    ensures var found := FoundProject(projects, name);
            var i := Find(ProjectNames(found), name);
            && i.Some?
            && (name !in ProjectNames(projects) ==> i == Some(|projects|) && found[i.value] == Project(name, Open, []))
            && (name in ProjectNames(projects) ==> i == Find(ProjectNames(projects), name))
  {
    assert ProjectNames(projects + [Project(name, Open, [])]) == ProjectNames(projects) + [name];
    FindAppend(ProjectNames(projects), [name], name);
  }

  /**
    A run over one template: nothing happened, or the found or created project went through a start of the requests.
  */
  ghost predicate TemplateRun(before: seq<Project>, t: ProjectTemplate, n: nat, after: seq<Project>, ok: bool,
                              stopped: bool) {
    var found := FoundProject(before, t.name);
    var i := Find(ProjectNames(found), t.name);
    || (after == before && !ok && !stopped)
    || (i.Some? && OnlyAt(found, i.value, after) &&
        Outcome(found[i.value], Requests(t), n, after[i.value], ok, stopped))
  }

  /**
    provisionFromData: an error ends the work on this template and is swallowed.  On a server that does not have the
    project yet, a run that no request fails completes exactly for templates in order.
  */
  method ProvisionFromData(api: Api, t: ProjectTemplate) returns (ok: bool, ghost n: nat)
    modifies api
    ensures TemplateRun(old(api.projects), t, n, api.projects, ok, api.refused != old(api.refused))
    ensures !ok ==> api.failed || api.refused != old(api.refused)
    ensures api.refused >= old(api.refused) && (old(api.failed) ==> api.failed)
    ensures t.name !in ProjectNames(old(api.projects)) ==>
              && (!InOrder(t) ==> !ok)
              && (api.refused != old(api.refused) ==> !InOrder(t))
              && (!api.failed ==> (ok <==> InOrder(t)))
  {
    ghost var before, found := api.projects, FoundProject(api.projects, t.name);
    FoundProjectAt(before, t.name);
    CleanIff(t);
    n := 0;
    ok := api.Other();
    if !ok {
      return;
    }
    var p := Find(ProjectNames(api.projects), t.name);
    if p.None? {
      ok := api.CreateProject(t.name);
      if !ok {
        return;
      }
    }
    ok := api.Other();
    p := Find(ProjectNames(api.projects), t.name);
    if !ok {
      return;
    }
    ok, n := ProvisionFoundProject(api, p.value, t);
    OutcomeIsClean(found[p.value], Requests(t), n, api.projects[p.value], ok, api.refused != old(api.refused));
  }

  // ---------------------------------------------------------------- any number of runs

  /** Every project that has a template's name is somewhere on the way to what the template describes. */
  ghost predicate Tracks(projects: seq<Project>, ts: seq<ProjectTemplate>) {
    forall i, k :: 0 <= i < |projects| && 0 <= k < |ts| && projects[i].name == ts[k].name ==>
      Tracked(projects[i], ts[k])
  }

  ghost predicate DifferentProjects(ts: seq<ProjectTemplate>) {
    forall i, j :: 0 <= i < j < |ts| ==> ts[i].name != ts[j].name
  }

  /** The server holds exactly what a complete run makes of the template. */
  ghost predicate HasFinished(projects: seq<Project>, t: ProjectTemplate) {
    exists i :: 0 <= i < |projects| && projects[i] == Finished(t)
  }

  /** One run keeps every project on its way. */
  lemma TemplateRunTracks(before: seq<Project>, ts: seq<ProjectTemplate>, k: nat, n: nat, after: seq<Project>, ok: bool,
                          stopped: bool)
    requires DifferentProjects(ts) && k < |ts| && Tracks(before, ts)
    requires TemplateRun(before, ts[k], n, after, ok, stopped)
    ensures Tracks(after, ts)
    ensures ok ==> InOrder(ts[k]) && HasFinished(after, ts[k])
    ensures stopped ==> !InOrder(ts[k])
  {
    var t, found := ts[k], FoundProject(before, ts[k].name);
    FoundProjectAt(before, t.name);
    FreshIsTracked(t);
    CleanIff(t);
    var i := Find(ProjectNames(found), t.name).value;
    if !(after == before && !ok && !stopped) {
      var m :| TrackedTo(found[i], t, m);
      RunTracks(found[i], t, m, n, after[i], ok, stopped);
      NameKept(found[i], Requests(t)[..n]);
      assert Tracked(after[i], t);
      forall a, b | 0 <= a < |after| && 0 <= b < |ts| && after[a].name == ts[b].name
        ensures Tracked(after[a], ts[b])
      {
        if a == i {
          assert b == k;
        } else {
          assert after[a] == found[a];
        }
      }
    }
  }

  /** What is finished stays so under every further run. */
  lemma TemplateRunKeepsFinished(before: seq<Project>, t: ProjectTemplate, n: nat, after: seq<Project>, ok: bool,
                                 stopped: bool, d: ProjectTemplate)
    requires TemplateRun(before, t, n, after, ok, stopped) && HasFinished(before, d)
    requires d.name == t.name ==> d == t && Tracks(before, [t])
    ensures HasFinished(after, d)
  {
    var a :| 0 <= a < |before| && before[a] == Finished(d);
    FoundProjectAt(before, t.name);
    var found := FoundProject(before, t.name);
    var i := Find(ProjectNames(found), t.name).value;
    NameKept(Fresh(d), Requests(d));
    if a == i && n <= |Requests(t)| {
      var rs := Requests(t);
      RequestsEnabled(Fresh(t), t);
      Rerun(Fresh(t), rs, |rs|, n);
      assert rs[..|rs|] == rs;
    }
    assert after[a] == Finished(d);
  }

  /** Every run that was not cut off has left its template finished, and it still is. */
  ghost predicate Achieved(projects: seq<Project>, ts: seq<ProjectTemplate>, schedule: seq<nat>, completed: seq<bool>)
    requires |completed| <= |schedule| && forall j :: 0 <= j < |schedule| ==> schedule[j] < |ts|
  {
    forall j :: 0 <= j < |completed| && completed[j] ==>
      InOrder(ts[schedule[j]]) && HasFinished(projects, ts[schedule[j]])
  }

  lemma AchievedNext(before: seq<Project>, ts: seq<ProjectTemplate>, schedule: seq<nat>, completed: seq<bool>,
                     n: nat, after: seq<Project>, ok: bool, stopped: bool)
    requires |completed| < |schedule| && forall j :: 0 <= j < |schedule| ==> schedule[j] < |ts|
    requires DifferentProjects(ts) && Tracks(before, ts) && Achieved(before, ts, schedule, completed)
    requires TemplateRun(before, ts[schedule[|completed|]], n, after, ok, stopped)
    ensures Tracks(after, ts) && Achieved(after, ts, schedule, completed + [ok])
    ensures stopped ==> !InOrder(ts[schedule[|completed|]])
  {
    var k := schedule[|completed|];
    TemplateRunTracks(before, ts, k, n, after, ok, stopped);
    forall j | 0 <= j < |completed + [ok]| && (completed + [ok])[j]
      ensures InOrder(ts[schedule[j]]) && HasFinished(after, ts[schedule[j]])
    {
      if j < |completed| {
        var d := ts[schedule[j]];
        assert d.name == ts[k].name ==> schedule[j] == k;
        assert Tracks(before, [ts[k]]);
        TemplateRunKeepsFinished(before, ts[k], n, after, ok, stopped, d);
      }
    }
  }

  /**
    Runs of the driver one after the other, each over any of the templates and each cut off anywhere: `schedule`
    lists the templates worked on.
  */
  method ProvisionAgain(api: Api, ts: seq<ProjectTemplate>, schedule: seq<nat>) returns (completed: seq<bool>)
    requires forall j :: 0 <= j < |schedule| ==> schedule[j] < |ts|
    modifies api
    ensures |completed| == |schedule|
    ensures DistinctNames(old(api.projects)) ==> DistinctNames(api.projects)
    ensures DifferentProjects(ts) && Tracks(old(api.projects), ts) ==>
            && Tracks(api.projects, ts)
            && Achieved(api.projects, ts, schedule, completed)
            && (api.refused != old(api.refused) ==> exists j :: 0 <= j < |schedule| && !InOrder(ts[schedule[j]]))
            && (!api.failed ==> forall j :: 0 <= j < |schedule| ==> (completed[j] <==> InOrder(ts[schedule[j]])))
  {
    ghost var tracked := DifferentProjects(ts) && Tracks(api.projects, ts);
    completed := [];
    for j := 0 to |schedule|
      invariant |completed| == j
      invariant DistinctNames(old(api.projects)) ==> DistinctNames(api.projects)
      invariant tracked ==> Tracks(api.projects, ts) && Achieved(api.projects, ts, schedule, completed)
      invariant tracked && api.refused != old(api.refused) ==>
                exists i :: 0 <= i < |schedule| && !InOrder(ts[schedule[i]])
      invariant tracked && !api.failed ==> forall i :: 0 <= i < j ==> (completed[i] <==> InOrder(ts[schedule[i]]))
    {
      ghost var before, refused := api.projects, api.refused;
      var k := schedule[j];
      ghost var n;
      var ok;
      ok, n := ProvisionFromData(api, ts[k]);
      if DistinctNames(before) {
        TemplateRunKeepsDistinct(before, ts[k], n, api.projects, ok, api.refused != refused);
      }
      if tracked {
        AchievedNext(before, ts, schedule, completed, n, api.projects, ok, api.refused != refused);
        assert ok ==> (completed + [ok])[j];
      }
      completed := completed + [ok];
    }
  }

  lemma FoundProjectDistinct(projects: seq<Project>, name: string)
    requires DistinctNames(projects)
    ensures DistinctNames(FoundProject(projects, name))
  {
    var names := ProjectNames(projects);
    if name !in names {
      assert ProjectNames(projects + [Project(name, Open, [])]) == names + [name];
    }
  }

  lemma DistinctAt(found: seq<Project>, i: nat, after: seq<Project>)
    requires i < |found| && OnlyAt(found, i, after) && DistinctNames(found)
    requires after[i].name == found[i].name && DistinctInside(after[i])
    ensures DistinctNames(after)
  {
    assert ProjectNames(after) == ProjectNames(found);
    forall j | 0 <= j < |after|
      ensures DistinctInside(after[j])
    {
      assert DistinctInside(found[j]);
    }
  }

  lemma TemplateRunKeepsDistinct(before: seq<Project>, t: ProjectTemplate, n: nat, after: seq<Project>, ok: bool,
                                 stopped: bool)
    requires TemplateRun(before, t, n, after, ok, stopped) && DistinctNames(before)
    ensures DistinctNames(after)
  {
    if after != before {
      var found := FoundProject(before, t.name);
      var i := Find(ProjectNames(found), t.name).value;
      FoundProjectDistinct(before, t.name);
      assert DistinctInside(found[i]);
      DistinctStaysByRun(found[i], Requests(t)[..n]);
      NameKept(found[i], Requests(t)[..n]);
      DistinctAt(found, i, after);
    }
  }

  // ---------------------------------------------------------------- repeated names

  /** Two subprojects of one name, each ordered on its own. */
  function RepeatedName(): ProjectTemplate {
    ProjectTemplate("p", false, [SubprojectTemplate("s", false, [ItemTemplate("x", false)]),
                                 SubprojectTemplate("s", false, [ItemTemplate("y", true)])])
  }

  /** They meet in one subproject on the server, and the driver's second close request cannot be granted. */
  method RepeatedNameIsRefused() returns (ok: bool, api: Api)
    ensures Ordered(RepeatedName()) && !InOrder(RepeatedName())
    ensures !ok && (api.failed || api.refused > 0)
  {
    ghost var n;
    api := new Api([]);
    RepeatedNameNotInOrder();
    ok, n := ProvisionFromData(api, RepeatedName());
  }

  lemma RepeatedNameNotInOrder()
    ensures Ordered(RepeatedName()) && !InOrder(RepeatedName())
  {
    var ts := RepeatedName().subprojects;
    var x, y := ItemTemplate("x", false), ItemTemplate("y", true);
    assert ts[..2] == ts && ts[..2][..1] == ts[..1];
    assert Gathered(ts[..1][..0], "s") == [];
    assert Gathered(ts[..1], "s") == [] + [x];
    assert Gathered(ts, "s") == [x] + [y];
    var items := [x, y];
    assert items[..1][0] == x && !ClosedIn(items[..1], "x") && NamedBefore(items[..1], 0, "y");
    assert OpenBefore(items[..1], "y");
    assert !ItemInOrder(items, 1);
    assert Gathered(ts[..2], ts[1].name) == items;
    assert !SubprojectInOrder(ts, 1);
  }
}
