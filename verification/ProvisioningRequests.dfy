/**
  What the provisioning driver asks of the server (provisioning/src/index.js, provisioning/src/api.js): a template
  calls for a sequence of requests, and each request has an effect on the project and a guard.

  The server lists children in creation order and shows its one client everything the client created.
*/
module ProvisioningRequests {
  import opened Prelude

  datatype Status = Open | Closed

  datatype Item = Item(name: string, status: Status)
  datatype Subproject = Subproject(name: string, status: Status, items: seq<Item>)
  datatype Project = Project(name: string, status: Status, subprojects: seq<Subproject>)

  /** Templates; `closed` says that the status given is "closed". */
  datatype ItemTemplate = ItemTemplate(name: string, closed: bool)
  datatype SubprojectTemplate = SubprojectTemplate(name: string, closed: bool, items: seq<ItemTemplate>)
  datatype ProjectTemplate = ProjectTemplate(name: string, closed: bool, subprojects: seq<SubprojectTemplate>)

  // ---------------------------------------------------------------- finding by display name

  /** The first place of the name in the list. */
  function Find(names: seq<string>, name: string): (r: Option<nat>)
    ensures r.Some? ==> r.value < |names| && names[r.value] == name
    ensures r.Some? <==> name in names
  {
    if names == [] then None
    else if names[0] == name then Some(0)
    else var rest := Find(names[1..], name); if rest.Some? then Some(rest.value + 1) else None
  }

  function ItemNames(items: seq<Item>): seq<string> {
    seq(|items|, i requires 0 <= i < |items| => items[i].name)
  }

  function SubprojectNames(subs: seq<Subproject>): seq<string> {
    seq(|subs|, i requires 0 <= i < |subs| => subs[i].name)
  }

  function ProjectNames(projects: seq<Project>): seq<string> {
    seq(|projects|, i requires 0 <= i < |projects| => projects[i].name)
  }

  lemma {:induction false} FindAppend(names: seq<string>, more: seq<string>, name: string)
    ensures Find(names, name).Some? ==> Find(names + more, name) == Find(names, name)
    ensures Find(names, name).None? && more != [] && more[0] == name ==> Find(names + more, name) == Some(|names|)
    ensures Find(names, name).None? && name !in more ==> Find(names + more, name) == None
  {
    if names == [] {
      assert names + more == more;
    } else {
      FindAppend(names[1..], more, name);
      assert (names + more)[1..] == names[1..] + more;
    }
  }

  predicate Distinct(names: seq<string>) {
    forall i, j :: 0 <= i < j < |names| ==> names[i] != names[j]
  }

  lemma {:induction false} FindDistinct(names: seq<string>, i: nat)
    requires Distinct(names) && i < |names|
    ensures Find(names, names[i]) == Some(i)
  {
    if i > 0 {
      FindDistinct(names[1..], i - 1);
    }
  }

  // ---------------------------------------------------------------- the guards of the close requests

  /** An open workflowitem may be closed if it is the next to be closed: all created before it are closed. */
  predicate MayCloseItem(items: seq<Item>, i: nat)
    requires i < |items|
  {
    items[i].status == Closed || forall j :: 0 <= j < i ==> items[j].status == Closed
  }

  predicate MayCloseSubproject(s: Subproject) {
    s.status == Closed || forall i :: 0 <= i < |s.items| ==> s.items[i].status == Closed
  }

  predicate MayCloseProject(p: Project) {
    p.status == Closed || forall i :: 0 <= i < |p.subprojects| ==> p.subprojects[i].status == Closed
  }

  // ---------------------------------------------------------------- requests and their effect on a project

  datatype Request =
    | AddSubproject(sub: string)
    | AddItem(sub: string, item: string)
    | CloseItem(sub: string, item: string)
    | CloseSubproject(sub: string)
    | CloseProject

  /** The items after the find-or-create step. */
  function FoundItem(items: seq<Item>, name: string): seq<Item> {
    if Find(ItemNames(items), name).Some? then items else items + [Item(name, Open)]
  }

  function ClosedItem(items: seq<Item>, name: string): seq<Item> {
    var i := Find(ItemNames(items), name);
    if i.Some? then items[i.value := items[i.value].(status := Closed)] else items
  }

  function FoundSubproject(subs: seq<Subproject>, name: string): seq<Subproject> {
    if Find(SubprojectNames(subs), name).Some? then subs else subs + [Subproject(name, Open, [])]
  }

  function ApplyIn(s: Subproject, r: Request): Subproject {
    match r
    case AddItem(_, name) => s.(items := FoundItem(s.items, name))
    case CloseItem(_, name) => s.(items := ClosedItem(s.items, name))
    case CloseSubproject(_) => s.(status := Closed)
    case _ => s
  }

  function Apply(p: Project, r: Request): Project {
    match r
    case AddSubproject(name) => p.(subprojects := FoundSubproject(p.subprojects, name))
    case CloseProject => p.(status := Closed)
    case _ =>
      var i := Find(SubprojectNames(p.subprojects), r.sub);
      if i.None? then p else p.(subprojects := p.subprojects[i.value := ApplyIn(p.subprojects[i.value], r)])
  }

  predicate RefusedItem(items: seq<Item>, name: string) {
    var i := Find(ItemNames(items), name);
    i.Some? && !MayCloseItem(items, i.value)
  }

  predicate RefusedIn(s: Subproject, r: Request) {
    match r
    case CloseItem(_, name) => RefusedItem(s.items, name)
    case CloseSubproject(_) => !MayCloseSubproject(s)
    case _ => false
  }

  /** The server turns the request down. */
  predicate Refused(p: Project, r: Request) {
    match r
    case AddSubproject(_) => false
    case CloseProject => !MayCloseProject(p)
    case _ =>
      var i := Find(SubprojectNames(p.subprojects), r.sub);
      i.Some? && RefusedIn(p.subprojects[i.value], r)
  }

  lemma NamesKept(p: Project, r: Request)
    ensures var names := SubprojectNames(p.subprojects);
            SubprojectNames(Apply(p, r).subprojects) ==
            if r.AddSubproject? && r.sub !in names then names + [r.sub] else names
  {
  }

  function Run(p: Project, rs: seq<Request>): Project
    decreases rs
  {
    if rs == [] then p else Run(Apply(p, rs[0]), rs[1..])
  }

  /** None of the requests, one after the other, is refused. */
  predicate Clean(p: Project, rs: seq<Request>)
    decreases rs
  {
    rs == [] || (!Refused(p, rs[0]) && Clean(Apply(p, rs[0]), rs[1..]))
  }

  lemma {:induction false} RunAppend(p: Project, a: seq<Request>, b: seq<Request>)
    ensures Run(p, a + b) == Run(Run(p, a), b)
    ensures Clean(p, a + b) <==> Clean(p, a) && Clean(Run(p, a), b)
    decreases a
  {
    if a == [] {
      assert a + b == b;
    } else {
      RunAppend(Apply(p, a[0]), a[1..], b);
      assert (a + b)[1..] == a[1..] + b;
    }
  }

  lemma RunOne(p: Project, r: Request)
    ensures Run(p, [r]) == Apply(p, r)
    ensures Clean(p, [r]) <==> !Refused(p, r)
  {
    assert [r][1..] == [];
  }

  // ---------------------------------------------------------------- the requests a template calls for

  function ItemRequests(sub: string, t: ItemTemplate): seq<Request> {
    [AddItem(sub, t.name)] + if t.closed then [CloseItem(sub, t.name)] else []
  }

  function ItemsRequests(sub: string, ts: seq<ItemTemplate>): seq<Request> {
    if ts == [] then [] else ItemRequests(sub, ts[0]) + ItemsRequests(sub, ts[1..])
  }

  /** What is asked for once the subproject is there. */
  function InnerRequests(t: SubprojectTemplate): seq<Request> {
    ItemsRequests(t.name, t.items) + if t.closed then [CloseSubproject(t.name)] else []
  }

  function SubprojectRequests(t: SubprojectTemplate): seq<Request> {
    [AddSubproject(t.name)] + InnerRequests(t)
  }

  function SubprojectsRequests(ts: seq<SubprojectTemplate>): seq<Request> {
    if ts == [] then [] else SubprojectRequests(ts[0]) + SubprojectsRequests(ts[1..])
  }

  /** Everything a template calls for once its project is there, in order. */
  function Requests(t: ProjectTemplate): seq<Request> {
    SubprojectsRequests(t.subprojects) + if t.closed then [CloseProject] else []
  }

  lemma {:induction false} ItemsRequestsAppend(sub: string, a: seq<ItemTemplate>, b: seq<ItemTemplate>)
    ensures ItemsRequests(sub, a + b) == ItemsRequests(sub, a) + ItemsRequests(sub, b)
  {
    if a == [] {
      assert a + b == b;
    } else {
      ItemsRequestsAppend(sub, a[1..], b);
      assert (a + b)[1..] == a[1..] + b;
      ConcatAssoc(ItemRequests(sub, a[0]), ItemsRequests(sub, a[1..]), ItemsRequests(sub, b));
    }
  }

  lemma ItemsRequestsOne(sub: string, t: ItemTemplate)
    ensures ItemsRequests(sub, [t]) == ItemRequests(sub, t)
  {
    assert [t][1..] == [];
    assert ItemsRequests(sub, [t]) == ItemRequests(sub, t) + ItemsRequests(sub, []);
  }

  lemma ItemsRequestsSplit(sub: string, ts: seq<ItemTemplate>, k: nat)
    requires k < |ts|
    ensures ItemsRequests(sub, ts[..k + 1]) == ItemsRequests(sub, ts[..k]) + ItemRequests(sub, ts[k])
    ensures ItemsRequests(sub, ts) == ItemsRequests(sub, ts[..k + 1]) + ItemsRequests(sub, ts[k + 1..])
  {
    SplitAt(ts, k);
    ItemsRequestsAppend(sub, ts[..k], [ts[k]]);
    ItemsRequestsAppend(sub, ts[..k + 1], ts[k + 1..]);
    ItemsRequestsOne(sub, ts[k]);
  }

  lemma {:induction false} SubprojectsRequestsAppend(a: seq<SubprojectTemplate>, b: seq<SubprojectTemplate>)
    ensures SubprojectsRequests(a + b) == SubprojectsRequests(a) + SubprojectsRequests(b)
  {
    if a == [] {
      assert a + b == b;
    } else {
      SubprojectsRequestsAppend(a[1..], b);
      assert (a + b)[1..] == a[1..] + b;
      ConcatAssoc(SubprojectRequests(a[0]), SubprojectsRequests(a[1..]), SubprojectsRequests(b));
    }
  }

  lemma SubprojectsRequestsOne(t: SubprojectTemplate)
    ensures SubprojectsRequests([t]) == SubprojectRequests(t)
  {
    assert [t][1..] == [];
    assert SubprojectsRequests([t]) == SubprojectRequests(t) + SubprojectsRequests([]);
  }

  lemma SubprojectsRequestsSplit(ts: seq<SubprojectTemplate>, k: nat)
    requires k < |ts|
    ensures SubprojectsRequests(ts[..k + 1]) == SubprojectsRequests(ts[..k]) + SubprojectRequests(ts[k])
    ensures SubprojectsRequests(ts) == SubprojectsRequests(ts[..k + 1]) + SubprojectsRequests(ts[k + 1..])
  {
    SplitAt(ts, k);
    SubprojectsRequestsAppend(ts[..k], [ts[k]]);
    SubprojectsRequestsAppend(ts[..k + 1], ts[k + 1..]);
    SubprojectsRequestsOne(ts[k]);
  }

  // ---------------------------------------------------------------- how far a run gets

  /** The first n requests were carried out, none of them against its guard. */
  ghost predicate Ran(before: Project, rs: seq<Request>, n: nat, after: Project) {
    n <= |rs| && Clean(before, rs[..n]) && after == Run(before, rs[..n])
  }

  /** The next request is refused. */
  ghost predicate Stopped(before: Project, rs: seq<Request>, n: nat) {
    n < |rs| && Refused(Run(before, rs[..n]), rs[n])
  }

  /** A run over the requests: all of them if ok, and cut short by a refusal if stopped. */
  ghost predicate Outcome(before: Project, rs: seq<Request>, n: nat, after: Project, ok: bool, stopped: bool) {
    && Ran(before, rs, n, after)
    && (ok ==> n == |rs| && !stopped)
    && (stopped ==> Stopped(before, rs, n))
  }

  lemma RanNext(a: Project, rs: seq<Request>, n: nat, b: Project)
    requires Ran(a, rs, n, b) && n < |rs|
    ensures Refused(b, rs[n]) ==> Stopped(a, rs, n)
    ensures !Refused(b, rs[n]) ==> Ran(a, rs, n + 1, Apply(b, rs[n]))
  {
    assert rs[..n + 1] == rs[..n] + [rs[n]];
    RunAppend(a, rs[..n], [rs[n]]);
    RunOne(b, rs[n]);
  }

  /** All of the requests were carried out. */
  ghost predicate RanAll(before: Project, rs: seq<Request>, after: Project) {
    Clean(before, rs) && after == Run(before, rs)
  }

  lemma OutcomeThen(a: Project, r: seq<Request>, b: Project, t: seq<Request>, n: nat, c: Project, ok: bool,
                    stopped: bool)
    requires RanAll(a, r, b) && Outcome(b, t, n, c, ok, stopped)
    ensures Outcome(a, r + t, |r| + n, c, ok, stopped)
    ensures ok ==> RanAll(a, r + t, c)
  {
    assert (r + t)[..|r| + n] == r + t[..n];
    RunAppend(a, r, t[..n]);
    assert ok ==> t[..n] == t;
  }

  lemma OutcomeCut(a: Project, r: seq<Request>, n: nat, b: Project, stopped: bool, t: seq<Request>)
    requires Outcome(a, r, n, b, false, stopped)
    ensures Outcome(a, r + t, n, b, false, stopped)
  {
    assert (r + t)[..n] == r[..n];
  }

  lemma OutcomeAll(a: Project, r: seq<Request>, b: Project)
    ensures Outcome(a, r, |r|, b, true, false) <==> RanAll(a, r, b)
  {
    assert r[..|r|] == r;
  }

  /** One more request after all of r, and then none. */
  lemma OutcomeLast(a: Project, r: seq<Request>, b: Project, last: Request)
    requires RanAll(a, r, b)
    ensures Outcome(a, r + [last], |r|, b, false, false)
    ensures Refused(b, last) ==> Outcome(a, r + [last], |r|, b, false, true)
    ensures !Refused(b, last) ==> Outcome(a, r + [last], |r| + 1, Apply(b, last), true, false)
  {
    var rs := r + [last];
    assert rs[..|r|] == r;
    RanNext(a, rs, |r|, b);
  }

  lemma ItemsStep(start: Project, sub: string, ts: seq<ItemTemplate>, k: nat, mid: Project, n: nat, after: Project,
                  ok: bool, stopped: bool) returns (m: nat)
    requires k < |ts| && RanAll(start, ItemsRequests(sub, ts[..k]), mid)
    requires Outcome(mid, ItemRequests(sub, ts[k]), n, after, ok, stopped)
    ensures ok ==> RanAll(start, ItemsRequests(sub, ts[..k + 1]), after)
    ensures !ok ==> Outcome(start, ItemsRequests(sub, ts), m, after, ok, stopped)
  {
    m := |ItemsRequests(sub, ts[..k])| + n;
    var done, rs := ItemsRequests(sub, ts[..k]), ItemRequests(sub, ts[k]);
    ItemsRequestsSplit(sub, ts, k);
    OutcomeThen(start, done, mid, rs, n, after, ok, stopped);
    if !ok {
      OutcomeCut(start, done + rs, m, after, stopped, ItemsRequests(sub, ts[k + 1..]));
    }
  }

  lemma ItemsEnd(start: Project, sub: string, ts: seq<ItemTemplate>, after: Project)
    requires RanAll(start, ItemsRequests(sub, ts[..|ts|]), after)
    ensures Outcome(start, ItemsRequests(sub, ts), |ItemsRequests(sub, ts)|, after, true, false)
  {
    assert ts[..|ts|] == ts;
    OutcomeAll(start, ItemsRequests(sub, ts), after);
  }

  lemma SubprojectsEnd(start: Project, ts: seq<SubprojectTemplate>, after: Project)
    requires RanAll(start, SubprojectsRequests(ts[..|ts|]), after)
    ensures Outcome(start, SubprojectsRequests(ts), |SubprojectsRequests(ts)|, after, true, false)
  {
    assert ts[..|ts|] == ts;
    OutcomeAll(start, SubprojectsRequests(ts), after);
  }

  lemma SubprojectsStep(start: Project, ts: seq<SubprojectTemplate>, k: nat, mid: Project, n: nat, after: Project,
                        ok: bool, stopped: bool) returns (m: nat)
    requires k < |ts| && RanAll(start, SubprojectsRequests(ts[..k]), mid)
    requires Outcome(mid, SubprojectRequests(ts[k]), n, after, ok, stopped)
    ensures ok ==> RanAll(start, SubprojectsRequests(ts[..k + 1]), after)
    ensures !ok ==> Outcome(start, SubprojectsRequests(ts), m, after, ok, stopped)
  {
    m := |SubprojectsRequests(ts[..k])| + n;
    var done, rs := SubprojectsRequests(ts[..k]), SubprojectRequests(ts[k]);
    SubprojectsRequestsSplit(ts, k);
    OutcomeThen(start, done, mid, rs, n, after, ok, stopped);
    if !ok {
      OutcomeCut(start, done + rs, m, after, stopped, SubprojectsRequests(ts[k + 1..]));
    }
  }

  /** A complete run was clean; a refused one was not. */
  lemma OutcomeIsClean(before: Project, rs: seq<Request>, n: nat, after: Project, ok: bool, stopped: bool)
    requires Outcome(before, rs, n, after, ok, stopped)
    ensures ok ==> Clean(before, rs) && after == Run(before, rs)
    ensures stopped ==> !Clean(before, rs)
  {
    assert rs[..|rs|] == rs;
    if stopped {
      assert rs == rs[..n] + ([rs[n]] + rs[n + 1..]);
      RunAppend(before, rs[..n], [rs[n]] + rs[n + 1..]);
    }
  }

  // ---------------------------------------------------------------- what has been done stays done

  function ItemStatus(items: seq<Item>, name: string): Option<Status> {
    var i := Find(ItemNames(items), name);
    if i.Some? then Some(items[i.value].status) else None
  }

  function SubprojectAt(p: Project, name: string): Option<Subproject> {
    var i := Find(SubprojectNames(p.subprojects), name);
    if i.Some? then Some(p.subprojects[i.value]) else None
  }

  function SubprojectOr(p: Project, name: string): Subproject {
    if SubprojectAt(p, name).Some? then SubprojectAt(p, name).value else Subproject(name, Open, [])
  }

  lemma FoundItemStatus(items: seq<Item>, name: string, x: string)
    ensures ItemStatus(FoundItem(items, name), x) ==
            if x == name && ItemStatus(items, x).None? then Some(Open) else ItemStatus(items, x)
    ensures ItemNames(FoundItem(items, name)) ==
            if name in ItemNames(items) then ItemNames(items) else ItemNames(items) + [name]
  {
    FindAppend(ItemNames(items), [name], x);
    assert ItemNames(items + [Item(name, Open)]) == ItemNames(items) + [name];
  }

  lemma ClosedItemStatus(items: seq<Item>, name: string, x: string)
    ensures ItemNames(ClosedItem(items, name)) == ItemNames(items)
    ensures ItemStatus(ClosedItem(items, name), x) ==
            if x == name && ItemStatus(items, x).Some? then Some(Closed) else ItemStatus(items, x)
  {
    assert ItemNames(ClosedItem(items, name)) == ItemNames(items);
  }

  lemma ItemStatusAfter(items: seq<Item>, name: string, x: string)
    ensures ItemStatus(FoundItem(items, name), x) ==
            if x == name && ItemStatus(items, x).None? then Some(Open) else ItemStatus(items, x)
    ensures ItemStatus(ClosedItem(items, name), x) ==
            if x == name && ItemStatus(items, x).Some? then Some(Closed) else ItemStatus(items, x)
    ensures ItemNames(ClosedItem(items, name)) == ItemNames(items)
    ensures ItemNames(FoundItem(items, name)) ==
            if name in ItemNames(items) then ItemNames(items) else ItemNames(items) + [name]
  {
    FoundItemStatus(items, name, x);
    ClosedItemStatus(items, name, x);
  }

  /** A project is the subprojects found under their names; a request changes the one it names. */
  lemma SubprojectAfter(p: Project, r: Request, x: string)
    ensures SubprojectAt(Apply(p, r), x) ==
            if r.CloseProject? || r.sub != x then SubprojectAt(p, x)
            else if r.AddSubproject? then Some(SubprojectOr(p, x))
            else if SubprojectAt(p, x).Some? then Some(ApplyIn(SubprojectAt(p, x).value, r))
            else None
  {
    NamesKept(p, r);
    if r.AddSubproject? {
      FindAppend(SubprojectNames(p.subprojects), [r.sub], x);
    }
  }

  predicate HoldsIn(s: Subproject, r: Request) {
    match r
    case AddItem(_, name) => ItemStatus(s.items, name).Some?
    case CloseItem(_, name) => ItemStatus(s.items, name) == Some(Closed)
    case CloseSubproject(_) => s.status == Closed
    case _ => true
  }

  /** What the request asks for is the case. */
  predicate Holds(p: Project, r: Request) {
    if r.CloseProject? then p.status == Closed
    else SubprojectAt(p, r.sub).Some? && HoldsIn(SubprojectAt(p, r.sub).value, r)
  }

  lemma HoldsInStays(s: Subproject, r: Request, q: Request)
    requires HoldsIn(s, r)
    ensures HoldsIn(ApplyIn(s, q), r)
  {
    if (r.AddItem? || r.CloseItem?) && (q.AddItem? || q.CloseItem?) {
      ItemStatusAfter(s.items, q.item, r.item);
    }
  }

  /** No request undoes what another one asked for: nothing is removed, renamed or opened again. */
  lemma HoldsStays(p: Project, r: Request, q: Request)
    requires Holds(p, r)
    ensures Holds(Apply(p, q), r)
  {
    if !r.CloseProject? {
      SubprojectAfter(p, q, r.sub);
      HoldsInStays(SubprojectAt(p, r.sub).value, r, q);
    }
  }

  /** Asking for what is the case already changes nothing and is not refused. */
  lemma HoldingIsNoOp(p: Project, r: Request)
    requires Holds(p, r)
    ensures Apply(p, r) == p && !Refused(p, r)
  {
    if !r.CloseProject? && !r.AddSubproject? {
      var i := Find(SubprojectNames(p.subprojects), r.sub).value;
      var s := p.subprojects[i];
      if r.CloseItem? {
        var j := Find(ItemNames(s.items), r.item).value;
        assert s.items[j := s.items[j].(status := Closed)] == s.items;
      }
      assert ApplyIn(s, r) == s;
      assert p.subprojects[i := s] == p.subprojects;
    }
  }

  /** The request's node is there. */
  predicate Enabled(p: Project, r: Request) {
    match r
    case AddSubproject(_) => true
    case CloseProject => true
    case CloseItem(sub, name) => Holds(p, AddItem(sub, name))
    case _ => SubprojectAt(p, r.sub).Some?
  }

  lemma EnabledHolds(p: Project, r: Request)
    requires Enabled(p, r)
    ensures Holds(Apply(p, r), r)
  {
    if !r.CloseProject? {
      SubprojectAfter(p, r, r.sub);
      if r.AddItem? || r.CloseItem? {
        ItemStatusAfter(SubprojectAt(p, r.sub).value.items, r.item, r.item);
      }
    }
  }

  predicate AllEnabled(p: Project, rs: seq<Request>)
    decreases rs
  {
    rs == [] || (Enabled(p, rs[0]) && AllEnabled(Apply(p, rs[0]), rs[1..]))
  }

  lemma {:induction false} AllEnabledAppend(p: Project, a: seq<Request>, b: seq<Request>)
    ensures AllEnabled(p, a + b) <==> AllEnabled(p, a) && AllEnabled(Run(p, a), b)
    decreases a
  {
    if a == [] {
      assert a + b == b;
    } else {
      AllEnabledAppend(Apply(p, a[0]), a[1..], b);
      assert (a + b)[1..] == a[1..] + b;
    }
  }

  lemma {:induction false} HoldsStaysByRun(p: Project, rs: seq<Request>, r: Request)
    requires Holds(p, r)
    ensures Holds(Run(p, rs), r)
    decreases rs
  {
    if rs != [] {
      HoldsStays(p, r, rs[0]);
      HoldsStaysByRun(Apply(p, rs[0]), rs[1..], r);
    }
  }

  lemma {:induction false} RunHolds(p: Project, rs: seq<Request>, i: nat)
    requires AllEnabled(p, rs) && i < |rs|
    ensures Holds(Run(p, rs), rs[i])
    decreases rs
  {
    if i == 0 {
      EnabledHolds(p, rs[0]);
      HoldsStaysByRun(Apply(p, rs[0]), rs[1..], rs[0]);
    } else {
      RunHolds(Apply(p, rs[0]), rs[1..], i - 1);
    }
  }

  lemma ItemEnabled(p: Project, sub: string, t: ItemTemplate)
    requires SubprojectAt(p, sub).Some?
    ensures AllEnabled(p, ItemRequests(sub, t)) && SubprojectAt(Run(p, ItemRequests(sub, t)), sub).Some?
  {
    var add, close := AddItem(sub, t.name), CloseItem(sub, t.name);
    var q := Apply(p, add);
    EnabledHolds(p, add);
    SubprojectAfter(p, add, sub);
    RunOne(p, add);
    assert [add][1..] == [];
    if t.closed {
      SubprojectAfter(q, close, sub);
      RunOne(q, close);
      assert [close][1..] == [];
      AllEnabledAppend(p, [add], [close]);
      RunAppend(p, [add], [close]);
    } else {
      assert ItemRequests(sub, t) == [add];
    }
  }

  lemma {:induction false} ItemsEnabled(p: Project, sub: string, ts: seq<ItemTemplate>)
    requires SubprojectAt(p, sub).Some?
    ensures AllEnabled(p, ItemsRequests(sub, ts)) && SubprojectAt(Run(p, ItemsRequests(sub, ts)), sub).Some?
    decreases ts
  {
    if ts != [] {
      var first, rest := ItemRequests(sub, ts[0]), ItemsRequests(sub, ts[1..]);
      ItemEnabled(p, sub, ts[0]);
      ItemsEnabled(Run(p, first), sub, ts[1..]);
      AllEnabledAppend(p, first, rest);
      RunAppend(p, first, rest);
    }
  }

  lemma SubprojectEnabled(p: Project, t: SubprojectTemplate)
    ensures AllEnabled(p, SubprojectRequests(t))
  {
    var add, rs := AddSubproject(t.name), ItemsRequests(t.name, t.items);
    var close := if t.closed then [CloseSubproject(t.name)] else [];
    SubprojectAfter(p, add, t.name);
    var q := Apply(p, add);
    ItemsEnabled(q, t.name, t.items);
    AllEnabledAppend(q, rs, close);
    assert t.closed ==> [CloseSubproject(t.name)][1..] == [];
    assert SubprojectRequests(t)[1..] == rs + close;
  }

  lemma {:induction false} SubprojectsEnabled(p: Project, ts: seq<SubprojectTemplate>)
    ensures AllEnabled(p, SubprojectsRequests(ts))
    decreases ts
  {
    if ts != [] {
      SubprojectEnabled(p, ts[0]);
      SubprojectsEnabled(Run(p, SubprojectRequests(ts[0])), ts[1..]);
      AllEnabledAppend(p, SubprojectRequests(ts[0]), SubprojectsRequests(ts[1..]));
    }
  }

  lemma RequestsEnabled(p: Project, t: ProjectTemplate)
    ensures AllEnabled(p, Requests(t))
  {
    var rs, close := SubprojectsRequests(t.subprojects), if t.closed then [CloseProject] else [];
    SubprojectsEnabled(p, t.subprojects);
    AllEnabledAppend(p, rs, close);
    assert t.closed ==> [CloseProject][1..] == [];
  }

  // ---------------------------------------------------------------- running again

  lemma {:induction false} NothingLeft(q: Project, rs: seq<Request>)
    requires forall i :: 0 <= i < |rs| ==> Holds(q, rs[i])
    ensures Run(q, rs) == q && Clean(q, rs)
    decreases rs
  {
    if rs != [] {
      HoldingIsNoOp(q, rs[0]);
      NothingLeft(q, rs[1..]);
    }
  }

  /**
    A second run over the first j requests, after a first one over n of them, leads to where the longer one leads
    alone.
  */
  lemma Rerun(p: Project, rs: seq<Request>, n: nat, j: nat)
    requires AllEnabled(p, rs) && n <= |rs| && j <= |rs|
    ensures var q := Run(p, rs[..n]);
            && Run(q, rs[..j]) == Run(p, rs[..if n < j then j else n])
            && (j <= n ==> Clean(q, rs[..j]))
            && (n <= j && Clean(p, rs[..n]) && Clean(q, rs[..j]) ==> Clean(p, rs[..j]))
  {
    var q, first := Run(p, rs[..n]), if j < n then rs[..j] else rs[..n];
    assert rs == rs[..n] + rs[n..];
    AllEnabledAppend(p, rs[..n], rs[n..]);
    forall i | 0 <= i < |first|
      ensures Holds(q, first[i])
    {
      RunHolds(p, rs[..n], i);
    }
    NothingLeft(q, first);
    if n < j {
      assert rs[..j] == rs[..n] + rs[n..j];
      RunAppend(q, rs[..n], rs[n..j]);
      RunAppend(p, rs[..n], rs[n..j]);
    }
  }

  lemma {:induction false} NameKept(p: Project, rs: seq<Request>)
    ensures Run(p, rs).name == p.name
    decreases rs
  {
    if rs != [] {
      NameKept(Apply(p, rs[0]), rs[1..]);
    }
  }

  function Fresh(t: ProjectTemplate): Project {
    Project(t.name, Open, [])
  }

  /** What a complete run makes of the template. */
  function Finished(t: ProjectTemplate): Project {
    Run(Fresh(t), Requests(t))
  }

  /** The project is where a clean first run over the template's first n requests leads. */
  ghost predicate TrackedTo(p: Project, t: ProjectTemplate, n: nat) {
    Ran(Fresh(t), Requests(t), n, p)
  }

  ghost predicate Tracked(p: Project, t: ProjectTemplate) {
    exists n :: TrackedTo(p, t, n)
  }

  lemma FreshIsTracked(t: ProjectTemplate)
    ensures Tracked(Fresh(t), t)
  {
    assert TrackedTo(Fresh(t), t, 0);
  }

  /** From any point of the way a run stays on it, completes only for clean templates and is refused only for others. */
  lemma RunTracks(before: Project, t: ProjectTemplate, n: nat, j: nat, after: Project, ok: bool, stopped: bool)
    requires TrackedTo(before, t, n) && Outcome(before, Requests(t), j, after, ok, stopped)
    ensures TrackedTo(after, t, if n < j then j else n)
    ensures ok ==> Clean(Fresh(t), Requests(t)) && after == Finished(t)
    ensures stopped ==> !Clean(Fresh(t), Requests(t))
  {
    var p, rs := Fresh(t), Requests(t);
    RequestsEnabled(p, t);
    Rerun(p, rs, n, j);
    assert rs[..|rs|] == rs;
    if stopped {
      if j < n {
        assert rs == rs[..n] + rs[n..];
        AllEnabledAppend(p, rs[..n], rs[n..]);
        RunHolds(p, rs[..n], j);
        HoldingIsNoOp(before, rs[j]);
        assert false;
      }
      OutcomeIsClean(p, rs, j, Run(p, rs[..j]), false, true);
    }
  }

  // ---------------------------------------------------------------- no name twice

  /** No two siblings have the same display name, at any level. */
  predicate DistinctNames(projects: seq<Project>) {
    Distinct(ProjectNames(projects)) && forall i :: 0 <= i < |projects| ==> DistinctInside(projects[i])
  }

  predicate DistinctInside(p: Project) {
    && Distinct(SubprojectNames(p.subprojects))
    && forall i :: 0 <= i < |p.subprojects| ==> Distinct(ItemNames(p.subprojects[i].items))
  }

  lemma DistinctStays(p: Project, r: Request)
    requires DistinctInside(p)
    ensures DistinctInside(Apply(p, r))
  {
    NamesKept(p, r);
    var q := Apply(p, r);
    forall i | 0 <= i < |q.subprojects|
      ensures Distinct(ItemNames(q.subprojects[i].items))
    {
      if i < |p.subprojects| && q.subprojects[i] != p.subprojects[i] && (r.AddItem? || r.CloseItem?) {
        ItemStatusAfter(p.subprojects[i].items, r.item, r.item);
      }
    }
  }

  lemma {:induction false} DistinctStaysByRun(p: Project, rs: seq<Request>)
    requires DistinctInside(p)
    ensures DistinctInside(Run(p, rs))
    decreases rs
  {
    if rs != [] {
      DistinctStays(p, rs[0]);
      DistinctStaysByRun(Apply(p, rs[0]), rs[1..]);
    }
  }
}
