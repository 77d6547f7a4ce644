/**
  Which templates the provisioning driver can carry out: exactly those in which whatever is named before an item is
  closed by the time that item is to be, and closed parents have only closed children.  Names may be repeated.
*/
module TemplateOrder {
  import opened Prelude
  import opened ProvisioningRequests

  // ---------------------------------------------------------------- templates in order

  predicate ClosedIn(ts: seq<ItemTemplate>, name: string) {
    exists j :: 0 <= j < |ts| && ts[j].name == name && ts[j].closed
  }

  /** The i-th item is named before the other name first occurs. */
  predicate NamedBefore(ts: seq<ItemTemplate>, i: nat, name: string) {
    i < |ts| && forall j :: 0 <= j <= i ==> ts[j].name != name
  }

  /** Something named before the item is not closed. */
  predicate OpenBefore(ts: seq<ItemTemplate>, name: string) {
    exists i :: 0 <= i < |ts| && NamedBefore(ts, i, name) && !ClosedIn(ts, ts[i].name)
  }

  predicate ItemInOrder(ts: seq<ItemTemplate>, k: nat)
    requires k < |ts|
  {
    ts[k].closed ==> !OpenBefore(ts[..k], ts[k].name)
  }

  /** Whatever is named before an item first occurs is closed by the time that item is. */
  predicate ItemsInOrder(ts: seq<ItemTemplate>) {
    forall k :: 0 <= k < |ts| ==> ItemInOrder(ts, k)
  }

  predicate AllClosed(ts: seq<ItemTemplate>) {
    forall i :: 0 <= i < |ts| ==> ClosedIn(ts, ts[i].name)
  }

  /** The items of all subprojects of this name, one list after the other. */
  function Gathered(ts: seq<SubprojectTemplate>, name: string): seq<ItemTemplate> {
    if ts == [] then []
    else Gathered(ts[..|ts| - 1], name) + if ts[|ts| - 1].name == name then ts[|ts| - 1].items else []
  }

  predicate SubprojectClosedIn(ts: seq<SubprojectTemplate>, name: string) {
    exists j :: 0 <= j < |ts| && ts[j].name == name && ts[j].closed
  }

  /** The m-th subproject comes in order, together with those of its name before it. */
  predicate SubprojectInOrder(ts: seq<SubprojectTemplate>, m: nat)
    requires m < |ts|
  {
    var items := Gathered(ts[..m + 1], ts[m].name);
    ItemsInOrder(items) && (ts[m].closed && !SubprojectClosedIn(ts[..m], ts[m].name) ==> AllClosed(items))
  }

  predicate InOrder(t: ProjectTemplate) {
    && (forall m :: 0 <= m < |t.subprojects| ==> SubprojectInOrder(t.subprojects, m))
    && (t.closed ==> forall m :: 0 <= m < |t.subprojects| ==> SubprojectClosedIn(t.subprojects, t.subprojects[m].name))
  }

  // ---- the items of one subproject

  function ItemAfter(items: seq<Item>, t: ItemTemplate): seq<Item> {
    var found := FoundItem(items, t.name);
    if t.closed then ClosedItem(found, t.name) else found
  }

  function ItemsAfter(items: seq<Item>, ts: seq<ItemTemplate>): seq<Item>
    decreases ts
  {
    if ts == [] then items else ItemsAfter(ItemAfter(items, ts[0]), ts[1..])
  }

  predicate TooEarly(items: seq<Item>, t: ItemTemplate) {
    t.closed && RefusedItem(FoundItem(items, t.name), t.name)
  }

  predicate ItemsClean(items: seq<Item>, ts: seq<ItemTemplate>)
    decreases ts
  {
    ts == [] || (!TooEarly(items, ts[0]) && ItemsClean(ItemAfter(items, ts[0]), ts[1..]))
  }

  lemma ItemsCons(items: seq<Item>, ts: seq<ItemTemplate>)
    requires ts != []
    ensures ItemsAfter(items, ts) == ItemsAfter(ItemAfter(items, ts[0]), ts[1..])
    ensures ItemsClean(items, ts) <==> !TooEarly(items, ts[0]) && ItemsClean(ItemAfter(items, ts[0]), ts[1..])
  {
  }

  lemma {:induction false} ItemsAppend(items: seq<Item>, a: seq<ItemTemplate>, b: seq<ItemTemplate>)
    ensures ItemsAfter(items, a + b) == ItemsAfter(ItemsAfter(items, a), b)
    ensures ItemsClean(items, a + b) <==> ItemsClean(items, a) && ItemsClean(ItemsAfter(items, a), b)
    decreases a
  {
    if a == [] {
      assert a + b == b;
    } else {
      var ab := a + b;
      assert ab[0] == a[0] && ab[1..] == a[1..] + b;
      ItemsAppend(ItemAfter(items, a[0]), a[1..], b);
      ItemsCons(items, ab);
      ItemsCons(items, a);
    }
  }

  lemma ItemsSnoc(items: seq<Item>, ts: seq<ItemTemplate>)
    requires ts != []
    ensures var front, last := ts[..|ts| - 1], ts[|ts| - 1];
            && ItemsAfter(items, ts) == ItemAfter(ItemsAfter(items, front), last)
            && (ItemsClean(items, ts) <==> ItemsClean(items, front) && !TooEarly(ItemsAfter(items, front), last))
  {
    var front, last := ts[..|ts| - 1], ts[|ts| - 1];
    assert ts == front + [last];
    ItemsAppend(items, front, [last]);
    assert [last][1..] == [];
  }

  /** The names in the order in which they first occur. */
  function Firsts(ts: seq<ItemTemplate>): seq<string> {
    if ts == [] then []
    else
      var front, last := Firsts(ts[..|ts| - 1]), ts[|ts| - 1].name;
      if last in front then front else front + [last]
  }

  lemma ItemAfterStatus(items: seq<Item>, t: ItemTemplate, name: string)
    ensures ItemNames(ItemAfter(items, t)) ==
            if t.name in ItemNames(items) then ItemNames(items) else ItemNames(items) + [t.name]
    ensures ItemStatus(ItemAfter(items, t), name) ==
            if name != t.name then ItemStatus(items, name)
            else if t.closed then Some(Closed)
            else if ItemStatus(items, name).None? then Some(Open)
            else ItemStatus(items, name)
  {
    FoundItemStatus(items, t.name, name);
    ClosedItemStatus(FoundItem(items, t.name), t.name, name);
  }

  /** The items of a first run: each name once, in order of first occurrence. */
  lemma {:induction false} ItemsNamed(ts: seq<ItemTemplate>)
    ensures ItemNames(ItemsAfter([], ts)) == Firsts(ts)
  {
    if ts != [] {
      ItemsNamed(ts[..|ts| - 1]);
      ItemsSnoc([], ts);
      ItemAfterStatus(ItemsAfter([], ts[..|ts| - 1]), ts[|ts| - 1], "");
    }
  }

  lemma {:induction false} FirstsAreDistinct(ts: seq<ItemTemplate>)
    ensures Distinct(Firsts(ts))
  {
    if ts != [] {
      FirstsAreDistinct(ts[..|ts| - 1]);
    }
  }

  lemma {:induction false} NamedInFirsts(ts: seq<ItemTemplate>, i: nat)
    requires i < |ts|
    ensures ts[i].name in Firsts(ts)
  {
    var front := ts[..|ts| - 1];
    if i < |front| {
      NamedInFirsts(front, i);
      assert front[i] == ts[i];
    }
  }

  /** Each of them is closed if the template ever asks for it. */
  lemma {:induction false} ItemsStatus(ts: seq<ItemTemplate>, name: string)
    ensures ItemStatus(ItemsAfter([], ts), name) ==
            if name !in Firsts(ts) then None else Some(if ClosedIn(ts, name) then Closed else Open)
  {
    if ts != [] {
      var front, last := ts[..|ts| - 1], ts[|ts| - 1];
      ItemsStatus(front, name);
      ItemsSnoc([], ts);
      ItemAfterStatus(ItemsAfter([], front), last, name);
      ClosedInSnoc(ts, name);
      ClosedNamed(front, name);
    }
  }

  lemma ClosedInSnoc(ts: seq<ItemTemplate>, name: string)
    requires ts != []
    ensures var front, last := ts[..|ts| - 1], ts[|ts| - 1];
            ClosedIn(ts, name) <==> ClosedIn(front, name) || (last.name == name && last.closed)
  {
    var front := ts[..|ts| - 1];
    if ClosedIn(front, name) {
      var j :| 0 <= j < |front| && front[j].name == name && front[j].closed;
      assert ts[j].name == name && ts[j].closed;
    }
    if ClosedIn(ts, name) {
      var j :| 0 <= j < |ts| && ts[j].name == name && ts[j].closed;
      assert j < |front| ==> front[j].name == name && front[j].closed;
    }
  }

  lemma ClosedNamed(ts: seq<ItemTemplate>, name: string)
    ensures ClosedIn(ts, name) ==> name in Firsts(ts)
  {
    if ClosedIn(ts, name) {
      var j :| 0 <= j < |ts| && ts[j].name == name && ts[j].closed;
      NamedInFirsts(ts, j);
    }
  }

  /** An item named before another name occurs stands before it. */
  lemma {:induction false} EarlierStandsBefore(ts: seq<ItemTemplate>, i: nat, name: string)
    requires NamedBefore(ts, i, name)
    ensures var at, other := Find(Firsts(ts), ts[i].name), Find(Firsts(ts), name);
            at.Some? && (other.Some? ==> at.value < other.value)
  {
    var front, last := ts[..|ts| - 1], ts[|ts| - 1];
    NamedInFirsts(ts, i);
    FindAppend(Firsts(front), [last.name], name);
    if i < |front| {
      assert NamedBefore(front, i, name) && front[i] == ts[i];
      EarlierStandsBefore(front, i, name);
      FindAppend(Firsts(front), [last.name], ts[i].name);
    } else {
      NotNamed(ts, name);
    }
  }

  lemma {:induction false} NotNamed(ts: seq<ItemTemplate>, name: string)
    requires forall i :: 0 <= i < |ts| ==> ts[i].name != name
    ensures name !in Firsts(ts)
  {
    if ts != [] {
      NotNamed(ts[..|ts| - 1], name);
    }
  }

  /** And what stands before it was named before it. */
  lemma {:induction false} StandsBeforeEarlier(ts: seq<ItemTemplate>, q: nat, name: string) returns (i: nat)
    requires q < |Firsts(ts)|
    requires name in Firsts(ts) ==> q < Find(Firsts(ts), name).value
    ensures NamedBefore(ts, i, name) && ts[i].name == Firsts(ts)[q]
  {
    var front, last := ts[..|ts| - 1], ts[|ts| - 1];
    if q < |Firsts(front)| {
      FindAppend(Firsts(front), [last.name], name);
      i := StandsBeforeEarlier(front, q, name);
    } else {
      i := |front|;
      forall j | 0 <= j <= i
        ensures ts[j].name != name
      {
        NamedInFirsts(ts, j);
      }
    }
  }

  lemma StatusAt(ts: seq<ItemTemplate>, q: nat)
    requires q < |ItemsAfter([], ts)|
    ensures var item := ItemsAfter([], ts)[q];
            q < |Firsts(ts)| && item.name == Firsts(ts)[q] && Find(Firsts(ts), item.name) == Some(q) &&
            (item.status == Closed <==> ClosedIn(ts, item.name))
  {
    var items := ItemsAfter([], ts);
    ItemsNamed(ts);
    FirstsAreDistinct(ts);
    assert ItemNames(items)[q] == items[q].name;
    FindDistinct(Firsts(ts), q);
    ItemsStatus(ts, items[q].name);
  }

  lemma FoundKeepsItems(items: seq<Item>, name: string)
    ensures var found := FoundItem(items, name);
            var at := Find(ItemNames(found), name);
            && at.Some?
            && |items| <= |found| && found[..|items|] == items && at.value <= |items|
            && (name !in ItemNames(items) ==> at.value == |items| && found[at.value].status == Open)
            && (name in ItemNames(items) ==> found == items)
  {
    assert ItemNames(items + [Item(name, Open)]) == ItemNames(items) + [name];
    FindAppend(ItemNames(items), [name], name);
  }

  lemma TooEarlyOpenBefore(ts: seq<ItemTemplate>, t: ItemTemplate)
    requires TooEarly(ItemsAfter([], ts), t)
    ensures OpenBefore(ts, t.name)
  {
    var items := ItemsAfter([], ts);
    var found := FoundItem(items, t.name);
    FoundKeepsItems(items, t.name);
    ItemsNamed(ts);
    var at := Find(ItemNames(found), t.name).value;
    var q :| 0 <= q < at && found[q].status != Closed;
    assert found[q] == items[q];
    StatusAt(ts, q);
    var i := StandsBeforeEarlier(ts, q, t.name);
  }

  lemma OpenBeforeTooEarly(ts: seq<ItemTemplate>, t: ItemTemplate)
    requires ItemsInOrder(ts) && t.closed && OpenBefore(ts, t.name)
    ensures TooEarly(ItemsAfter([], ts), t)
  {
    var items := ItemsAfter([], ts);
    var found := FoundItem(items, t.name);
    FoundKeepsItems(items, t.name);
    ItemsNamed(ts);
    var i :| 0 <= i < |ts| && NamedBefore(ts, i, t.name) && !ClosedIn(ts, ts[i].name);
    EarlierStandsBefore(ts, i, t.name);
    var at, q := Find(ItemNames(found), t.name).value, Find(Firsts(ts), ts[i].name).value;
    assert |ItemNames(items)| == |items|;
    StatusAt(ts, q);
    assert found[q] == items[q] && q < at && found[q].status == Open;
    StillOpen(ts, i, t.name);
    if t.name in ItemNames(items) {
      StatusAt(ts, at);
    }
  }

  /** In an ordered list nothing is closed before what was named before it. */
  lemma StillOpen(ts: seq<ItemTemplate>, i: nat, name: string)
    requires ItemsInOrder(ts) && NamedBefore(ts, i, name) && !ClosedIn(ts, ts[i].name)
    ensures !ClosedIn(ts, name)
  {
    if ClosedIn(ts, name) {
      var k :| 0 <= k < |ts| && ts[k].name == name && ts[k].closed;
      assert ItemInOrder(ts, k) && ts[..k][i] == ts[i];
      assert NamedBefore(ts[..k], i, name);
      ClosedInMore(ts, k, ts[i].name);
    }
  }

  lemma ClosedInMore(ts: seq<ItemTemplate>, k: nat, name: string)
    requires k <= |ts| && ClosedIn(ts[..k], name)
    ensures ClosedIn(ts, name)
  {
    var j :| 0 <= j < k && ts[..k][j].name == name && ts[..k][j].closed;
    assert ts[j].name == name && ts[j].closed;
  }

  lemma {:induction false} ItemsCleanIff(ts: seq<ItemTemplate>)
    ensures ItemsClean([], ts) <==> ItemsInOrder(ts)
  {
    if ts != [] {
      var front, last := ts[..|ts| - 1], ts[|ts| - 1];
      ItemsCleanIff(front);
      ItemsSnoc([], ts);
      ItemsInOrderSnoc(ts);
      if TooEarly(ItemsAfter([], front), last) {
        TooEarlyOpenBefore(front, last);
      } else if ItemsInOrder(front) && last.closed && OpenBefore(front, last.name) {
        OpenBeforeTooEarly(front, last);
      }
    }
  }

  lemma ItemsInOrderSnoc(ts: seq<ItemTemplate>)
    requires ts != []
    ensures var front, last := ts[..|ts| - 1], ts[|ts| - 1];
            ItemsInOrder(ts) <==> ItemsInOrder(front) && (last.closed ==> !OpenBefore(front, last.name))
  {
    var n := |ts| - 1;
    var front := ts[..n];
    forall k | 0 <= k < n
      ensures ItemInOrder(front, k) <==> ItemInOrder(ts, k)
    {
      assert front[..k] == ts[..k];
    }
    assert ItemInOrder(ts, n) <==> (ts[n].closed ==> !OpenBefore(front, ts[n].name));
  }

  // ---- one subproject

  function SubprojectMade(s: Subproject, t: SubprojectTemplate): Subproject {
    Subproject(s.name, if t.closed then Closed else s.status, ItemsAfter(s.items, t.items))
  }

  predicate SubprojectClean(s: Subproject, t: SubprojectTemplate) {
    ItemsClean(s.items, t.items) && (t.closed ==> MayCloseSubproject(s.(items := ItemsAfter(s.items, t.items))))
  }

  /** The same project but for one subproject. */
  ghost predicate Differ(p: Project, q: Project, name: string, s: Subproject) {
    && q.name == p.name && q.status == p.status
    && SubprojectNames(q.subprojects) == SubprojectNames(p.subprojects)
    && forall x :: SubprojectAt(q, x) == if x == name then Some(s) else SubprojectAt(p, x)
  }

  lemma ApplyDiffers(p: Project, r: Request)
    requires !r.CloseProject? && !r.AddSubproject? && SubprojectAt(p, r.sub).Some?
    ensures Differ(p, Apply(p, r), r.sub, ApplyIn(SubprojectAt(p, r.sub).value, r))
    ensures Refused(p, r) <==> RefusedIn(SubprojectAt(p, r.sub).value, r)
  {
    NamesKept(p, r);
    forall x
      ensures SubprojectAt(Apply(p, r), x) ==
              if x == r.sub then Some(ApplyIn(SubprojectAt(p, r.sub).value, r)) else SubprojectAt(p, x)
    {
      SubprojectAfter(p, r, x);
    }
  }

  lemma ItemRun(p: Project, sub: string, t: ItemTemplate)
    requires SubprojectAt(p, sub).Some?
    ensures var s, rs := SubprojectAt(p, sub).value, ItemRequests(sub, t);
            && Differ(p, Run(p, rs), sub, s.(items := ItemAfter(s.items, t)))
            && (Clean(p, rs) <==> !TooEarly(s.items, t))
  {
    var add, close := AddItem(sub, t.name), CloseItem(sub, t.name);
    ApplyDiffers(p, add);
    RunOne(p, add);
    if t.closed {
      ApplyDiffers(Apply(p, add), close);
      RunOne(Apply(p, add), close);
      RunAppend(p, [add], [close]);
      assert ItemRequests(sub, t) == [add] + [close];
    } else {
      assert ItemRequests(sub, t) == [add];
    }
  }

  lemma {:induction false} ItemsRun(p: Project, sub: string, ts: seq<ItemTemplate>)
    requires SubprojectAt(p, sub).Some?
    ensures var s, rs := SubprojectAt(p, sub).value, ItemsRequests(sub, ts);
            && Differ(p, Run(p, rs), sub, s.(items := ItemsAfter(s.items, ts)))
            && (Clean(p, rs) <==> ItemsClean(s.items, ts))
    decreases ts
  {
    if ts != [] {
      var first, rest := ItemRequests(sub, ts[0]), ItemsRequests(sub, ts[1..]);
      ItemRun(p, sub, ts[0]);
      ItemsRun(Run(p, first), sub, ts[1..]);
      RunAppend(p, first, rest);
    }
  }

  lemma SubprojectRun(p: Project, t: SubprojectTemplate)
    ensures var q, s := Run(p, SubprojectRequests(t)), SubprojectOr(p, t.name);
            && q.name == p.name && q.status == p.status
            && SubprojectNames(q.subprojects) == SubprojectNames(FoundSubproject(p.subprojects, t.name))
            && (forall x ::
                 SubprojectAt(q, x) == if x == t.name then Some(SubprojectMade(s, t)) else SubprojectAt(p, x))
            && (Clean(p, SubprojectRequests(t)) <==> SubprojectClean(s, t))
  {
    var add, rs := AddSubproject(t.name), ItemsRequests(t.name, t.items);
    var close := if t.closed then [CloseSubproject(t.name)] else [];
    var there := Apply(p, add);
    forall x
      ensures SubprojectAt(there, x) == if x == t.name then Some(SubprojectOr(p, x)) else SubprojectAt(p, x)
    {
      SubprojectAfter(p, add, x);
    }
    ItemsRun(there, t.name, t.items);
    RunAppend(there, rs, close);
    if t.closed {
      ApplyDiffers(Run(there, rs), CloseSubproject(t.name));
      RunOne(Run(there, rs), CloseSubproject(t.name));
    }
    assert SubprojectRequests(t)[1..] == rs + close;
  }

  // ---- all subprojects

  /** What a first run over these subprojects makes of the one of this name. */
  ghost predicate StateIs(p: Project, ts: seq<SubprojectTemplate>, name: string) {
    SubprojectAt(p, name) ==
    if SubprojectNamed(ts, name) then
      Some(Subproject(name, if SubprojectClosedIn(ts, name) then Closed else Open, ItemsAfter([], Gathered(ts, name))))
    else None
  }

  predicate SubprojectNamed(ts: seq<SubprojectTemplate>, name: string) {
    exists j :: 0 <= j < |ts| && ts[j].name == name
  }

  lemma NamedSnoc(ts: seq<SubprojectTemplate>, name: string)
    requires ts != []
    ensures var front, last := ts[..|ts| - 1], ts[|ts| - 1];
            && (SubprojectNamed(ts, name) <==> SubprojectNamed(front, name) || last.name == name)
            && (SubprojectClosedIn(ts, name) <==> SubprojectClosedIn(front, name) || (last.name == name && last.closed))
  {
    var front, last := ts[..|ts| - 1], ts[|ts| - 1];
    assert ts[|ts| - 1] == last;
    if j :| 0 <= j < |front| && front[j].name == name {
      assert ts[j].name == name;
    }
    if SubprojectClosedIn(front, name) {
      var j :| 0 <= j < |front| && front[j].name == name && front[j].closed;
      assert ts[j].name == name && ts[j].closed;
    }
    if j :| 0 <= j < |ts| && ts[j].name == name {
      assert j < |front| ==> front[j].name == name;
    }
    if SubprojectClosedIn(ts, name) {
      var j :| 0 <= j < |ts| && ts[j].name == name && ts[j].closed;
      assert j < |front| ==> front[j].name == name && front[j].closed;
    }
  }

  lemma {:induction false} NotNamedGathersNothing(ts: seq<SubprojectTemplate>, name: string)
    requires !SubprojectNamed(ts, name)
    ensures Gathered(ts, name) == [] && !SubprojectClosedIn(ts, name)
  {
    if ts != [] {
      NamedSnoc(ts, name);
      NotNamedGathersNothing(ts[..|ts| - 1], name);
    }
  }

  lemma {:induction false} StateAfter(t: ProjectTemplate, ts: seq<SubprojectTemplate>, name: string)
    ensures StateIs(Run(Fresh(t), SubprojectsRequests(ts)), ts, name)
    ensures Run(Fresh(t), SubprojectsRequests(ts)).status == Open
  {
    if ts != [] {
      var front, last := ts[..|ts| - 1], ts[|ts| - 1];
      var p := Run(Fresh(t), SubprojectsRequests(front));
      StateAfter(t, front, name);
      NamedSnoc(ts, name);
      SubprojectsRunSnoc(Fresh(t), ts);
      SubprojectRun(p, last);
      if !SubprojectNamed(front, name) {
        NotNamedGathersNothing(front, name);
      }
      ItemsAppend([], Gathered(front, name), if last.name == name then last.items else []);
    }
  }

  lemma SubprojectsRunSnoc(p: Project, ts: seq<SubprojectTemplate>)
    requires ts != []
    ensures var front, last := ts[..|ts| - 1], ts[|ts| - 1];
            var q := Run(p, SubprojectsRequests(front));
            && Run(p, SubprojectsRequests(ts)) == Run(q, SubprojectRequests(last))
            && (Clean(p, SubprojectsRequests(ts)) <==>
                 Clean(p, SubprojectsRequests(front)) && Clean(q, SubprojectRequests(last)))
  {
    var n := |ts| - 1;
    SubprojectsRequestsSplit(ts, n);
    assert ts[..n + 1] == ts;
    RunAppend(p, SubprojectsRequests(ts[..n]), SubprojectRequests(ts[n]));
  }

  predicate SubprojectsInOrder(ts: seq<SubprojectTemplate>) {
    forall m :: 0 <= m < |ts| ==> SubprojectInOrder(ts, m)
  }

  lemma SubprojectsInOrderSnoc(ts: seq<SubprojectTemplate>)
    requires ts != []
    ensures SubprojectsInOrder(ts) <==> SubprojectsInOrder(ts[..|ts| - 1]) && SubprojectInOrder(ts, |ts| - 1)
  {
    var n := |ts| - 1;
    var front := ts[..n];
    forall m | 0 <= m < n
      ensures SubprojectInOrder(front, m) <==> SubprojectInOrder(ts, m)
    {
      assert front[..m + 1] == ts[..m + 1] && front[..m] == ts[..m];
    }
  }

  lemma {:induction false} GatheredInOrder(ts: seq<SubprojectTemplate>, name: string)
    requires SubprojectsInOrder(ts)
    ensures ItemsInOrder(Gathered(ts, name))
  {
    if ts != [] {
      var n := |ts| - 1;
      SubprojectsInOrderSnoc(ts);
      if ts[n].name == name {
        assert ts[..n + 1] == ts;
      } else {
        GatheredInOrder(ts[..n], name);
        assert Gathered(ts, name) == Gathered(ts[..n], name);
      }
    }
  }

  lemma AllClosedIff(ts: seq<ItemTemplate>)
    ensures var items := ItemsAfter([], ts);
            (forall i :: 0 <= i < |items| ==> items[i].status == Closed) <==> AllClosed(ts)
  {
    var items := ItemsAfter([], ts);
    ItemsNamed(ts);
    assert |ItemNames(items)| == |items|;
    forall i | 0 <= i < |items|
      ensures items[i].status == Closed <==> ClosedIn(ts, items[i].name)
      ensures items[i].name == Firsts(ts)[i]
    {
      StatusAt(ts, i);
    }
    if AllClosed(ts) {
      forall i | 0 <= i < |items|
        ensures ClosedIn(ts, items[i].name)
      {
        var k := FirstsNamed(ts, i);
      }
    } else {
      var k :| 0 <= k < |ts| && !ClosedIn(ts, ts[k].name);
      NamedInFirsts(ts, k);
      var i := Find(ItemNames(items), ts[k].name).value;
      assert items[i].name == ts[k].name;
    }
  }

  lemma {:induction false} FirstsNamed(ts: seq<ItemTemplate>, i: nat) returns (k: nat)
    requires i < |Firsts(ts)|
    ensures k < |ts| && ts[k].name == Firsts(ts)[i]
  {
    var front := ts[..|ts| - 1];
    if i < |Firsts(front)| {
      k := FirstsNamed(front, i);
    } else {
      k := |front|;
    }
  }

  lemma {:induction false} SubprojectsCleanIff(t: ProjectTemplate, ts: seq<SubprojectTemplate>)
    ensures Clean(Fresh(t), SubprojectsRequests(ts)) <==> SubprojectsInOrder(ts)
  {
    if ts != [] {
      var n := |ts| - 1;
      var front, last := ts[..n], ts[n];
      SubprojectsCleanIff(t, front);
      SubprojectsRunSnoc(Fresh(t), ts);
      SubprojectsInOrderSnoc(ts);
      if SubprojectsInOrder(front) {
        var p := Run(Fresh(t), SubprojectsRequests(front));
        SubprojectRun(p, last);
        StateAfter(t, front, last.name);
        if !SubprojectNamed(front, last.name) {
          NotNamedGathersNothing(front, last.name);
        }
        var gathered := Gathered(front, last.name);
        GatheredInOrder(front, last.name);
        assert ts[..n + 1] == ts;
        assert Gathered(ts, last.name) == gathered + last.items;
        ItemsAppend([], gathered, last.items);
        ItemsCleanIff(gathered);
        ItemsCleanIff(gathered + last.items);
        AllClosedIff(gathered + last.items);
      }
    }
  }

  lemma {:induction false} SubprojectsFound(t: ProjectTemplate, ts: seq<SubprojectTemplate>)
    ensures DistinctInside(Run(Fresh(t), SubprojectsRequests(ts)))
  {
    DistinctStaysByRun(Fresh(t), SubprojectsRequests(ts));
  }

  /** None of the requests the template calls for is refused, on a project just created, exactly if it is in order. */
  lemma CleanIff(t: ProjectTemplate)
    ensures Clean(Fresh(t), Requests(t)) <==> InOrder(t)
  {
    var rs, ts := SubprojectsRequests(t.subprojects), t.subprojects;
    SubprojectsCleanIff(t, ts);
    if t.closed {
      var p := Run(Fresh(t), rs);
      RunAppend(Fresh(t), rs, [CloseProject]);
      RunOne(p, CloseProject);
      StateAfter(t, ts, "");
      SubprojectsFound(t, ts);
      AllSubprojectsClosedIff(t, p);
    } else {
      assert Requests(t) == rs;
    }
  }

  lemma AllSubprojectsClosedIff(t: ProjectTemplate, p: Project)
    requires p == Run(Fresh(t), SubprojectsRequests(t.subprojects)) && DistinctInside(p)
    ensures (forall i :: 0 <= i < |p.subprojects| ==> p.subprojects[i].status == Closed) <==>
            forall m :: 0 <= m < |t.subprojects| ==> SubprojectClosedIn(t.subprojects, t.subprojects[m].name)
  {
    var ts := t.subprojects;
    forall i | 0 <= i < |p.subprojects|
      ensures SubprojectNamed(ts, p.subprojects[i].name)
      ensures p.subprojects[i].status == Closed <==> SubprojectClosedIn(ts, p.subprojects[i].name)
    {
      var name := p.subprojects[i].name;
      FindDistinct(SubprojectNames(p.subprojects), i);
      StateAfter(t, ts, name);
      assert SubprojectAt(p, name) == Some(p.subprojects[i]);
    }
    forall m | 0 <= m < |ts|
      ensures exists i :: 0 <= i < |p.subprojects| && p.subprojects[i].name == ts[m].name
    {
      StateAfter(t, ts, ts[m].name);
      assert SubprojectNamed(ts, ts[m].name);
      var i := Find(SubprojectNames(p.subprojects), ts[m].name).value;
      assert p.subprojects[i].name == ts[m].name;
    }
  }

  // ---------------------------------------------------------------- differently named siblings

  predicate DifferentNames(ts: seq<ItemTemplate>) {
    forall i, j :: 0 <= i < j < |ts| ==> ts[i].name != ts[j].name
  }

  /** No two siblings of the template have the same name. */
  predicate DistinctTemplate(t: ProjectTemplate) {
    && (forall i, j :: 0 <= i < j < |t.subprojects| ==> t.subprojects[i].name != t.subprojects[j].name)
    && (forall i :: 0 <= i < |t.subprojects| ==> DifferentNames(t.subprojects[i].items))
  }

  /** Closed items precede open ones, and a closed subproject has only closed items. */
  predicate OrderedSubproject(t: SubprojectTemplate) {
    && (forall i, j :: 0 <= i < j < |t.items| && t.items[j].closed ==> t.items[i].closed)
    && (t.closed ==> forall i :: 0 <= i < |t.items| ==> t.items[i].closed)
  }

  /** Closed parents have only closed children and closed items precede open ones. */
  predicate Ordered(t: ProjectTemplate) {
    && (forall i :: 0 <= i < |t.subprojects| ==> OrderedSubproject(t.subprojects[i]))
    && (t.closed ==> forall i :: 0 <= i < |t.subprojects| ==> t.subprojects[i].closed)
  }

  lemma ClosedInDistinct(ts: seq<ItemTemplate>, k: nat, i: nat)
    requires DifferentNames(ts) && i < k <= |ts|
    ensures ClosedIn(ts[..k], ts[i].name) <==> ts[i].closed
  {
    assert ts[..k][i] == ts[i];
    if ClosedIn(ts[..k], ts[i].name) {
      var j :| 0 <= j < k && ts[..k][j].name == ts[i].name && ts[..k][j].closed;
      assert j == i;
    }
  }

  lemma ItemsInOrderDistinct(ts: seq<ItemTemplate>)
    requires DifferentNames(ts)
    ensures ItemsInOrder(ts) <==> forall i, j :: 0 <= i < j < |ts| && ts[j].closed ==> ts[i].closed
    ensures AllClosed(ts) <==> forall i :: 0 <= i < |ts| ==> ts[i].closed
  {
    forall k | 0 <= k < |ts|
      ensures ItemInOrder(ts, k) <==> (ts[k].closed ==> forall i :: 0 <= i < k ==> ts[i].closed)
    {
      forall i | 0 <= i < k
        ensures NamedBefore(ts[..k], i, ts[k].name) && ts[..k][i] == ts[i]
        ensures ClosedIn(ts[..k], ts[i].name) <==> ts[i].closed
      {
        ClosedInDistinct(ts, k, i);
      }
    }
    forall i | 0 <= i < |ts|
      ensures ClosedIn(ts, ts[i].name) <==> ts[i].closed
    {
      ClosedInDistinct(ts, |ts|, i);
      assert ts[..|ts|] == ts;
    }
  }

  /**
    Between differently named siblings, in order means that closed items come first and closed parents have closed
    children.
  */
  lemma InOrderIsOrdered(t: ProjectTemplate)
    requires DistinctTemplate(t)
    ensures InOrder(t) <==> Ordered(t)
  {
    var ts := t.subprojects;
    forall m | 0 <= m < |ts|
      ensures SubprojectInOrder(ts, m) <==> OrderedSubproject(ts[m])
      ensures SubprojectClosedIn(ts, ts[m].name) <==> ts[m].closed
    {
      SubprojectInOrderDistinct(ts, m);
    }
  }

  lemma SubprojectInOrderDistinct(ts: seq<SubprojectTemplate>, m: nat)
    requires m < |ts| && (forall i, j :: 0 <= i < j < |ts| ==> ts[i].name != ts[j].name) && DifferentNames(ts[m].items)
    ensures SubprojectInOrder(ts, m) <==> OrderedSubproject(ts[m])
    ensures SubprojectClosedIn(ts, ts[m].name) <==> ts[m].closed
  {
    assert ts[..m + 1][..m] == ts[..m];
    assert !SubprojectNamed(ts[..m], ts[m].name);
    NotNamedGathersNothing(ts[..m], ts[m].name);
    assert Gathered(ts[..m + 1], ts[m].name) == [] + ts[m].items == ts[m].items;
    ItemsInOrderDistinct(ts[m].items);
  }

  // ---- what a complete run leaves on the server

  function Built(t: SubprojectTemplate): Subproject {
    Subproject(t.name, if t.closed then Closed else Open, BuiltItems(t.items))
  }

  function BuiltItems(ts: seq<ItemTemplate>): seq<Item> {
    seq(|ts|, i requires 0 <= i < |ts| => Item(ts[i].name, if ts[i].closed then Closed else Open))
  }

  lemma {:induction false} FirstsDistinct(ts: seq<ItemTemplate>)
    requires DifferentNames(ts)
    ensures |Firsts(ts)| == |ts| && forall i :: 0 <= i < |ts| ==> Firsts(ts)[i] == ts[i].name
  {
    if ts != [] {
      var front := ts[..|ts| - 1];
      FirstsDistinct(front);
      NotNamed(front, ts[|ts| - 1].name);
    }
  }

  lemma ItemsBuilt(ts: seq<ItemTemplate>)
    requires DifferentNames(ts)
    ensures ItemsAfter([], ts) == BuiltItems(ts)
  {
    var items := ItemsAfter([], ts);
    ItemsNamed(ts);
    FirstsDistinct(ts);
    assert |items| == |ItemNames(items)| == |ts|;
    forall i | 0 <= i < |ts|
      ensures items[i] == BuiltItems(ts)[i]
    {
      StatusAt(ts, i);
      ClosedInDistinct(ts, |ts|, i);
      assert ts[..|ts|] == ts;
    }
  }

  lemma SubprojectRunNames(p: Project, t: SubprojectTemplate)
    ensures SubprojectNames(Run(p, SubprojectRequests(t)).subprojects) ==
            if t.name in SubprojectNames(p.subprojects) then SubprojectNames(p.subprojects)
            else SubprojectNames(p.subprojects) + [t.name]
  {
    SubprojectRun(p, t);
    NamesKept(p, AddSubproject(t.name));
  }

  function TemplateNames(ts: seq<SubprojectTemplate>): seq<string> {
    seq(|ts|, i requires 0 <= i < |ts| => ts[i].name)
  }

  lemma DistinctFront(names: seq<string>, last: string)
    requires Distinct(names + [last])
    ensures Distinct(names) && last !in names
  {
    var all := names + [last];
    forall i, j | 0 <= i < j < |names|
      ensures names[i] != names[j]
    {
      assert all[i] != all[j];
    }
    forall i | 0 <= i < |names|
      ensures names[i] != last
    {
      assert all[i] != all[|names|];
    }
  }

  lemma {:induction false} NamesBuilt(t: ProjectTemplate, ts: seq<SubprojectTemplate>)
    requires Distinct(TemplateNames(ts))
    ensures SubprojectNames(Run(Fresh(t), SubprojectsRequests(ts)).subprojects) == TemplateNames(ts)
  {
    if ts != [] {
      var front, last := ts[..|ts| - 1], ts[|ts| - 1];
      assert TemplateNames(ts) == TemplateNames(front) + [last.name];
      DistinctFront(TemplateNames(front), last.name);
      NamesBuilt(t, front);
      SubprojectsRunSnoc(Fresh(t), ts);
      SubprojectRunNames(Run(Fresh(t), SubprojectsRequests(front)), last);
    }
  }

  /** For differently named siblings a complete run leaves exactly the template's tree. */
  lemma FinishedIsTemplate(t: ProjectTemplate)
    requires DistinctTemplate(t)
    ensures var p := Finished(t);
            && p.name == t.name && (p.status == Closed <==> t.closed)
            && |p.subprojects| == |t.subprojects|
            && forall m :: 0 <= m < |t.subprojects| ==> p.subprojects[m] == Built(t.subprojects[m])
  {
    var ts, rs := t.subprojects, SubprojectsRequests(t.subprojects);
    var p, close := Run(Fresh(t), rs), if t.closed then [CloseProject] else [];
    RunAppend(Fresh(t), rs, close);
    RunOne(p, CloseProject);
    NameKept(Fresh(t), rs);
    StateAfter(t, ts, "");
    assert Distinct(TemplateNames(ts));
    NamesBuilt(t, ts);
    assert |p.subprojects| == |SubprojectNames(p.subprojects)|;
    forall m | 0 <= m < |ts|
      ensures p.subprojects[m] == Built(ts[m])
    {
      var name := ts[m].name;
      assert SubprojectNames(p.subprojects)[m] == name;
      assert Distinct(SubprojectNames(p.subprojects));
      FindDistinct(SubprojectNames(p.subprojects), m);
      StateAfter(t, ts, name);
      assert SubprojectNamed(ts, name);
      GatheredOne(ts, m);
      ItemsBuilt(ts[m].items);
      assert SubprojectClosedIn(ts, name) <==> ts[m].closed;
    }
  }

  lemma {:induction false} GatheredOne(ts: seq<SubprojectTemplate>, m: nat)
    requires m < |ts| && forall i, j :: 0 <= i < j < |ts| ==> ts[i].name != ts[j].name
    ensures Gathered(ts, ts[m].name) == ts[m].items
  {
    var n := |ts| - 1;
    if m < n {
      GatheredOne(ts[..n], m);
      assert ts[..n][m] == ts[m];
      assert Gathered(ts, ts[m].name) == Gathered(ts[..n], ts[m].name) + [];
    } else {
      assert !SubprojectNamed(ts[..n], ts[m].name);
      NotNamedGathersNothing(ts[..n], ts[m].name);
    }
  }
}
