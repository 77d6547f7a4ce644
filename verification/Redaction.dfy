/**
  Which history events a user sees, and what is deleted from them in place (api/src/authz/history.ts and
  api/src/authz/index.ts).
*/
module Redaction {
  import opened Prelude
  import opened Difference

  /** The intents the redaction rules name; every other intent is an Other. */
  datatype Intent =
    | GlobalListPermissions | GlobalGrantPermission | GlobalRevokePermission | GlobalCreateProject
    | ProjectListPermissions | ProjectGrantPermission | ProjectRevokePermission
    | ProjectList | ProjectViewDetails | ProjectAssign | ProjectUpdate | ProjectCreateSubproject
    | SubprojectListPermissions | SubprojectGrantPermission | SubprojectRevokePermission
    | SubprojectViewDetails | SubprojectAssign | SubprojectUpdate
    | SubprojectCreateWorkflowitem | SubprojectReorderWorkflowitems
    | WorkflowitemListPermissions | WorkflowitemGrantPermission | WorkflowitemRevokePermission
    | WorkflowitemList | WorkflowitemAssign | WorkflowitemUpdate
    | Other(name: string)

  type Data = map<string, Json>

  datatype Record = Record(
    key: string, intent: Intent, createdBy: string, createdAt: string, dataVersion: int, data: Data)

  const PERMISSIONS := "permissions"
  const ROOT := "root"

  /** The table requiredPermissions. */
  function RequiredPermissions(observed: Intent): Option<seq<Intent>> {
    match observed
    case GlobalGrantPermission => Some([GlobalListPermissions])
    case GlobalRevokePermission => Some([GlobalListPermissions])
    case GlobalCreateProject => Some([ProjectList, ProjectViewDetails])
    case ProjectGrantPermission => Some([ProjectListPermissions])
    case ProjectRevokePermission => Some([ProjectListPermissions])
    case ProjectAssign => Some([ProjectViewDetails])
    case ProjectUpdate => Some([ProjectViewDetails])
    case ProjectCreateSubproject => Some([ProjectViewDetails, SubprojectViewDetails])
    case SubprojectGrantPermission => Some([SubprojectListPermissions])
    case SubprojectRevokePermission => Some([SubprojectListPermissions])
    case SubprojectAssign => Some([SubprojectViewDetails])
    case SubprojectUpdate => Some([SubprojectViewDetails])
    case SubprojectCreateWorkflowitem => Some([SubprojectViewDetails, WorkflowitemList])
    case SubprojectReorderWorkflowitems => Some([SubprojectViewDetails, WorkflowitemList])
    case WorkflowitemGrantPermission => Some([WorkflowitemListPermissions])
    case WorkflowitemRevokePermission => Some([WorkflowitemListPermissions])
    case WorkflowitemAssign => Some([WorkflowitemList])
    case WorkflowitemUpdate => Some([WorkflowitemList])
    case _ => None
  }

  /** For a creation event, the intent that entitles to the permissions it set. */
  function GuardOf(observed: Intent): Option<Intent> {
    match observed
    case GlobalCreateProject => Some(ProjectListPermissions)
    case ProjectCreateSubproject => Some(SubprojectListPermissions)
    case SubprojectCreateWorkflowitem => Some(WorkflowitemListPermissions)
    case _ => None
  }

  // ---------------------------------------------------------------- identities and intents

  function Intersection<T(==)>(a: seq<T>, b: seq<T>): seq<T> {
    if a == [] then [] else (if a[0] in b then [a[0]] else []) + Intersection(a[1..], b)
  }

  predicate HasIntersection<T(==)>(a: seq<T>, b: seq<T>) {
    |Intersection(a, b)| > 0
  }

  lemma {:induction false} IntersectionMember<T>(a: seq<T>, b: seq<T>, x: T)
    ensures x in Intersection(a, b) <==> x in a && x in b
  {
    if a != [] {
      IntersectionMember(a[1..], b, x);
    }
  }

  lemma HasIntersectionIff<T>(a: seq<T>, b: seq<T>)
    ensures HasIntersection(a, b) <==> exists i :: 0 <= i < |a| && a[i] in b
  {
    if HasIntersection(a, b) {
      IntersectionMember(a, b, Intersection(a, b)[0]);
    }
    if i :| 0 <= i < |a| && a[i] in b {
      IntersectionMember(a, b, a[i]);
    }
  }

  /** A permission table in the order of its keys. */
  datatype Grant = Grant(intent: Intent, people: seq<string>)

  predicate Grants(g: Grant, people: seq<string>, intent: Intent) {
    g.intent == intent && HasIntersection(people, g.people)
  }

  function Granted(people: seq<string>, permissions: seq<Grant>): seq<Intent> {
    if permissions == [] then [] else
      (if HasIntersection(people, permissions[0].people) then [permissions[0].intent] else [])
      + Granted(people, permissions[1..])
  }

  /** getAllowedIntents; `allIntents` is the constant list of every intent. */
  function GetAllowedIntents(people: seq<string>, permissions: seq<Grant>, allIntents: seq<Intent>): seq<Intent> {
    if ROOT in people then allIntents else Granted(people, permissions)
  }

  lemma {:induction false} GrantedMember(people: seq<string>, permissions: seq<Grant>, intent: Intent)
    ensures intent in Granted(people, permissions) <==> exists g :: g in permissions && Grants(g, people, intent)
  {
    if permissions != [] {
      GrantedMember(people, permissions[1..], intent);
      assert permissions == [permissions[0]] + permissions[1..];
      assert intent in Granted(people, permissions) <==>
             Grants(permissions[0], people, intent) || intent in Granted(people, permissions[1..]);
    }
  }

  /** Who has an intent: root if it is in the list of all, and others if they or one of their groups are granted it. */
  lemma AllowedIff(people: seq<string>, table: seq<Grant>, allIntents: seq<Intent>, intent: Intent)
    ensures intent in GetAllowedIntents(people, table, allIntents) <==>
            if "root" in people then intent in allIntents
            else exists g, who :: g in table && g.intent == intent && who in g.people && who in people
  {
    if ROOT !in people {
      GrantedMember(people, table, intent);
      forall g: Grant
        ensures HasIntersection(people, g.people) <==> exists who :: who in g.people && who in people
      {
        HasIntersectionIff(people, g.people);
        if who :| who in g.people && who in people {
          var i :| 0 <= i < |people| && people[i] == who;
        }
      }
    }
  }

  // ---------------------------------------------------------------- what a user sees

  predicate Visible(observed: Intent, userIntents: seq<Intent>) {
    var required := RequiredPermissions(observed);
    if required.Some? then HasIntersection(required.value, userIntents) else observed in userIntents
  }

  function Redact(r: Record, userIntents: seq<Intent>): Record {
    var guard := GuardOf(r.intent);
    if guard.None? then r
    else if r.dataVersion != 1 then r.(data := map[])
    else if guard.value in userIntents then r
    else r.(data := r.data - {PERMISSIONS})
  }

  /** What asking for the event on a user's behalf leaves of it. */
  function Touch(r: Record, userIntents: seq<Intent>): Record {
    if RequiredPermissions(r.intent).Some? && Visible(r.intent, userIntents) then Redact(r, userIntents) else r
  }

  function Show(r: Record, userIntents: seq<Intent>): Option<Record> {
    if Visible(r.intent, userIntents) then Some(Touch(r, userIntents)) else None
  }

  class Event {
    const key: string
    const intent: Intent
    const createdBy: string
    const createdAt: string
    const dataVersion: int
    var data: Data

    constructor (r: Record)
      ensures View() == r
    {
      key, intent, createdBy, createdAt, dataVersion := r.key, r.intent, r.createdBy, r.createdAt, r.dataVersion;
      data := r.data;
    }

    function View(): Record
      reads this
    {
      Record(key, intent, createdBy, createdAt, dataVersion, data)
    }
  }

  method RedactEvent(event: Event, userIntents: seq<Intent>) returns (r: Event)
    modifies event`data
    ensures r == event && event.View() == Redact(old(event.View()), userIntents)
  {
    r := event;
    match event.intent {
      case GlobalCreateProject =>
        if event.dataVersion == 1 {
          if ProjectListPermissions !in userIntents {
            event.data := event.data - {PERMISSIONS};
          }
        } else {
          event.data := map[];
        }
      case ProjectCreateSubproject =>
        if event.dataVersion == 1 {
          if SubprojectListPermissions !in userIntents {
            event.data := event.data - {PERMISSIONS};
          }
        } else {
          event.data := map[];
        }
      case SubprojectCreateWorkflowitem =>
        if event.dataVersion == 1 {
          if WorkflowitemListPermissions !in userIntents {
            event.data := event.data - {PERMISSIONS};
          }
        } else {
          event.data := map[];
        }
      case _ =>
    }
  }

  /** The result is the same object, redacted in place, or null. */
  method OnlyAllowedData(event: Event, userIntents: seq<Intent>) returns (r: Event?)
    modifies event`data
    ensures r == (if Visible(event.intent, userIntents) then event else null)
    ensures event.View() == Touch(old(event.View()), userIntents)
  {
    var required := RequiredPermissions(event.intent);
    if required.Some? {
      if !HasIntersection(required.value, userIntents) {
        return null;
      }
      r := RedactEvent(event, userIntents);
    } else if event.intent in userIntents {
      r := event;
    } else {
      r := null;
    }
  }

  /** The events of a history, one after the other; the same object may be listed more than once. */
  method ShowHistory(events: seq<Event>, userIntents: seq<Intent>) returns (views: seq<Event?>)
    modifies set e | e in events :: e`data
    ensures |views| == |events|
    ensures forall i :: 0 <= i < |events| ==>
              views[i] == (if Visible(events[i].intent, userIntents) then events[i] else null)
    ensures forall e :: e in events ==> e.View() == Touch(old(e.View()), userIntents)
  {
    views := [];
    for i := 0 to |events|
      invariant |views| == i
      invariant forall k :: 0 <= k < i ==>
                  views[k] == (if Visible(events[k].intent, userIntents) then events[k] else null)
      invariant forall e :: e in events ==>
                  e.View() == if e in events[..i] then Touch(old(e.View()), userIntents) else old(e.View())
    {
      var event := events[i];
      TouchTwice(old(event.View()), userIntents);
      var view := OnlyAllowedData(event, userIntents);
      views := views + [view];
      assert events[..i + 1] == events[..i] + [event];
    }
    assert events[..|events|] == events;
  }

  lemma TouchTwice(r: Record, userIntents: seq<Intent>)
    ensures Touch(Touch(r, userIntents), userIntents) == Touch(r, userIntents)
  {
    assert r.data - {PERMISSIONS} - {PERMISSIONS} == r.data - {PERMISSIONS};
  }

  /**
    Who sees an event.  A change of permissions is seen by who may list the permissions of its level, an assignment
    or update by who may view what was changed, a creation by who may view either the parent or the children.
  */
  lemma WhoSees(r: Record, user: seq<Intent>)
    ensures var seen := Show(r, user).Some?;
            match r.intent
            case GlobalGrantPermission | GlobalRevokePermission => seen <==> GlobalListPermissions in user
            case ProjectGrantPermission | ProjectRevokePermission => seen <==> ProjectListPermissions in user
            case SubprojectGrantPermission | SubprojectRevokePermission => seen <==> SubprojectListPermissions in user
            case WorkflowitemGrantPermission | WorkflowitemRevokePermission =>
              seen <==> WorkflowitemListPermissions in user
            case ProjectAssign | ProjectUpdate => seen <==> ProjectViewDetails in user
            case SubprojectAssign | SubprojectUpdate => seen <==> SubprojectViewDetails in user
            case WorkflowitemAssign | WorkflowitemUpdate => seen <==> WorkflowitemList in user
            case GlobalCreateProject => seen <==> ProjectList in user || ProjectViewDetails in user
            case ProjectCreateSubproject => seen <==> ProjectViewDetails in user || SubprojectViewDetails in user
            case SubprojectCreateWorkflowitem | SubprojectReorderWorkflowitems =>
              seen <==> SubprojectViewDetails in user || WorkflowitemList in user
            case _ => seen <==> r.intent in user
  {
    var required := RequiredPermissions(r.intent);
    if required.Some? {
      var all := required.value;
      HasIntersectionIff(all, user);
      assert |all| == 1 || |all| == 2;
      assert (exists i :: 0 <= i < |all| && all[i] in user) <==> all[0] in user || (|all| == 2 && all[1] in user);
    }
  }

  /**
    What is seen of it.  The permissions set at a creation are left out for who may not list the permissions of what
    was created; of a creation in another version no data is left; everything else is shown as it is.
  */
  lemma WhatIsSeen(r: Record, user: seq<Intent>)
    requires Show(r, user).Some?
    ensures var view := Show(r, user).value;
            var creation := r.intent in {GlobalCreateProject, ProjectCreateSubproject, SubprojectCreateWorkflowitem};
            && view.(data := r.data) == r
            && (!creation ==> view == r)
            && (creation && r.dataVersion != 1 ==> view.data == map[])
            && (r.intent == GlobalCreateProject && r.dataVersion == 1 ==>
                  view.data == if ProjectListPermissions in user then r.data else r.data - {"permissions"})
            && (r.intent == ProjectCreateSubproject && r.dataVersion == 1 ==>
                  view.data == if SubprojectListPermissions in user then r.data else r.data - {"permissions"})
            && (r.intent == SubprojectCreateWorkflowitem && r.dataVersion == 1 ==>
                  view.data == if WorkflowitemListPermissions in user then r.data else r.data - {"permissions"})
  {
  }

  // ---------------------------------------------------------------- several users in turn

  function TouchAll(r: Record, users: seq<seq<Intent>>): Record
    decreases users
  {
    if users == [] then r else TouchAll(Touch(r, users[0]), users[1..])
  }

  lemma {:induction false} TouchAllSnoc(r: Record, users: seq<seq<Intent>>, user: seq<Intent>)
    ensures TouchAll(r, users + [user]) == Touch(TouchAll(r, users), user)
    decreases users
  {
    if users == [] {
      assert users + [user] == [user];
    } else {
      TouchAllSnoc(Touch(r, users[0]), users[1..], user);
      assert (users + [user])[1..] == users[1..] + [user];
    }
  }

  /** The same event objects are shown to one user after the other. */
  method ShowToAll(events: seq<Event>, users: seq<seq<Intent>>)
    modifies set e | e in events :: e`data
    ensures forall e :: e in events ==> e.View() == TouchAll(old(e.View()), users)
  {
    for i := 0 to |users|
      invariant forall e :: e in events ==> e.View() == TouchAll(old(e.View()), users[..i])
    {
      var _ := ShowHistory(events, users[i]);
      assert users[..i + 1] == users[..i] + [users[i]];
      forall e | e in events
        ensures e.View() == TouchAll(old(e.View()), users[..i + 1])
      {
        TouchAllSnoc(old(e.View()), users[..i], users[i]);
      }
    }
    assert users[..|users|] == users;
  }

  predicate Wipes(r: Record, user: seq<Intent>) {
    GuardOf(r.intent).Some? && Visible(r.intent, user) && r.dataVersion != 1
  }

  predicate Strips(r: Record, user: seq<Intent>) {
    GuardOf(r.intent).Some? && Visible(r.intent, user) && r.dataVersion == 1 && GuardOf(r.intent).value !in user
  }

  ghost predicate SomeWipes(r: Record, users: seq<seq<Intent>>) {
    exists u :: u in users && Wipes(r, u)
  }

  ghost predicate SomeStrips(r: Record, users: seq<seq<Intent>>) {
    exists u :: u in users && Strips(r, u)
  }

  /** What the whole round leaves of an event depends only on which users took part. */
  lemma {:induction false} TouchAllIs(r: Record, users: seq<seq<Intent>>)
    ensures TouchAll(r, users) ==
            if SomeWipes(r, users) then r.(data := map[])
            else if SomeStrips(r, users) then r.(data := r.data - {PERMISSIONS})
            else r
    decreases users
  {
    if users != [] {
      var first, rest := Touch(r, users[0]), users[1..];
      TouchAllIs(first, rest);
      assert forall u :: u in users <==> u == users[0] || u in rest;
      assert SomeWipes(r, users) <==> Wipes(r, users[0]) || SomeWipes(first, rest) by {
        assert forall u :: Wipes(first, u) <==> Wipes(r, u);
      }
      assert SomeStrips(r, users) <==> Strips(r, users[0]) || SomeStrips(first, rest) by {
        assert forall u :: Strips(first, u) <==> Strips(r, u);
      }
      assert r.data - {PERMISSIONS} - {PERMISSIONS} == r.data - {PERMISSIONS};
      assert Wipes(r, users[0]) ==> !SomeStrips(r, users);
      assert Strips(r, users[0]) ==> !SomeWipes(r, users);
    }
  }

  /** Any order of the same users, with any repetitions, ends in the same state of every event. */
  lemma OrderIrrelevant(r: Record, users: seq<seq<Intent>>, others: seq<seq<Intent>>)
    requires forall u :: u in users <==> u in others
    ensures TouchAll(r, users) == TouchAll(r, others)
  {
    TouchAllIs(r, users);
    TouchAllIs(r, others);
  }

  /** The view a holds nothing that is not in the view b. */
  ghost predicate NoMoreThan(a: Option<Record>, b: Option<Record>) {
    a.Some? ==> b.Some? && a.value.(data := map[]) == b.value.(data := map[]) &&
                forall k :: k in a.value.data ==> k in b.value.data && b.value.data[k] == a.value.data[k]
  }

  /** After any others have looked, a user still sees the event if ever, and never more of it than when it was fresh. */
  lemma LaterViewsShrink(r: Record, users: seq<seq<Intent>>, user: seq<Intent>)
    ensures Show(TouchAll(r, users), user).Some? <==> Show(r, user).Some?
    ensures NoMoreThan(Show(TouchAll(r, users), user), Show(r, user))
  {
    TouchAllIs(r, users);
  }

  /**
    The price of redacting shared objects in place: a user who may see the permissions loses them as soon as one who
    may not has looked first.
  */
  lemma SharedViewsDiffer(r: Record, before: seq<Intent>, user: seq<Intent>)
    requires PERMISSIONS in r.data && r.dataVersion == 1
    requires GuardOf(r.intent).Some? && GuardOf(r.intent).value in user && Visible(r.intent, user)
    ensures Show(Touch(r, before), user) == Show(r, user) <==> !Strips(r, before)
  {
  }

  // ---------------------------------------------------------------- non-interference

  /** The part of an event's data a user may learn. */
  function MayLearn(r: Record, user: seq<Intent>): Data {
    if GuardOf(r.intent).Some? && r.dataVersion != 1 then map[]
    else if GuardOf(r.intent).Some? && GuardOf(r.intent).value !in user then r.data - {PERMISSIONS}
    else r.data
  }

  /** Two events of the same kind that a user has no right to tell apart. */
  predicate Indistinguishable(a: Record, b: Record, user: seq<Intent>) {
    !Visible(a.intent, user) || (a.(data := map[]) == b.(data := map[]) && MayLearn(a, user) == MayLearn(b, user))
  }

  function ShowAll(history: seq<Record>, user: seq<Intent>): seq<Option<Record>> {
    if history == [] then [] else [Show(history[0], user)] + ShowAll(history[1..], user)
  }

  /** A user sees two histories of the same intents alike exactly when nothing they may learn tells them apart. */
  lemma {:induction false} NonInterference(a: seq<Record>, b: seq<Record>, user: seq<Intent>)
    requires |a| == |b| && forall i :: 0 <= i < |a| ==> a[i].intent == b[i].intent
    ensures ShowAll(a, user) == ShowAll(b, user) <==>
            forall i :: 0 <= i < |a| ==> Indistinguishable(a[i], b[i], user)
  {
    if a != [] {
      NonInterference(a[1..], b[1..], user);
      SeesAlike(a[0], b[0], user);
      var x, y := ShowAll(a, user), ShowAll(b, user);
      assert x == y <==> x[0] == y[0] && x[1..] == y[1..] by {
        assert x == [x[0]] + x[1..] && y == [y[0]] + y[1..];
      }
      assert forall i :: 0 <= i < |a| - 1 ==> a[1..][i] == a[i + 1] && b[1..][i] == b[i + 1];
      if forall i :: 0 <= i < |a| ==> Indistinguishable(a[i], b[i], user) {
        forall i | 0 <= i < |a[1..]|
          ensures Indistinguishable(a[1..][i], b[1..][i], user)
        {
          assert Indistinguishable(a[i + 1], b[i + 1], user);
        }
      }
      if forall i :: 0 <= i < |a[1..]| ==> Indistinguishable(a[1..][i], b[1..][i], user) {
        forall i | 0 < i < |a|
          ensures Indistinguishable(a[i], b[i], user)
        {
          assert Indistinguishable(a[1..][i - 1], b[1..][i - 1], user);
        }
      }
    }
  }

  lemma SeesAlike(a: Record, b: Record, user: seq<Intent>)
    requires a.intent == b.intent
    ensures Show(a, user) == Show(b, user) <==> Indistinguishable(a, b, user)
  {
    if Visible(a.intent, user) && a.(data := map[]) == b.(data := map[]) {
      assert Touch(a, user) == a.(data := MayLearn(a, user));
      assert Touch(b, user) == b.(data := MayLearn(b, user));
    }
  }

  /** Permissions set at creation are hidden exactly from those without the matching listPermissions. */
  lemma PermissionsHiddenIff(r: Record, granted: Json, user: seq<Intent>)
    requires GuardOf(r.intent).Some? && PERMISSIONS !in r.data
    ensures Show(r.(data := r.data[PERMISSIONS := granted]), user) == Show(r, user) <==>
            !Visible(r.intent, user) || r.dataVersion != 1 || GuardOf(r.intent).value !in user
  {
    var more := r.(data := r.data[PERMISSIONS := granted]);
    assert more.data - {PERMISSIONS} == r.data == r.data - {PERMISSIONS};
    assert more.data != r.data;
  }

  /** Of an unsupported version of a creation event nothing is shown but that it happened. */
  lemma UnknownVersionHidesData(r: Record, data: Data, user: seq<Intent>)
    requires GuardOf(r.intent).Some? && r.dataVersion != 1
    ensures Show(r, user) == Show(r.(data := data), user)
    ensures Show(r, user).Some? ==> Show(r, user).value.data == map[]
  {
  }

  // ---- after others have looked

  /** The user may see the permissions an event of this kind set. */
  predicate Entitled(r: Record, user: seq<Intent>) {
    GuardOf(r.intent).Some? ==> GuardOf(r.intent).value in user
  }

  /** Whoever looked before changes a user's view exactly if it took permissions from someone entitled to them. */
  lemma ViewUnchangedIff(r: Record, users: seq<seq<Intent>>, user: seq<Intent>)
    ensures Show(TouchAll(r, users), user) == Show(r, user) <==>
            !Visible(r.intent, user) || !Entitled(r, user) || !SomeStrips(r, users) || PERMISSIONS !in r.data
  {
    TouchAllIs(r, users);
    assert r.data - {PERMISSIONS} == r.data <==> PERMISSIONS !in r.data;
    assert r.data - {PERMISSIONS} - {PERMISSIONS} == r.data - {PERMISSIONS};
  }

  /** What a user may not learn from fresh events they do not learn from events others have looked at. */
  lemma NonInterferenceInTurn(a: Record, b: Record, users: seq<seq<Intent>>, user: seq<Intent>)
    requires a.intent == b.intent && Indistinguishable(a, b, user)
    ensures Show(TouchAll(a, users), user) == Show(TouchAll(b, users), user)
  {
    TouchAllIs(a, users);
    TouchAllIs(b, users);
    if Visible(a.intent, user) {
      assert forall u :: (Wipes(a, u) <==> Wipes(b, u)) && (Strips(a, u) <==> Strips(b, u));
      assert a.data - {PERMISSIONS} - {PERMISSIONS} == a.data - {PERMISSIONS};
      assert b.data - {PERMISSIONS} - {PERMISSIONS} == b.data - {PERMISSIONS};
      assert a == a.(data := a.data) && b == a.(data := b.data);
    }
  }

  /**
    A history shown to one user after the others: each view is that of the events the others left, and for a user
    who is not entitled to an event's permissions the one of the fresh event.
  */
  method ShowInTurn(events: seq<Event>, users: seq<seq<Intent>>, user: seq<Intent>) returns (views: seq<Event?>)
    modifies set e | e in events :: e`data
    ensures |views| == |events|
    ensures forall i :: 0 <= i < |events| ==>
              views[i] == (if Visible(events[i].intent, user) then events[i] else null)
    ensures forall e :: e in events && Visible(e.intent, user) ==>
              && Some(e.View()) == Show(TouchAll(old(e.View()), users), user)
              && (!Entitled(old(e.View()), user) ==> Some(e.View()) == Show(old(e.View()), user))
  {
    ShowToAll(events, users);
    views := ShowHistory(events, user);
    forall e | e in events && Visible(e.intent, user)
      ensures Some(e.View()) == Show(TouchAll(old(e.View()), users), user)
      ensures !Entitled(old(e.View()), user) ==> Some(e.View()) == Show(old(e.View()), user)
    {
      TouchAllIs(old(e.View()), users);
      ViewUnchangedIff(old(e.View()), users, user);
    }
  }

  // ---------------------------------------------------------------- monotonicity

  /** A grant of the same intent to the same people at least. */
  predicate Widens(h: Grant, g: Grant) {
    h.intent == g.intent && forall x :: x in g.people ==> x in h.people
  }

  /** Every grant of the one table is in the other, to the same people at least. */
  ghost predicate Extends(some: seq<Grant>, more: seq<Grant>) {
    forall g :: g in some ==> exists h :: h in more && Widens(h, g)
  }

  lemma IntersectionGrows(a: seq<string>, more: seq<string>, b: seq<string>, larger: seq<string>)
    requires forall x :: x in a ==> x in more
    requires forall x :: x in b ==> x in larger
    requires HasIntersection(a, b)
    ensures HasIntersection(more, larger)
  {
    HasIntersectionIff(a, b);
    HasIntersectionIff(more, larger);
    var i :| 0 <= i < |a| && a[i] in b;
    assert a[i] in a && a[i] in more;
    var j :| 0 <= j < |more| && more[j] == a[i];
  }

  lemma GrantedGrows(people: seq<string>, more: seq<string>, table: seq<Grant>, larger: seq<Grant>, intent: Intent)
    requires forall x :: x in people ==> x in more
    requires Extends(table, larger)
    requires intent in Granted(people, table)
    ensures intent in Granted(more, larger)
  {
    GrantedMember(people, table, intent);
    var g :| g in table && Grants(g, people, intent);
    var h :| h in larger && Widens(h, g);
    IntersectionGrows(people, more, g.people, h.people);
    assert Grants(h, more, intent);
    GrantedMember(more, larger, intent);
  }

  /** The list of all intents, which is what root gets, has every intent that these people are granted. */
  ghost predicate CoversGrants(allIntents: seq<Intent>, people: seq<string>, table: seq<Grant>) {
    forall i :: i in Granted(people, table) ==> i in allIntents
  }

  /**
    More groups and more grants give more intents; so does becoming root, if its intents cover those granted before.
  */
  lemma AllowedIntentsGrow(people: seq<string>, more: seq<string>, table: seq<Grant>, larger: seq<Grant>,
                           allIntents: seq<Intent>, intent: Intent)
    requires forall x :: x in people ==> x in more
    requires Extends(table, larger)
    requires ROOT !in people && ROOT in more ==> CoversGrants(allIntents, people, table)
    requires intent in GetAllowedIntents(people, table, allIntents)
    ensures intent in GetAllowedIntents(more, larger, allIntents)
  {
    if ROOT !in people {
      GrantedMember(people, table, intent);
      assert intent in Granted(people, table);
      if ROOT !in more {
        GrantedGrows(people, more, table, larger, intent);
      }
    }
  }

  /** More intents never hide an event and never remove a field from it. */
  lemma ViewsGrow(r: Record, some: seq<Intent>, more: seq<Intent>)
    requires forall i :: i in some ==> i in more
    ensures NoMoreThan(Show(r, some), Show(r, more))
  {
    var required := RequiredPermissions(r.intent);
    if required.Some? {
      HasIntersectionIff(required.value, some);
      HasIntersectionIff(required.value, more);
    }
  }

  /** An intent the redaction rules do not name shows its own events and nothing else. */
  lemma OwnIntentShows(r: Record, user: seq<Intent>)
    requires r.intent.Other?
    ensures Show(r, user) == if r.intent in user then Some(r) else None
  {
  }

  /** True of the list in the code: it has every intent the redaction rules name. */
  ghost predicate HasNamedIntents(allIntents: seq<Intent>) {
    forall i: Intent :: !i.Other? ==> i in allIntents
  }

  /** No view of the one is more than the same view of the other. */
  ghost predicate SeesNoMore(some: seq<Intent>, more: seq<Intent>) {
    forall r :: NoMoreThan(Show(r, some), Show(r, more))
  }

  /** Becoming root hides nothing, whatever else is granted, exactly if root's intents cover what was granted before. */
  lemma BecomingRootIff(people: seq<string>, more: seq<string>, table: seq<Grant>, larger: seq<Grant>,
                        allIntents: seq<Intent>)
    requires ROOT !in people && ROOT in more && HasNamedIntents(allIntents)
    ensures SeesNoMore(GetAllowedIntents(people, table, allIntents), GetAllowedIntents(more, larger, allIntents)) <==>
            CoversGrants(allIntents, people, table)
  {
    var granted := Granted(people, table);
    if CoversGrants(allIntents, people, table) {
      forall r
        ensures NoMoreThan(Show(r, granted), Show(r, allIntents))
      {
        ViewsGrow(r, granted, allIntents);
      }
    } else {
      var i :| i in granted && i !in allIntents;
      var r := Record("", i, "", "", 1, map[]);
      OwnIntentShows(r, granted);
      OwnIntentShows(r, allIntents);
      assert !NoMoreThan(Show(r, granted), Show(r, allIntents));
    }
  }

  /** A global intent that is missing from the list of all intents, which is what root gets. */
  const DECLINE_NODE := Other("network.declineNode")

  /** Who is granted it sees events of that kind; root does not. */
  lemma RootMissesDeclineNode(r: Record, people: seq<string>, table: seq<Grant>, allIntents: seq<Intent>, g: Grant)
    requires r.intent == DECLINE_NODE && DECLINE_NODE !in allIntents
    requires ROOT !in people && g in table && Grants(g, people, DECLINE_NODE)
    ensures Show(r, GetAllowedIntents(people, table, allIntents)) == Some(r)
    ensures Show(r, GetAllowedIntents(people + [ROOT], table, allIntents)) == None
  {
    GrantedMember(people, table, DECLINE_NODE);
    var root := people + [ROOT];
    assert root[|people|] == ROOT;
    assert GetAllowedIntents(root, table, allIntents) == allIntents;
    OwnIntentShows(r, allIntents);
    OwnIntentShows(r, Granted(people, table));
  }

  /** From groups and grants to the view: adding either never takes anything away. */
  lemma GrantsNeverHide(r: Record, people: seq<string>, more: seq<string>, table: seq<Grant>, larger: seq<Grant>,
                        allIntents: seq<Intent>)
    requires forall x :: x in people ==> x in more
    requires Extends(table, larger)
    requires ROOT !in people && ROOT in more ==> CoversGrants(allIntents, people, table)
    ensures NoMoreThan(Show(r, GetAllowedIntents(people, table, allIntents)),
                       Show(r, GetAllowedIntents(more, larger, allIntents)))
  {
    forall i | i in GetAllowedIntents(people, table, allIntents)
      ensures i in GetAllowedIntents(more, larger, allIntents)
    {
      AllowedIntentsGrow(people, more, table, larger, allIntents, i);
    }
    ViewsGrow(r, GetAllowedIntents(people, table, allIntents), GetAllowedIntents(more, larger, allIntents));
  }
}
