/** What the workbench snapshot promises about the rows it was built from. */
module WorkbenchLaws {
  import opened Collections
  import opened Orders
  import opened PyText
  import opened CanonicalJson
  import opened PyValues
  import opened StableSort
  import opened SortKeys
  import opened CaseProjection
  import opened CaseStates
  import opened Workbench

  // ---------------------------------------------------------------- counting executions

  function Total(items: seq<Item>): nat
  {
    if items == [] then 0 else items[0].linkedCount + Total(items[1..])
  }

  lemma {:induction false} TotalConcat(a: seq<Item>, b: seq<Item>)
    ensures Total(a + b) == Total(a) + Total(b)
  {
    if a == [] {
      assert a + b == b;
    } else {
      assert (a + b)[1..] == a[1..] + b;
      TotalConcat(a[1..], b);
    }
  }

  lemma {:induction false} TotalInsert(le: (Item, Item) -> bool, x: Item, s: seq<Item>)
    ensures Total(InsertBy(le, x, s)) == x.linkedCount + Total(s)
  {
    if s == [] || le(x, s[0]) {
      assert ([x] + s)[1..] == s;
    } else {
      TotalInsert(le, x, s[1..]);
      assert InsertBy(le, x, s)[1..] == InsertBy(le, x, s[1..]);
    }
  }

  lemma {:induction false} TotalSort(le: (Item, Item) -> bool, s: seq<Item>)
    ensures Total(SortBy(le, s)) == Total(s)
  {
    if s != [] {
      TotalSort(le, s[1..]);
      TotalInsert(le, s[0], SortBy(le, s[1..]));
    }
  }

  predicate Owns(p: Rec, e: Rec) { ProjectId(p) != "" && ProjectId(p) == ExecutionProject(e) }

  function OwnedBy(e: Rec): Rec -> bool { (p: Rec) => Owns(p, e) }

  /** How many projects carry the id that an execution names. */
  function Owners(projects: seq<Rec>, e: Rec): nat { Count(projects, OwnedBy(e)) }

  function AllOwners(projects: seq<Rec>, executions: seq<Rec>): nat
  {
    if executions == [] then 0 else Owners(projects, executions[0]) + AllOwners(projects, executions[1..])
  }

  lemma {:induction false} OneMoreProject(projects: seq<Rec>, p: Rec, executions: seq<Rec>)
    ensures AllOwners(projects + [p], executions) ==
            AllOwners(projects, executions) + (if ProjectId(p) == "" then 0 else |Filter(LinkedTo(ProjectId(p)), executions)|)
  {
    if executions != [] {
      OneMoreProject(projects, p, executions[1..]);
      CountConcat(projects, [p], OwnedBy(executions[0]));
      assert Count([p], OwnedBy(executions[0])) == if Owns(p, executions[0]) then 1 else 0;
    }
  }

  lemma {:induction false} ItemsTotal(c: Casing, projects: seq<Rec>, executions: seq<Rec>)
    ensures Total(Items(c, projects, executions)) == AllOwners(projects, executions)
  {
    if projects == [] {
      NoOwners(executions);
    } else {
      var init, p := projects[..|projects| - 1], projects[|projects| - 1];
      ItemsTotal(c, init, executions);
      OneMoreProject(init, p, executions);
      assert projects == init + [p];
      NextItem(c, projects, executions);
    }
  }

  lemma NextItem(c: Casing, projects: seq<Rec>, executions: seq<Rec>)
    requires projects != []
    ensures var init, p := projects[..|projects| - 1], projects[|projects| - 1];
            Total(Items(c, projects, executions)) ==
            Total(Items(c, init, executions)) + (if ProjectId(p) == "" then 0 else |Filter(LinkedTo(ProjectId(p)), executions)|)
  {
    var init, p := projects[..|projects| - 1], projects[|projects| - 1];
    var before := Items(c, init, executions);
    if ProjectId(p) == "" {
      assert before + [] == before;
    } else {
      LastItem(c, p, executions, before);
    }
  }

  lemma LastItem(c: Casing, p: Rec, executions: seq<Rec>, before: seq<Item>)
    ensures var linked := Filter(LinkedTo(ProjectId(p)), executions);
            Total(before + [ItemFor(c, p, linked)]) == Total(before) + |linked|
  {
    var item := ItemFor(c, p, Filter(LinkedTo(ProjectId(p)), executions));
    TotalConcat(before, [item]);
    assert [item][1..] == [];
  }

  lemma {:induction false} NoOwners(executions: seq<Rec>)
    ensures AllOwners([], executions) == 0
  {
    if executions != [] { NoOwners(executions[1..]); }
  }

  /** An execution is unlinked exactly when no project owns it. */
  lemma {:induction false} UnlinkedIff(projects: seq<Rec>, e: Rec)
    ensures IsUnlinked(KnownIds(projects))(e) <==> Owners(projects, e) == 0
  {
    CountExtremes(projects, OwnedBy(e));
    if !IsUnlinked(KnownIds(projects))(e) {
      var p :| p in projects && ProjectId(p) != "" && ProjectId(p) == ExecutionProject(e);
      var i :| 0 <= i < |projects| && projects[i] == p;
      assert OwnedBy(e)(projects[i]);
    } else {
      assert forall i :: 0 <= i < |projects| ==> projects[i] in projects;
    }
  }

  predicate AtMostOneOwner(projects: seq<Rec>, executions: seq<Rec>)
  {
    forall i :: 0 <= i < |executions| ==> Owners(projects, executions[i]) <= 1
  }

  lemma {:induction false} OwnersBalance(projects: seq<Rec>, executions: seq<Rec>)
    ensures var unlinked := |Filter(IsUnlinked(KnownIds(projects)), executions)|;
            && AllOwners(projects, executions) + unlinked >= |executions|
            && (AllOwners(projects, executions) + unlinked == |executions| <==> AtMostOneOwner(projects, executions))
  {
    if executions != [] {
      var e, rest := executions[0], executions[1..];
      OwnersBalance(projects, rest);
      UnlinkedIff(projects, e);
      AtMostOneCons(projects, executions);
    }
  }

  lemma AtMostOneCons(projects: seq<Rec>, executions: seq<Rec>)
    requires executions != []
    ensures AtMostOneOwner(projects, executions) <==>
            Owners(projects, executions[0]) <= 1 && AtMostOneOwner(projects, executions[1..])
  {
    assert forall i :: 0 < i < |executions| ==> executions[i] == executions[1..][i - 1];
  }

  /**
   * No execution disappears: linked counts and unlinked rows cover them all, and they add up exactly
   * when no execution names an id that two projects share.
   */
  lemma ExecutionsAreConserved(c: Casing, projects: seq<Rec>, executions: seq<Rec>)
    ensures var w := WorkbenchOf(c, projects, executions);
            && Total(w.cases) + |w.unlinked| >= |executions|
            && (Total(w.cases) + |w.unlinked| == |executions| <==> AtMostOneOwner(projects, executions))
  {
    TotalSort(By(CaseKey(c)), Items(c, projects, executions));
    ItemsTotal(c, projects, executions);
    OwnersBalance(projects, executions);
    SortPermutes(ByDescending(OrderKey()), Filter(IsUnlinked(KnownIds(projects)), executions));
  }

  predicate DistinctIds(projects: seq<Rec>)
  {
    forall i, j :: 0 <= i < j < |projects| ==> ProjectId(projects[i]) == "" || ProjectId(projects[i]) != ProjectId(projects[j])
  }

  lemma {:induction false} DistinctMeansOneOwner(projects: seq<Rec>, e: Rec)
    requires DistinctIds(projects)
    ensures Owners(projects, e) <= 1
  {
    if projects != [] {
      var rest := projects[1..];
      assert forall i, j :: 0 <= i < j < |rest| ==> rest[i] == projects[i + 1] && rest[j] == projects[j + 1];
      DistinctMeansOneOwner(rest, e);
      if Owns(projects[0], e) {
        forall j | 0 <= j < |rest| ensures !OwnedBy(e)(rest[j]) {
          assert rest[j] == projects[j + 1];
        }
        CountExtremes(rest, OwnedBy(e));
      }
    }
  }

  /** With distinct project ids the counts always add up. */
  lemma DistinctProjectsConserve(c: Casing, projects: seq<Rec>, executions: seq<Rec>)
    requires DistinctIds(projects)
    ensures var w := WorkbenchOf(c, projects, executions); Total(w.cases) + |w.unlinked| == |executions|
  {
    forall i | 0 <= i < |executions| ensures Owners(projects, executions[i]) <= 1 {
      DistinctMeansOneOwner(projects, executions[i]);
    }
    ExecutionsAreConserved(c, projects, executions);
  }

  // ---------------------------------------------------------------- what a case shows

  /** The shown execution has the greatest order key, and comes first among those that share it. */
  lemma NewestIsMaximum(linked: seq<Rec>)
    ensures Newest(linked).None? <==> linked == []
    ensures Newest(linked).Some? ==>
            var e := Newest(linked).value;
            && e in linked
            && (forall x :: x in linked ==> KeyLe(OrderKey()(x), OrderKey()(e)))
            && |Filter(Class(ByDescending(OrderKey()), e), linked)| > 0
            && Filter(Class(ByDescending(OrderKey()), e), linked)[0] == e
  {
    var le := ByDescending(OrderKey());
    ByIsTotal(OrderKey());
    var sorted := SortBy(le, linked);
    SortPermutes(le, linked);
    SortSorts(le, linked);
    SortIsStable(le, linked);
    if sorted != [] {
      var e := sorted[0];
      KeyLeTotal(OrderKey()(e), OrderKey()(e));
      forall x | x in linked ensures KeyLe(OrderKey()(x), OrderKey()(e)) {
        var k :| 0 <= k < |sorted| && sorted[k] == x;
        if k > 0 { assert le(sorted[0], sorted[k]); }
      }
      assert Class(le, e)(e);
      assert Filter(Class(le, e), sorted)[0] == e;
      assert Filter(Class(le, e), linked) == Filter(Class(le, e), sorted);
    }
  }

  /** An item that was built for some identified project, from the executions that name it. */
  predicate BuiltFrom(c: Casing, item: Item, executions: seq<Rec>)
  {
    ProjectId(item.project) != "" && item == ItemFor(c, item.project, Filter(LinkedTo(ProjectId(item.project)), executions))
  }

  lemma {:induction false} ItemsAreBuilt(c: Casing, projects: seq<Rec>, executions: seq<Rec>, item: Item)
    requires item in Items(c, projects, executions)
    ensures BuiltFrom(c, item, executions) && item.project in projects
  {
    var init, p := projects[..|projects| - 1], projects[|projects| - 1];
    if item in Items(c, init, executions) {
      ItemsAreBuilt(c, init, executions, item);
    }
  }

  /** The cases are a sorted rearrangement of one item per identified project. */
  lemma CasesAreSortedItems(c: Casing, projects: seq<Rec>, executions: seq<Rec>)
    ensures var w := WorkbenchOf(c, projects, executions);
            && SortedBy(By(CaseKey(c)), w.cases)
            && multiset(w.cases) == multiset(Items(c, projects, executions))
            && SortedBy(ByDescending(OrderKey()), w.unlinked)
            && multiset(w.unlinked) == multiset(Filter(IsUnlinked(KnownIds(projects)), executions))
  {
    ByIsTotal(CaseKey(c));
    ByIsTotal(OrderKey());
    SortSorts(By(CaseKey(c)), Items(c, projects, executions));
    SortPermutes(By(CaseKey(c)), Items(c, projects, executions));
    SortSorts(ByDescending(OrderKey()), Filter(IsUnlinked(KnownIds(projects)), executions));
    SortPermutes(ByDescending(OrderKey()), Filter(IsUnlinked(KnownIds(projects)), executions));
  }

  // ---------------------------------------------------------------- the four groups

  function RequiringAction(): Item -> bool
  {
    (i: Item) => RequiresHumanAction(i.projection.attention) && i.projection.owner.Human?
  }

  function WaitingForDor(): Item -> bool { (i: Item) => i.projection.owner.Dor? }

  function WaitingExternally(): Item -> bool { (i: Item) => i.projection.owner.External? }

  function IsCompleted(): Item -> bool
  {
    (i: Item) => var a := i.projection.attention; a.Completed? || a.Cancelled? || a.Archived?
  }

  /** The states that no group shows. */
  function Omitted(): Item -> bool
  {
    (i: Item) => var a := i.projection.attention; a.Blocked? || a.Failed? || a.Unknown?
  }

  function Ones(item: Item): nat
  {
    (if RequiringAction()(item) then 1 else 0) + (if WaitingForDor()(item) then 1 else 0)
    + (if WaitingExternally()(item) then 1 else 0) + (if IsCompleted()(item) then 1 else 0) + (if Omitted()(item) then 1 else 0)
  }

  lemma {:induction false} GroupsAddUp(items: seq<Item>)
    requires forall i :: 0 <= i < |items| ==> Ones(items[i]) == 1
    ensures |Filter(RequiringAction(), items)| + |Filter(WaitingForDor(), items)| + |Filter(WaitingExternally(), items)|
            + |Filter(IsCompleted(), items)| + |Filter(Omitted(), items)| == |items|
  {
    if items != [] {
      GroupsAddUp(items[1..]);
      assert Ones(items[0]) == 1;
    }
  }

  lemma OwnerDecides(item: Item)
    requires item.projection.owner == OwnerOf(item.projection.attention)
    ensures Ones(item) == 1
  {
  }

  lemma {:induction false} CaseFacts(c: Casing, projects: seq<Rec>, executions: seq<Rec>, item: Item)
    requires item in WorkbenchOf(c, projects, executions).cases
    ensures BuiltFrom(c, item, executions) && item.project in projects && Ones(item) == 1
    ensures !WaitingExternally()(item)
  {
    SortPermutes(By(CaseKey(c)), Items(c, projects, executions));
    ItemsAreBuilt(c, projects, executions, item);
    OwnerDecides(item);
    NeverProjected(c, ProjectId(item.project), item.project, item.execution);
  }

  lemma {:induction false} NoneWaitExternally(items: seq<Item>)
    requires forall i :: 0 <= i < |items| ==> !WaitingExternally()(items[i])
    ensures Filter(WaitingExternally(), items) == []
  {
    if items != [] { NoneWaitExternally(items[1..]); }
  }

  /** The four groups are disjoint, leave out exactly the blocked, failed and unknown cases, and the external one is empty. */
  lemma GroupsPartition(c: Casing, projects: seq<Rec>, executions: seq<Rec>)
    ensures var cases := WorkbenchOf(c, projects, executions).cases;
            && (forall i :: 0 <= i < |cases| ==> Ones(cases[i]) == 1)
            && Filter(WaitingExternally(), cases) == []
            && |Filter(RequiringAction(), cases)| + |Filter(WaitingForDor(), cases)| + |Filter(IsCompleted(), cases)|
               + |Filter(Omitted(), cases)| == |cases|
  {
    var cases := WorkbenchOf(c, projects, executions).cases;
    forall i | 0 <= i < |cases| ensures Ones(cases[i]) == 1 && !WaitingExternally()(cases[i]) {
      CaseFacts(c, projects, executions, cases[i]);
    }
    GroupTotals(cases);
  }

  lemma GroupTotals(cases: seq<Item>)
    requires forall i :: 0 <= i < |cases| ==> Ones(cases[i]) == 1 && !WaitingExternally()(cases[i])
    ensures Filter(WaitingExternally(), cases) == []
    ensures |Filter(RequiringAction(), cases)| + |Filter(WaitingForDor(), cases)| + |Filter(IsCompleted(), cases)|
            + |Filter(Omitted(), cases)| == |cases|
  {
    GroupsAddUp(cases);
    NoneWaitExternally(cases);
  }

  // ---------------------------------------------------------------- what the keys are made of

  /** Identity and order of the rows, read off their fields. */
  lemma KeysAreRead(p: Rec, e: Rec)
    ensures ProjectId(p) == Strip(Either(Get(p, "project_id"), Get(p, "id"), Null, ""))
    ensures ExecutionProject(e) == Strip(Either(Get(e, "project_id"), Null, Null, ""))
    ensures OrderKey()(e).first == Strip(Either(Get(e, "updated_at"), Get(e, "created_at"), Null, ""))
    ensures OrderKey()(e).second == Strip(Either(Get(e, "workflow_id"), Null, Null, "")) && OrderKey()(e).rank == 0
  {
    FirstOfTwo(p, "project_id", "id");
    FirstOfTwo(e, "updated_at", "created_at");
  }

  lemma FirstOfTwo(d: Rec, a: string, b: string)
    ensures TextOf(FirstOf(d, [a, b]), "") == Either(Get(d, a), Get(d, b), Null, "")
  {
    assert [a, b][1..] == [b] && [b][1..] == [];
    assert FirstOf(d, []) == Null;
    assert FirstOf(d, [b]) == if Truthy(Get(d, b)) then Get(d, b) else Null;
  }

  /** The order in which cases are shown, by what they ask for. */
  const ATTENTION_ORDER: seq<Attention> := [
    NeedsDecision, NeedsReview, NeedsInput, Blocked, Failed, ReadyToAct, ReworkInProgress, DorWorking, WaitingExternal,
    Completed, Cancelled, Archived, Unknown]

  lemma PriorityFollowsOrder(i: nat, j: nat)
    requires i < j < |ATTENTION_ORDER|
    ensures Priority(ATTENTION_ORDER[i]) < Priority(ATTENTION_ORDER[j])
  {
  }

  lemma OrderIsComplete(a: Attention) returns (i: nat)
    ensures i < |ATTENTION_ORDER| && ATTENTION_ORDER[i] == a
  {
    i := if a.Unknown? then 12 else Priority(a);
  }

  /** No case is shown before one that asks for something earlier in that order; within one, titles and then ids ascend. */
  lemma CasesAreInOrder(c: Casing, projects: seq<Rec>, executions: seq<Rec>, i: nat, j: nat, x: nat, y: nat)
    requires i < j < |WorkbenchOf(c, projects, executions).cases|
    requires x < |ATTENTION_ORDER| && y < |ATTENTION_ORDER|
    requires WorkbenchOf(c, projects, executions).cases[i].projection.attention == ATTENTION_ORDER[x]
    requires WorkbenchOf(c, projects, executions).cases[j].projection.attention == ATTENTION_ORDER[y]
    ensures x <= y
    ensures x == y ==>
            var a, b := WorkbenchOf(c, projects, executions).cases[i].projection, WorkbenchOf(c, projects, executions).cases[j].projection;
            && StrLe(c.fold(a.title), c.fold(b.title))
            && (c.fold(a.title) == c.fold(b.title) ==> StrLe(a.caseId, b.caseId))
  {
    CasesAreSortedItems(c, projects, executions);
    var cases := WorkbenchOf(c, projects, executions).cases;
    KeysCompare(c, cases[i], cases[j]);
    if y < x { PriorityFollowsOrder(y, x); }
  }

  lemma KeysCompare(c: Casing, a: Item, b: Item)
    requires By(CaseKey(c))(a, b)
    ensures Priority(a.projection.attention) <= Priority(b.projection.attention)
    ensures Priority(a.projection.attention) == Priority(b.projection.attention) ==>
            && StrLe(c.fold(a.projection.title), c.fold(b.projection.title))
            && (c.fold(a.projection.title) == c.fold(b.projection.title) ==> StrLe(a.projection.caseId, b.projection.caseId))
  {
    StrLeReflexive(c.fold(a.projection.title));
  }
}
