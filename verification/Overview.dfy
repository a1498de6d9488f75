/** The operator overview: normalised execution summaries, most urgent first and newest first within. */
module Overview {
  import opened Collections
  import opened PyText
  import opened CanonicalJson
  import opened PyValues
  import Orders
  import opened StableSort
  import opened SortKeys
  import opened CaseProjection
  import opened CaseStates

  datatype Row = Row(
    workflowId: string, organizationId: Option<string>, projectId: Option<string>, projectName: string, state: string,
    createdAt: string, updatedAt: string, terminal: bool, gate: Option<Rec>, rework: Option<Rec>, action: string)

  function ActionPriority(action: string): int
  {
    if action == "human_decision" then 0
    else if action == "rejected" then 1
    else if action == "rework_active" then 2
    else if action == "work_in_progress" then 3
    else if action == "none" then 4
    else 5
  }

  const ACTIONS: set<string> := {"human_decision", "rejected", "rework_active", "work_in_progress", "none", "terminal"}

  function KnownAction(action: string): string { if action in ACTIONS then action else "none" }

  function TextOrNone(v: Json): Option<string>
  {
    var t := Strip(TextOf(v, ""));
    if t == "" then None else Some(t)
  }

  function ObjectOf(v: Json): Option<Rec> { if v.Obj? then Some(v.fields) else None }

  /** One summary; entries that are no object or carry no workflow id are dropped. */
  function RowOf(c: Casing, v: Json): Option<Row>
  {
    if !v.Obj? || TextOrNone(Get(v.fields, "workflow_id")).None? then None
    else
      var d := v.fields;
      Some(Row(
        TextOrNone(Get(d, "workflow_id")).value, TextOrNone(Get(d, "organization_id")), TextOrNone(Get(d, "project_id")),
        TextOf(Get(d, "project_name"), "—"), TextOf(Get(d, "current_state"), "unknown"),
        TextOf(Get(d, "created_at"), ""), TextOf(Get(d, "updated_at"), ""), Get(d, "terminal") == Bool(true),
        ObjectOf(Get(d, "blocking_gate")), ObjectOf(Get(d, "rework")),
        KnownAction(Normal(c, Get(d, "action_required"), "none"))))
  }

  function RowsOf(c: Casing, items: seq<Json>): seq<Row>
  {
    if items == [] then []
    else
      var r := RowOf(c, items[|items| - 1]);
      RowsOf(c, items[..|items| - 1]) + (if r.Some? then [r.value] else [])
  }

  function UrgencyKey(): Row -> Key { (r: Row) => Key(ActionPriority(r.action), "", "") }

  function RecencyKey(): Row -> Key { (r: Row) => Key(0, r.updatedAt, r.workflowId) }

  /** The order the operator sees: urgency ascending, then the newest first. */
  predicate Before(x: Row, y: Row)
  {
    || ActionPriority(x.action) < ActionPriority(y.action)
    || (ActionPriority(x.action) == ActionPriority(y.action) && KeyLe(RecencyKey()(y), RecencyKey()(x)))
  }

  function BeforeOrder(): (Row, Row) -> bool { (x: Row, y: Row) => Before(x, y) }

  /** `normalize_execution_overview`: the two in-place sorts amount to one sort by the operator's order. */
  method NormalizeExecutionOverview(c: Casing, payload: Json) returns (rows: seq<Row>)
    ensures rows == if payload.Arr? then SortBy(BeforeOrder(), RowsOf(c, payload.items)) else []
  {
    if !payload.Arr? {
      return [];
    }
    rows := [];
    for i := 0 to |payload.items|
      invariant rows == RowsOf(c, payload.items[..i])
    {
      assert payload.items[..i + 1][..i] == payload.items[..i];
      var r := RowOf(c, payload.items[i]);
      if r.Some? {
        rows := rows + [r.value];
      }
    }
    assert payload.items[..|payload.items|] == payload.items;
    TwoSortsAreOne(rows);
    rows := SortBy(ByDescending(RecencyKey()), rows);
    rows := SortBy(By(UrgencyKey()), rows);
  }

  lemma UrgencyIsRank(x: Row, y: Row)
    ensures By(UrgencyKey())(x, y) <==> ActionPriority(x.action) <= ActionPriority(y.action)
  {
    var a, b := UrgencyKey()(x), UrgencyKey()(y);
    assert a.rank == ActionPriority(x.action) && b.rank == ActionPriority(y.action) && a.second == b.second == "";
    assert KeyLe(a, b) <==> a.rank <= b.rank;
  }

  lemma OrdersAgree(x: Row, y: Row)
    ensures Lexicographic(By(UrgencyKey()), ByDescending(RecencyKey()))(x, y) <==> BeforeOrder()(x, y)
  {
    UrgencyIsRank(x, y);
    UrgencyIsRank(y, x);
  }

  lemma {:induction false} SameOrderInserts(le: (Row, Row) -> bool, le': (Row, Row) -> bool, x: Row, s: seq<Row>)
    requires forall a, b :: le(a, b) <==> le'(a, b)
    ensures InsertBy(le, x, s) == InsertBy(le', x, s)
  {
    if s != [] { SameOrderInserts(le, le', x, s[1..]); }
  }

  lemma {:induction false} SameOrderSorts(le: (Row, Row) -> bool, le': (Row, Row) -> bool, s: seq<Row>)
    requires forall a, b :: le(a, b) <==> le'(a, b)
    ensures SortBy(le, s) == SortBy(le', s)
  {
    if s != [] {
      SameOrderSorts(le, le', s[1..]);
      SameOrderInserts(le, le', s[0], SortBy(le, s[1..]));
    }
  }

  /** Newest first, then stably by urgency, is the operator's order. */
  lemma TwoSortsAreOne(rows: seq<Row>)
    ensures SortBy(By(UrgencyKey()), SortBy(ByDescending(RecencyKey()), rows)) == SortBy(BeforeOrder(), rows)
  {
    ByIsTotal(UrgencyKey());
    ByIsTotal(RecencyKey());
    TwoPassSort(By(UrgencyKey()), ByDescending(RecencyKey()), rows);
    var le := Lexicographic(By(UrgencyKey()), ByDescending(RecencyKey()));
    forall x: Row, y: Row ensures le(x, y) <==> BeforeOrder()(x, y) {
      OrdersAgree(x, y);
    }
    SameOrderSorts(le, BeforeOrder(), rows);
  }

  // ---------------------------------------------------------------- what a row shows and where it stands

  /** The actions in the order the operator is to look at them. */
  const URGENCY: seq<string> := ["human_decision", "rejected", "rework_active", "work_in_progress", "none", "terminal"]

  lemma PriorityFollowsUrgency(i: nat, j: nat)
    requires i < j < |URGENCY|
    ensures ActionPriority(URGENCY[i]) < ActionPriority(URGENCY[j])
  {
  }

  /** A summary is kept when it is an object with a workflow id, and its row repeats the object's own fields. */
  lemma RowIff(c: Casing, v: Json)
    ensures RowOf(c, v).Some? <==> v.Obj? && Strip(Either(Get(v.fields, "workflow_id"), Null, Null, "")) != ""
    ensures RowOf(c, v).Some? ==>
            var d, r := v.fields, RowOf(c, v).value;
            && r.workflowId == Strip(Either(Get(d, "workflow_id"), Null, Null, ""))
            && r.updatedAt == Either(Get(d, "updated_at"), Null, Null, "")
            && r.createdAt == Either(Get(d, "created_at"), Null, Null, "")
            && r.state == Either(Get(d, "current_state"), Null, Null, "unknown")
            && (r.terminal <==> Get(d, "terminal") == Bool(true))
            && (r.gate.Some? <==> Get(d, "blocking_gate").Obj?) && (r.rework.Some? <==> Get(d, "rework").Obj?)
  {
  }

  lemma RowAction(c: Casing, v: Json)
    requires RowOf(c, v).Some?
    ensures var word, action := RequiredWord(c, v.fields), RowOf(c, v).value.action;
            (word in URGENCY ==> action == word) && (word !in URGENCY ==> action == "none") && action in URGENCY
  {
    KnownActions(RequiredWord(c, v.fields));
    assert RowOf(c, v).value.action == KnownAction(RequiredWord(c, v.fields));
  }

  lemma KnownActions(word: string)
    ensures word in ACTIONS <==> word in URGENCY
    ensures KnownAction(word) in URGENCY
  {
    assert URGENCY[0] == "human_decision" && URGENCY[1] == "rejected" && URGENCY[2] == "rework_active";
    assert URGENCY[3] == "work_in_progress" && URGENCY[4] == "none" && URGENCY[5] == "terminal";
  }

  /** In the overview no row stands before a more urgent one, and among equally urgent ones the newer comes first. */
  lemma RowsAreInOrder(rows: seq<Row>, shown: seq<Row>, i: nat, j: nat, x: nat, y: nat)
    requires shown == SortBy(BeforeOrder(), rows) && i < j < |shown| && x < |URGENCY| && y < |URGENCY|
    requires shown[i].action == URGENCY[x] && shown[j].action == URGENCY[y]
    ensures x <= y
    ensures x == y && shown[i].updatedAt != shown[j].updatedAt ==> Orders.StrLe(shown[j].updatedAt, shown[i].updatedAt)
  {
    BeforeIsTotal();
    SortSorts(BeforeOrder(), rows);
    assert BeforeOrder()(shown[i], shown[j]);
    if y < x { PriorityFollowsUrgency(y, x); }
  }

  lemma BeforeIsTotal()
    ensures TotalPreorder(BeforeOrder())
  {
    ByIsTotal(UrgencyKey());
    ByIsTotal(RecencyKey());
    var le := Lexicographic(By(UrgencyKey()), ByDescending(RecencyKey()));
    LexicographicIsTotal(By(UrgencyKey()), ByDescending(RecencyKey()));
    forall x: Row, y: Row ensures BeforeOrder()(x, y) <==> le(x, y) {
      OrdersAgree(x, y);
    }
    forall a: Row, b: Row ensures BeforeOrder()(a, b) || BeforeOrder()(b, a) {
      assert le(a, b) || le(b, a);
    }
    forall a: Row, b: Row, d: Row | BeforeOrder()(a, b) && BeforeOrder()(b, d) ensures BeforeOrder()(a, d) {
      assert le(a, b) && le(b, d);
    }
  }
}
