/** The mirror of the PM platform: payload validation, two-phase id resolution, batch upserts. */
module Mirror {
  import opened Options
  import opened Rounding
  import opened Tables

  // ---- Payloads ----------------------------------------------------------------------------------

  /** JSON values; a text that parses as a date or an instant is shown as such. */
  datatype Json =
    | JNull | JText(text: string) | JNumber(number: real) | JDate(day: int) | JTime(instant: int)
    | JOther

  type Payload = map<string, Json>

  function DetectMissing(p: Payload, required: seq<string>): seq<string> {
    if required == [] then []
    else
      var rest := DetectMissing(p, required[1..]);
      if required[0] !in p || p[required[0]].JNull? then [required[0]] + rest else rest
  }

  predicate IsText(p: Payload, field: string) {
    field in p && p[field].JText?
  }

  predicate IsDate(p: Payload, field: string) {
    field in p && p[field].JDate?
  }

  predicate Absent(p: Payload, field: string) {
    field !in p || p[field].JNull?
  }

  predicate MaybeText(p: Payload, field: string) {
    Absent(p, field) || p[field].JText?
  }

  predicate MaybeTime(p: Payload, field: string) {
    Absent(p, field) || p[field].JTime?
  }

  predicate MaybeNumber(p: Payload, field: string) {
    Absent(p, field) || p[field].JNumber?
  }

  function OptText(p: Payload, field: string): Option<string> {
    if IsText(p, field) then Some(p[field].text) else None
  }

  function OptTime(p: Payload, field: string): Option<int> {
    if field in p && p[field].JTime? then Some(p[field].instant) else None
  }

  function OptNumber(p: Payload, field: string): Option<real> {
    if field in p && p[field].JNumber? then Some(p[field].number) else None
  }

  // ---- Rows --------------------------------------------------------------------------------------

  datatype Iteration = Iteration(
    name: string, startDate: int, endDate: int, status: string,
    createdAt: Option<int>, updatedAt: Option<int>)

  /** `iteration` is the internal id of the iteration row, if it was there at the upsert. */
  datatype Issue = Issue(
    key: string, title: string, kind: string, priority: string, status: string,
    estimate: Option<real>, iteration: Option<nat>,
    createdAt: Option<int>, updatedAt: Option<int>)

  datatype Assignment = Assignment(username: string, weight: real, person: Option<nat>)

  /** Internal issue id, PM user id, role. */
  type AssignmentKey = (nat, string, string)

  /** `people`: the active identity of a PM user. */
  datatype Mirror = Mirror(
    iterations: Table<string, Iteration>,
    issues: Table<string, Issue>,
    assignments: Table<AssignmentKey, Assignment>,
    people: map<string, nat>)

  /** A session; once the database has rejected a statement nothing more is accepted. */
  datatype Tx = Open(m: Mirror) | Aborted

  /** What one upsert reports: counts, or the exception the batch loop swallows. */
  datatype Outcome = Done(succeeded: nat, missing: seq<string>) | Failed

  const ITERATION_FIELDS := ["id", "name", "start_date", "end_date", "status"]
  const ISSUE_FIELDS := ["id", "key", "title", "type", "priority", "status"]
  const ASSIGNMENT_FIELDS := ["issue_id", "user_id", "role"]

  predicate ValidIteration(p: Payload) {
    && IsText(p, "id") && IsText(p, "name") && IsText(p, "status")
    && IsDate(p, "start_date") && IsDate(p, "end_date")
    && MaybeTime(p, "created_at") && MaybeTime(p, "updated_at")
  }

  predicate ValidIssue(p: Payload) {
    && IsText(p, "id") && IsText(p, "key") && IsText(p, "title")
    && IsText(p, "type") && IsText(p, "priority") && IsText(p, "status")
    && MaybeNumber(p, "estimate_hours") && MaybeText(p, "iteration_id")
    && MaybeTime(p, "created_at") && MaybeTime(p, "updated_at")
  }

  predicate ValidAssignment(p: Payload) {
    && IsText(p, "issue_id") && IsText(p, "user_id") && IsText(p, "role")
    && ("weight" in p ==> p["weight"].JNumber?) && MaybeText(p, "username")
  }

  function IterationOf(p: Payload): Iteration
    requires ValidIteration(p)
  {
    Iteration(p["name"].text, p["start_date"].day, p["end_date"].day, p["status"].text,
              OptTime(p, "created_at"), OptTime(p, "updated_at"))
  }

  /** Phase two for an issue: the internal id of its iteration, if that is stored already. */
  function LinkOf(iterations: Table<string, Iteration>, p: Payload): Option<nat> {
    var pm := OptText(p, "iteration_id");
    if pm.Some? && pm.value in iterations.rows then Some(iterations.rows[pm.value].id) else None
  }

  /** A column of type NUMERIC(6, 2). */
  function StoredEstimate(hours: Option<real>): Option<real> {
    if hours.Some? then Some(Numeric2(hours.value)) else None
  }

  function IssueOf(iterations: Table<string, Iteration>, p: Payload): Issue
    requires ValidIssue(p)
  {
    Issue(p["key"].text, p["title"].text, p["type"].text, p["priority"].text, p["status"].text,
          StoredEstimate(OptNumber(p, "estimate_hours")), LinkOf(iterations, p),
          OptTime(p, "created_at"), OptTime(p, "updated_at"))
  }

  function AssignmentOf(people: map<string, nat>, p: Payload): Assignment
    requires ValidAssignment(p)
  {
    var user := p["user_id"].text;
    var name := OptText(p, "username");
    Assignment(if name.Some? && name.value != "" then name.value else user,
               if "weight" in p then Numeric3(p["weight"].number) else 1.0,
               if user in people then Some(people[user]) else None)
  }

  // The CHECK and UNIQUE constraints of the tables, and the range of the number columns.
  predicate IterationAllowed(c: Iteration) {
    c.status in ["planning", "active", "completed", "cancelled"] && c.startDate <= c.endDate
  }

  predicate IssueAllowed(c: Issue) {
    && c.kind in ["story", "task", "bug", "epic", "subtask"]
    && c.priority in ["low", "medium", "high", "urgent"]
    && (c.estimate.Some? ==> 0.0 <= c.estimate.value < 10000.0)
  }

  predicate AssignmentAllowed(role: string, c: Assignment) {
    role in ["assignee", "reporter", "watcher", "mentioned"] && 0.0 <= c.weight <= 1.0
  }

  predicate KeyTaken(issues: Table<string, Issue>, id: string, key: string) {
    exists other :: other in issues.rows && other != id && issues.rows[other].content.key == key
  }

  // ---- One upsert --------------------------------------------------------------------------------

  function IterationStep(tx: Tx, p: Payload): (Tx, Outcome) {
    if tx.Aborted? || !ValidIteration(p) then (tx, Failed)
    else
      var c := IterationOf(p);
      if !IterationAllowed(c) then (Aborted, Failed)
      else
        (Open(tx.m.(iterations := Put(tx.m.iterations, p["id"].text, c))),
         Done(1, DetectMissing(p, ITERATION_FIELDS)))
  }

  function IssueStep(tx: Tx, p: Payload): (Tx, Outcome) {
    if tx.Aborted? || !ValidIssue(p) then (tx, Failed)
    else
      var c := IssueOf(tx.m.iterations, p);
      if !IssueAllowed(c) || KeyTaken(tx.m.issues, p["id"].text, c.key) then (Aborted, Failed)
      else
        (Open(tx.m.(issues := Put(tx.m.issues, p["id"].text, c))),
         Done(1, DetectMissing(p, ISSUE_FIELDS)))
  }

  function AssignmentStep(tx: Tx, p: Payload): (Tx, Outcome) {
    if tx.Aborted? || !ValidAssignment(p) then (tx, Failed)
    else if p["issue_id"].text !in tx.m.issues.rows then
      (tx, Done(0, DetectMissing(p, ASSIGNMENT_FIELDS) + ["issue_not_synced"]))
    else if !AssignmentAllowed(p["role"].text, AssignmentOf(tx.m.people, p)) then (Aborted, Failed)
    else
      var k := (tx.m.issues.rows[p["issue_id"].text].id, p["user_id"].text, p["role"].text);
      (Open(tx.m.(assignments := Put(tx.m.assignments, k, AssignmentOf(tx.m.people, p)))),
       Done(1, DetectMissing(p, ASSIGNMENT_FIELDS)))
  }

  datatype Source = Iterations | Issues | Assignments

  function UpsertStep(src: Source, tx: Tx, p: Payload): (Tx, Outcome) {
    match src
    case Iterations => IterationStep(tx, p)
    case Issues => IssueStep(tx, p)
    case Assignments => AssignmentStep(tx, p)
  }

  /** A batch: the session after it, the successes, and the reported missing fields. */
  datatype Batch = Batch(tx: Tx, succeeded: nat, missing: seq<string>) {
    function Add(tx': Tx, o: Outcome): Batch {
      if o.Failed? then Batch(tx', succeeded, missing)
      else Batch(tx', succeeded + o.succeeded, missing + o.missing)
    }
  }

  function UpsertAll(src: Source, tx: Tx, ps: seq<Payload>): Batch {
    if ps == [] then Batch(tx, 0, [])
    else
      var before := UpsertAll(src, tx, ps[..|ps| - 1]);
      var (tx', o) := UpsertStep(src, before.tx, ps[|ps| - 1]);
      before.Add(tx', o)
  }

  // ---- The code over a mutable session -----------------------------------------------------------

  class Session {
    var iterations: Table<string, Iteration>
    var issues: Table<string, Issue>
    var assignments: Table<AssignmentKey, Assignment>
    var people: map<string, nat>
    var aborted: bool

    constructor (m: Mirror)
      ensures View() == Open(m)
    {
      iterations, issues, assignments, people := m.iterations, m.issues, m.assignments, m.people;
      aborted := false;
    }

    ghost function View(): Tx
      reads this
    {
      if aborted then Aborted else Open(Mirror(iterations, issues, assignments, people))
    }

    method UpsertIteration(p: Payload) returns (o: Outcome)
      modifies this
      ensures (View(), o) == IterationStep(old(View()), p)
    {
      var missing := DetectMissing(p, ITERATION_FIELDS);
      if aborted || !ValidIteration(p) {
        return Failed;
      }
      var c := IterationOf(p);
      if !IterationAllowed(c) {
        aborted := true;
        return Failed;
      }
      iterations := Put(iterations, p["id"].text, c);
      o := Done(1, missing);
    }

    method UpsertIssue(p: Payload) returns (o: Outcome)
      modifies this
      ensures (View(), o) == IssueStep(old(View()), p)
    {
      var missing := DetectMissing(p, ISSUE_FIELDS);
      if aborted || !ValidIssue(p) {
        return Failed;
      }
      var c := IssueOf(iterations, p);
      if !IssueAllowed(c) || KeyTaken(issues, p["id"].text, c.key) {
        aborted := true;
        return Failed;
      }
      issues := Put(issues, p["id"].text, c);
      o := Done(1, missing);
    }

    method UpsertAssignment(p: Payload) returns (o: Outcome)
      modifies this
      ensures (View(), o) == AssignmentStep(old(View()), p)
    {
      var missing := DetectMissing(p, ASSIGNMENT_FIELDS);
      if aborted || !ValidAssignment(p) {
        return Failed;
      }
      if p["issue_id"].text !in issues.rows {
        return Done(0, missing + ["issue_not_synced"]);
      }
      var c := AssignmentOf(people, p);
      if !AssignmentAllowed(p["role"].text, c) {
        aborted := true;
        return Failed;
      }
      var k := (issues.rows[p["issue_id"].text].id, p["user_id"].text, p["role"].text);
      assignments := Put(assignments, k, c);
      o := Done(1, missing);
    }

    method UpsertBatch(src: Source, ps: seq<Payload>) returns (succeeded: nat, missing: seq<string>)
      modifies this
      ensures Batch(View(), succeeded, missing) == UpsertAll(src, old(View()), ps)
    {
      succeeded, missing := 0, [];
      for i := 0 to |ps|
        invariant Batch(View(), succeeded, missing) == UpsertAll(src, old(View()), ps[..i])
      {
        assert ps[..i + 1][..i] == ps[..i];
        var o;
        match src {
          case Iterations => o := UpsertIteration(ps[i]);
          case Issues => o := UpsertIssue(ps[i]);
          case Assignments => o := UpsertAssignment(ps[i]);
        }
        if o.Done? {
          succeeded := succeeded + o.succeeded;
          missing := missing + o.missing;
        }
      }
      assert ps[..|ps|] == ps;
    }
  }
}
