/** What one upsert reads from a payload and stores, field by field. */
module MirrorFacts {
  import opened Options
  import opened Rounding
  import opened Tables
  import opened Mirror
  import opened MirrorLaws

  // ---- Outcomes ----------------------------------------------------------------------------------

  ghost predicate Acceptable(src: Source, p: Payload) {
    match src
    case Iterations => ValidIteration(p)
    case Issues => ValidIssue(p)
    case Assignments => ValidAssignment(p)
  }

  /** An upsert fails exactly on a lost session, an invalid payload or a refusal by the tables. */
  lemma OutcomeExactly(src: Source, tx: Tx, p: Payload)
    ensures var (tx', o) := UpsertStep(src, tx, p);
            && (o.Failed? <==> tx.Aborted? || !Acceptable(src, p) || Rejected(src, tx.m, p))
            && (o.Failed? && tx.Open? ==> tx' == if Acceptable(src, p) then Aborted else tx)
            && (o.Done? ==> tx.Open? && tx'.Open?)
            && (o.Done? ==> (o.succeeded == 0
                             <==> src == Assignments && p["issue_id"].text !in tx.m.issues.rows))
            && (o.Done? && o.succeeded == 0 ==> tx' == tx && o.missing == ["issue_not_synced"])
            && (o.Done? && o.succeeded != 0 ==> o.succeeded == 1 && o.missing == [])
  {
    NothingMissing(p);
    assert [] + ["issue_not_synced"] == ["issue_not_synced"];
  }

  lemma {:induction false} MissingExactly(p: Payload, required: seq<string>, field: string)
    ensures field in DetectMissing(p, required) <==> field in required && (field !in p || p[field] == JNull)
  {
    if required != [] {
      MissingExactly(p, required[1..], field);
    }
  }

  // ---- Rows --------------------------------------------------------------------------------------

  /** Only one row of one table changes. */
  lemma OnlyOneRow(src: Source, m: Mirror, p: Payload)
    requires UpsertStep(src, Open(m), p).1.Done? && UpsertStep(src, Open(m), p).1.succeeded == 1
    ensures var m' := UpsertStep(src, Open(m), p).0.m;
            && m'.people == m.people
            && (src != Iterations ==> m'.iterations == m.iterations)
            && (src != Issues ==> m'.issues == m.issues)
            && (src != Assignments ==> m'.assignments == m.assignments)
            && (src == Iterations ==> m'.iterations.rows.Keys == m.iterations.rows.Keys + {p["id"].text})
            && (src == Issues ==> m'.issues.rows.Keys == m.issues.rows.Keys + {p["id"].text})
  {
  }

  lemma IterationStored(m: Mirror, p: Payload)
    requires IterationStep(Open(m), p).1.Done?
    ensures var m' := IterationStep(Open(m), p).0.m;
            && p["id"].text in m'.iterations.rows
            && var c := m'.iterations.rows[p["id"].text].content;
               && p["name"] == JText(c.name) && p["status"] == JText(c.status)
               && p["start_date"] == JDate(c.startDate) && p["end_date"] == JDate(c.endDate)
               && StoredTime(p, "created_at", c.createdAt) && StoredTime(p, "updated_at", c.updatedAt)
               && c.status in ["planning", "active", "completed", "cancelled"] && c.startDate <= c.endDate
  {
  }

  predicate StoredTime(p: Payload, field: string, stored: Option<int>) {
    if field in p && p[field] != JNull then stored.Some? && p[field] == JTime(stored.value) else stored.None?
  }

  /** The nearest number with so many decimals, the one away from zero of two. */
  predicate NearestTo(x: real, scale: real, stored: real) {
    stored * scale == (stored * scale).Floor as real && NearestAway(x * scale, (stored * scale).Floor)
  }

  lemma IssueStored(m: Mirror, p: Payload)
    requires IssueStep(Open(m), p).1.Done?
    ensures var m' := IssueStep(Open(m), p).0.m;
            && p["id"].text in m'.issues.rows
            && var c := m'.issues.rows[p["id"].text].content;
               && p["key"] == JText(c.key) && p["title"] == JText(c.title) && p["type"] == JText(c.kind)
               && p["priority"] == JText(c.priority) && p["status"] == JText(c.status)
               && StoredTime(p, "created_at", c.createdAt) && StoredTime(p, "updated_at", c.updatedAt)
               && c.kind in ["story", "task", "bug", "epic", "subtask"]
               && c.priority in ["low", "medium", "high", "urgent"]
  {
  }

  lemma ToScale(y: real, scale: real, r: real)
    requires r * scale == HalfAway(y) as real
    ensures r * scale == (r * scale).Floor as real && NearestAway(y, (r * scale).Floor)
  {
    WholeFloor(r * scale, HalfAway(y));
    HalfAwayExactly(y, HalfAway(y));
  }

  lemma HundredthNearest(x: real)
    ensures NearestTo(x, 100.0, Numeric2(x))
  {
    ToScale(x * 100.0, 100.0, Numeric2(x));
  }

  lemma ThousandthNearest(x: real)
    ensures NearestTo(x, 1000.0, Numeric3(x))
  {
    ToScale(x * 1000.0, 1000.0, Numeric3(x));
  }

  lemma EstimateRounded(m: Mirror, p: Payload)
    requires IssueStep(Open(m), p).1.Done?
    ensures var m' := IssueStep(Open(m), p).0.m;
            && p["id"].text in m'.issues.rows
            && m'.issues.rows[p["id"].text].content.estimate
               == (if "estimate_hours" in p && p["estimate_hours"].JNumber?
                   then Some(Numeric2(p["estimate_hours"].number)) else None)
  {
  }

  /** The estimate as the column stores it, and its range. */
  lemma EstimateStored(m: Mirror, p: Payload)
    requires IssueStep(Open(m), p).1.Done?
    ensures var m' := IssueStep(Open(m), p).0.m;
            && p["id"].text in m'.issues.rows
            && var e := m'.issues.rows[p["id"].text].content.estimate;
               && (e.Some? <==> "estimate_hours" in p && p["estimate_hours"].JNumber?)
               && (e.Some? ==> 0.0 <= e.value < 10000.0)
               && (e.Some? ==> NearestTo(p["estimate_hours"].number, 100.0, e.value))
  {
    EstimateRounded(m, p);
    if "estimate_hours" in p && p["estimate_hours"].JNumber? {
      HundredthNearest(p["estimate_hours"].number);
    }
  }

  /** The link is the internal id of the iteration, if that is stored under the payload's PM id. */
  lemma LinkStored(m: Mirror, p: Payload)
    requires IssueStep(Open(m), p).1.Done?
    ensures var m' := IssueStep(Open(m), p).0.m;
            && p["id"].text in m'.issues.rows
            && var l := m'.issues.rows[p["id"].text].content.iteration;
               && (l.Some? <==> "iteration_id" in p && p["iteration_id"].JText?
                                && p["iteration_id"].text in m.iterations.rows)
               && (l.Some? ==> m.iterations.rows[p["iteration_id"].text].id == l.value)
  {
  }

  /** The person is that of the user's active identity, the name falls back to the user's id. */
  lemma AssignmentStored(m: Mirror, p: Payload)
    requires AssignmentStep(Open(m), p).1.Done? && AssignmentStep(Open(m), p).1.succeeded == 1
    ensures var m' := AssignmentStep(Open(m), p).0.m;
            var user := p["user_id"].text;
            && p["issue_id"].text in m.issues.rows
            && var k := (m.issues.rows[p["issue_id"].text].id, user, p["role"].text);
               && k in m'.assignments.rows && k.2 in ["assignee", "reporter", "watcher", "mentioned"]
               && var c := m'.assignments.rows[k].content;
                  && (c.person.Some? <==> user in m.people)
                  && (c.person.Some? ==> c.person.value == m.people[user])
                  && (if "username" in p && p["username"].JText? && p["username"].text != ""
                      then c.username == p["username"].text else c.username == user)
  {
  }

  lemma WeightStored(m: Mirror, p: Payload)
    requires AssignmentStep(Open(m), p).1.Done? && AssignmentStep(Open(m), p).1.succeeded == 1
    ensures var m' := AssignmentStep(Open(m), p).0.m;
            && p["issue_id"].text in m.issues.rows
            && var k := (m.issues.rows[p["issue_id"].text].id, p["user_id"].text, p["role"].text);
               && k in m'.assignments.rows
               && var w := m'.assignments.rows[k].content.weight;
                  && 0.0 <= w <= 1.0
                  && if "weight" in p then p["weight"].JNumber? && NearestTo(p["weight"].number, 1000.0, w)
                     else w == 1.0
  {
    if "weight" in p {
      ThousandthNearest(p["weight"].number);
    }
  }

  // ---- What is refused ---------------------------------------------------------------------------

  /** Every constraint is enforced, and nothing else is refused. */
  lemma RefusedExactly(m: Mirror, p: Payload)
    ensures ValidIteration(p) ==>
              (Rejected(Iterations, m, p) <==>
                 || p["status"].text !in ["planning", "active", "completed", "cancelled"]
                 || p["end_date"].day < p["start_date"].day)
    ensures ValidIssue(p) ==>
              (Rejected(Issues, m, p) <==>
                 || p["type"].text !in ["story", "task", "bug", "epic", "subtask"]
                 || p["priority"].text !in ["low", "medium", "high", "urgent"]
                 || ("estimate_hours" in p && p["estimate_hours"].JNumber?
                     && !(0.0 <= Numeric2(p["estimate_hours"].number) < 10000.0))
                 || exists o :: o in m.issues.rows && o != p["id"].text && m.issues.rows[o].content.key == p["key"].text)
    ensures ValidAssignment(p) ==>
              (Rejected(Assignments, m, p) <==>
                 && p["issue_id"].text in m.issues.rows
                 && (p["role"].text !in ["assignee", "reporter", "watcher", "mentioned"]
                     || ("weight" in p && !(0.0 <= Numeric3(p["weight"].number) <= 1.0))))
  {
  }

  /** A field of the wrong kind, and a required one that is missing, make a payload invalid. */
  lemma IterationKinds(p: Payload)
    ensures ValidIteration(p) <==>
              && "id" in p && p["id"].JText? && "name" in p && p["name"].JText?
              && "status" in p && p["status"].JText?
              && "start_date" in p && p["start_date"].JDate? && "end_date" in p && p["end_date"].JDate?
              && ("created_at" !in p || p["created_at"].JTime? || p["created_at"] == JNull)
              && ("updated_at" !in p || p["updated_at"].JTime? || p["updated_at"] == JNull)
  {
  }

  lemma IssueKinds(p: Payload)
    ensures ValidIssue(p) <==>
              && "id" in p && p["id"].JText? && "key" in p && p["key"].JText?
              && "title" in p && p["title"].JText? && "type" in p && p["type"].JText?
              && "priority" in p && p["priority"].JText? && "status" in p && p["status"].JText?
              && ("estimate_hours" !in p || p["estimate_hours"].JNumber? || p["estimate_hours"] == JNull)
              && ("iteration_id" !in p || p["iteration_id"].JText? || p["iteration_id"] == JNull)
              && ("created_at" !in p || p["created_at"].JTime? || p["created_at"] == JNull)
              && ("updated_at" !in p || p["updated_at"].JTime? || p["updated_at"] == JNull)
  {
  }

  lemma AssignmentKinds(p: Payload)
    ensures ValidAssignment(p) <==>
              && "issue_id" in p && p["issue_id"].JText? && "user_id" in p && p["user_id"].JText?
              && "role" in p && p["role"].JText? && ("weight" !in p || p["weight"].JNumber?)
              && ("username" !in p || p["username"].JText? || p["username"] == JNull)
  {
  }
}
