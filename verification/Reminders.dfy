/** The deterministic reminders: which events an evaluation day records, and why the result does not depend on when or how often
    the days are evaluated. */
module Reminders {
  import opened Basics

  // ----- data -----

  datatype Stage = Days30 | Days15 | Days7 | DueToday | Overdue | CriticalAttention | ManagerEscalation

  function Name(s: Stage): string {
    match s
    case Days30 => "30_days"
    case Days15 => "15_days"
    case Days7 => "7_days"
    case DueToday => "due_today"
    case Overdue => "overdue"
    case CriticalAttention => "critical_attention"
    case ManagerEscalation => "overdue_manager_escalation"
  }

  /** Days are counted; a Finding without a readable due date has none. */
  datatype Finding = Finding(id: string, closed: bool, due: Option<int>, severity: int)

  datatype Event = Event(id: string, findingId: string, stage: Stage, created: int)

  // ----- one day -----

  function StageOn(f: Finding, today: int): Option<Stage> {
    if f.closed || f.due.None? then None
    else
      var days := f.due.value - today;
      if days < 0 then Some(Overdue)
      else if days == 0 then Some(DueToday)
      else if days == 7 then Some(Days7)
      else if days == 15 then Some(Days15)
      else if days == 30 then Some(Days30)
      else None
  }

  /** What the day asks for, in the order the program appends it. */
  function Wanted(f: Finding, today: int): seq<Stage> {
    if f.closed then []
    else
      var stage := StageOn(f, today);
      (if stage.Some? then [stage.value] else []) + (if f.severity == 1 then [CriticalAttention] else [])
      + (if stage == Some(Overdue) then [ManagerEscalation] else [])
  }

  function ReminderId(findingId: string, stage: Stage): string { "REM-" + findingId + "-" + Name(stage) }

  predicate Recorded(events: seq<Event>, id: string) { exists i :: 0 <= i < |events| && events[i].id == id }

  function Append(events: seq<Event>, f: Finding, stage: Stage, today: int): seq<Event> {
    if Recorded(events, ReminderId(f.id, stage)) then events
    else events + [Event(ReminderId(f.id, stage), f.id, stage, today)]
  }

  function AppendAll(events: seq<Event>, f: Finding, stages: seq<Stage>, today: int): seq<Event>
    decreases |stages|
  {
    if stages == [] then events
    else Append(AppendAll(events, f, stages[..|stages| - 1], today), f, stages[|stages| - 1], today)
  }

  function Evaluate(events: seq<Event>, findings: seq<Finding>, today: int): seq<Event>
    decreases |findings|
  {
    if findings == [] then events
    else
      var f := findings[|findings| - 1];
      AppendAll(Evaluate(events, findings[..|findings| - 1], today), f, Wanted(f, today), today)
  }

  /** Evaluation on a number of days, in the order given. */
  function EvaluateDays(events: seq<Event>, findings: seq<Finding>, days: seq<int>): seq<Event>
    decreases |days|
  {
    if days == [] then events
    else Evaluate(EvaluateDays(events, findings, days[..|days| - 1]), findings, days[|days| - 1])
  }

  // ----- which ids are recorded -----

  ghost function Ids(events: seq<Event>): set<string> { set i | 0 <= i < |events| :: events[i].id }

  predicate NoRepeats(events: seq<Event>) { forall i, j :: 0 <= i < j < |events| ==> events[i].id != events[j].id }

  ghost function StageIds(f: Finding, stages: seq<Stage>): set<string> { set i | 0 <= i < |stages| :: ReminderId(f.id, stages[i]) }

  ghost function DayIds(findings: seq<Finding>, today: int): set<string>
    decreases |findings|
  {
    if findings == [] then {}
    else
      var f := findings[|findings| - 1];
      DayIds(findings[..|findings| - 1], today) + StageIds(f, Wanted(f, today))
  }

  ghost function DaysIds(findings: seq<Finding>, days: set<int>): set<string> {
    set d, id | d in days && id in DayIds(findings, d) :: id
  }

  lemma AppendIds(events: seq<Event>, f: Finding, stage: Stage, today: int)
    requires NoRepeats(events)
    ensures var events' := Append(events, f, stage, today);
            && Ids(events') == Ids(events) + {ReminderId(f.id, stage)} && NoRepeats(events')
  {
    hide ReminderId;
    var id := ReminderId(f.id, stage);
    var events' := Append(events, f, stage, today);
    if !Recorded(events, id) {
      assert Ids(events') == Ids(events) + {id} by {
        assert events'[|events|].id == id;
        forall x | x in Ids(events) ensures x in Ids(events') {
          var i :| 0 <= i < |events| && events[i].id == x;
          assert events'[i].id == x;
        }
      }
    }
  }

  lemma {:induction false} AppendAllIds(events: seq<Event>, f: Finding, stages: seq<Stage>, today: int)
    requires NoRepeats(events)
    ensures var events' := AppendAll(events, f, stages, today);
            Ids(events') == Ids(events) + StageIds(f, stages) && NoRepeats(events')
    decreases |stages|
  {
    hide ReminderId, Append, Ids;
    if stages != [] {
      var front := stages[..|stages| - 1];
      AppendAllIds(events, f, front, today);
      AppendIds(AppendAll(events, f, front, today), f, stages[|stages| - 1], today);
      assert StageIds(f, stages) == StageIds(f, front) + {ReminderId(f.id, stages[|stages| - 1])};
    }
  }

  lemma {:induction false} EvaluateIds(events: seq<Event>, findings: seq<Finding>, today: int)
    requires NoRepeats(events)
    ensures var events' := Evaluate(events, findings, today);
            Ids(events') == Ids(events) + DayIds(findings, today) && NoRepeats(events')
    decreases |findings|
  {
    hide Ids, StageIds, Wanted, AppendAll;
    if findings != [] {
      var front, f := findings[..|findings| - 1], findings[|findings| - 1];
      EvaluateIds(events, front, today);
      AppendAllIds(Evaluate(events, front, today), f, Wanted(f, today), today);
    }
  }

  ghost function DaySet(days: seq<int>): set<int> { set i | 0 <= i < |days| :: days[i] }

  lemma {:induction false} EvaluateDaysIds(events: seq<Event>, findings: seq<Finding>, days: seq<int>)
    requires NoRepeats(events)
    ensures var events' := EvaluateDays(events, findings, days);
            Ids(events') == Ids(events) + DaysIds(findings, DaySet(days)) && NoRepeats(events')
    decreases |days|
  {
    hide Ids, DayIds, Evaluate;
    if days != [] {
      var front, d := days[..|days| - 1], days[|days| - 1];
      EvaluateDaysIds(events, findings, front);
      EvaluateIds(EvaluateDays(events, findings, front), findings, d);
      assert DaySet(days) == DaySet(front) + {d};
      assert DaysIds(findings, DaySet(days)) == DaysIds(findings, DaySet(front)) + DayIds(findings, d);
    }
  }

  /** The recorded ids depend on the set of days only: not on their order, nor on how often a day is evaluated; and no id is
      recorded twice. */
  lemma OrderDoesNotMatter(events: seq<Event>, findings: seq<Finding>, days: seq<int>, others: seq<int>)
    requires NoRepeats(events) && DaySet(days) == DaySet(others)
    ensures Ids(EvaluateDays(events, findings, days)) == Ids(EvaluateDays(events, findings, others))
    ensures NoRepeats(EvaluateDays(events, findings, days))
  {
    hide Ids, DaysIds;
    EvaluateDaysIds(events, findings, days);
    EvaluateDaysIds(events, findings, others);
  }

  // ----- ids name their Finding and stage -----

  predicate NoDash(s: string) { forall i :: 0 <= i < |s| ==> s[i] != '-' }

  lemma NameHasNoDash(s: Stage)
    ensures NoDash(Name(s))
  {
  }

  lemma NamesDiffer(s: Stage, t: Stage)
    requires Name(s) == Name(t)
    ensures s == t
  {
    assert |Name(s)| == |Name(t)|;
    assert Name(s) != "" && Name(t) != "" && Name(s)[0] == Name(t)[0];
    assert |Name(s)| == 7 ==> Name(s)[1] == Name(t)[1];
  }

  lemma LastDash(a: string, s: string, b: string, t: string)
    requires a + "-" + s == b + "-" + t && NoDash(s) && NoDash(t)
    ensures a == b && s == t
  {
    var x, y := a + "-" + s, b + "-" + t;
    assert x[|a|] == '-' && y[|b|] == '-';
    assert x[..|a|] == a && y[..|b|] == b && x[|a| + 1..] == s && y[|b| + 1..] == t;
  }

  /** A reminder id names its Finding and its stage, whatever characters the Finding's id has. */
  lemma IdNames(f: string, s: Stage, g: string, t: Stage)
    requires ReminderId(f, s) == ReminderId(g, t)
    ensures f == g && s == t
  {
    hide Name;
    NameHasNoDash(s);
    NameHasNoDash(t);
    LastDash("REM-" + f, Name(s), "REM-" + g, Name(t));
    assert ("REM-" + f)[4..] == f && ("REM-" + g)[4..] == g;
    NamesDiffer(s, t);
  }

  // ----- the whole countdown -----

  /** Every day from 30 before the due date to the day after it. */
  function Countdown(due: int): (days: seq<int>)
    ensures |days| == 32 && forall i :: 0 <= i < 32 ==> days[i] == due - 30 + i
  {
    seq(32, i => due - 30 + i)
  }

  ghost function Times(events: seq<Event>, id: string): nat {
    if events == [] then 0 else Times(events[..|events| - 1], id) + if events[|events| - 1].id == id then 1 else 0
  }

  lemma {:induction false} OnceEach(events: seq<Event>, id: string)
    requires NoRepeats(events)
    ensures Times(events, id) == if id in Ids(events) then 1 else 0
  {
    if events != [] {
      var front := events[..|events| - 1];
      OnceEach(front, id);
      if id in Ids(front) {
        var i :| 0 <= i < |front| && front[i].id == id;
        assert events[i].id == id;
      }
      if events[|events| - 1].id == id { assert id in Ids(events); }
      if id in Ids(events) {
        var i :| 0 <= i < |events| && events[i].id == id;
        assert i < |front| ==> front[i].id == id;
      }
    }
  }

  lemma StageWanted(findings: seq<Finding>, k: nat, today: int, stage: Stage)
    requires k < |findings| && stage in Wanted(findings[k], today)
    ensures ReminderId(findings[k].id, stage) in DayIds(findings, today)
    decreases |findings|
  {
    hide Wanted, ReminderId;
    var front, f := findings[..|findings| - 1], findings[|findings| - 1];
    if k < |front| {
      StageWanted(front, k, today, stage);
    } else {
      var i :| 0 <= i < |Wanted(f, today)| && Wanted(f, today)[i] == stage;
    }
  }

  function DayOf(stage: Stage, due: int): int
    requires !stage.CriticalAttention? && !stage.ManagerEscalation?
  {
    match stage
    case Days30 => due - 30
    case Days15 => due - 15
    case Days7 => due - 7
    case DueToday => due
    case Overdue => due + 1
  }

  /** Evaluating every day of the countdown of an open Finding, among any other Findings, records each of its five stages
      exactly once. */
  lemma {:induction false} CountdownRecordsEachOnce(findings: seq<Finding>, k: nat, stage: Stage)
    requires k < |findings| && !findings[k].closed && findings[k].due.Some?
    requires !stage.CriticalAttention? && !stage.ManagerEscalation?
    ensures Times(EvaluateDays([], findings, Countdown(findings[k].due.value)), ReminderId(findings[k].id, stage)) == 1
  {
    hide Times, EvaluateDays, Ids, DayIds, ReminderId;
    var due := findings[k].due.value;
    var day := DayOf(stage, due);
    var days := Countdown(due);
    assert days[day - due + 30] == day;
    assert day in DaySet(days);
    assert stage in Wanted(findings[k], day);
    StageWanted(findings, k, day, stage);
    EvaluateDaysIds([], findings, days);
    OnceEach(EvaluateDays([], findings, days), ReminderId(findings[k].id, stage));
  }

  // ----- as the program runs it -----

  class ReminderTarget {
    var findings: seq<Finding>
    var reminderEvents: seq<Event>

    constructor (findings: seq<Finding>, events: seq<Event>)
      ensures this.findings == findings && reminderEvents == events
    {
      this.findings, reminderEvents := findings, events;
    }

    method AppendReminder(f: Finding, stage: Stage, today: int)
      modifies this`reminderEvents
      ensures reminderEvents == Append(old(reminderEvents), f, stage, today)
    {
      hide ReminderId;
      var id := ReminderId(f.id, stage);
      if Recorded(reminderEvents, id) { return; }
      reminderEvents := reminderEvents + [Event(id, f.id, stage, today)];
    }

    method RemindOne(f: Finding, today: int)
      modifies this`reminderEvents
      ensures reminderEvents == AppendAll(old(reminderEvents), f, Wanted(f, today), today)
    {
      hide Append, StageOn;
      if f.closed { return; }
      ghost var before := reminderEvents;
      ghost var done: seq<Stage> := [];
      var stage := StageOn(f, today);
      if stage.Some? {
        AppendReminder(f, stage.value, today);
        AllButLast(before, f, done, stage.value, today);
        done := done + [stage.value];
      }
      if f.severity == 1 {
        AppendReminder(f, CriticalAttention, today);
        AllButLast(before, f, done, CriticalAttention, today);
        done := done + [CriticalAttention];
      }
      if stage == Some(Overdue) {
        AppendReminder(f, ManagerEscalation, today);
        AllButLast(before, f, done, ManagerEscalation, today);
        done := done + [ManagerEscalation];
      }
      assert done == Wanted(f, today);
    }

    method EnsureReminders(today: int)
      modifies this`reminderEvents
      ensures reminderEvents == Evaluate(old(reminderEvents), findings, today)
    {
      hide Wanted, AppendAll;
      for i := 0 to |findings|
        invariant reminderEvents == Evaluate(old(reminderEvents), findings[..i], today)
      {
        assert findings[..i + 1][..i] == findings[..i];
        RemindOne(findings[i], today);
      }
      assert findings[..|findings|] == findings;
    }
  }

  lemma AllButLast(events: seq<Event>, f: Finding, stages: seq<Stage>, last: Stage, today: int)
    ensures AppendAll(events, f, stages + [last], today) == Append(AppendAll(events, f, stages, today), f, last, today)
  {
    assert (stages + [last])[..|stages|] == stages;
  }

  // ----- exactly what is recorded -----

  /** The days on which a Finding's stage is called for. */
  predicate CalledFor(f: Finding, stage: Stage, today: int) {
    && !f.closed
    && match stage
       case CriticalAttention => f.severity == 1
       case Days30 => f.due == Some(today + 30)
       case Days15 => f.due == Some(today + 15)
       case Days7 => f.due == Some(today + 7)
       case DueToday => f.due == Some(today)
       case Overdue => f.due.Some? && f.due.value < today
       case ManagerEscalation => f.due.Some? && f.due.value < today
  }

  lemma WantedMeans(f: Finding, stage: Stage, today: int)
    ensures stage in Wanted(f, today) <==> CalledFor(f, stage, today)
  {
  }

  lemma {:induction false} DayIdsMean(findings: seq<Finding>, today: int, f: string, stage: Stage)
    ensures ReminderId(f, stage) in DayIds(findings, today)
            <==> exists k :: 0 <= k < |findings| && findings[k].id == f && CalledFor(findings[k], stage, today)
    decreases |findings|
  {
    hide ReminderId, CalledFor, Wanted;
    if findings != [] {
      var front, g := findings[..|findings| - 1], findings[|findings| - 1];
      DayIdsMean(front, today, f, stage);
      WantedMeans(g, stage, today);
      OneIds(g, today, f, stage);
      if exists k :: 0 <= k < |front| && front[k].id == f && CalledFor(front[k], stage, today) {
        var k :| 0 <= k < |front| && front[k].id == f && CalledFor(front[k], stage, today);
        assert findings[k] == front[k];
      }
      if exists k :: 0 <= k < |findings| && findings[k].id == f && CalledFor(findings[k], stage, today) {
        var k :| 0 <= k < |findings| && findings[k].id == f && CalledFor(findings[k], stage, today);
        assert k < |front| ==> front[k] == findings[k];
      }
    }
  }

  lemma OneIds(g: Finding, today: int, f: string, stage: Stage)
    ensures ReminderId(f, stage) in StageIds(g, Wanted(g, today)) <==> g.id == f && stage in Wanted(g, today)
  {
    hide ReminderId, Wanted;
    var wanted := Wanted(g, today);
    if ReminderId(f, stage) in StageIds(g, wanted) {
      var i :| 0 <= i < |wanted| && ReminderId(g.id, wanted[i]) == ReminderId(f, stage);
      IdNames(g.id, wanted[i], f, stage);
    }
    if g.id == f && stage in wanted {
      var i :| 0 <= i < |wanted| && wanted[i] == stage;
      assert ReminderId(g.id, wanted[i]) == ReminderId(f, stage);
    }
  }

  /** From nothing, evaluation on any days records a stage of a Finding exactly when one of the days calls for it: the countdown on
      its days, overdue and the manager's escalation on any day after, critical attention on every day for level 1. */
  lemma RecordedExactly(findings: seq<Finding>, days: seq<int>, f: string, stage: Stage)
    ensures ReminderId(f, stage) in Ids(EvaluateDays([], findings, days))
            <==> exists d :: d in days && CalledOn(findings, f, stage, d)
  {
    hide ReminderId, CalledFor, DayIds, EvaluateDays;
    EvaluateDaysIds([], findings, days);
    forall d ensures ReminderId(f, stage) in DayIds(findings, d) <==> CalledOn(findings, f, stage, d) {
      DayIdsMean(findings, d, f, stage);
    }
    assert forall d :: d in DaySet(days) <==> d in days;
  }

  predicate CalledOn(findings: seq<Finding>, f: string, stage: Stage, d: int) {
    exists k :: 0 <= k < |findings| && findings[k].id == f && CalledFor(findings[k], stage, d)
  }

  /** Every recorded event says what its id says, and was made on a day that called for it. */
  predicate EventOf(findings: seq<Finding>, days: seq<int>, e: Event) {
    e.id == ReminderId(e.findingId, e.stage) && e.created in days && CalledOn(findings, e.findingId, e.stage, e.created)
  }

  lemma {:induction false} DayEvents(events: seq<Event>, findings: seq<Finding>, n: nat, today: int)
    requires n <= |findings|
    ensures forall e :: e in Evaluate(events, findings[..n], today) ==> e in events || EventOf(findings, [today], e)
  {
    hide CalledFor, ReminderId, Wanted;
    if n > 0 {
      var front, g := findings[..n - 1], findings[n - 1];
      assert findings[..n][..n - 1] == front && findings[..n][n - 1] == g;
      DayEvents(events, findings, n - 1, today);
      var before := Evaluate(events, front, today);
      forall stage ensures stage in Wanted(g, today) <==> CalledFor(g, stage, today) { WantedMeans(g, stage, today); }
      StageEvents(before, g, Wanted(g, today), today);
      forall e | e in Evaluate(events, findings[..n], today) && e !in events ensures EventOf(findings, [today], e) {
        if e !in before { assert CalledOn(findings, e.findingId, e.stage, today); }
      }
    }
  }

  lemma {:induction false} StageEvents(events: seq<Event>, g: Finding, stages: seq<Stage>, today: int)
    ensures forall e :: e in AppendAll(events, g, stages, today) ==>
              e in events || (e.stage in stages && e == Event(ReminderId(g.id, e.stage), g.id, e.stage, today))
    decreases |stages|
  {
    hide ReminderId;
    if stages != [] { StageEvents(events, g, stages[..|stages| - 1], today); }
  }

  lemma {:induction false} EventsMean(findings: seq<Finding>, days: seq<int>)
    ensures forall e :: e in EvaluateDays([], findings, days) ==> EventOf(findings, days, e)
    decreases |days|
  {
    hide ReminderId, Evaluate, CalledOn;
    if days != [] {
      var front, d := days[..|days| - 1], days[|days| - 1];
      EventsMean(findings, front);
      DayEvents(EvaluateDays([], findings, front), findings, |findings|, d);
      assert findings[..|findings|] == findings;
      assert d in days && forall x :: x in front ==> x in days;
    }
  }

  /** The ids as they are written. */
  lemma IdsWritten(f: string)
    ensures ReminderId(f, Days30) == "REM-" + f + "-" + "30_days" && ReminderId(f, Days15) == "REM-" + f + "-" + "15_days"
    ensures ReminderId(f, Days7) == "REM-" + f + "-" + "7_days" && ReminderId(f, DueToday) == "REM-" + f + "-" + "due_today"
    ensures ReminderId(f, Overdue) == "REM-" + f + "-" + "overdue"
    ensures ReminderId(f, CriticalAttention) == "REM-" + f + "-" + "critical_attention"
    ensures ReminderId(f, ManagerEscalation) == "REM-" + f + "-" + "overdue_manager_escalation"
  {
  }
}
