/**
 * The service's behaviour in the situations its unit tests set up: one active plan, a parser
 * and a generator that hand over exactly one occurrence, a one-hour look-ahead, and a task table
 * that is empty, already holds the key, or rejects the save.
 */
module SchedulerExamples {
  import opened Wrappers
  import opened Calendar
  import opened Scheduler

  /** The plan is active at `now` and its pattern yields just `occurrence` over [now, now + 1h). */
  predicate OneOccurrence(parser: PatternParser, generator: OccurrenceGenerator,
                          plan: TreatmentPlan, now: DateTime, occurrence: DateTime)
    requires ValidDateTime(now)
  {
    ActiveAndValid(plan, now) &&
    parser(plan.recurrencePattern).Success? &&
    generator(parser(plan.recurrencePattern).value, now, PlusHours(now, 1), Some(plan.startTime), plan.endTime)
      == Some([occurrence])
  }

  /** With one plan that is active at `now`, a run is that plan's run over the window. */
  lemma SinglePlanRun(tasks: map<TaskKey, TreatmentTask>, faults: map<TaskKey, Fault>,
                      parser: PatternParser, generator: OccurrenceGenerator,
                      plan: TreatmentPlan, now: DateTime, lookAheadHours: int)
    requires ValidDateTime(now) && ActiveAndValid(plan, now)
    ensures Run(tasks, faults, parser, generator, [plan], now, lookAheadHours)
      == PlanRun(tasks, faults, parser, generator, plan, now, PlusHours(now, lookAheadHours))
  {
    assert [plan][1..] == [];
    assert ActiveValidPlans([plan], now) == [plan];
    var to := PlusHours(now, lookAheadHours);
    var o := PlanRun(tasks, faults, parser, generator, plan, now, to);
    assert RunPlans(o.tasks, faults, parser, generator, [plan], now, to, 1, o.created) == o;
  }

  /** A fresh occurrence becomes one ACTIVE task of the plan at that time, and the run reports 1. */
  lemma GeneratesTaskForOccurrenceWithinWindow(tasks: map<TaskKey, TreatmentTask>,
                                               parser: PatternParser, generator: OccurrenceGenerator,
                                               plan: TreatmentPlan, now: DateTime, occurrence: DateTime)
    requires ValidDateTime(now) && OneOccurrence(parser, generator, plan, now, occurrence)
    requires TaskKey(plan.id, occurrence) !in tasks
    ensures var r := Run(tasks, map[], parser, generator, [plan], now, 1);
      var key := TaskKey(plan.id, occurrence);
      r.created == 1 && r.tasks == tasks[key := NewTask(plan, occurrence)] &&
      r.tasks[key].treatmentPlanId == plan.id && r.tasks[key].startTime == occurrence &&
      r.tasks[key].status == ACTIVE
  {
    var key := TaskKey(plan.id, occurrence);
    SinglePlanRun(tasks, map[], parser, generator, plan, now, 1);
    assert [occurrence][1..] == [];
    assert CreateTasks(tasks[key := NewTask(plan, occurrence)], map[], plan, [], 1)
      == LoopOutcome(tasks[key := NewTask(plan, occurrence)], Some(1));
    assert CreateTasks(tasks, map[], plan, [occurrence], 0)
      == LoopOutcome(tasks[key := NewTask(plan, occurrence)], Some(1));
  }

  /** An occurrence that already has a task is skipped: nothing is saved and the run reports 0. */
  lemma DoesNotCreateDuplicateIfTaskExists(tasks: map<TaskKey, TreatmentTask>,
                                           parser: PatternParser, generator: OccurrenceGenerator,
                                           plan: TreatmentPlan, now: DateTime, occurrence: DateTime)
    requires ValidDateTime(now) && OneOccurrence(parser, generator, plan, now, occurrence)
    requires TaskKey(plan.id, occurrence) in tasks
    ensures Run(tasks, map[], parser, generator, [plan], now, 1) == PlanOutcome(tasks, 0)
  {
    SinglePlanRun(tasks, map[], parser, generator, plan, now, 1);
    assert [occurrence][1..] == [];
    assert CreateTasks(tasks, map[], plan, [], 0) == LoopOutcome(tasks, Some(0));
    assert CreateTasks(tasks, map[], plan, [occurrence], 0) == LoopOutcome(tasks, Some(0));
  }

  /** A save the unique constraint rejects is swallowed and still counted, and the table is unchanged. */
  lemma HandlesUniqueConstraintViolationGracefully(tasks: map<TaskKey, TreatmentTask>,
                                                   parser: PatternParser, generator: OccurrenceGenerator,
                                                   plan: TreatmentPlan, now: DateTime, occurrence: DateTime)
    requires ValidDateTime(now) && OneOccurrence(parser, generator, plan, now, occurrence)
    requires TaskKey(plan.id, occurrence) !in tasks
    ensures Run(tasks, map[TaskKey(plan.id, occurrence) := SaveRejected], parser, generator, [plan], now, 1)
      == PlanOutcome(tasks, 1)
  {
    var faults := map[TaskKey(plan.id, occurrence) := SaveRejected];
    SinglePlanRun(tasks, faults, parser, generator, plan, now, 1);
    assert FaultAt(faults, TaskKey(plan.id, occurrence)) == Some(SaveRejected);
    assert [occurrence][1..] == [];
    assert CreateTasks(tasks, faults, plan, [], 1) == LoopOutcome(tasks, Some(1));
    assert CreateTasks(tasks, faults, plan, [occurrence], 0) == LoopOutcome(tasks, Some(1));
  }

  /**
   * A plan whose end time is the occurrence is still selected (its end lies after `now`) and the
   * occurrence at its end becomes a task.
   */
  lemma AllowsOccurrenceExactlyAtEndTime(tasks: map<TaskKey, TreatmentTask>,
                                         parser: PatternParser, generator: OccurrenceGenerator,
                                         plan: TreatmentPlan, now: DateTime, end: DateTime)
    requires ValidDateTime(now) && plan.active && !IsAfter(plan.startTime, now) && IsAfter(end, now)
    requires plan.endTime == Some(end)
    requires parser(plan.recurrencePattern).Success?
    requires generator(parser(plan.recurrencePattern).value, now, PlusHours(now, 1), Some(plan.startTime), Some(end))
      == Some([end])
    requires TaskKey(plan.id, end) !in tasks
    ensures var r := Run(tasks, map[], parser, generator, [plan], now, 1);
      r.created == 1 && r.tasks == tasks[TaskKey(plan.id, end) := NewTask(plan, end)]
  {
    GeneratesTaskForOccurrenceWithinWindow(tasks, parser, generator, plan, now, end);
  }

  /**
   * A lookup that throws on a plan's second occurrence ends that plan's loop: the plan reports 0,
   * while the task its first occurrence saved stays in the table.
   */
  lemma FailedLookupEndsThePlan(tasks: map<TaskKey, TreatmentTask>,
                                parser: PatternParser, generator: OccurrenceGenerator,
                                plan: TreatmentPlan, now: DateTime, first: DateTime, second: DateTime)
    requires ValidDateTime(now) && ActiveAndValid(plan, now)
    requires parser(plan.recurrencePattern).Success?
    requires generator(parser(plan.recurrencePattern).value, now, PlusHours(now, 1), Some(plan.startTime), plan.endTime)
      == Some([first, second])
    requires first != second && TaskKey(plan.id, first) !in tasks
    ensures var r := Run(tasks, map[TaskKey(plan.id, second) := LookupFails], parser, generator, [plan], now, 1);
      r.created == 0 && r.tasks == tasks[TaskKey(plan.id, first) := NewTask(plan, first)]
  {
    var faults := map[TaskKey(plan.id, second) := LookupFails];
    var after := tasks[TaskKey(plan.id, first) := NewTask(plan, first)];
    SinglePlanRun(tasks, faults, parser, generator, plan, now, 1);
    assert FaultAt(faults, TaskKey(plan.id, first)) == None;
    assert FaultAt(faults, TaskKey(plan.id, second)) == Some(LookupFails);
    assert [first, second][1..] == [second];
    assert CreateTasks(after, faults, plan, [second], 1) == LoopOutcome(after, None);
    assert CreateTasks(tasks, faults, plan, [first, second], 0) == LoopOutcome(after, None);
  }
}
