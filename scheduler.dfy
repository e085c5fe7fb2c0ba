/**
 * TreatmentSchedulerService: a run selects the plans that are active at `now`, expands each
 * plan's recurrence pattern over the look-ahead window [now, now + lookAheadHours) and stores
 * one ACTIVE task for every occurrence that has none yet.
 *
 * The task table is a class whose map the service changes in place. What the database and
 * concurrent writers do to a call is the table's `faults`: a lookup that throws, a save that
 * the unique constraint rejects because another run stored the same key first, or a save that
 * throws anything else. The run, one plan and the occurrence loop are each specified by a
 * function on values (`Run`, `PlanRun`, `CreateTasks`), which the methods are proved to compute.
 */
module Scheduler {
  import opened Wrappers
  import opened Calendar
  import opened Pattern
  import opened Parser
  import opened Generator

  // ---------------------------------------------------------------------------
  // Entities

  /** The TreatmentAction enum is not part of this model; an action is carried by its constant's name. */
  type TreatmentAction = string

  /** The service only ever writes ACTIVE; the enum's other constants are not part of this model. */
  datatype TaskStatus = ACTIVE | OtherStatus(name: string)

  /** A row of treatment_plans (the timestamps the persistence hooks write are left out). */
  datatype TreatmentPlan = TreatmentPlan(
    id: int,
    treatmentAction: TreatmentAction,
    subjectPatient: string,
    startTime: DateTime,
    endTime: Option<DateTime>,
    recurrencePattern: string,
    active: bool)

  /** A row of treatment_tasks, without the generated id and the persistence timestamps. */
  datatype TreatmentTask = TreatmentTask(
    treatmentAction: TreatmentAction,
    subjectPatient: string,
    startTime: DateTime,
    status: TaskStatus,
    treatmentPlanId: int)

  /** The columns of the unique constraint uk_plan_start_time. */
  datatype TaskKey = TaskKey(planId: int, startTime: DateTime)

  function KeyOf(task: TreatmentTask): TaskKey {
    TaskKey(task.treatmentPlanId, task.startTime)
  }

  /** Every task is stored under its own key, so no two tasks share a (plan, start time). */
  predicate Keyed(tasks: map<TaskKey, TreatmentTask>) {
    forall k :: k in tasks ==> KeyOf(tasks[k]) == k
  }

  /** A plan's date-times are real ones (a LocalDateTime always is). */
  predicate ValidPlan(plan: TreatmentPlan) {
    ValidDateTime(plan.startTime) && (plan.endTime.Some? ==> ValidDateTime(plan.endTime.value))
  }

  predicate ValidPlans(plans: seq<TreatmentPlan>) {
    forall i :: 0 <= i < |plans| ==> ValidPlan(plans[i])
  }

  // ---------------------------------------------------------------------------
  // findActiveValidPlans

  /** The query's condition: active, started at or before `now`, and not yet ended (strictly). */
  predicate ActiveAndValid(plan: TreatmentPlan, now: DateTime) {
    plan.active && !IsAfter(plan.startTime, now) && (plan.endTime.None? || IsAfter(plan.endTime.value, now))
  }

  /** The plans the query returns, in table order. */
  function ActiveValidPlans(plans: seq<TreatmentPlan>, now: DateTime): (r: seq<TreatmentPlan>)
    ensures |r| <= |plans|
    ensures forall plan :: plan in r <==> plan in plans && ActiveAndValid(plan, now)
    ensures ValidPlans(plans) ==> ValidPlans(r)
  {
    if |plans| == 0 then []
    else
      var rest := ActiveValidPlans(plans[1..], now);
      assert forall plan :: plan in plans <==> plan == plans[0] || plan in plans[1..];
      assert ValidPlans(plans) ==> ValidPlans(plans[1..]) by {
        if ValidPlans(plans) {
          forall i | 0 <= i < |plans[1..]| ensures ValidPlan(plans[1..][i]) {
            assert plans[1..][i] == plans[i + 1];
          }
        }
      }
      if ActiveAndValid(plans[0], now) then [plans[0]] + rest else rest
  }

  // ---------------------------------------------------------------------------
  // The task table

  /** How the store answers a call about one key. */
  datatype Fault =
    | LookupFails   // findByTreatmentPlanIdAndStartTime throws
    | SaveRejected  // save throws DataIntegrityViolationException: another run stored the key first
    | SaveFails     // save throws any other exception

  function FaultAt(faults: map<TaskKey, Fault>, key: TaskKey): Option<Fault> {
    if key in faults then Some(faults[key]) else None
  }

  datatype SaveOutcome = Saved | Rejected | SaveFailed

  class TaskStore {
    var tasks: map<TaskKey, TreatmentTask>
    const faults: map<TaskKey, Fault>

    /** The unique constraint uk_plan_start_time: every row is stored under its own key. */
    predicate Valid()
      reads this
    {
      Keyed(tasks)
    }

    constructor(tasks: map<TaskKey, TreatmentTask>, faults: map<TaskKey, Fault>)
      requires Keyed(tasks)
      ensures Valid() && this.tasks == tasks && this.faults == faults
    {
      this.tasks := tasks;
      this.faults := faults;
    }

    /** findByTreatmentPlanIdAndStartTime: the task with exactly this plan id and start time. */
    method FindByTreatmentPlanIdAndStartTime(planId: int, startTime: DateTime) returns (r: Result<Option<TreatmentTask>, Fault>)
      ensures var key := TaskKey(planId, startTime);
        if FaultAt(faults, key) == Some(LookupFails) then r == Failure(LookupFails)
        else r == Success(if key in tasks then Some(tasks[key]) else None)
    {
      var key := TaskKey(planId, startTime);
      if FaultAt(faults, key) == Some(LookupFails) {
        return Failure(LookupFails);
      }
      if key in tasks {
        r := Success(Some(tasks[key]));
      } else {
        r := Success(None);
      }
    }

    /**
     * save of a new task: the unique constraint rejects a second task under a key, and a
     * rejected or failed save leaves the table as it was.
     */
    method Save(task: TreatmentTask) returns (r: SaveOutcome)
      requires Valid()
      modifies this
      ensures Valid()
      ensures var fault := FaultAt(faults, KeyOf(task));
        r == (if fault == Some(SaveFails) then SaveFailed
              else if KeyOf(task) in old(tasks) || fault == Some(SaveRejected) then Rejected
              else Saved)
      ensures tasks == if r == Saved then old(tasks)[KeyOf(task) := task] else old(tasks)
    {
      var fault := FaultAt(faults, KeyOf(task));
      if fault == Some(SaveFails) {
        r := SaveFailed;
      } else if KeyOf(task) in tasks || fault == Some(SaveRejected) {
        r := Rejected;
      } else {
        tasks := tasks[KeyOf(task) := task];
        r := Saved;
      }
    }
  }

  // ---------------------------------------------------------------------------
  // What a run computes

  /** The task createTreatmentTask builds for a plan and an occurrence. */
  function NewTask(plan: TreatmentPlan, startTime: DateTime): TreatmentTask {
    TreatmentTask(plan.treatmentAction, plan.subjectPatient, startTime, ACTIVE, plan.id)
  }

  /** The table and the count the occurrence loop leaves; no count when an exception left it. */
  datatype LoopOutcome = LoopOutcome(tasks: map<TaskKey, TreatmentTask>, created: Option<nat>)

  /**
   * The occurrence loop of generateTasksForPlan from `created` tasks on: look the key up; when
   * no task has it, create one and count it, whether the save lands or the unique constraint
   * rejects it.
   */
  function CreateTasks(tasks: map<TaskKey, TreatmentTask>, faults: map<TaskKey, Fault>, plan: TreatmentPlan,
                       occurrences: seq<DateTime>, created: nat): LoopOutcome
    decreases |occurrences|
  {
    if |occurrences| == 0 then LoopOutcome(tasks, Some(created))
    else
      var key := TaskKey(plan.id, occurrences[0]);
      var fault := FaultAt(faults, key);
      if fault == Some(LookupFails) then LoopOutcome(tasks, None)
      else if key in tasks then CreateTasks(tasks, faults, plan, occurrences[1..], created)
      else if fault == Some(SaveFails) then LoopOutcome(tasks, None)
      else if fault == Some(SaveRejected) then CreateTasks(tasks, faults, plan, occurrences[1..], created + 1)
      else CreateTasks(tasks[key := NewTask(plan, occurrences[0])], faults, plan, occurrences[1..], created + 1)
  }

  /** The table and the number of tasks a plan contributes. */
  datatype PlanOutcome = PlanOutcome(tasks: map<TaskKey, TreatmentTask>, created: nat)

  // ---------------------------------------------------------------------------
  // The collaborators RecurrencePatternService delegates to

  /** A RecurrencePatternParser: the pattern, or the exception parse() throws. */
  type PatternParser = string -> Result<RecurrencePattern, ParseError>

  /**
   * An OccurrenceGenerator, given the pattern, the window and the plan's start and end: the
   * occurrences, or None when generate() throws.
   */
  type OccurrenceGenerator = (RecurrencePattern, DateTime, DateTime, Option<DateTime>, Option<DateTime>) -> Option<seq<DateTime>>

  /** DefaultRecurrencePatternParser. */
  const DefaultParser: PatternParser := text => Parse(Some(text))

  /**
   * DefaultOccurrenceGenerator: it throws exactly on the arguments it cannot handle (a ONCE
   * pattern without times or without a plan start, a WEEKLY pattern without its day, a MONTHLY
   * one without its day of month).
   */
  const DefaultGenerator: OccurrenceGenerator :=
    (p, from, to, planStart, planEnd) =>
      if Arguments(p, from, to, planStart, planEnd) then Some(Occurrences(p, from, to, planStart, planEnd)) else None

  // ---------------------------------------------------------------------------
  // What a run computes

  /**
   * generateTasksForPlan: a pattern that does not parse, a generator that throws, or an
   * exception in the occurrence loop makes the plan contribute 0.
   */
  function PlanRun(tasks: map<TaskKey, TreatmentTask>, faults: map<TaskKey, Fault>,
                   parser: PatternParser, generator: OccurrenceGenerator,
                   plan: TreatmentPlan, from: DateTime, to: DateTime): PlanOutcome
  {
    match parser(plan.recurrencePattern)
    case Failure(_) => PlanOutcome(tasks, 0)
    case Success(p) =>
      match generator(p, from, to, Some(plan.startTime), plan.endTime)
      case None => PlanOutcome(tasks, 0)
      case Some(occurrences) =>
        var loop := CreateTasks(tasks, faults, plan, occurrences, 0);
        PlanOutcome(loop.tasks, if loop.created.Some? then loop.created.value else 0)
  }

  /** The plan loop of generateTasksNow from plan `i` and a running total on: each plan sees the table the previous ones left. */
  function RunPlans(tasks: map<TaskKey, TreatmentTask>, faults: map<TaskKey, Fault>,
                    parser: PatternParser, generator: OccurrenceGenerator,
                    plans: seq<TreatmentPlan>, from: DateTime, to: DateTime, i: nat, total: nat): PlanOutcome
    requires i <= |plans|
    decreases |plans| - i
  {
    if i == |plans| then PlanOutcome(tasks, total)
    else
      var o := PlanRun(tasks, faults, parser, generator, plans[i], from, to);
      RunPlans(o.tasks, faults, parser, generator, plans, from, to, i + 1, total + o.created)
  }

  /** generateTasksNow at `now`: the selected plans, each over [now, now + lookAheadHours). */
  function Run(tasks: map<TaskKey, TreatmentTask>, faults: map<TaskKey, Fault>,
               parser: PatternParser, generator: OccurrenceGenerator,
               plans: seq<TreatmentPlan>, now: DateTime, lookAheadHours: int): PlanOutcome
    requires ValidDateTime(now)
  {
    RunPlans(tasks, faults, parser, generator, ActiveValidPlans(plans, now), now, PlusHours(now, lookAheadHours), 0, 0)
  }

  // ---------------------------------------------------------------------------
  // The service

  class TreatmentSchedulerService {
    const taskRepository: TaskStore
    const parser: PatternParser
    const generator: OccurrenceGenerator
    const lookAheadHours: int

    constructor(taskRepository: TaskStore, parser: PatternParser, generator: OccurrenceGenerator, lookAheadHours: int)
      ensures this.taskRepository == taskRepository && this.parser == parser && this.generator == generator
      ensures this.lookAheadHours == lookAheadHours
    {
      this.taskRepository := taskRepository;
      this.parser := parser;
      this.generator := generator;
      this.lookAheadHours := lookAheadHours;
    }

    /** generateTasksNow: `plans` is the plan table and `now` the clock's reading. */
    method GenerateTasksNow(plans: seq<TreatmentPlan>, now: DateTime) returns (total: nat)
      requires ValidDateTime(now) && taskRepository.Valid()
      modifies taskRepository
      ensures taskRepository.Valid()
      ensures var r := Run(old(taskRepository.tasks), taskRepository.faults, parser, generator, plans, now, lookAheadHours);
        taskRepository.tasks == r.tasks && total == r.created
    {
      var lookAheadTime := PlusHours(now, lookAheadHours);
      var activePlans := ActiveValidPlans(plans, now);
      total := 0;
      var i := 0;
      while i < |activePlans|
        invariant 0 <= i <= |activePlans|
        invariant taskRepository.Valid()
        invariant RunPlans(taskRepository.tasks, taskRepository.faults, parser, generator, activePlans, now, lookAheadTime, i, total) ==
          RunPlans(old(taskRepository.tasks), taskRepository.faults, parser, generator, activePlans, now, lookAheadTime, 0, 0)
      {
        var created := GenerateTasksForPlan(activePlans[i], now, lookAheadTime);
        total := total + created;
        i := i + 1;
      }
    }

    /** generateTasksForPlan: parse, generate, then the occurrence loop, all inside one try. */
    method GenerateTasksForPlan(plan: TreatmentPlan, fromTime: DateTime, toTime: DateTime) returns (created: nat)
      requires taskRepository.Valid()
      modifies taskRepository
      ensures taskRepository.Valid()
      ensures var r := PlanRun(old(taskRepository.tasks), taskRepository.faults, parser, generator, plan, fromTime, toTime);
        taskRepository.tasks == r.tasks && created == r.created
    {
      var parsed := parser(plan.recurrencePattern);
      if parsed.Failure? {
        return 0;
      }
      var generated := generator(parsed.value, fromTime, toTime, Some(plan.startTime), plan.endTime);
      if generated.None? {
        return 0;
      }
      var occurrences := generated.value;
      var tasksCreated := 0;
      var i := 0;
      while i < |occurrences|
        invariant 0 <= i <= |occurrences|
        invariant taskRepository.Valid()
        invariant CreateTasks(taskRepository.tasks, taskRepository.faults, plan, occurrences[i..], tasksCreated) ==
          CreateTasks(old(taskRepository.tasks), taskRepository.faults, plan, occurrences, 0)
      {
        var found := taskRepository.FindByTreatmentPlanIdAndStartTime(plan.id, occurrences[i]);
        if found.Failure? {
          return 0;
        }
        if found.value.None? {
          var ok := CreateTreatmentTask(plan, occurrences[i]);
          if !ok {
            return 0;
          }
          tasksCreated := tasksCreated + 1;
        }
        assert occurrences[i..][1..] == occurrences[i + 1..];
        i := i + 1;
      }
      created := tasksCreated;
    }

    /**
     * createTreatmentTask: saves an ACTIVE task for the plan at `startTime` and swallows a
     * uniqueness rejection; `ok` is false when any other exception leaves it.
     */
    method CreateTreatmentTask(plan: TreatmentPlan, startTime: DateTime) returns (ok: bool)
      requires taskRepository.Valid()
      modifies taskRepository
      ensures taskRepository.Valid()
      ensures var key := TaskKey(plan.id, startTime);
        ok == (FaultAt(taskRepository.faults, key) != Some(SaveFails))
      ensures var key := TaskKey(plan.id, startTime);
        taskRepository.tasks ==
          if ok && key !in old(taskRepository.tasks) && FaultAt(taskRepository.faults, key) != Some(SaveRejected)
          then old(taskRepository.tasks)[key := NewTask(plan, startTime)]
          else old(taskRepository.tasks)
    {
      var task := NewTask(plan, startTime);
      var outcome := taskRepository.Save(task);
      ok := outcome != SaveFailed;
    }
  }
}
