/**
 * What a scheduler run promises: it only ever adds rows, each added row is the ACTIVE task of a
 * selected plan at one of that plan's occurrences inside the look-ahead window, the count is the
 * number of rows added when the store raises nothing, a second run over the same window adds
 * nothing, and one plan failing does not keep the others from being materialised.
 */
module SchedulerProperties {
  import opened Wrappers
  import opened Calendar
  import opened Pattern
  import opened Parser
  import opened Generator
  import opened GeneratorProperties
  import opened Scheduler

  // ---------------------------------------------------------------------------
  // Vocabulary

  /** Every row of `before` is still in `after`, unchanged. */
  predicate Grows(before: map<TaskKey, TreatmentTask>, after: map<TaskKey, TreatmentTask>) {
    forall k :: k in before ==> k in after && after[k] == before[k]
  }

  /** Every row `after` adds is the plan's task for one of `occurrences`. */
  predicate AddsFor(before: map<TaskKey, TreatmentTask>, after: map<TaskKey, TreatmentTask>,
                    plan: TreatmentPlan, occurrences: seq<DateTime>) {
    forall k :: k in after && k !in before ==>
      k.planId == plan.id && k.startTime in occurrences && after[k] == NewTask(plan, k.startTime)
  }

  /** Every occurrence of the plan has a row. */
  predicate Materialized(tasks: map<TaskKey, TreatmentTask>, plan: TreatmentPlan, occurrences: seq<DateTime>) {
    forall t :: t in occurrences ==> TaskKey(plan.id, t) in tasks
  }

  /** The start lies in [from, to) and not after the plan's end. */
  predicate InWindow(t: DateTime, plan: TreatmentPlan, from: DateTime, to: DateTime) {
    !IsBefore(t, from) && IsBefore(t, to) && (plan.endTime.Some? ==> !IsBefore(plan.endTime.value, t))
  }

  /** A generator that only ever returns occurrences in [from, to) and not after the plan's end. */
  ghost predicate GeneratesWithin(generator: OccurrenceGenerator) {
    forall p, from, to, planStart, planEnd, t ::
      generator(p, from, to, planStart, planEnd).Some? && t in generator(p, from, to, planStart, planEnd).value ==>
        !IsBefore(t, from) && IsBefore(t, to) && (planEnd.Some? ==> !IsBefore(planEnd.value, t))
  }

  /** What the parser and the generator make of a plan over the window; None when either throws. */
  function PlanOccurrences(parser: PatternParser, generator: OccurrenceGenerator, plan: TreatmentPlan,
                           from: DateTime, to: DateTime): Option<seq<DateTime>> {
    var parsed := parser(plan.recurrencePattern);
    if parsed.Failure? then None else generator(parsed.value, from, to, Some(plan.startTime), plan.endTime)
  }

  /**
   * The row stored under `k` is the plan's task at one of the occurrences the plan's pattern
   * expands to over the window, which lies inside the window when the generator keeps to it.
   */
  ghost predicate Fits(task: TreatmentTask, k: TaskKey, parser: PatternParser, generator: OccurrenceGenerator,
                       plan: TreatmentPlan, from: DateTime, to: DateTime) {
    k.planId == plan.id && task == NewTask(plan, k.startTime) &&
    PlanOccurrences(parser, generator, plan, from, to).Some? &&
    k.startTime in PlanOccurrences(parser, generator, plan, from, to).value &&
    (GeneratesWithin(generator) ==> InWindow(k.startTime, plan, from, to))
  }

  /** A plan whose pattern parses and expands has a row for every occurrence. */
  predicate Covered(tasks: map<TaskKey, TreatmentTask>, parser: PatternParser, generator: OccurrenceGenerator,
                    plan: TreatmentPlan, from: DateTime, to: DateTime) {
    PlanOccurrences(parser, generator, plan, from, to).Some? ==>
      Materialized(tasks, plan, PlanOccurrences(parser, generator, plan, from, to).value)
  }

  /** The store raises nothing for any key of the plan with this id. */
  predicate NoFaultsFor(faults: map<TaskKey, Fault>, planId: int) {
    forall k :: k in faults ==> k.planId != planId
  }

  /** The store's only fault is the unique constraint rejecting a save: no call throws anything else. */
  predicate OnlyRejections(faults: map<TaskKey, Fault>) {
    forall k :: k in faults ==> faults[k] == SaveRejected
  }

  /**
   * The occurrences, counted one by one, whose key has no row in `tasks` and whose save the
   * unique constraint rejects.
   */
  function Rejections(tasks: map<TaskKey, TreatmentTask>, faults: map<TaskKey, Fault>, plan: TreatmentPlan,
                      occurrences: seq<DateTime>): nat
    decreases |occurrences|
  {
    if |occurrences| == 0 then 0
    else
      var key := TaskKey(plan.id, occurrences[0]);
      (if key !in tasks && FaultAt(faults, key) == Some(SaveRejected) then 1 else 0) +
        Rejections(tasks, faults, plan, occurrences[1..])
  }

  lemma PlanRunByOccurrences(tasks: map<TaskKey, TreatmentTask>, faults: map<TaskKey, Fault>,
                             parser: PatternParser, generator: OccurrenceGenerator,
                             plan: TreatmentPlan, from: DateTime, to: DateTime)
    ensures PlanOccurrences(parser, generator, plan, from, to).None? ==>
      PlanRun(tasks, faults, parser, generator, plan, from, to) == PlanOutcome(tasks, 0)
    ensures PlanOccurrences(parser, generator, plan, from, to).Some? ==>
      PlanRun(tasks, faults, parser, generator, plan, from, to).tasks ==
        CreateTasks(tasks, faults, plan, PlanOccurrences(parser, generator, plan, from, to).value, 0).tasks
  {
  }

  // ---------------------------------------------------------------------------
  // The occurrence loop

  /**
   * The loop only inserts: old rows stay as they were, and every new row is the plan's ACTIVE
   * task at one of the occurrences, stored under its own key. A run cut short by an exception
   * keeps what it inserted before it.
   */
  lemma {:induction false} CreateTasksInserts(tasks: map<TaskKey, TreatmentTask>, faults: map<TaskKey, Fault>,
                                              plan: TreatmentPlan, occurrences: seq<DateTime>, created: nat)
    ensures Grows(tasks, CreateTasks(tasks, faults, plan, occurrences, created).tasks)
    ensures AddsFor(tasks, CreateTasks(tasks, faults, plan, occurrences, created).tasks, plan, occurrences)
    ensures Keyed(tasks) ==> Keyed(CreateTasks(tasks, faults, plan, occurrences, created).tasks)
    ensures CreateTasks(tasks, faults, plan, occurrences, created).created.Some? ==>
      CreateTasks(tasks, faults, plan, occurrences, created).created.value >= created
    decreases |occurrences|
  {
    if |occurrences| > 0 {
      var key := TaskKey(plan.id, occurrences[0]);
      var fault := FaultAt(faults, key);
      var rest := occurrences[1..];
      assert forall t :: t in rest ==> t in occurrences;
      if fault == Some(LookupFails) {
      } else if key in tasks {
        CreateTasksInserts(tasks, faults, plan, rest, created);
      } else if fault == Some(SaveFails) {
      } else if fault == Some(SaveRejected) {
        CreateTasksInserts(tasks, faults, plan, rest, created + 1);
      } else {
        var next := tasks[key := NewTask(plan, occurrences[0])];
        CreateTasksInserts(next, faults, plan, rest, created + 1);
        var after := CreateTasks(next, faults, plan, rest, created + 1).tasks;
        assert CreateTasks(tasks, faults, plan, occurrences, created).tasks == after;
        assert key in after && after[key] == NewTask(plan, occurrences[0]);
      }
    }
  }

  /** With a store that raises nothing the loop runs to the end and counts exactly the rows it adds. */
  lemma {:induction false} CreateTasksCounts(tasks: map<TaskKey, TreatmentTask>, plan: TreatmentPlan,
                                             occurrences: seq<DateTime>, created: nat)
    ensures CreateTasks(tasks, map[], plan, occurrences, created).created.Some?
    ensures CreateTasks(tasks, map[], plan, occurrences, created).created.value + |tasks| ==
      created + |CreateTasks(tasks, map[], plan, occurrences, created).tasks|
    decreases |occurrences|
  {
    if |occurrences| > 0 {
      var key := TaskKey(plan.id, occurrences[0]);
      if key in tasks {
        CreateTasksCounts(tasks, plan, occurrences[1..], created);
      } else {
        var next := tasks[key := NewTask(plan, occurrences[0])];
        assert |next| == |tasks| + 1;
        CreateTasksCounts(next, plan, occurrences[1..], created + 1);
      }
    }
  }

  /**
   * The loop only consults the store's faults for the plan's own keys: with none of them
   * faulty it does what it does with a store that raises nothing.
   */
  lemma {:induction false} CreateTasksUnfaulted(tasks: map<TaskKey, TreatmentTask>, faults: map<TaskKey, Fault>,
                                                plan: TreatmentPlan, occurrences: seq<DateTime>, created: nat)
    requires NoFaultsFor(faults, plan.id)
    ensures CreateTasks(tasks, faults, plan, occurrences, created) == CreateTasks(tasks, map[], plan, occurrences, created)
    decreases |occurrences|
  {
    if |occurrences| > 0 {
      var key := TaskKey(plan.id, occurrences[0]);
      assert FaultAt(faults, key) == None;
      var next := if key in tasks then tasks else tasks[key := NewTask(plan, occurrences[0])];
      var count := if key in tasks then created else created + 1;
      CreateTasksUnfaulted(next, faults, plan, occurrences[1..], count);
    }
  }

  /** A row added for a key whose save is not rejected changes no later rejection. */
  lemma {:induction false} RejectionsAfterSave(tasks: map<TaskKey, TreatmentTask>, faults: map<TaskKey, Fault>,
                                               plan: TreatmentPlan, occurrences: seq<DateTime>,
                                               key: TaskKey, task: TreatmentTask)
    requires FaultAt(faults, key) != Some(SaveRejected)
    ensures Rejections(tasks[key := task], faults, plan, occurrences) == Rejections(tasks, faults, plan, occurrences)
    decreases |occurrences|
  {
    if |occurrences| > 0 {
      RejectionsAfterSave(tasks, faults, plan, occurrences[1..], key, task);
    }
  }

  /**
   * When the only fault is a rejected save, the loop runs to the end and counts the rows it
   * adds plus each occurrence whose save the unique constraint rejected.
   */
  lemma {:induction false} CreateTasksCountsRejections(tasks: map<TaskKey, TreatmentTask>, faults: map<TaskKey, Fault>,
                                                       plan: TreatmentPlan, occurrences: seq<DateTime>, created: nat)
    requires OnlyRejections(faults)
    ensures CreateTasks(tasks, faults, plan, occurrences, created).created.Some?
    ensures CreateTasks(tasks, faults, plan, occurrences, created).created.value + |tasks| ==
      created + |CreateTasks(tasks, faults, plan, occurrences, created).tasks| + Rejections(tasks, faults, plan, occurrences)
    decreases |occurrences|
  {
    if |occurrences| > 0 {
      var key := TaskKey(plan.id, occurrences[0]);
      var fault := FaultAt(faults, key);
      var rest := occurrences[1..];
      assert fault == None || fault == Some(SaveRejected);
      if key in tasks {
        CreateTasksCountsRejections(tasks, faults, plan, rest, created);
      } else if fault == Some(SaveRejected) {
        CreateTasksCountsRejections(tasks, faults, plan, rest, created + 1);
      } else {
        var task := NewTask(plan, occurrences[0]);
        var next := tasks[key := task];
        assert |next| == |tasks| + 1;
        CreateTasksCountsRejections(next, faults, plan, rest, created + 1);
        RejectionsAfterSave(tasks, faults, plan, rest, key, task);
      }
    }
  }

  /** With a store that raises nothing every occurrence ends up with a row. */
  lemma {:induction false} CreateTasksMaterializes(tasks: map<TaskKey, TreatmentTask>, plan: TreatmentPlan,
                                                   occurrences: seq<DateTime>, created: nat)
    ensures Materialized(CreateTasks(tasks, map[], plan, occurrences, created).tasks, plan, occurrences)
    decreases |occurrences|
  {
    if |occurrences| > 0 {
      var key := TaskKey(plan.id, occurrences[0]);
      var next := if key in tasks then tasks else tasks[key := NewTask(plan, occurrences[0])];
      var count := if key in tasks then created else created + 1;
      assert CreateTasks(tasks, map[], plan, occurrences, created) == CreateTasks(next, map[], plan, occurrences[1..], count);
      CreateTasksMaterializes(next, plan, occurrences[1..], count);
      CreateTasksInserts(next, map[], plan, occurrences[1..], count);
      assert forall t :: t in occurrences ==> t == occurrences[0] || t in occurrences[1..];
    }
  }

  /**
   * Deduplication: when every occurrence already has a row the loop changes nothing and counts
   * nothing, whatever the store would raise on a save.
   */
  lemma {:induction false} CreateTasksSkipsStored(tasks: map<TaskKey, TreatmentTask>, faults: map<TaskKey, Fault>,
                                                  plan: TreatmentPlan, occurrences: seq<DateTime>, created: nat)
    requires Materialized(tasks, plan, occurrences)
    ensures CreateTasks(tasks, faults, plan, occurrences, created).tasks == tasks
    ensures CreateTasks(tasks, faults, plan, occurrences, created).created.Some? ==>
      CreateTasks(tasks, faults, plan, occurrences, created).created.value == created
    decreases |occurrences|
  {
    if |occurrences| > 0 {
      assert occurrences[0] in occurrences;
      assert forall t :: t in occurrences[1..] ==> t in occurrences;
      CreateTasksSkipsStored(tasks, faults, plan, occurrences[1..], created);
    }
  }

  // ---------------------------------------------------------------------------
  // The plan loop

  lemma CoveredGrows(before: map<TaskKey, TreatmentTask>, after: map<TaskKey, TreatmentTask>,
                     parser: PatternParser, generator: OccurrenceGenerator, plan: TreatmentPlan, from: DateTime, to: DateTime)
    requires Grows(before, after) && Covered(before, parser, generator, plan, from, to)
    ensures Covered(after, parser, generator, plan, from, to)
  {
  }

  lemma GrowsTransitive(a: map<TaskKey, TreatmentTask>, b: map<TaskKey, TreatmentTask>, c: map<TaskKey, TreatmentTask>)
    requires Grows(a, b) && Grows(b, c)
    ensures Grows(a, c)
  {
  }

  /**
   * What one plan does to the table: it only inserts, and only its own tasks at the occurrences
   * its pattern expands to, which lie inside the window when the generator keeps to it.
   */
  lemma PlanRunInserts(tasks: map<TaskKey, TreatmentTask>, faults: map<TaskKey, Fault>,
                       parser: PatternParser, generator: OccurrenceGenerator,
                       plan: TreatmentPlan, from: DateTime, to: DateTime)
    ensures Grows(tasks, PlanRun(tasks, faults, parser, generator, plan, from, to).tasks)
    ensures Keyed(tasks) ==> Keyed(PlanRun(tasks, faults, parser, generator, plan, from, to).tasks)
    ensures forall k :: k in PlanRun(tasks, faults, parser, generator, plan, from, to).tasks && k !in tasks ==>
      Fits(PlanRun(tasks, faults, parser, generator, plan, from, to).tasks[k], k, parser, generator, plan, from, to)
  {
    PlanRunByOccurrences(tasks, faults, parser, generator, plan, from, to);
    var occ := PlanOccurrences(parser, generator, plan, from, to);
    if occ.Some? {
      CreateTasksInserts(tasks, faults, plan, occ.value, 0);
      var parsed := parser(plan.recurrencePattern);
      assert occ.value == generator(parsed.value, from, to, Some(plan.startTime), plan.endTime).value;
    }
  }

  /**
   * What the plan loop does to the table from plan `i` on: it only inserts, every new row is
   * the task of one of those plans at one of its occurrences (inside the window when the
   * generator keeps to it), and the total only grows.
   */
  lemma {:induction false} RunPlansInserts(tasks: map<TaskKey, TreatmentTask>, faults: map<TaskKey, Fault>,
                                           parser: PatternParser, generator: OccurrenceGenerator,
                                           plans: seq<TreatmentPlan>, from: DateTime, to: DateTime, i: nat, total: nat)
    requires i <= |plans|
    ensures Grows(tasks, RunPlans(tasks, faults, parser, generator, plans, from, to, i, total).tasks)
    ensures Keyed(tasks) ==> Keyed(RunPlans(tasks, faults, parser, generator, plans, from, to, i, total).tasks)
    ensures forall k :: k in RunPlans(tasks, faults, parser, generator, plans, from, to, i, total).tasks && k !in tasks ==>
      exists j :: i <= j < |plans| &&
        Fits(RunPlans(tasks, faults, parser, generator, plans, from, to, i, total).tasks[k], k, parser, generator, plans[j], from, to)
    ensures RunPlans(tasks, faults, parser, generator, plans, from, to, i, total).created >= total
    decreases |plans| - i
  {
    if i < |plans| {
      var o := PlanRun(tasks, faults, parser, generator, plans[i], from, to);
      var r := RunPlans(o.tasks, faults, parser, generator, plans, from, to, i + 1, total + o.created);
      assert RunPlans(tasks, faults, parser, generator, plans, from, to, i, total) == r;
      PlanRunInserts(tasks, faults, parser, generator, plans[i], from, to);
      RunPlansInserts(o.tasks, faults, parser, generator, plans, from, to, i + 1, total + o.created);
      GrowsTransitive(tasks, o.tasks, r.tasks);
      forall k | k in r.tasks && k !in tasks
        ensures exists j :: i <= j < |plans| && Fits(r.tasks[k], k, parser, generator, plans[j], from, to)
      {
        if k in o.tasks {
          assert r.tasks[k] == o.tasks[k];
          assert Fits(r.tasks[k], k, parser, generator, plans[i], from, to);
        } else {
          var j :| i + 1 <= j < |plans| && Fits(r.tasks[k], k, parser, generator, plans[j], from, to);
        }
      }
    }
  }

  /** With a store that raises nothing the total is the number of rows the run adds. */
  lemma {:induction false} RunPlansCounts(tasks: map<TaskKey, TreatmentTask>, parser: PatternParser,
                                          generator: OccurrenceGenerator, plans: seq<TreatmentPlan>,
                                          from: DateTime, to: DateTime, i: nat, total: nat)
    requires i <= |plans|
    ensures RunPlans(tasks, map[], parser, generator, plans, from, to, i, total).created + |tasks| ==
      total + |RunPlans(tasks, map[], parser, generator, plans, from, to, i, total).tasks|
    decreases |plans| - i
  {
    if i < |plans| {
      var o := PlanRun(tasks, map[], parser, generator, plans[i], from, to);
      PlanRunByOccurrences(tasks, map[], parser, generator, plans[i], from, to);
      var occ := PlanOccurrences(parser, generator, plans[i], from, to);
      if occ.Some? {
        CreateTasksCounts(tasks, plans[i], occ.value, 0);
        assert o.created == CreateTasks(tasks, map[], plans[i], occ.value, 0).created.value;
      }
      assert o.created + |tasks| == |o.tasks|;
      RunPlansCounts(o.tasks, parser, generator, plans, from, to, i + 1, total + o.created);
    }
  }

  /**
   * A plan whose pattern parses and expands, and for whose keys the store raises nothing, has
   * all its occurrences stored, whatever the store does for other plans.
   */
  lemma PlanRunCovers(tasks: map<TaskKey, TreatmentTask>, faults: map<TaskKey, Fault>,
                      parser: PatternParser, generator: OccurrenceGenerator,
                      plan: TreatmentPlan, from: DateTime, to: DateTime)
    requires NoFaultsFor(faults, plan.id)
    ensures Covered(PlanRun(tasks, faults, parser, generator, plan, from, to).tasks, parser, generator, plan, from, to)
  {
    PlanRunByOccurrences(tasks, faults, parser, generator, plan, from, to);
    var occ := PlanOccurrences(parser, generator, plan, from, to);
    if occ.Some? {
      CreateTasksUnfaulted(tasks, faults, plan, occ.value, 0);
      CreateTasksMaterializes(tasks, plan, occ.value, 0);
    }
  }

  /**
   * When the only fault is a rejected save, a plan's count is the rows it adds plus each of its
   * occurrences whose save was rejected.
   */
  lemma PlanRunCountsRejections(tasks: map<TaskKey, TreatmentTask>, faults: map<TaskKey, Fault>,
                                parser: PatternParser, generator: OccurrenceGenerator,
                                plan: TreatmentPlan, from: DateTime, to: DateTime)
    requires OnlyRejections(faults)
    ensures var o := PlanRun(tasks, faults, parser, generator, plan, from, to);
      var occ := PlanOccurrences(parser, generator, plan, from, to);
      o.created + |tasks| == |o.tasks| + (if occ.Some? then Rejections(tasks, faults, plan, occ.value) else 0)
  {
    PlanRunByOccurrences(tasks, faults, parser, generator, plan, from, to);
    var occ := PlanOccurrences(parser, generator, plan, from, to);
    if occ.Some? {
      CreateTasksCountsRejections(tasks, faults, plan, occ.value, 0);
      assert PlanRun(tasks, faults, parser, generator, plan, from, to).created ==
        CreateTasks(tasks, faults, plan, occ.value, 0).created.value;
    }
  }

  /**
   * Failure isolation: every plan from `i` on whose pattern parses and expands, and for whose
   * keys the store raises nothing, has all its occurrences stored, whatever the other plans
   * and the store do for them.
   */
  lemma {:induction false} RunPlansCovers(tasks: map<TaskKey, TreatmentTask>, faults: map<TaskKey, Fault>,
                                          parser: PatternParser, generator: OccurrenceGenerator,
                                          plans: seq<TreatmentPlan>, from: DateTime, to: DateTime, i: nat, total: nat)
    requires i <= |plans|
    ensures forall j :: i <= j < |plans| && NoFaultsFor(faults, plans[j].id) ==>
      Covered(RunPlans(tasks, faults, parser, generator, plans, from, to, i, total).tasks, parser, generator, plans[j], from, to)
    decreases |plans| - i
  {
    if i < |plans| {
      var o := PlanRun(tasks, faults, parser, generator, plans[i], from, to);
      var r := RunPlans(o.tasks, faults, parser, generator, plans, from, to, i + 1, total + o.created);
      assert RunPlans(tasks, faults, parser, generator, plans, from, to, i, total) == r;
      if NoFaultsFor(faults, plans[i].id) {
        PlanRunCovers(tasks, faults, parser, generator, plans[i], from, to);
        RunPlansInserts(o.tasks, faults, parser, generator, plans, from, to, i + 1, total + o.created);
        CoveredGrows(o.tasks, r.tasks, parser, generator, plans[i], from, to);
      }
      RunPlansCovers(o.tasks, faults, parser, generator, plans, from, to, i + 1, total + o.created);
    }
  }

  /** When every plan from `i` on is already covered, the rest of the loop changes nothing and adds nothing. */
  lemma {:induction false} RunPlansSkipsCovered(tasks: map<TaskKey, TreatmentTask>, faults: map<TaskKey, Fault>,
                                                parser: PatternParser, generator: OccurrenceGenerator,
                                                plans: seq<TreatmentPlan>, from: DateTime, to: DateTime, i: nat, total: nat)
    requires i <= |plans|
    requires forall j :: i <= j < |plans| ==> Covered(tasks, parser, generator, plans[j], from, to)
    ensures RunPlans(tasks, faults, parser, generator, plans, from, to, i, total) == PlanOutcome(tasks, total)
    decreases |plans| - i
  {
    if i < |plans| {
      PlanRunByOccurrences(tasks, faults, parser, generator, plans[i], from, to);
      var occ := PlanOccurrences(parser, generator, plans[i], from, to);
      if occ.Some? {
        CreateTasksSkipsStored(tasks, faults, plans[i], occ.value, 0);
      }
      assert PlanRun(tasks, faults, parser, generator, plans[i], from, to) == PlanOutcome(tasks, 0);
      RunPlansSkipsCovered(tasks, faults, parser, generator, plans, from, to, i + 1, total);
    }
  }

  // ---------------------------------------------------------------------------
  // A whole run

  /**
   * A run only inserts, and every row it adds is the ACTIVE task of a plan that is active at
   * `now`, at one of that plan's occurrences; when the generator keeps to the window, that start
   * lies in [now, now + lookAheadHours) and not after the plan's end.
   */
  lemma RunInserts(tasks: map<TaskKey, TreatmentTask>, faults: map<TaskKey, Fault>,
                   parser: PatternParser, generator: OccurrenceGenerator,
                   plans: seq<TreatmentPlan>, now: DateTime, lookAheadHours: int)
    requires ValidDateTime(now)
    ensures Grows(tasks, Run(tasks, faults, parser, generator, plans, now, lookAheadHours).tasks)
    ensures Keyed(tasks) ==> Keyed(Run(tasks, faults, parser, generator, plans, now, lookAheadHours).tasks)
    ensures forall k :: k in Run(tasks, faults, parser, generator, plans, now, lookAheadHours).tasks && k !in tasks ==>
      exists plan :: plan in plans && ActiveAndValid(plan, now) &&
        Fits(Run(tasks, faults, parser, generator, plans, now, lookAheadHours).tasks[k], k, parser, generator,
             plan, now, PlusHours(now, lookAheadHours))
  {
    var active := ActiveValidPlans(plans, now);
    var to := PlusHours(now, lookAheadHours);
    RunPlansInserts(tasks, faults, parser, generator, active, now, to, 0, 0);
    var r := Run(tasks, faults, parser, generator, plans, now, lookAheadHours);
    forall k | k in r.tasks && k !in tasks
      ensures exists plan :: plan in plans && ActiveAndValid(plan, now) && Fits(r.tasks[k], k, parser, generator, plan, now, to)
    {
      var j :| 0 <= j < |active| && Fits(r.tasks[k], k, parser, generator, active[j], now, to);
      assert active[j] in active;
    }
  }

  /** With a store that raises nothing, generateTasksNow returns the number of rows it added. */
  lemma RunCounts(tasks: map<TaskKey, TreatmentTask>, parser: PatternParser, generator: OccurrenceGenerator,
                  plans: seq<TreatmentPlan>, now: DateTime, lookAheadHours: int)
    requires ValidDateTime(now)
    ensures |Run(tasks, map[], parser, generator, plans, now, lookAheadHours).tasks| ==
      |tasks| + Run(tasks, map[], parser, generator, plans, now, lookAheadHours).created
  {
    RunPlansCounts(tasks, parser, generator, ActiveValidPlans(plans, now), now, PlusHours(now, lookAheadHours), 0, 0);
  }

  /**
   * After a run, every selected plan whose pattern parses and expands, and for whose keys the
   * store raises nothing, has a row for each of its occurrences in the window.
   */
  lemma RunCovers(tasks: map<TaskKey, TreatmentTask>, faults: map<TaskKey, Fault>,
                  parser: PatternParser, generator: OccurrenceGenerator,
                  plans: seq<TreatmentPlan>, now: DateTime, lookAheadHours: int)
    requires ValidDateTime(now)
    ensures forall plan :: plan in plans && ActiveAndValid(plan, now) && NoFaultsFor(faults, plan.id) ==>
      Covered(Run(tasks, faults, parser, generator, plans, now, lookAheadHours).tasks, parser, generator, plan,
              now, PlusHours(now, lookAheadHours))
  {
    var active := ActiveValidPlans(plans, now);
    RunPlansCovers(tasks, faults, parser, generator, active, now, PlusHours(now, lookAheadHours), 0, 0);
    forall plan | plan in plans && ActiveAndValid(plan, now) && NoFaultsFor(faults, plan.id)
      ensures Covered(Run(tasks, faults, parser, generator, plans, now, lookAheadHours).tasks, parser, generator, plan,
                      now, PlusHours(now, lookAheadHours))
    {
      assert plan in active;
      var j :| 0 <= j < |active| && active[j] == plan;
    }
  }

  /**
   * Idempotence: running again at the same `now` after a run with a store that raises nothing
   * changes nothing and returns 0, whatever the store raises the second time.
   */
  lemma RunIdempotent(tasks: map<TaskKey, TreatmentTask>, faults: map<TaskKey, Fault>,
                      parser: PatternParser, generator: OccurrenceGenerator,
                      plans: seq<TreatmentPlan>, now: DateTime, lookAheadHours: int)
    requires ValidDateTime(now)
    ensures Run(Run(tasks, map[], parser, generator, plans, now, lookAheadHours).tasks, faults, parser, generator, plans, now, lookAheadHours) ==
      PlanOutcome(Run(tasks, map[], parser, generator, plans, now, lookAheadHours).tasks, 0)
  {
    var active := ActiveValidPlans(plans, now);
    var to := PlusHours(now, lookAheadHours);
    var first := Run(tasks, map[], parser, generator, plans, now, lookAheadHours).tasks;
    RunPlansCovers(tasks, map[], parser, generator, active, now, to, 0, 0);
    RunPlansSkipsCovered(first, faults, parser, generator, active, now, to, 0, 0);
  }

  /** The query returns nothing when no plan meets its condition. */
  lemma {:induction false} NothingSelected(plans: seq<TreatmentPlan>, now: DateTime)
    requires forall plan :: plan in plans ==> !ActiveAndValid(plan, now)
    ensures ActiveValidPlans(plans, now) == []
    decreases |plans|
  {
    if |plans| > 0 {
      assert plans[0] in plans;
      assert forall plan :: plan in plans[1..] ==> plan in plans;
      NothingSelected(plans[1..], now);
    }
  }

  /** When no plan is active at `now` a run changes nothing and returns 0. */
  lemma RunWithoutActivePlans(tasks: map<TaskKey, TreatmentTask>, faults: map<TaskKey, Fault>,
                              parser: PatternParser, generator: OccurrenceGenerator,
                              plans: seq<TreatmentPlan>, now: DateTime, lookAheadHours: int)
    requires ValidDateTime(now)
    requires forall plan :: plan in plans ==> !ActiveAndValid(plan, now)
    ensures Run(tasks, faults, parser, generator, plans, now, lookAheadHours) == PlanOutcome(tasks, 0)
  {
    NothingSelected(plans, now);
  }

  // ---------------------------------------------------------------------------
  // The collaborators the application wires in

  /** DefaultOccurrenceGenerator only returns occurrences inside the window and not after the plan's end. */
  lemma DefaultGeneratesWithin()
    ensures GeneratesWithin(DefaultGenerator)
  {
    forall p, from, to, planStart, planEnd, t |
      DefaultGenerator(p, from, to, planStart, planEnd).Some? && t in DefaultGenerator(p, from, to, planStart, planEnd).value
      ensures !IsBefore(t, from) && IsBefore(t, to) && (planEnd.Some? ==> !IsBefore(planEnd.value, t))
    {
      OccurrencesInWindow(p, from, to, planStart, planEnd);
    }
  }

  /** Every pattern DefaultRecurrencePatternParser returns is one DefaultOccurrenceGenerator expands without throwing. */
  lemma DefaultParserFeedsGenerator(plan: TreatmentPlan, from: DateTime, to: DateTime)
    requires ValidPlan(plan) && ValidDateTime(from) && ValidDateTime(to)
    ensures DefaultParser(plan.recurrencePattern).Success? ==>
      PlanOccurrences(DefaultParser, DefaultGenerator, plan, from, to).Some?
  {
    var parsed := DefaultParser(plan.recurrencePattern);
    if parsed.Success? {
      ParsedIsGenerable(plan.recurrencePattern);
      assert Arguments(parsed.value, from, to, Some(plan.startTime), plan.endTime);
    }
  }

  /** Every pattern parse() returns has what generate() needs of it. */
  lemma ParsedIsGenerable(text: string)
    ensures DefaultParser(text).Success? ==> Generable(DefaultParser(text).value)
  {
    var parsed := Parse(Some(text));
    assert parsed.Success? ==> Usable(parsed.value);
  }
}
