/**
 * `CronJobSchedulerServiceImpl`: turns a cron task configuration into a durable
 * job and, where the configuration asks for it, a cron trigger, in the
 * scheduler's registries keyed by the configuration's uuid.
 *
 * The scheduler is a class over the three things its calls change: the job
 * registry, the trigger registry and the log of jobs fired on request. Which
 * scheduler calls throw a `SchedulerException` is not up to the service, so it
 * is a parameter (`SchedulerFaults`); so is `Class.forName` (the set of job
 * class names that load) and the cron parser's verdict (`isValidCron`).
 */
module CronScheduling {
  import opened Wrappers

  type Uuid = string

  /** Canonical name of `GroovyCronJob`, whose jobs run an uploaded script. */
  const GROOVY_CRON_JOB := "org.carlspring.strongbox.cron.jobs.GroovyCronJob"

  /** The property of a Groovy job's configuration that names its script. */
  const FILE_NAME := "fileName"

  /** The fields of `CronTaskConfigurationDto` that the service reads. */
  datatype CronTaskConfiguration = CronTaskConfiguration(
    uuid: Uuid,
    jobClass: string,
    cronExpression: Option<string>,
    oneTimeExecution: bool,
    immediateExecution: bool,
    properties: map<string, string>)

  /** A cron trigger, named by a uuid, bound to the job with key `job`. */
  datatype CronTrigger = CronTrigger(job: Uuid, cronExpression: string)

  /** The scheduler's state: jobs (each holding its configuration under key
      "config"), triggers, and the jobs fired by `triggerJob`, in order. */
  datatype Registry = Registry(
    jobs: map<Uuid, CronTaskConfiguration>,
    triggers: map<Uuid, CronTrigger>,
    fired: seq<Uuid>)

  /** Which of the scheduler calls of one `scheduleJob` throw. */
  datatype SchedulerFaults = SchedulerFaults(addJob: bool, triggerJob: bool, scheduleJob: bool)

  /** How `scheduleJob` ends. `CronScheduleRejected` is the unchecked exception
      `CronScheduleBuilder.cronSchedule` throws for a null or unparsable
      expression; it is not caught and leaves the method. Every other outcome is
      a normal return (the failures are only logged). */
  datatype ScheduleOutcome =
    | JobClassNotFound
    | AddJobFailed
    | TriggerJobFailed
    | FiredOnly
    | CronScheduleRejected
    | ScheduleJobFailed
    | Scheduled

  /** `shouldExecuteImmediately()` of the configuration. */
  predicate ShouldExecuteImmediately(config: CronTaskConfiguration)
  {
    config.immediateExecution
  }

  /** The state after `scheduleJob`, and how it ended. */
  function Schedule(
    r: Registry,
    jobClasses: set<string>,
    config: CronTaskConfiguration,
    faults: SchedulerFaults,
    isValidCron: string -> bool)
    : (Registry, ScheduleOutcome)
  {
    if config.jobClass !in jobClasses then (r, JobClassNotFound)
    else if faults.addJob then (r, AddJobFailed)
    else
      var added := r.(jobs := r.jobs[config.uuid := config]);
      if ShouldExecuteImmediately(config) && faults.triggerJob then (added, TriggerJobFailed)
      else
        var afterFire := if ShouldExecuteImmediately(config) then added.(fired := added.fired + [config.uuid]) else added;
        if ShouldExecuteImmediately(config) && config.oneTimeExecution then (afterFire, FiredOnly)
        else if config.cronExpression.None? || !isValidCron(config.cronExpression.value) then
          (afterFire, CronScheduleRejected)
        // `scheduleJob(trigger)` refuses a trigger key that is already taken
        else if faults.scheduleJob || config.uuid in afterFire.triggers then (afterFire, ScheduleJobFailed)
        else
          (afterFire.(triggers := afterFire.triggers[config.uuid := CronTrigger(config.uuid, config.cronExpression.value)]),
           Scheduled)
  }

  /** `Scheduler.deleteJob` removes the job and every trigger bound to it; when
      it throws, nothing changes. */
  function Delete(r: Registry, uuid: Uuid, fails: bool): Registry
  {
    if fails then r
    else
      r.(jobs := r.jobs - {uuid},
         triggers := map k | k in r.triggers && r.triggers[k].job != uuid :: r.triggers[k])
  }

  /** The configuration of a job contributes a script name when its detail can
      be read and its job class is `GroovyCronJob`. */
  predicate ContributesScriptName(r: Registry, detailFails: set<Uuid>, key: Uuid)
  {
    key in r.jobs && key !in detailFails && r.jobs[key].jobClass == GROOVY_CRON_JOB
  }

  /** `getProperties().get("fileName")`: null when the property is absent. */
  function FileName(config: CronTaskConfiguration): Option<string>
  {
    if FILE_NAME in config.properties then Some(config.properties[FILE_NAME]) else None
  }

  /** The names contributed by the jobs whose keys are in `keys`. */
  function ScriptNamesOf(r: Registry, detailFails: set<Uuid>, keys: set<Uuid>): set<Option<string>>
  {
    set k | k in keys && ContributesScriptName(r, detailFails, k) :: FileName(r.jobs[k])
  }

  /** What `getGroovyScriptsName` returns: nothing when the job keys cannot be
      listed, otherwise the names the registered jobs contribute. */
  function GroovyScriptNames(r: Registry, keysFail: bool, detailFails: set<Uuid>): set<Option<string>>
  {
    if keysFail then {} else ScriptNamesOf(r, detailFails, r.jobs.Keys)
  }

  /** Every trigger is keyed by the uuid of the job it is bound to, and that job
      is registered. */
  ghost predicate Consistent(r: Registry)
  {
    forall k :: k in r.triggers ==> r.triggers[k].job == k && k in r.jobs
  }

  // ---------------------------------------------------------------------------
  // What the scheduler promises
  // ---------------------------------------------------------------------------

  /** An unresolvable job class changes nothing. */
  lemma UnresolvedJobClassIsNoOp(
    r: Registry, jobClasses: set<string>, config: CronTaskConfiguration,
    faults: SchedulerFaults, isValidCron: string -> bool)
    requires config.jobClass !in jobClasses
    ensures Schedule(r, jobClasses, config, faults, isValidCron) == (r, JobClassNotFound)
  {
  }

  /** A failed `addJob` changes nothing: the job is neither fired nor triggered. */
  lemma AddJobFailureIsNoOp(
    r: Registry, jobClasses: set<string>, config: CronTaskConfiguration,
    faults: SchedulerFaults, isValidCron: string -> bool)
    requires config.jobClass in jobClasses && faults.addJob
    ensures Schedule(r, jobClasses, config, faults, isValidCron) == (r, AddJobFailed)
  {
  }

  /** Once added, the job under the configuration's uuid is this configuration,
      replacing any earlier one; no other job changes, whatever happens next. */
  lemma AddedJobIsUpserted(
    r: Registry, jobClasses: set<string>, config: CronTaskConfiguration,
    faults: SchedulerFaults, isValidCron: string -> bool)
    requires config.jobClass in jobClasses && !faults.addJob
    ensures var (r', _) := Schedule(r, jobClasses, config, faults, isValidCron);
            && r'.jobs.Keys == r.jobs.Keys + {config.uuid}
            && r'.jobs[config.uuid] == config
            && forall k :: k in r.jobs && k != config.uuid ==> r'.jobs[k] == r.jobs[k]
  {
  }

  /** A job to be executed immediately is fired exactly once (unless firing
      fails); no other job is ever fired; a failed fire registers no trigger. */
  lemma FiredExactlyOnceWhenImmediate(
    r: Registry, jobClasses: set<string>, config: CronTaskConfiguration,
    faults: SchedulerFaults, isValidCron: string -> bool)
    ensures var (r', outcome) := Schedule(r, jobClasses, config, faults, isValidCron);
            r'.fired == (if config.jobClass in jobClasses && !faults.addJob
                            && config.immediateExecution && !faults.triggerJob
                         then r.fired + [config.uuid] else r.fired)
    ensures var (r', outcome) := Schedule(r, jobClasses, config, faults, isValidCron);
            outcome == TriggerJobFailed ==> r'.triggers == r.triggers
  {
  }

  /** A trigger registration is attempted exactly when the job was added and the
      configuration is not immediate, or is immediate, fired, and not one-time. */
  lemma TriggerAttemptedIff(
    r: Registry, jobClasses: set<string>, config: CronTaskConfiguration,
    faults: SchedulerFaults, isValidCron: string -> bool)
    ensures var (_, outcome) := Schedule(r, jobClasses, config, faults, isValidCron);
            outcome in {CronScheduleRejected, ScheduleJobFailed, Scheduled}
            <==>
            && config.jobClass in jobClasses
            && !faults.addJob
            && (!config.immediateExecution || (!faults.triggerJob && !config.oneTimeExecution))
  {
  }

  /** The only trigger ever registered is keyed by the configuration's uuid, is
      bound to that job and carries the configuration's cron expression; the
      other triggers are left as they were. */
  lemma RegisteredTriggerShape(
    r: Registry, jobClasses: set<string>, config: CronTaskConfiguration,
    faults: SchedulerFaults, isValidCron: string -> bool)
    ensures var (r', outcome) := Schedule(r, jobClasses, config, faults, isValidCron);
            && (outcome == Scheduled ==>
                  && config.cronExpression.Some?
                  && config.uuid !in r.triggers
                  && r'.triggers == r.triggers[config.uuid := CronTrigger(config.uuid, config.cronExpression.value)])
            && (outcome != Scheduled ==> r'.triggers == r.triggers)
  {
  }

  /** A uuid that already has a trigger keeps it, with its old cron expression,
      however the configuration changed: rescheduling never ends `Scheduled`. */
  lemma ExistingTriggerIsKept(
    r: Registry, jobClasses: set<string>, config: CronTaskConfiguration,
    faults: SchedulerFaults, isValidCron: string -> bool)
    requires config.uuid in r.triggers
    ensures var (r', outcome) := Schedule(r, jobClasses, config, faults, isValidCron);
            && outcome != Scheduled
            && r'.triggers == r.triggers
  {
  }

  /** Scheduling keeps every trigger bound to a registered job of its own key. */
  lemma ScheduleKeepsConsistent(
    r: Registry, jobClasses: set<string>, config: CronTaskConfiguration,
    faults: SchedulerFaults, isValidCron: string -> bool)
    requires Consistent(r)
    ensures Consistent(Schedule(r, jobClasses, config, faults, isValidCron).0)
  {
  }

  /** A successful delete leaves neither the job nor a trigger bound to it; the
      other jobs stay. A failed one changes nothing. */
  lemma DeleteRemovesJobAndTriggers(r: Registry, uuid: Uuid, fails: bool)
    ensures fails ==> Delete(r, uuid, fails) == r
    ensures !fails ==>
              && uuid !in Delete(r, uuid, fails).jobs
              && (forall k :: k in Delete(r, uuid, fails).triggers ==> Delete(r, uuid, fails).triggers[k].job != uuid)
              && (forall k :: k in r.jobs && k != uuid ==> k in Delete(r, uuid, fails).jobs)
    ensures Consistent(r) && !fails ==> uuid !in Delete(r, uuid, fails).triggers
  {
  }

  lemma DeleteKeepsConsistent(r: Registry, uuid: Uuid, fails: bool)
    requires Consistent(r)
    ensures Consistent(Delete(r, uuid, fails))
  {
  }

  /** Scheduling the same configuration twice without failures leaves the same
      jobs and triggers as scheduling it once. */
  lemma ScheduleIsIdempotent(
    r: Registry, jobClasses: set<string>, config: CronTaskConfiguration, isValidCron: string -> bool)
    ensures var none := SchedulerFaults(false, false, false);
            var once := Schedule(r, jobClasses, config, none, isValidCron).0;
            var twice := Schedule(once, jobClasses, config, none, isValidCron).0;
            twice.jobs == once.jobs && twice.triggers == once.triggers
  {
  }

  /** An immediate one-time configuration of a new uuid ends registered, fired
      once, and without a trigger. */
  lemma OneShotIsDormant(
    r: Registry, jobClasses: set<string>, config: CronTaskConfiguration, isValidCron: string -> bool)
    requires Consistent(r) && config.uuid !in r.jobs
    requires config.jobClass in jobClasses
    requires config.immediateExecution && config.oneTimeExecution
    ensures var (r', outcome) := Schedule(r, jobClasses, config, SchedulerFaults(false, false, false), isValidCron);
            && outcome == FiredOnly
            && config.uuid in r'.jobs
            && config.uuid !in r'.triggers
            && r'.fired == r.fired + [config.uuid]
  {
  }

  /** Scheduling a job that is not a Groovy job, under a uuid that holds no Groovy
      job, leaves the script names as they were. */
  lemma NonGroovyJobKeepsScriptNames(
    r: Registry, jobClasses: set<string>, config: CronTaskConfiguration,
    faults: SchedulerFaults, isValidCron: string -> bool,
    keysFail: bool, detailFails: set<Uuid>)
    requires config.jobClass != GROOVY_CRON_JOB
    requires config.uuid in r.jobs ==> r.jobs[config.uuid].jobClass != GROOVY_CRON_JOB
    ensures GroovyScriptNames(Schedule(r, jobClasses, config, faults, isValidCron).0, keysFail, detailFails)
         == GroovyScriptNames(r, keysFail, detailFails)
  {
    var r' := Schedule(r, jobClasses, config, faults, isValidCron).0;
    forall k ensures ContributesScriptName(r', detailFails, k) <==> ContributesScriptName(r, detailFails, k)
    {
    }
    forall k | ContributesScriptName(r, detailFails, k) ensures r'.jobs[k] == r.jobs[k] {
    }
    assert ScriptNamesOf(r', detailFails, r'.jobs.Keys) == ScriptNamesOf(r, detailFails, r.jobs.Keys);
  }

  /** A Groovy job that was added contributes its script name, as long as the
      job keys and its detail can be read. */
  lemma AddedGroovyJobContributesScriptName(
    r: Registry, jobClasses: set<string>, config: CronTaskConfiguration,
    faults: SchedulerFaults, isValidCron: string -> bool, detailFails: set<Uuid>)
    requires config.jobClass == GROOVY_CRON_JOB && config.jobClass in jobClasses
    requires !faults.addJob && config.uuid !in detailFails
    ensures FileName(config) in GroovyScriptNames(Schedule(r, jobClasses, config, faults, isValidCron).0, false, detailFails)
  {
    var r' := Schedule(r, jobClasses, config, faults, isValidCron).0;
    assert ContributesScriptName(r', detailFails, config.uuid);
  }

  class CronJobSchedulerService {
    /** The class names `Class.forName` resolves to a job class. */
    const jobClasses: set<string>
    var jobs: map<Uuid, CronTaskConfiguration>
    var triggers: map<Uuid, CronTrigger>
    var fired: seq<Uuid>

    function State(): Registry
      reads this
    {
      Registry(jobs, triggers, fired)
    }

    constructor (jobClasses: set<string>)
      ensures this.jobClasses == jobClasses
      ensures State() == Registry(map[], map[], [])
    {
      this.jobClasses := jobClasses;
      jobs := map[];
      triggers := map[];
      fired := [];
    }

    /** `addJob(jobDetail, true)`: a durable job, replacing any under the same key. */
    method AddJob(config: CronTaskConfiguration, fails: bool) returns (ok: bool)
      modifies this`jobs
      ensures ok == !fails
      ensures jobs == if ok then old(jobs)[config.uuid := config] else old(jobs)
    {
      if fails {
        return false;
      }
      jobs := jobs[config.uuid := config];
      return true;
    }

    /** `triggerJob(jobKey)`: fire the job once, now. */
    method TriggerJob(uuid: Uuid, fails: bool) returns (ok: bool)
      modifies this`fired
      ensures ok == !fails
      ensures fired == if ok then old(fired) + [uuid] else old(fired)
    {
      if fails {
        return false;
      }
      fired := fired + [uuid];
      return true;
    }

    /** `scheduleJob(trigger)`: register a trigger under its own key. The key
        must be free: a taken one raises `ObjectAlreadyExistsException`. */
    method ScheduleTrigger(key: Uuid, trigger: CronTrigger, fails: bool) returns (ok: bool)
      modifies this`triggers
      ensures ok == (!fails && key !in old(triggers))
      ensures key in old(triggers) ==> !ok && triggers == old(triggers)
      ensures triggers == if ok then old(triggers)[key := trigger] else old(triggers)
    {
      if fails || key in triggers {
        return false;
      }
      triggers := triggers[key := trigger];
      return true;
    }

    method ScheduleJob(config: CronTaskConfiguration, faults: SchedulerFaults, isValidCron: string -> bool)
      returns (outcome: ScheduleOutcome)
      modifies this
      ensures (State(), outcome) == Schedule(old(State()), jobClasses, config, faults, isValidCron)
    {
      var jobClassName := config.jobClass;
      if jobClassName !in jobClasses {
        return JobClassNotFound;
      }

      var jobKey := config.uuid;
      var added := AddJob(config, faults.addJob);
      if !added {
        return AddJobFailed;
      }

      var scheduleJob := true;

      if ShouldExecuteImmediately(config) {
        var triggered := TriggerJob(jobKey, faults.triggerJob);
        if !triggered {
          return TriggerJobFailed;
        }
        scheduleJob := !config.oneTimeExecution;
      }

      if !scheduleJob {
        return FiredOnly;
      }

      var triggerKey := config.uuid;
      var cronExpression := config.cronExpression;
      if cronExpression.None? || !isValidCron(cronExpression.value) {
        return CronScheduleRejected;
      }
      var trigger := CronTrigger(jobKey, cronExpression.value);

      var scheduled := ScheduleTrigger(triggerKey, trigger, faults.scheduleJob);
      if !scheduled {
        return ScheduleJobFailed;
      }
      return Scheduled;
    }

    /** `deleteJob`: never raises; a failure of the scheduler is swallowed. */
    method DeleteJob(cronTaskConfigurationUuid: Uuid, fails: bool)
      modifies this
      ensures State() == Delete(old(State()), cronTaskConfigurationUuid, fails)
    {
      var jobKey := cronTaskConfigurationUuid;
      if !fails {
        jobs := jobs - {jobKey};
        triggers := map k | k in triggers && triggers[k].job != jobKey :: triggers[k];
      }
    }

    /** `getGroovyScriptsName`: visits the job keys in any order. */
    method GetGroovyScriptsName(keysFail: bool, detailFails: set<Uuid>)
      returns (groovyScriptNames: set<Option<string>>)
      ensures groovyScriptNames == GroovyScriptNames(State(), keysFail, detailFails)
    {
      groovyScriptNames := {};
      if keysFail {
        return;
      }
      var jobKeySet := jobs.Keys;
      var remaining := jobKeySet;
      while remaining != {}
        invariant remaining <= jobKeySet
        invariant groovyScriptNames == ScriptNamesOf(State(), detailFails, jobKeySet - remaining)
        decreases remaining
      {
        var jobKey :| jobKey in remaining;
        ghost var done := jobKeySet - remaining;
        remaining := remaining - {jobKey};
        assert jobKeySet - remaining == done + {jobKey};
        if jobKey in detailFails {
          assert ScriptNamesOf(State(), detailFails, done + {jobKey}) == ScriptNamesOf(State(), detailFails, done);
          continue;
        }
        var configuration := jobs[jobKey];
        if configuration.jobClass != GROOVY_CRON_JOB {
          assert ScriptNamesOf(State(), detailFails, done + {jobKey}) == ScriptNamesOf(State(), detailFails, done);
          continue;
        }
        var groovyScriptName := FileName(configuration);
        groovyScriptNames := groovyScriptNames + {groovyScriptName};
        assert ScriptNamesOf(State(), detailFails, done + {jobKey})
            == ScriptNamesOf(State(), detailFails, done) + {groovyScriptName};
      }
    }
  }
}
