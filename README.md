# Strongbox cron tasks and last-version tags, modelled in Dafny

Strongbox is an artifact repository manager. This project models three of its
services and the form they share:

- **Cron task form validation** (`CronTaskDefinitionFormValidator`). A client
  submits a `CronTaskDefinitionForm`: a job id, a cron expression, the
  one-time and immediate flags, and name/value fields. The validator looks up
  the job definition by the trimmed id. It checks the cron expression and then
  every field of the definition's schema. It records every violation, each
  with a message and a property path, and answers true exactly when it
  recorded none.
- **Cron job scheduling** (`CronJobSchedulerServiceImpl`). A cron task
  configuration becomes a durable Quartz job. Depending on its flags, the job
  is fired at once and/or gets a cron trigger. A job can be deleted together
  with its triggers, and the script names of the Groovy jobs can be listed.
- **Last-version tagging** (`RepositoryArtifactIdGroupServiceImpl`). When an
  artifact entry joins its artifact-id group, the new entry is compared with
  the entries holding the `LAST_VERSION` tag, and the tag moves to the
  greatest coordinates.

Modules, one per file:

- `Wrappers`: `Option`. A Java reference that may be null is an `Option`.
- `StringUtils`: `isBlank` and `trimToEmpty` of commons-lang.
- `CronForms`: the form, as a class with getters and setters.
- `CronValidation`: the validator. The `Violations` function specifies it,
  the `IsValid` method implements it, and lemmas state what it accepts.
- `CronScheduling`: the scheduler service, as a class over the job registry,
  the trigger registry and the log of fired jobs. The `Schedule`, `Delete`
  and `GroovyScriptNames` functions specify it.
- `ArtifactGroups`: entries and groups as classes, and the methods that move
  the tag. A group invariant, `LastVersionOnGreatest`, says the tag sits on
  exactly the entries with the greatest coordinates.

Calls into code outside the core become parameters:

- the definitions registry is a map;
- the field type validators and autocomplete validators are predicates;
- Quartz's cron parser is the predicate `isValidCron`;
- `Class.forName` is the set of loadable job class names;
- which scheduler calls throw `SchedulerException` is a `SchedulerFaults` value;
- `compareTo` on artifact coordinates is a comparator function. Where the tag
  invariant is concerned, it must satisfy the `Comparable` contract
  (`IsComparator`).

## Model

| member | source | states |
|---|---|---|
| StringUtils.TrimToEmpty | strongbox-web-core/src/main/java/org/carlspring/strongbox/validation/cron/CronTaskDefinitionFormValidator.java:172 | null gives ""; otherwise the result is a substring of the input, surrounded only by characters up to U+0020, and it neither starts nor ends with one |
| StringUtils.TrimStart | strongbox-web-core/src/main/java/org/carlspring/strongbox/validation/cron/CronTaskDefinitionFormValidator.java:172 | the leading part of `String.trim`: it strips exactly the maximal prefix of characters up to U+0020 |
| StringUtils.TrimEnd | strongbox-web-core/src/main/java/org/carlspring/strongbox/validation/cron/CronTaskDefinitionFormValidator.java:172 | the trailing part of `String.trim`: it strips exactly the maximal suffix of characters up to U+0020 |
| StringUtils.TrimToEmptyIdempotent | strongbox-web-core/src/main/java/org/carlspring/strongbox/validation/cron/CronTaskDefinitionFormValidator.java:172 | trimming a trimmed id changes nothing |
| CronForms.CronTaskDefinitionForm.constructor | strongbox-web-forms/src/main/java/org/carlspring/strongbox/forms/cron/CronTaskDefinitionForm.java:18-26 | a new form has null id, cron expression and fields, both flags false, and `getFields` gives the empty list |
| CronForms.CronTaskDefinitionForm.SetId | strongbox-web-forms/src/main/java/org/carlspring/strongbox/forms/cron/CronTaskDefinitionForm.java:33-36 | `getId` then returns the id that was set |
| CronForms.CronTaskDefinitionForm.SetFields | strongbox-web-forms/src/main/java/org/carlspring/strongbox/forms/cron/CronTaskDefinitionForm.java:38-46 | `getFields` then returns the list that was set, or the empty list when null was set |
| CronForms.CronTaskDefinitionForm.SetCronExpression | strongbox-web-forms/src/main/java/org/carlspring/strongbox/forms/cron/CronTaskDefinitionForm.java:53-56 | `getCronExpression` then returns the expression that was set |
| CronForms.CronTaskDefinitionForm.SetOneTimeExecution | strongbox-web-forms/src/main/java/org/carlspring/strongbox/forms/cron/CronTaskDefinitionForm.java:63-66 | `isOneTimeExecution` then returns the flag that was set |
| CronForms.CronTaskDefinitionForm.SetImmediateExecution | strongbox-web-forms/src/main/java/org/carlspring/strongbox/forms/cron/CronTaskDefinitionForm.java:73-76 | `isImmediateExecution` then returns the flag that was set |
| CronValidation.CorrespondingDefinition | strongbox-web-core/src/main/java/org/carlspring/strongbox/validation/cron/CronTaskDefinitionFormValidator.java:169-182 | a definition is found if and only if the trimmed id is a registry key, and it is the one registered under that key |
| CronValidation.FindField | strongbox-web-core/src/main/java/org/carlspring/strongbox/validation/cron/CronTaskDefinitionFormValidator.java:88-102 | it answers none exactly when no submitted field has the name; otherwise it gives the index of the first field that does |
| CronValidation.FieldViolation | strongbox-web-core/src/main/java/org/carlspring/strongbox/validation/cron/CronTaskDefinitionFormValidator.java:103-163 | a schema field's violation sits at `fields` only when the field is required and missing; otherwise it sits at `fields[i].value` for the first submitted field of that name |
| CronValidation.IsValid | strongbox-web-core/src/main/java/org/carlspring/strongbox/validation/cron/CronTaskDefinitionFormValidator.java:37-167 | the violations reported are exactly those of the `Violations` specification, in order: a single "Cron job not found" for an unknown id, otherwise the cron violation, then one per failing schema field in schema order; it answers true exactly when none was reported |
| CronValidation.CheckCronExpression | strongbox-web-core/src/main/java/org/carlspring/strongbox/validation/cron/CronTaskDefinitionFormValidator.java:52-84 | the three cron checks run in order, and each runs only while the expression has not been rejected: "should not be provided", then "is required", then "is invalid" |
| CronValidation.FindCorrespondingFormField | strongbox-web-core/src/main/java/org/carlspring/strongbox/validation/cron/CronTaskDefinitionFormValidator.java:88-102 | it finds nothing (index -1) exactly when no submitted field has the name; otherwise it gives the first such field and its index |
| CronValidation.CheckField | strongbox-web-core/src/main/java/org/carlspring/strongbox/validation/cron/CronTaskDefinitionFormValidator.java:86-164 | one pass of the schema loop records exactly the violation `FieldViolation` specifies |
| CronValidation.UnknownJobIsOnlyViolation | strongbox-web-core/src/main/java/org/carlspring/strongbox/validation/cron/CronTaskDefinitionFormValidator.java:45-50 | for an id that names no definition, "Cron job not found" at `id` is the only violation; no cron or field check runs |
| CronValidation.FieldViolationsLocated | strongbox-web-core/src/main/java/org/carlspring/strongbox/validation/cron/CronTaskDefinitionFormValidator.java:103-163 | every field violation sits at `fields` or at `fields[i].value` for an index of the submitted list |
| CronValidation.FieldViolationsBounded | strongbox-web-core/src/main/java/org/carlspring/strongbox/validation/cron/CronTaskDefinitionFormValidator.java:86-164 | there are at most as many field violations as schema fields |
| CronValidation.AtMostOneCronViolation | strongbox-web-core/src/main/java/org/carlspring/strongbox/validation/cron/CronTaskDefinitionFormValidator.java:55-84 | at most one violation sits at `cronExpression`; if there is one, it comes first and carries the message of the first check that applies |
| CronValidation.ImmediateOneTimeIsRejected | strongbox-web-core/src/main/java/org/carlspring/strongbox/validation/cron/CronTaskDefinitionFormValidator.java:55-75 | for a known job, a form that is both immediate and one-time is always rejected: "should not be provided" with an expression, "is required" without one |
| CronValidation.FieldCheckOrder | strongbox-web-core/src/main/java/org/carlspring/strongbox/validation/cron/CronTaskDefinitionFormValidator.java:117-163 | for a present field, the blank, type and autocomplete checks apply in that order, and the first failure is the field's only violation |
| CronValidation.MissingFieldCheck | strongbox-web-core/src/main/java/org/carlspring/strongbox/validation/cron/CronTaskDefinitionFormValidator.java:103-115 | a missing field is a violation at `fields` exactly when it is required |
| CronValidation.AutocompleteOnlyWhenDeclared | strongbox-web-core/src/main/java/org/carlspring/strongbox/validation/cron/CronTaskDefinitionFormValidator.java:146-163 | the autocomplete validators cannot change the outcome for a field without an autocomplete source |
| CronValidation.FieldViolationNoneIff | strongbox-web-core/src/main/java/org/carlspring/strongbox/validation/cron/CronTaskDefinitionFormValidator.java:103-163 | a schema field yields no violation if and only if it is satisfied: present unless optional, and where present, non-blank when required, of its type, and among its autocomplete values |
| CronValidation.FieldViolationsEmptyIff | strongbox-web-core/src/main/java/org/carlspring/strongbox/validation/cron/CronTaskDefinitionFormValidator.java:86-164 | the schema loop records nothing if and only if no schema field yields a violation |
| CronValidation.NoViolationsIffAccepted | strongbox-web-core/src/main/java/org/carlspring/strongbox/validation/cron/CronTaskDefinitionFormValidator.java:37-167 | `isValid` answers true if and only if all of these hold: the id names a definition, the cron rule holds, and every schema field is satisfied |
| CronScheduling.CronJobSchedulerService.constructor | strongbox-cron/strongbox-cron-api/src/main/java/org/carlspring/strongbox/cron/services/impl/CronJobSchedulerServiceImpl.java:27-28 | a new scheduler has no jobs, no triggers and no fired jobs |
| CronScheduling.CronJobSchedulerService.AddJob | strongbox-cron/strongbox-cron-api/src/main/java/org/carlspring/strongbox/cron/services/impl/CronJobSchedulerServiceImpl.java:46-65 | `addJob(detail, true)` stores the configuration under its uuid, replacing any earlier one; when it throws, nothing changes |
| CronScheduling.CronJobSchedulerService.TriggerJob | strongbox-cron/strongbox-cron-api/src/main/java/org/carlspring/strongbox/cron/services/impl/CronJobSchedulerServiceImpl.java:67-84 | `triggerJob` appends the job to the fired log; when it throws, nothing changes |
| CronScheduling.CronJobSchedulerService.ScheduleTrigger | strongbox-cron/strongbox-cron-api/src/main/java/org/carlspring/strongbox/cron/services/impl/CronJobSchedulerServiceImpl.java:92-111 | `scheduleJob(trigger)` stores the trigger under its key only when the key is free; a taken key (Quartz's `ObjectAlreadyExistsException`) or a thrown `SchedulerException` changes nothing |
| CronScheduling.CronJobSchedulerService.ScheduleJob | strongbox-cron/strongbox-cron-api/src/main/java/org/carlspring/strongbox/cron/services/impl/CronJobSchedulerServiceImpl.java:30-112 | the new scheduler state and the way the call ends are those of the `Schedule` specification |
| CronScheduling.CronJobSchedulerService.DeleteJob | strongbox-cron/strongbox-cron-api/src/main/java/org/carlspring/strongbox/cron/services/impl/CronJobSchedulerServiceImpl.java:114-129 | the new state is that of `Delete`: the job and every trigger bound to it are gone, or nothing changed when the scheduler threw |
| CronScheduling.CronJobSchedulerService.GetGroovyScriptsName | strongbox-cron/strongbox-cron-api/src/main/java/org/carlspring/strongbox/cron/services/impl/CronJobSchedulerServiceImpl.java:131-173 | the result is exactly the set of `fileName` properties (null where absent) of the registered `GroovyCronJob` jobs whose detail could be read; it is empty when the job keys cannot be listed |
| CronScheduling.UnresolvedJobClassIsNoOp | strongbox-cron/strongbox-cron-api/src/main/java/org/carlspring/strongbox/cron/services/impl/CronJobSchedulerServiceImpl.java:33-44 | a job class that does not load changes nothing |
| CronScheduling.AddJobFailureIsNoOp | strongbox-cron/strongbox-cron-api/src/main/java/org/carlspring/strongbox/cron/services/impl/CronJobSchedulerServiceImpl.java:46-65 | a failed `addJob` changes nothing; the job is neither fired nor triggered |
| CronScheduling.AddedJobIsUpserted | strongbox-cron/strongbox-cron-api/src/main/java/org/carlspring/strongbox/cron/services/impl/CronJobSchedulerServiceImpl.java:46-65 | once added, the configuration is the job under its uuid, replacing any earlier one, and no other job changes |
| CronScheduling.FiredExactlyOnceWhenImmediate | strongbox-cron/strongbox-cron-api/src/main/java/org/carlspring/strongbox/cron/services/impl/CronJobSchedulerServiceImpl.java:67-84 | the fired log grows by exactly this uuid when the job was added, is immediate and `triggerJob` succeeded, and otherwise stays the same; a failed fire registers no trigger |
| CronScheduling.TriggerAttemptedIff | strongbox-cron/strongbox-cron-api/src/main/java/org/carlspring/strongbox/cron/services/impl/CronJobSchedulerServiceImpl.java:86-111 | a trigger is built if and only if the job was added and either it is not immediate, or it is immediate, was fired, and is not one-time |
| CronScheduling.RegisteredTriggerShape | strongbox-cron/strongbox-cron-api/src/main/java/org/carlspring/strongbox/cron/services/impl/CronJobSchedulerServiceImpl.java:92-111 | a successful schedule happens only for a uuid without a trigger and adds exactly one: keyed by the uuid, bound to the job, with its cron expression; every other outcome leaves the triggers unchanged |
| CronScheduling.ExistingTriggerIsKept | strongbox-cron/strongbox-cron-api/src/main/java/org/carlspring/strongbox/cron/services/impl/CronJobSchedulerServiceImpl.java:92-111 | a uuid that already has a trigger keeps it, with its old cron expression: rescheduling it never ends in a new trigger |
| CronScheduling.ScheduleKeepsConsistent | strongbox-cron/strongbox-cron-api/src/main/java/org/carlspring/strongbox/cron/services/impl/CronJobSchedulerServiceImpl.java:30-112 | scheduling keeps every trigger keyed by, and bound to, a registered job |
| CronScheduling.DeleteRemovesJobAndTriggers | strongbox-cron/strongbox-cron-api/src/main/java/org/carlspring/strongbox/cron/services/impl/CronJobSchedulerServiceImpl.java:114-129 | after a successful delete, the job is gone, no trigger is bound to it, and the other jobs stay; a failed delete changes nothing |
| CronScheduling.DeleteKeepsConsistent | strongbox-cron/strongbox-cron-api/src/main/java/org/carlspring/strongbox/cron/services/impl/CronJobSchedulerServiceImpl.java:114-129 | deleting keeps every trigger keyed by, and bound to, a registered job |
| CronScheduling.ScheduleIsIdempotent | strongbox-cron/strongbox-cron-api/src/main/java/org/carlspring/strongbox/cron/services/impl/CronJobSchedulerServiceImpl.java:30-112 | scheduling the same configuration twice without faults leaves the same jobs and triggers as scheduling it once |
| CronScheduling.OneShotIsDormant | strongbox-cron/strongbox-cron-api/src/main/java/org/carlspring/strongbox/cron/services/impl/CronJobSchedulerServiceImpl.java:67-90 | an immediate one-time job under a new uuid ends registered, fired once, and without a trigger |
| CronScheduling.NonGroovyJobKeepsScriptNames | strongbox-cron/strongbox-cron-api/src/main/java/org/carlspring/strongbox/cron/services/impl/CronJobSchedulerServiceImpl.java:131-173 | scheduling a non-Groovy job over a non-Groovy uuid leaves the listed script names unchanged |
| CronScheduling.AddedGroovyJobContributesScriptName | strongbox-cron/strongbox-cron-api/src/main/java/org/carlspring/strongbox/cron/services/impl/CronJobSchedulerServiceImpl.java:146-170 | an added Groovy job's `fileName` is listed whenever the keys and its detail can be read |
| ArtifactGroups.ComparatorReflexive | strongbox-storage/strongbox-storage-api/src/main/java/org/carlspring/strongbox/services/impl/RepositoryArtifactIdGroupServiceImpl.java:77-78 | under the `Comparable` contract, a coordinate compares equal to itself |
| ArtifactGroups.MaximumExists | strongbox-storage/strongbox-storage-api/src/main/java/org/carlspring/strongbox/services/impl/RepositoryArtifactIdGroupServiceImpl.java:111-127 | a finite, non-empty group has an entry with the greatest coordinates, so a correctly tagged group always has a holder |
| ArtifactGroups.LastVersionStaysOnGreatest | strongbox-storage/strongbox-storage-api/src/main/java/org/carlspring/strongbox/services/impl/RepositoryArtifactIdGroupServiceImpl.java:62-68 | if the tag was on exactly the greatest entries, and the holders change the way `addArtifactToGroup` changes them, then after the new entry joins, the tag is on exactly the greatest entries |
| ArtifactGroups.FindLastVersionArtifactEntries | strongbox-storage/strongbox-storage-api/src/main/java/org/carlspring/strongbox/services/impl/RepositoryArtifactIdGroupServiceImpl.java:111-127 | when some entry of the group holds the tag, the result is exactly the holders; when none does, it is the new entry alone |
| ArtifactGroups.CheckAndUpdateLastVersionTagIfNeeded | strongbox-storage/strongbox-storage-api/src/main/java/org/carlspring/strongbox/services/impl/RepositoryArtifactIdGroupServiceImpl.java:72-109 | equal coordinates tag the new entry and return it; greater ones tag it, untag the holder and return the holder; lesser ones untag the new entry and return it (stated correctly when both are the same object) |
| ArtifactGroups.UpdateLastVersionEntries | strongbox-storage/strongbox-storage-api/src/main/java/org/carlspring/strongbox/services/impl/RepositoryArtifactIdGroupServiceImpl.java:62-66 | in any visiting order, a holder loses the tag exactly when the new entry is greater and keeps its other tags; the new entry ends tagged after comparisons that all came out at least, and untagged after comparisons that all came out less |
| ArtifactGroups.UpdateLastVersionTag | strongbox-storage/strongbox-storage-api/src/main/java/org/carlspring/strongbox/services/impl/RepositoryArtifactIdGroupServiceImpl.java:57-66 | the holders, or the new entry itself when there are none, are compared with the new entry; only the tag moves, non-holders are untouched, and the holders change as `HoldersAfterJoin` describes |
| ArtifactGroups.JoinKeepsTagsMaximal | strongbox-storage/strongbox-storage-api/src/main/java/org/carlspring/strongbox/services/impl/RepositoryArtifactIdGroupServiceImpl.java:57-68 | the tag invariant on coordinates survives an entry joining when the holders change as `HoldersAfterJoin` describes |
| ArtifactGroups.JoinKeepsLastVersionOnGreatest | strongbox-storage/strongbox-storage-api/src/main/java/org/carlspring/strongbox/services/impl/RepositoryArtifactIdGroupServiceImpl.java:57-68 | the same invariant, stated on the group after the entry joined |
| ArtifactGroups.AddArtifactToGroup | strongbox-storage/strongbox-storage-api/src/main/java/org/carlspring/strongbox/services/impl/RepositoryArtifactIdGroupServiceImpl.java:50-70 | it succeeds exactly when the entry has coordinates, and otherwise nothing changes. On success: the entry joins the group; no tag other than `LAST_VERSION` changes; in a group without holders the new entry takes the tag; and, for a comparator that keeps the `Comparable` contract, if the tag sat on exactly the greatest entries, it still does |

## Left out

- Logging, the `ConstraintValidatorContext` builder chain (modelled as the sequence of violations recorded), and the `CronTaskDefinitionFormValidatorException` used for the unknown-id exit (modelled as the early return).
- Field type and autocomplete validator registries: an unregistered type tag or autocomplete source makes the source dereference null. The model treats the registries as total predicates.
- Quartz itself: the job store, trigger misfire handling, `JobDataMap` and the `JobDetail`/`Trigger` builders. Only the job registry, the trigger registry and the fired log are kept; each `SchedulerException` is a fault flag, and `CronExpression.isValidExpression` is a predicate.
- CronScheduling.CronJobSchedulerService.ScheduleJob: the unchecked exception `CronScheduleBuilder.cronSchedule` throws for a null or unparsable expression is the outcome `CronScheduleRejected`. The job stays added, and fired when immediate; it does not model how the exception propagates further.
- `shouldExecuteImmediately` of the configuration DTO is not part of this model; it is taken to be the `immediateExecution` flag.
- Rescheduling a uuid that already has a trigger keeps that trigger and its cron expression in every case: `addJob(detail, true)` replaces the job but keeps its triggers, and `scheduleJob(trigger)` fails on the taken trigger key (`ExistingTriggerIsKept`).
- A form that is immediate and one-time with a blank cron expression is rejected with "Cron expression is required" (`ImmediateOneTimeIsRejected`): the required check runs whenever the expression is blank, whatever the flags.
- `ArtifactTagService.findOneOrCreate`, `artifactEntryService.save`, `save(artifactGroup)`, the `.distinct()` of the saved entries, and persistence in general: the tag is the constant `LastVersion`, and the result of `checkAndUpdateLastVersionTagIfNeeded` is returned but not saved.
- The repository's other group operations (`findOneOrCreate`, `findOne`, `tryFind`): they are lookups and not part of the tag logic.
- Coordinates of an entry are modelled as immutable, since no operation modelled here changes them; aliasing of one entry object by two groups is not modelled.
- The order in which a Java `HashSet` stream visits the holders is left arbitrary (`:|`); every property is proved for all orders.
- Concurrency: the services are modelled as single-threaded; Quartz's locking and the database transactions are left out.
- Version comparison of coordinates is an abstract comparator. The group invariant lemmas, and the invariant clause of `AddArtifactToGroup`, assume it satisfies the `Comparable` contract (`IsComparator`); the tag-moving methods assume only that it is reflexive at the new entry's coordinates.
- ArtifactGroups.AddArtifactToGroup: requires coordinates on every entry already in the group, while the code checks them only for the new entry; this holds because every entry joins a group through `addArtifactToGroup`, and a group built otherwise is not modelled.
