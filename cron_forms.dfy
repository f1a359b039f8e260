/**
 * `CronTaskDefinitionForm`: the record a client submits to create or replace a
 * cron task. Its getters are pure reads; `getFields` turns a null list into the
 * empty list. Every Java reference that may be null is an `Option`.
 */
module CronForms {
  import opened Wrappers

  /** One submitted name/value pair (`CronTaskDefinitionFormField`). */
  datatype FormField = FormField(name: Option<string>, value: Option<string>)

  /** What the validator reads from a form, through its getters. */
  datatype FormData = FormData(
    id: Option<string>,
    cronExpression: Option<string>,
    oneTimeExecution: bool,
    immediateExecution: bool,
    fields: seq<FormField>)

  class CronTaskDefinitionForm {
    var id: Option<string>
    var cronExpression: Option<string>
    var oneTimeExecution: bool
    var immediateExecution: bool
    var fields: Option<seq<FormField>>

    /** A fresh form: every reference null, both flags false. */
    constructor ()
      ensures id == None && cronExpression == None && fields == None
      ensures !oneTimeExecution && !immediateExecution
      ensures GetFields() == []
    {
      id := None;
      cronExpression := None;
      oneTimeExecution := false;
      immediateExecution := false;
      fields := None;
    }

    function GetId(): Option<string>
      reads this
    {
      id
    }

    method SetId(id: Option<string>)
      modifies this`id
      ensures GetId() == id
    {
      this.id := id;
    }

    /** `getFields`: `defaultIfNull(fields, emptyList())`. */
    function GetFields(): seq<FormField>
      reads this
    {
      match fields
      case None => []
      case Some(l) => l
    }

    method SetFields(fields: Option<seq<FormField>>)
      modifies this`fields
      ensures fields.Some? ==> GetFields() == fields.value
      ensures fields.None? ==> GetFields() == []
    {
      this.fields := fields;
    }

    function GetCronExpression(): Option<string>
      reads this
    {
      cronExpression
    }

    method SetCronExpression(cronExpression: Option<string>)
      modifies this`cronExpression
      ensures GetCronExpression() == cronExpression
    {
      this.cronExpression := cronExpression;
    }

    function IsOneTimeExecution(): bool
      reads this
    {
      oneTimeExecution
    }

    method SetOneTimeExecution(oneTimeExecution: bool)
      modifies this`oneTimeExecution
      ensures IsOneTimeExecution() == oneTimeExecution
    {
      this.oneTimeExecution := oneTimeExecution;
    }

    function IsImmediateExecution(): bool
      reads this
    {
      immediateExecution
    }

    method SetImmediateExecution(immediateExecution: bool)
      modifies this`immediateExecution
      ensures IsImmediateExecution() == immediateExecution
    {
      this.immediateExecution := immediateExecution;
    }

    /** The form as its getters present it. */
    function Data(): FormData
      reads this
    {
      FormData(id, cronExpression, oneTimeExecution, immediateExecution, GetFields())
    }
  }
}
