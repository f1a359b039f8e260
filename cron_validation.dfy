/**
 * `CronTaskDefinitionFormValidator.isValid`: checks a submitted form against the
 * schema of the cron job definition its id names. It does not stop at the first
 * problem; it records every violation (a message and a property locator) and
 * answers true exactly when it recorded none.
 *
 * The libraries it calls are parameters: the definitions registry is a map from
 * id to definition, the field type validators and the autocomplete validators are
 * predicates over (type tag or autocomplete source, submitted value), and Quartz's
 * `CronExpression.isValidExpression` is the predicate `isValidCron`.
 */
module CronValidation {
  import opened Wrappers
  import opened StringUtils
  import opened CronForms

  /** One declared parameter of a job kind (`CronJobField`). */
  datatype CronJobField = CronJobField(
    name: string,
    fieldType: string,
    required: bool,
    autocompleteValue: Option<string>)

  /** A registered job kind (`CronJobDefinition`): its ordered schema. */
  datatype CronJobDefinition = CronJobDefinition(fields: seq<CronJobField>)

  /** Where a violation is reported: `id`, `cronExpression`, `fields`, or `fields[i].value`. */
  datatype Locator = IdPath | CronExpressionPath | FieldsPath | FieldValuePath(index: nat)

  datatype Violation = Violation(message: string, locator: Locator)

  const JOB_NOT_FOUND := "Cron job not found"
  const CRON_NOT_EXPECTED :=
    "Cron expression should not be provided when both immediateExecution and oneTimeExecution are set to true"
  const CRON_REQUIRED := "Cron expression is required"
  const CRON_INVALID := "Cron expression is invalid"

  /** `String.format("%s", v)`: a null prints as "null". */
  function Show(v: Option<string>): string
  {
    match v
    case None => "null"
    case Some(s) => s
  }

  function RequiredFieldMessage(name: string): string
  {
    "Required field [" + name + "] not provided"
  }

  function RequiredValueMessage(name: string): string
  {
    "Required field value [" + name + "] not provided"
  }

  function InvalidTypeMessage(value: Option<string>, fieldType: string): string
  {
    "Invalid value [" + Show(value) + "] type provided. [" + fieldType + "] was expected."
  }

  function InvalidAutocompleteMessage(value: Option<string>): string
  {
    "Invalid value [" + Show(value) + "] provided. Possible values do not contain this value."
  }

  // ---------------------------------------------------------------------------
  // Specification of the checks
  // ---------------------------------------------------------------------------

  /** `getCorrespondingCronJobDefinition`: the definition registered under the trimmed id. */
  function CorrespondingDefinition(form: FormData, registry: map<string, CronJobDefinition>)
    : (r: Option<CronJobDefinition>)
    ensures r.Some? <==> TrimToEmpty(form.id) in registry
    ensures r.Some? ==> r.value == registry[TrimToEmpty(form.id)]
  {
    var id := TrimToEmpty(form.id);
    if id in registry then Some(registry[id]) else None
  }

  /** The cron expression rule: the first applicable of three checks, or none. */
  function CronViolations(form: FormData, isValidCron: string -> bool): seq<Violation>
  {
    if form.immediateExecution && form.oneTimeExecution && !IsBlank(form.cronExpression) then
      [Violation(CRON_NOT_EXPECTED, CronExpressionPath)]
    else if IsBlank(form.cronExpression) then
      [Violation(CRON_REQUIRED, CronExpressionPath)]
    else if !isValidCron(form.cronExpression.value) then
      [Violation(CRON_INVALID, CronExpressionPath)]
    else
      []
  }

  /** Index `i` holds the first submitted field called `name`. */
  predicate IsFirstMatch(fields: seq<FormField>, name: string, i: int)
  {
    && 0 <= i < |fields|
    && fields[i].name == Some(name)
    && forall j :: 0 <= j < i ==> fields[j].name != Some(name)
  }

  /** No submitted field is called `name`. */
  predicate NoMatch(fields: seq<FormField>, name: string)
  {
    forall j :: 0 <= j < |fields| ==> fields[j].name != Some(name)
  }

  /** There is only one first match. */
  lemma FirstMatchUnique(fields: seq<FormField>, name: string, i: int, j: int)
    requires IsFirstMatch(fields, name, i) && IsFirstMatch(fields, name, j)
    ensures i == j
  {
  }

  /** The inner search of `isValid`: the index of the first field with this name. */
  function FindField(fields: seq<FormField>, name: string): (r: Option<nat>)
    ensures r.None? <==> NoMatch(fields, name)
    ensures r.Some? ==> IsFirstMatch(fields, name, r.value)
  {
    if fields == [] then None
    else if fields[0].name == Some(name) then Some(0)
    else
      match FindField(fields[1..], name)
      case None => None
      case Some(k) => Some(k + 1)
  }

  /** The checks for one schema field: missing, blank, type, autocomplete; the
      first that fails is the field's only violation. */
  function FieldViolation(
    field: CronJobField,
    fields: seq<FormField>,
    typeValid: (string, Option<string>) -> bool,
    autocompleteValid: (string, Option<string>) -> bool)
    : (r: Option<Violation>)
    ensures r.Some? ==> r.value.locator.FieldsPath? || r.value.locator.FieldValuePath?
    ensures r.Some? && r.value.locator.FieldsPath? ==> field.required && NoMatch(fields, field.name)
    ensures r.Some? && r.value.locator.FieldValuePath? ==>
              IsFirstMatch(fields, field.name, r.value.locator.index)
  {
    match FindField(fields, field.name)
    case None =>
      if field.required then Some(Violation(RequiredFieldMessage(field.name), FieldsPath)) else None
    case Some(i) =>
      var value := fields[i].value;
      if IsBlank(value) && field.required then
        Some(Violation(RequiredValueMessage(field.name), FieldValuePath(i)))
      else if !typeValid(field.fieldType, value) then
        Some(Violation(InvalidTypeMessage(value, field.fieldType), FieldValuePath(i)))
      else if field.autocompleteValue.Some? && !autocompleteValid(field.autocompleteValue.value, value) then
        Some(Violation(InvalidAutocompleteMessage(value), FieldValuePath(i)))
      else
        None
  }

  function OptionToSeq<T>(o: Option<T>): seq<T>
  {
    match o
    case None => []
    case Some(x) => [x]
  }

  /** The violations of the schema fields, in schema order. */
  function FieldViolations(
    schema: seq<CronJobField>,
    fields: seq<FormField>,
    typeValid: (string, Option<string>) -> bool,
    autocompleteValid: (string, Option<string>) -> bool)
    : seq<Violation>
  {
    if schema == [] then []
    else
      FieldViolations(schema[..|schema| - 1], fields, typeValid, autocompleteValid)
      + OptionToSeq(FieldViolation(schema[|schema| - 1], fields, typeValid, autocompleteValid))
  }

  lemma FieldViolationsStep(
    schema: seq<CronJobField>,
    d: nat,
    fields: seq<FormField>,
    typeValid: (string, Option<string>) -> bool,
    autocompleteValid: (string, Option<string>) -> bool)
    requires d < |schema|
    ensures FieldViolations(schema[..d + 1], fields, typeValid, autocompleteValid)
         == FieldViolations(schema[..d], fields, typeValid, autocompleteValid)
            + OptionToSeq(FieldViolation(schema[d], fields, typeValid, autocompleteValid))
  {
    assert schema[..d + 1][..d] == schema[..d];
  }

  /** Everything `isValid` records for a form, in the order it records it. */
  function Violations(
    form: FormData,
    registry: map<string, CronJobDefinition>,
    typeValid: (string, Option<string>) -> bool,
    autocompleteValid: (string, Option<string>) -> bool,
    isValidCron: string -> bool)
    : seq<Violation>
  {
    match CorrespondingDefinition(form, registry)
    case None => [Violation(JOB_NOT_FOUND, IdPath)]
    case Some(definition) =>
      CronViolations(form, isValidCron)
      + FieldViolations(definition.fields, form.fields, typeValid, autocompleteValid)
  }

  // ---------------------------------------------------------------------------
  // The validator
  // ---------------------------------------------------------------------------

  /** `isValid`: the violations it reports are exactly `Violations`, and it
      answers true exactly when there are none. */
  method IsValid(
    form: CronTaskDefinitionForm,
    registry: map<string, CronJobDefinition>,
    typeValid: (string, Option<string>) -> bool,
    autocompleteValid: (string, Option<string>) -> bool,
    isValidCron: string -> bool)
    returns (valid: bool, violations: seq<Violation>)
    ensures violations == Violations(form.Data(), registry, typeValid, autocompleteValid, isValidCron)
    ensures valid <==> violations == []
  {
    violations := [];
    ghost var data := form.Data();
    var cronJobDefinition := CorrespondingDefinition(form.Data(), registry);
    if cronJobDefinition.None? {
      violations := violations + [Violation(JOB_NOT_FOUND, IdPath)];
      return false, violations;
    }

    violations := CheckCronExpression(form, isValidCron);
    var isValid := violations == [];
    ghost var cronPart := violations;

    var schema := cronJobDefinition.value.fields;
    var formFields := form.GetFields();
    assert data.fields == formFields;
    for d := 0 to |schema|
      invariant violations == cronPart + FieldViolations(schema[..d], formFields, typeValid, autocompleteValid)
      invariant isValid <==> violations == []
    {
      FieldViolationsStep(schema, d, formFields, typeValid, autocompleteValid);
      var fieldViolation := CheckField(schema[d], formFields, typeValid, autocompleteValid);
      if fieldViolation.Some? {
        violations := violations + [fieldViolation.value];
        isValid := false;
      }
    }
    assert schema[..|schema|] == schema;
    assert Violations(data, registry, typeValid, autocompleteValid, isValidCron)
           == cronPart + FieldViolations(schema, formFields, typeValid, autocompleteValid);
    valid := isValid;
  }

  /** The checks of `isValid` on the cron expression, in their order: each one
      runs only while the expression has not been rejected. */
  method CheckCronExpression(form: CronTaskDefinitionForm, isValidCron: string -> bool)
    returns (violations: seq<Violation>)
    ensures violations == CronViolations(form.Data(), isValidCron)
  {
    violations := [];
    var cronExpressionIsValid := true;
    var cronExpression := form.GetCronExpression();

    if form.IsImmediateExecution() && form.IsOneTimeExecution() && !IsBlank(cronExpression) {
      violations := violations + [Violation(CRON_NOT_EXPECTED, CronExpressionPath)];
      cronExpressionIsValid := false;
    }

    if cronExpressionIsValid && IsBlank(cronExpression) {
      violations := violations + [Violation(CRON_REQUIRED, CronExpressionPath)];
      cronExpressionIsValid := false;
    }

    if cronExpressionIsValid && !isValidCron(cronExpression.value) {
      violations := violations + [Violation(CRON_INVALID, CronExpressionPath)];
    }
  }

  /** The inner loop of `isValid`: the first submitted field whose name equals
      the schema field's name, and its index; -1 when there is none. */
  method FindCorrespondingFormField(formFields: seq<FormField>, definitionFieldName: string)
    returns (correspondingFormField: Option<FormField>, correspondingFormFieldIndex: int)
    ensures correspondingFormField.None? <==> NoMatch(formFields, definitionFieldName)
    ensures correspondingFormField.None? ==> correspondingFormFieldIndex == -1
    ensures correspondingFormField.Some? ==>
              && IsFirstMatch(formFields, definitionFieldName, correspondingFormFieldIndex)
              && correspondingFormField.value == formFields[correspondingFormFieldIndex]
  {
    correspondingFormField := None;
    correspondingFormFieldIndex := -1;
    for i := 0 to |formFields|
      invariant correspondingFormField.None? && correspondingFormFieldIndex == -1
      invariant forall j :: 0 <= j < i ==> formFields[j].name != Some(definitionFieldName)
    {
      var formField := formFields[i];
      if formField.name == Some(definitionFieldName) {
        correspondingFormField := Some(formField);
        correspondingFormFieldIndex := i;
        break;
      }
    }
  }

  /** The body of the schema loop of `isValid` for one schema field: each early
      return stands for one of its `continue`s. */
  method CheckField(
    definitionField: CronJobField,
    formFields: seq<FormField>,
    typeValid: (string, Option<string>) -> bool,
    autocompleteValid: (string, Option<string>) -> bool)
    returns (violation: Option<Violation>)
    ensures violation == FieldViolation(definitionField, formFields, typeValid, autocompleteValid)
  {
    var definitionFieldName := definitionField.name;
    var correspondingFormField, correspondingFormFieldIndex :=
      FindCorrespondingFormField(formFields, definitionFieldName);

    if correspondingFormField.None? {
      assert FindField(formFields, definitionFieldName) == None;
      if definitionField.required {
        return Some(Violation(RequiredFieldMessage(definitionFieldName), FieldsPath));
      }
      // the field is optional and not provided
      return None;
    }

    assert FindField(formFields, definitionFieldName) == Some(correspondingFormFieldIndex);
    var formFieldValue := correspondingFormField.value.value;
    if IsBlank(formFieldValue) && definitionField.required {
      return Some(Violation(RequiredValueMessage(definitionFieldName), FieldValuePath(correspondingFormFieldIndex)));
    }

    var definitionFieldType := definitionField.fieldType;
    if !typeValid(definitionFieldType, formFieldValue) {
      return Some(Violation(InvalidTypeMessage(formFieldValue, definitionFieldType),
                            FieldValuePath(correspondingFormFieldIndex)));
    }

    var autocompleteValue := definitionField.autocompleteValue;
    if autocompleteValue.Some? {
      if !autocompleteValid(autocompleteValue.value, formFieldValue) {
        return Some(Violation(InvalidAutocompleteMessage(formFieldValue), FieldValuePath(correspondingFormFieldIndex)));
      }
    }
    return None;
  }

  // ---------------------------------------------------------------------------
  // What the validator promises
  // ---------------------------------------------------------------------------

  /** An unknown job id is the only violation: no cron or field check runs. */
  lemma UnknownJobIsOnlyViolation(
    form: FormData,
    registry: map<string, CronJobDefinition>,
    typeValid: (string, Option<string>) -> bool,
    autocompleteValid: (string, Option<string>) -> bool,
    isValidCron: string -> bool)
    requires TrimToEmpty(form.id) !in registry
    ensures Violations(form, registry, typeValid, autocompleteValid, isValidCron)
         == [Violation(JOB_NOT_FOUND, IdPath)]
  {
  }

  /** Every schema-field violation is located at `fields` or at `fields[i].value`
      for an index of the submitted list. */
  lemma {:induction false} FieldViolationsLocated(
    schema: seq<CronJobField>,
    fields: seq<FormField>,
    typeValid: (string, Option<string>) -> bool,
    autocompleteValid: (string, Option<string>) -> bool)
    ensures forall v :: v in FieldViolations(schema, fields, typeValid, autocompleteValid) ==>
              || v.locator.FieldsPath?
              || (v.locator.FieldValuePath? && v.locator.index < |fields|)
  {
    if schema != [] {
      FieldViolationsLocated(schema[..|schema| - 1], fields, typeValid, autocompleteValid);
    }
  }

  /** Each schema field yields at most one violation. */
  lemma {:induction false} FieldViolationsBounded(
    schema: seq<CronJobField>,
    fields: seq<FormField>,
    typeValid: (string, Option<string>) -> bool,
    autocompleteValid: (string, Option<string>) -> bool)
    ensures |FieldViolations(schema, fields, typeValid, autocompleteValid)| <= |schema|
  {
    if schema != [] {
      FieldViolationsBounded(schema[..|schema| - 1], fields, typeValid, autocompleteValid);
    }
  }

  /** At most one violation is located at `cronExpression`, and when there is one
      it is the first of the three checks that applies. */
  lemma AtMostOneCronViolation(
    form: FormData,
    registry: map<string, CronJobDefinition>,
    typeValid: (string, Option<string>) -> bool,
    autocompleteValid: (string, Option<string>) -> bool,
    isValidCron: string -> bool)
    ensures var r := Violations(form, registry, typeValid, autocompleteValid, isValidCron);
            forall i, j :: 0 <= i < j < |r| && r[i].locator == CronExpressionPath ==>
              r[j].locator != CronExpressionPath
    ensures var r := Violations(form, registry, typeValid, autocompleteValid, isValidCron);
            forall i :: 0 <= i < |r| && r[i].locator == CronExpressionPath ==>
              && i == 0
              && r[i].message == (
                   if form.immediateExecution && form.oneTimeExecution && !IsBlank(form.cronExpression) then CRON_NOT_EXPECTED
                   else if IsBlank(form.cronExpression) then CRON_REQUIRED
                   else CRON_INVALID)
  {
    match CorrespondingDefinition(form, registry)
    case None =>
    case Some(definition) =>
      var c := CronViolations(form, isValidCron);
      var f := FieldViolations(definition.fields, form.fields, typeValid, autocompleteValid);
      FieldViolationsLocated(definition.fields, form.fields, typeValid, autocompleteValid);
      assert forall k :: 0 <= k < |f| ==> f[k] in f;
      assert Violations(form, registry, typeValid, autocompleteValid, isValidCron) == c + f;
  }

  /** A form asking for both immediate and one-time execution of a known job is
      always rejected: with a cron expression because none may be given, without
      one because the expression is still required. */
  lemma ImmediateOneTimeIsRejected(
    form: FormData,
    registry: map<string, CronJobDefinition>,
    typeValid: (string, Option<string>) -> bool,
    autocompleteValid: (string, Option<string>) -> bool,
    isValidCron: string -> bool)
    requires form.immediateExecution && form.oneTimeExecution
    requires TrimToEmpty(form.id) in registry
    ensures var r := Violations(form, registry, typeValid, autocompleteValid, isValidCron);
            && r != []
            && r[0] == Violation(if IsBlank(form.cronExpression) then CRON_REQUIRED else CRON_NOT_EXPECTED,
                                 CronExpressionPath)
  {
  }

  /** The order of the checks on one schema field, stated against the first
      submitted field of that name. */
  lemma FieldCheckOrder(
    field: CronJobField,
    fields: seq<FormField>,
    typeValid: (string, Option<string>) -> bool,
    autocompleteValid: (string, Option<string>) -> bool,
    i: int)
    requires IsFirstMatch(fields, field.name, i)
    ensures var value := fields[i].value;
            FieldViolation(field, fields, typeValid, autocompleteValid) ==
              if IsBlank(value) && field.required then
                Some(Violation(RequiredValueMessage(field.name), FieldValuePath(i)))
              else if !typeValid(field.fieldType, value) then
                Some(Violation(InvalidTypeMessage(value, field.fieldType), FieldValuePath(i)))
              else if field.autocompleteValue.Some? && !autocompleteValid(field.autocompleteValue.value, value) then
                Some(Violation(InvalidAutocompleteMessage(value), FieldValuePath(i)))
              else
                None
  {
    var k := FindField(fields, field.name);
    assert k.Some? && IsFirstMatch(fields, field.name, k.value);
    FirstMatchUnique(fields, field.name, k.value, i);
  }

  /** A schema field with no submitted counterpart is a violation at `fields`
      exactly when it is required. */
  lemma MissingFieldCheck(
    field: CronJobField,
    fields: seq<FormField>,
    typeValid: (string, Option<string>) -> bool,
    autocompleteValid: (string, Option<string>) -> bool)
    requires NoMatch(fields, field.name)
    ensures FieldViolation(field, fields, typeValid, autocompleteValid) ==
              if field.required then Some(Violation(RequiredFieldMessage(field.name), FieldsPath)) else None
  {
  }

  /** The autocomplete validators are consulted only for a field that declares an
      autocomplete source: for any other field they cannot change the outcome. */
  lemma AutocompleteOnlyWhenDeclared(
    field: CronJobField,
    fields: seq<FormField>,
    typeValid: (string, Option<string>) -> bool,
    autocompleteValid: (string, Option<string>) -> bool,
    otherAutocompleteValid: (string, Option<string>) -> bool)
    requires field.autocompleteValue.None?
    ensures FieldViolation(field, fields, typeValid, autocompleteValid)
         == FieldViolation(field, fields, typeValid, otherAutocompleteValid)
  {
  }

  /** The cron rule accepts only a present, valid expression on a form that does
      not ask for both immediate and one-time execution. */
  predicate CronAccepted(form: FormData, isValidCron: string -> bool)
  {
    && !(form.immediateExecution && form.oneTimeExecution)
    && !IsBlank(form.cronExpression)
    && isValidCron(form.cronExpression.value)
  }

  /** A schema field is satisfied: present unless optional, and, where present,
      non-blank if required, of the declared type, and among the autocomplete
      values when it has an autocomplete source. */
  ghost predicate FieldAccepted(
    field: CronJobField,
    fields: seq<FormField>,
    typeValid: (string, Option<string>) -> bool,
    autocompleteValid: (string, Option<string>) -> bool)
  {
    && (NoMatch(fields, field.name) ==> !field.required)
    && forall i :: IsFirstMatch(fields, field.name, i) ==>
         && !(field.required && IsBlank(fields[i].value))
         && typeValid(field.fieldType, fields[i].value)
         && (field.autocompleteValue.Some? ==>
               autocompleteValid(field.autocompleteValue.value, fields[i].value))
  }

  /** A form is acceptable: its job id names a definition, the cron rule holds,
      and every schema field is satisfied. */
  ghost predicate FormAccepted(
    form: FormData,
    registry: map<string, CronJobDefinition>,
    typeValid: (string, Option<string>) -> bool,
    autocompleteValid: (string, Option<string>) -> bool,
    isValidCron: string -> bool)
  {
    && TrimToEmpty(form.id) in registry
    && CronAccepted(form, isValidCron)
    && var schema := registry[TrimToEmpty(form.id)].fields;
       forall k :: 0 <= k < |schema| ==> FieldAccepted(schema[k], form.fields, typeValid, autocompleteValid)
  }

  lemma FieldViolationNoneIff(
    field: CronJobField,
    fields: seq<FormField>,
    typeValid: (string, Option<string>) -> bool,
    autocompleteValid: (string, Option<string>) -> bool)
    ensures FieldViolation(field, fields, typeValid, autocompleteValid).None?
        <==> FieldAccepted(field, fields, typeValid, autocompleteValid)
  {
    var k := FindField(fields, field.name);
    if k.Some? {
      FieldCheckOrder(field, fields, typeValid, autocompleteValid, k.value);
      forall i | IsFirstMatch(fields, field.name, i) ensures i == k.value {
        FirstMatchUnique(fields, field.name, k.value, i);
      }
    }
  }

  lemma {:induction false} FieldViolationsEmptyIff(
    schema: seq<CronJobField>,
    fields: seq<FormField>,
    typeValid: (string, Option<string>) -> bool,
    autocompleteValid: (string, Option<string>) -> bool)
    ensures FieldViolations(schema, fields, typeValid, autocompleteValid) == []
        <==> forall k :: 0 <= k < |schema| ==> FieldViolation(schema[k], fields, typeValid, autocompleteValid).None?
  {
    if schema != [] {
      var init := schema[..|schema| - 1];
      FieldViolationsEmptyIff(init, fields, typeValid, autocompleteValid);
      assert forall k :: 0 <= k < |init| ==> init[k] == schema[k];
    }
  }

  /** `isValid` answers true exactly for the acceptable forms. */
  lemma NoViolationsIffAccepted(
    form: FormData,
    registry: map<string, CronJobDefinition>,
    typeValid: (string, Option<string>) -> bool,
    autocompleteValid: (string, Option<string>) -> bool,
    isValidCron: string -> bool)
    ensures Violations(form, registry, typeValid, autocompleteValid, isValidCron) == []
        <==> FormAccepted(form, registry, typeValid, autocompleteValid, isValidCron)
  {
    var id := TrimToEmpty(form.id);
    if id in registry {
      var schema := registry[id].fields;
      FieldViolationsEmptyIff(schema, form.fields, typeValid, autocompleteValid);
      forall k | 0 <= k < |schema|
        ensures FieldViolation(schema[k], form.fields, typeValid, autocompleteValid).None?
            <==> FieldAccepted(schema[k], form.fields, typeValid, autocompleteValid)
      {
        FieldViolationNoneIff(schema[k], form.fields, typeValid, autocompleteValid);
      }
    }
  }
}
