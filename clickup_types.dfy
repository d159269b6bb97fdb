/** The records the dashboard reads from the task-management service, reduced to the
    fields the aggregation code looks at, and the two JavaScript coercions it applies
    to custom-field values: truthiness and `String(value)`. */
module ClickUpTypes {
  import opened Common
  import JsString

  /** The decoded JSON `value` of a custom field, in the shapes the dashboard handles:
      absent, null, a number, a string, or a users field (a list of user objects, of
      which only `username` is read). */
  datatype FieldValue = Undefined | Null | Num(n: int) | Str(s: string) | Users(usernames: seq<string>)

  /** One entry of a drop-down field's option catalog (`type_config.options`). */
  datatype DropOption = DropOption(id: string, name: string, orderindex: int)

  /** A custom field. `options` is None when `type_config` or `type_config.options`
      is absent; both read the same in every place the catalog is consulted. */
  datatype CustomField = CustomField(
    id: string,
    name: string,
    fieldType: string,
    value: FieldValue,
    options: Option<seq<DropOption>>)

  /** A task. `status` is the status label (`status.status`); `assignees` holds the
      assignees' usernames in the order the service lists them. */
  datatype Task = Task(
    id: string,
    name: string,
    status: string,
    assignees: seq<string>,
    dueDate: Option<string>,
    customFields: Option<seq<CustomField>>)

  predicate IsNullish(v: FieldValue)
  {
    v.Undefined? || v.Null?
  }

  /** JavaScript truthiness: `undefined`, `null`, `0` and `""` are falsy; every array is truthy. */
  predicate Truthy(v: FieldValue)
  {
    match v
    case Undefined => false
    case Null => false
    case Num(n) => n != 0
    case Str(s) => s != ""
    case Users(_) => true
  }

  /** `String(value)`; an array of user objects prints each element as `[object Object]`,
      separated by commas. */
  function ToJsString(v: FieldValue): string
  {
    match v
    case Undefined => "undefined"
    case Null => "null"
    case Num(n) => JsString.IntToString(n)
    case Str(s) => s
    case Users(us) => JsString.Join(seq(|us|, _ => "[object Object]"), ",")
  }
}
