/** Bind parameters: the placeholder objects a caller puts into a filter in
    place of a value, and the Django field objects that give them a type. */
module Params {
  import opened Errors
  import Text

  /** The length of the random correlation token drawn for each parameter. */
  const HASH_LENGTH: nat := 20

  /** The max_length a typed parameter's field gets when it has none. */
  const DEFAULT_MAX_LENGTH: int := 256

  /** One entry of the flat parameter list Django's compiler produces: a
      string (a bind parameter's hash is one) or any other literal, kept with
      its str() rendering. */
  datatype SqlParam = Str(s: string) | NonStr(rendered: string)

  /** A piece of SQL and the parameters it refers to. */
  datatype SqlFragment = SqlFragment(sql: string, params: seq<SqlParam>)

  /** What the Django field collaborators (db_type, get_prep_value,
      run_validators) get to see of a field. */
  datatype FieldView = FieldView(kind: string, maxLength: Option<int>)

  /** Python truthiness of a field's max_length (None and 0 are false). */
  predicate Falsy(maxLength: Option<int>) { maxLength.None? || maxLength.value == 0 }

  /** A Django field object, as far as this layer touches it: its class and
      its max_length, which the bind parameter may set. */
  class FieldType {
    const kind: string
    var maxLength: Option<int>

    constructor (kind: string, maxLength: Option<int>)
      ensures this.kind == kind && this.maxLength == maxLength
    {
      this.kind := kind;
      this.maxLength := maxLength;
    }

    function View(): FieldView
      reads this
    {
      FieldView(kind, maxLength)
    }
  }

  /** The view of an optional field (None when the parameter is untyped). */
  function ViewOf(f: FieldType?): Option<FieldView>
    reads f
  {
    if f == null then None else Some(f.View())
  }

  class BindParam {
    const name: string
    const hash: string
    var fieldType: FieldType?

    /** `BindParam(name, field_type)`. The hash stands for the random string
        of HASH_LENGTH characters drawn at construction; it is never
        reassigned. A given field whose max_length is falsy gets
        DEFAULT_MAX_LENGTH; any other field, and an absent one, is left as
        it is. */
    constructor (name: string, fieldType: FieldType?, hash: string)
      requires |hash| == HASH_LENGTH
      modifies fieldType
      ensures this.name == name && this.hash == hash && this.fieldType == fieldType
      ensures fieldType != null && Falsy(old(fieldType.maxLength)) ==> fieldType.maxLength == Some(DEFAULT_MAX_LENGTH)
      ensures fieldType != null && !Falsy(old(fieldType.maxLength)) ==> fieldType.maxLength == old(fieldType.maxLength)
      ensures fieldType != null ==> !Falsy(fieldType.maxLength)
    {
      this.name := name;
      this.fieldType := fieldType;
      this.hash := hash;
      new;
      if fieldType != null && Falsy(fieldType.maxLength) {
        fieldType.maxLength := Some(DEFAULT_MAX_LENGTH);
      }
    }

    /** The shallow copy Django's `resolve_expression` returns: the same
        name, hash and field object. */
    constructor Copy(other: BindParam)
      ensures name == other.name && hash == other.hash && fieldType == other.fieldType
    {
      name := other.name;
      hash := other.hash;
      fieldType := other.fieldType;
    }

    /** `repr(p)`: the class name with the parameter's name in parentheses,
        from which the name can be read back. */
    function Repr(): (r: string)
      ensures |r| == |name| + 11
      ensures r[..10] == "BindParam(" && r[|r| - 1] == ')'
      ensures r[10..|r| - 1] == name
    {
      "BindParam(" + name + ")"
    }

    /** `as_sql`: exactly one `{}` marker, and the hash as its only
        parameter, so the compiler can find where the parameter landed. */
    function AsSql(): (r: SqlFragment)
      ensures Text.MarkerCount(r.sql) == 1
      ensures |r.params| == 1 && r.params[0].Str? && r.params[0].s == hash
    {
      SqlFragment("{}", [Str(hash)])
    }
  }
}
