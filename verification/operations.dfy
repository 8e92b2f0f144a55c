/** The per-database "prepared operations": how each database spells the
    PREPARE and EXECUTE statements and a numbered placeholder, and the
    factory that picks the operations for a connection's vendor. Only the
    PostgreSQL dialect is written; every other class refuses. */
module Operations {
  import opened Errors
  import opened Text

  /** The operations classes: the base class, the PostgreSQL dialect and the
      three stubs that inherit the base class unchanged. */
  datatype PreparedOperations =
    | BaseOperations
    | PostgresqlOperations
    | MySqlOperations
    | OracleOperations
    | SqLiteOperations

  /** `'(%s)' % ','.join(items)` when there are items, and '' otherwise. */
  function ParenList(items: seq<string>): string
  {
    if items == [] then "" else "(" + Join(",", items) + ")"
  }

  /** `prepare_sql(name, arguments, sql)`: `PREPARE <name> <(types)> AS
      <sql>;`, where the parenthesised type list is left out (leaving two
      spaces) when there are no arguments. Only PostgreSQL implements it. */
  function PrepareSql(ops: PreparedOperations, name: string, arguments: seq<string>, sql: string): (r: Result<string>)
    ensures r.Failure? <==> ops != PostgresqlOperations
    ensures r.Failure? ==> r.error == NotImplemented
    ensures r.Success? && arguments == [] ==> r.value == "PREPARE " + name + "  AS " + sql + ";"
    ensures r.Success? && arguments != [] ==>
      r.value == "PREPARE " + name + " (" + Join(",", arguments) + ") AS " + sql + ";"
  {
    if ops != PostgresqlOperations then Failure(NotImplemented)
    else Success("PREPARE " + name + " " + ParenList(arguments) + " AS " + sql + ";")
  }

  /** The argument types can be read back from a PostgreSQL PREPARE
      statement: between the parentheses after the name stands the
      comma-joined list, and splitting it at commas gives the types back,
      provided no type contains a comma. */
  lemma PrepareSqlArgumentsRecoverable(name: string, arguments: seq<string>, sql: string)
    requires arguments != []
    requires forall i | 0 <= i < |arguments| :: ',' !in arguments[i]
    ensures var t := PrepareSql(PostgresqlOperations, name, arguments, sql).value;
      var start := 10 + |name|;
      var end := |t| - |sql| - 6;
      && start <= end <= |t|
      && t[start - 1] == '(' && t[end] == ')'
      && Split(',', t[start..end]) == arguments
  {
    var j := Join(",", arguments);
    var head := "PREPARE " + name + " (";
    var tail := ") AS " + sql + ";";
    var t := PrepareSql(PostgresqlOperations, name, arguments, sql).value;
    assert t == head + j + tail;
    assert |head| == 10 + |name| && |tail| == |sql| + 6;
    assert t[|head| - 1] == head[|head| - 1] == '(';
    assert t[|head| + |j|] == tail[0] == ')';
    assert t[|head|..|head| + |j|] == j;
    assert "," == [','];
    SplitJoin(',', arguments);
  }

  /** `execute_sql(name, arguments)`: `EXECUTE <name>(%s,...);` with one
      `%s` per argument, or `EXECUTE <name>;` without arguments; only the
      number of arguments enters the text. Only PostgreSQL implements it. */
  function ExecuteSql<V>(ops: PreparedOperations, name: string, arguments: seq<V>): (r: Result<string>)
    ensures r.Failure? <==> ops != PostgresqlOperations
    ensures r.Failure? ==> r.error == NotImplemented
    ensures r.Success? ==> CountChar('%', r.value) == CountChar('%', name) + |arguments|
    ensures r.Success? && arguments == [] ==> r.value == "EXECUTE " + name + ";"
    ensures r.Success? && arguments != [] ==>
      var t := r.value;
      && |t| == |name| + 3 * |arguments| + 10
      && t[..8 + |name|] == "EXECUTE " + name
      && t[8 + |name|] == '(' && t[|t| - 2..] == ");"
      && Split(',', t[9 + |name|..|t| - 2]) == Repeat("%s", |arguments|)
  {
    if ops != PostgresqlOperations then Failure(NotImplemented)
    else
      var k := |arguments|;
      var t := "EXECUTE " + name + ParenList(Repeat("%s", k)) + ";";
      ExecuteSqlShape(name, k);
      Success(t)
  }

  /** The shape of the PostgreSQL EXECUTE text for k arguments. */
  lemma ExecuteSqlShape(name: string, k: nat)
    ensures var t := "EXECUTE " + name + ParenList(Repeat("%s", k)) + ";";
      && CountChar('%', t) == CountChar('%', name) + k
      && (k == 0 ==> t == "EXECUTE " + name + ";")
      && (k > 0 ==>
        && |t| == |name| + 3 * k + 10
        && t[..8 + |name|] == "EXECUTE " + name
        && t[8 + |name|] == '(' && t[|t| - 2..] == ");"
        && Split(',', t[9 + |name|..|t| - 2]) == Repeat("%s", k))
  {
    ExecuteHeadCount(name);
    if k == 0 {
      ExecuteSqlNoArguments(name);
    } else {
      ExecuteSqlArguments("EXECUTE " + name, k);
    }
  }

  lemma ExecuteSqlNoArguments(name: string)
    ensures var t := "EXECUTE " + name + ParenList(Repeat("%s", 0)) + ";";
      t == "EXECUTE " + name + ";" && CountChar('%', t) == CountChar('%', "EXECUTE " + name)
  {
    var head := "EXECUTE " + name;
    assert head + ParenList(Repeat("%s", 0)) + ";" == head + "" + ";";
    SemicolonTail(head);
  }

  lemma ExecuteSqlArguments(head: string, k: nat)
    requires k > 0
    ensures var t := head + ParenList(Repeat("%s", k)) + ";";
      && CountChar('%', t) == CountChar('%', head) + k
      && |t| == |head| + 3 * k + 2
      && t[..|head|] == head
      && t[|head|] == '(' && t[|t| - 2..] == ");"
      && Split(',', t[|head| + 1..|t| - 2]) == Repeat("%s", k)
  {
    var p := Placeholders(k);
    assert ParenList(Repeat("%s", k)) == "(" + p + ")";
    ExecuteArgumentsFrame(head, p);
    PlaceholdersShape(k);
    PercentPlaceholders(k);
  }

  lemma ExecuteHeadCount(name: string)
    ensures CountChar('%', "EXECUTE " + name) == CountChar('%', name)
  {
    CountCharAbsent('%', "EXECUTE ");
    CountCharConcat('%', "EXECUTE ", name);
  }

  lemma SemicolonTail(head: string)
    ensures CountChar('%', head + "" + ";") == CountChar('%', head)
  {
    assert head + "" + ";" == head + ";";
    CountCharAbsent('%', ";");
    CountCharConcat('%', head, ";");
  }

  /** `head(p);` around a placeholder list p. */
  lemma ExecuteArgumentsFrame(head: string, p: string)
    ensures var t := head + ("(" + p + ")") + ";";
      && |t| == |head| + |p| + 3
      && t[..|head|] == head && t[|head|] == '(' && t[|t| - 2..] == ");"
      && t[|head| + 1..|t| - 2] == p
      && CountChar('%', t) == CountChar('%', head) + CountChar('%', p)
  {
    var t := head + ("(" + p + ")") + ";";
    assert t == head + ("(" + p + ");");
    CountCharConcat('%', head, "(" + p + ");");
    CountCharFrame('%', "(", p, ");");
  }

  /** `prepare_placeholder(index)`: `'$%d' % index`; the index can be read
      back from the digits after the dollar sign. Only PostgreSQL
      implements it. */
  function PreparePlaceholder(ops: PreparedOperations, index: int): (r: Result<string>)
    ensures r.Failure? <==> ops != PostgresqlOperations
    ensures r.Failure? ==> r.error == NotImplemented
    ensures r.Success? ==>
      && |r.value| >= 2 && r.value[0] == '$'
      && (r.value[1] == '-' <==> index < 0)
      && (index < 0 ==> AllDigits(r.value[2..]))
      && (index >= 0 ==> AllDigits(r.value[1..]))
      && ParseInt(r.value[1..]) == index
  {
    if ops != PostgresqlOperations then Failure(NotImplemented)
    else
      var d := IntToDecimal(index);
      IntDecimalRoundTrip(index);
      var t := "$" + d;
      assert t[1..] == d;
      Success(t)
  }

  /** `PreparedOperationsFactory.MAPPING`. */
  const MAPPING: map<string, PreparedOperations> := map[
    "postgresql" := PostgresqlOperations,
    "mysql" := MySqlOperations,
    "sqlite" := SqLiteOperations,
    "oracle" := OracleOperations]

  /** Python truthiness of the vendor: None and '' are false. */
  predicate FalsyVendor(vendor: Option<string>) { vendor.None? || vendor.value == "" }

  const INCORRECT_VENDOR := "Incorrect vendor name for prepared operations"

  /** `PreparedOperationsFactory.create(vendor)`. A falsy vendor is
      ImproperlyConfigured; a vendor of the mapping gets its class; any
      other vendor passes that check and then fails calling None. */
  function Create(vendor: Option<string>): (r: Result<PreparedOperations>)
    ensures r == Failure(ImproperlyConfigured(INCORRECT_VENDOR)) <==> FalsyVendor(vendor)
    ensures r == Failure(TypeError) <==> !FalsyVendor(vendor) && vendor.value !in MAPPING
    ensures r.Success? <==> !FalsyVendor(vendor) && vendor.value in MAPPING
    ensures r.Success? ==> r.value == MAPPING[vendor.value] && r.value != BaseOperations
  {
    var operationsClass := if vendor.Some? && vendor.value in MAPPING then Some(MAPPING[vendor.value]) else None;
    if FalsyVendor(vendor) then Failure(ImproperlyConfigured(INCORRECT_VENDOR))
    else if operationsClass.None? then Failure(TypeError)
    else Success(operationsClass.value)
  }

  /** The mapping names exactly four vendors. */
  lemma MappingVendors()
    ensures MAPPING.Keys == {"postgresql", "mysql", "sqlite", "oracle"}
    ensures |MAPPING.Keys| == 4
  {
    assert "postgresql" != "mysql" && "postgresql" != "sqlite" && "postgresql" != "oracle";
    assert "mysql" != "sqlite" && "mysql" != "oracle" && "sqlite" != "oracle";
  }

  /** Of all vendors, only PostgreSQL yields operations that can write a
      PREPARE statement; the others fail either in the factory or with
      NotImplementedError. */
  lemma OnlyPostgresqlPrepares(vendor: Option<string>, name: string, arguments: seq<string>, sql: string)
    ensures (Create(vendor).Success? && PrepareSql(Create(vendor).value, name, arguments, sql).Success?)
      <==> vendor == Some("postgresql")
  {
    if Create(vendor).Success? && Create(vendor).value == PostgresqlOperations {
      assert vendor.value == "postgresql" by {
        assert MAPPING["mysql"] != PostgresqlOperations;
        assert MAPPING["sqlite"] != PostgresqlOperations;
        assert MAPPING["oracle"] != PostgresqlOperations;
      }
    }
  }
}
