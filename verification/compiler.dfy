/** The two compilers: the one that turns a query into the text of a
    `PREPARE` statement, and the one that emits `execute fooplan(...)` for
    the values bound at execute time. */
module Compiler {
  import opened Errors
  import opened Params
  import opened Text
  import Query

  /** The statement name both compilers use. */
  const PREPARE_STATEMENT_NAME := "fooplan"

  /** The `db_type` collaborator: the column type of a field, which depends
      on the field's class and max_length. */
  type DbType = FieldView -> string

  /** A parameter of the flat list is a registered bind parameter's hash. */
  predicate IsRegistered(p: SqlParam, fields: map<string, Option<FieldView>>)
  {
    p.Str? && p.s in fields
  }

  /** The registered hashes among the parameters, in the order they occur. */
  function RegisteredHashes(params: seq<SqlParam>, fields: map<string, Option<FieldView>>): (hs: seq<string>)
    ensures forall j | 0 <= j < |hs| :: hs[j] in fields
    decreases |params|
  {
    if params == [] then []
    else
      var last := params[|params| - 1];
      RegisteredHashes(params[..|params| - 1], fields) + (if IsRegistered(last, fields) then [last.s] else [])
  }

  /** The argument-type list the compiler's loop builds: the column type of
      each registered parameter, in order; an untyped registered parameter
      fails the way `None.db_type` does. */
  function ArgumentTypes(params: seq<SqlParam>, fields: map<string, Option<FieldView>>, dbType: DbType): Result<seq<string>>
    decreases |params|
  {
    if params == [] then Success([])
    else
      var prefix :- ArgumentTypes(params[..|params| - 1], fields, dbType);
      var last := params[|params| - 1];
      if !IsRegistered(last, fields) then Success(prefix)
      else if fields[last.s].None? then Failure(AttributeError)
      else Success(prefix + [dbType(fields[last.s].value)])
  }

  /** At most one argument per parameter, and one per parameter exactly when
      every parameter is a registered hash. */
  lemma {:induction false} RegisteredHashesBound(params: seq<SqlParam>, fields: map<string, Option<FieldView>>)
    ensures |RegisteredHashes(params, fields)| <= |params|
    ensures |RegisteredHashes(params, fields)| == |params| <==> forall i | 0 <= i < |params| :: IsRegistered(params[i], fields)
    decreases |params|
  {
    if params != [] {
      var init := params[..|params| - 1];
      var last := params[|params| - 1];
      RegisteredHashesBound(init, fields);
      assert (forall i | 0 <= i < |params| :: IsRegistered(params[i], fields)) <==>
        (forall i | 0 <= i < |init| :: IsRegistered(init[i], fields)) && IsRegistered(last, fields) by {
        assert forall i | 0 <= i < |init| :: init[i] == params[i];
      }
    }
  }

  /** The argument types are those of the registered hashes, in order: the
      list succeeds exactly when every registered parameter met is typed, and
      then its j-th entry is the column type of the j-th registered hash. */
  lemma {:induction false} ArgumentTypesFollowRegistered(params: seq<SqlParam>, fields: map<string, Option<FieldView>>, dbType: DbType)
    ensures var hs := RegisteredHashes(params, fields);
      ArgumentTypes(params, fields, dbType).Success? <==> (forall j | 0 <= j < |hs| :: fields[hs[j]].Some?)
    ensures var hs := RegisteredHashes(params, fields);
      ArgumentTypes(params, fields, dbType).Success? ==>
        var a := ArgumentTypes(params, fields, dbType).value;
        |a| == |hs| && forall j | 0 <= j < |hs| :: a[j] == dbType(fields[hs[j]].value)
    ensures ArgumentTypes(params, fields, dbType).Failure? ==> ArgumentTypes(params, fields, dbType).error == AttributeError
    decreases |params|
  {
    if params != [] {
      var init := params[..|params| - 1];
      var last := params[|params| - 1];
      ArgumentTypesFollowRegistered(init, fields, dbType);
      var hs0 := RegisteredHashes(init, fields);
      var hs := RegisteredHashes(params, fields);
      var a0 := ArgumentTypes(init, fields, dbType);
      if IsRegistered(last, fields) {
        assert hs == hs0 + [last.s];
      } else {
        assert hs == hs0;
      }
      if a0.Failure? {
        assert ArgumentTypes(params, fields, dbType) == a0;
        var j :| 0 <= j < |hs0| && fields[hs0[j]].None?;
        assert j < |hs| && hs[j] == hs0[j];
        assert !(forall k | 0 <= k < |hs| :: fields[hs[k]].Some?);
      } else if IsRegistered(last, fields) && fields[last.s].None? {
        assert hs[|hs0|] == last.s;
      } else {
        var a := ArgumentTypes(params, fields, dbType).value;
        forall j | 0 <= j < |hs| ensures fields[hs[j]].Some? && a[j] == dbType(fields[hs[j]].value) {
          if j < |hs0| {
            assert hs[j] == hs0[j] && a[j] == a0.value[j];
          }
        }
      }
    }
  }

  /** Once a prefix of the parameters fails, the whole list fails the same
      way. */
  lemma {:induction false} ArgumentTypesPrefixFailure(params: seq<SqlParam>, i: nat, fields: map<string, Option<FieldView>>, dbType: DbType)
    requires i <= |params|
    requires ArgumentTypes(params[..i], fields, dbType).Failure?
    ensures ArgumentTypes(params, fields, dbType) == ArgumentTypes(params[..i], fields, dbType)
    decreases |params| - i
  {
    if i < |params| {
      assert params[..i + 1][..i] == params[..i];
      ArgumentTypesPrefixFailure(params, i + 1, fields, dbType);
    } else {
      assert params[..i] == params;
    }
  }

  /** The text before numbering:
      `PREPARE fooplan (<types>) AS <sql>;`. */
  function PrepareText(arguments: seq<string>, sql: string): string
  {
    "PREPARE " + PREPARE_STATEMENT_NAME + " (" + Join(",", arguments) + ") AS" + " " + sql + ";"
  }

  /** `PrepareSQLCompiler.prepare_sql` on the SQL and parameters Django's
      `as_sql` produced: the statement text, with its `{}` markers numbered
      1, 2, ... against all the parameters, and an empty parameter list. */
  function PrepareSqlSpec(sql: string, params: seq<SqlParam>, fields: map<string, Option<FieldView>>, dbType: DbType): Result<SqlFragment>
  {
    var arguments :- ArgumentTypes(params, fields, dbType);
    var text :- FormatAuto(PrepareText(arguments, sql), Decimals(|params|), 0);
    Success(SqlFragment(text, []))
  }

  /** Compiling fails only the ways `None.db_type` and `str.format` do. */
  lemma PrepareSqlSpecErrors(sql: string, params: seq<SqlParam>, fields: map<string, Option<FieldView>>, dbType: DbType)
    ensures var r := PrepareSqlSpec(sql, params, fields, dbType);
      r.Failure? ==> r.error in {AttributeError, IndexError, FormatError}
  {
    ArgumentTypesFollowRegistered(params, fields, dbType);
  }

  /** The fixed part of the statement before the SQL. */
  function PrepareHeader(arguments: seq<string>): string
  {
    "PREPARE fooplan (" + Join(",", arguments) + ") AS "
  }

  /** The statement text is the fixed header followed by the SQL and ';'
      (kept apart so that the numbering proofs see the text pre-split). */
  lemma PrepareTextParts(arguments: seq<string>, sql: string)
    ensures PrepareText(arguments, sql) == PrepareHeader(arguments) + (sql + ";")
  {
  }

  lemma PrepareHeaderBraceFree(arguments: seq<string>)
    requires forall i | 0 <= i < |arguments| :: BraceFree(arguments[i])
    ensures BraceFree(PrepareHeader(arguments))
  {
    JoinBraceFree(",", arguments);
  }

  lemma FormatSemicolon(args: seq<string>, next: nat)
    ensures FormatAuto(";", args, next) == Success(";")
  {
    var s := ";";
    assert s[0] == ';' && s[1..] == "";
    assert FormatAuto(s[1..], args, next) == Success("");
    assert [s[0]] + "" == s;
  }

  /** Numbering a brace-free head, SQL made of brace-free pieces around
      `{}` markers, and ';': the head is copied and only the SQL's markers
      are numbered. */
  lemma FormatAroundMarkers(head: string, parts: seq<string>, args: seq<string>)
    requires |parts| >= 1 && |parts| - 1 <= |args|
    requires forall i | 0 <= i < |parts| :: BraceFree(parts[i])
    requires BraceFree(head)
    ensures FormatAuto(head + (Join("{}", parts) + ";"), args, 0) ==
      Success(head + Splice(parts, args[..|parts| - 1]) + ";")
  {
    var used := args[..|parts| - 1];
    var body := Splice(parts, used);
    FormatBraceFree(head, Join("{}", parts) + ";", args, 0);
    assert args[0..|parts| - 1] == used;
    FormatMarkers(parts, ";", args, 0);
    FormatSemicolon(args, |parts| - 1);
    assert head + (body + ";") == head + body + ";";
  }

  /** Numbering the statement text of brace-free argument types around SQL
      made of brace-free pieces. */
  lemma FormatPrepareText(arguments: seq<string>, parts: seq<string>, args: seq<string>)
    requires |parts| >= 1 && |parts| - 1 <= |args|
    requires forall i | 0 <= i < |parts| :: BraceFree(parts[i])
    requires forall i | 0 <= i < |arguments| :: BraceFree(arguments[i])
    ensures FormatAuto(PrepareText(arguments, Join("{}", parts)), args, 0) ==
      Success(PrepareHeader(arguments) + Splice(parts, args[..|parts| - 1]) + ";")
  {
    PrepareTextParts(arguments, Join("{}", parts));
    PrepareHeaderBraceFree(arguments);
    FormatAroundMarkers(PrepareHeader(arguments), parts, args);
  }

  /** For SQL made of brace-free pieces around `{}` markers, no more markers
      than parameters, and brace-free column types, the prepared statement
      is the fixed header with the argument types, then the SQL with its
      k-th marker replaced by the decimal k, then ';'; its parameter list is
      empty. */
  lemma PrepareSqlShape(parts: seq<string>, params: seq<SqlParam>, fields: map<string, Option<FieldView>>, dbType: DbType)
    requires |parts| >= 1 && |parts| - 1 <= |params|
    requires forall i | 0 <= i < |parts| :: BraceFree(parts[i])
    requires ArgumentTypes(params, fields, dbType).Success?
    requires var a := ArgumentTypes(params, fields, dbType).value; forall i | 0 <= i < |a| :: BraceFree(a[i])
    ensures PrepareSqlSpec(Join("{}", parts), params, fields, dbType) ==
      Success(SqlFragment(
        PrepareHeader(ArgumentTypes(params, fields, dbType).value)
        + Splice(parts, Decimals(|params|)[..|parts| - 1]) + ";",
        []))
  {
    FormatPrepareText(ArgumentTypes(params, fields, dbType).value, parts, Decimals(|params|));
  }

  /** More markers in the SQL than parameters: numbering fails with
      IndexError. */
  lemma PrepareSqlTooManyMarkers(parts: seq<string>, params: seq<SqlParam>, fields: map<string, Option<FieldView>>, dbType: DbType)
    requires |parts| - 1 > |params|
    requires forall i | 0 <= i < |parts| :: BraceFree(parts[i])
    requires ArgumentTypes(params, fields, dbType).Success?
    requires var a := ArgumentTypes(params, fields, dbType).value; forall i | 0 <= i < |a| :: BraceFree(a[i])
    ensures PrepareSqlSpec(Join("{}", parts), params, fields, dbType) == Failure(IndexError)
  {
    var arguments := ArgumentTypes(params, fields, dbType).value;
    var args := Decimals(|params|);
    PrepareTextParts(arguments, Join("{}", parts));
    PrepareHeaderBraceFree(arguments);
    FormatBraceFree(PrepareHeader(arguments), Join("{}", parts) + ";", args, 0);
    FormatTooFewArguments(parts, ";", args, 0);
  }

  /** The loop of `prepare_sql`, run against the registered parameter
      objects; its result is PrepareSqlSpec of their current typing. */
  method PrepareSql(sql: string, params: seq<SqlParam>, byHash: map<string, BindParam>, dbType: DbType)
    returns (r: Result<SqlFragment>)
    ensures r == PrepareSqlSpec(sql, params, Query.FieldViews(byHash), dbType)
    ensures r.Success? ==> r.value.params == []
  {
    ghost var fields := Query.FieldViews(byHash);
    var arguments: seq<string> := [];
    var i := 0;
    while i < |params|
      invariant 0 <= i <= |params|
      invariant ArgumentTypes(params[..i], fields, dbType) == Success(arguments)
    {
      assert params[..i + 1][..i] == params[..i];
      var param := params[i];
      if param.Str? && param.s in byHash {
        var p := byHash[param.s];
        if p.fieldType == null {
          ArgumentTypesPrefixFailure(params, i + 1, fields, dbType);
          return Failure(AttributeError);
        }
        arguments := arguments + [dbType(p.fieldType.View())];
      }
      i := i + 1;
    }
    assert params[..i] == params;
    var text := FormatAuto(PrepareText(arguments, sql), Decimals(|params|), 0);
    if text.Failure? {
      return Failure(text.error);
    }
    r := Success(SqlFragment(text.value, []));
  }

  /** The statement `execute fooplan(%s,...);` for n values. */
  function ExecuteText(n: nat): string
  {
    "execute " + PREPARE_STATEMENT_NAME + "(" + Placeholders(n) + ");"
  }

  /** The execute statement is the fixed frame around exactly n
      placeholders. */
  lemma ExecuteTextShape(n: nat)
    ensures var t := ExecuteText(n);
      |t| >= 18 && t[..16] == "execute fooplan(" && t[|t| - 2..] == ");" && t[16..|t| - 2] == Placeholders(n)
    ensures CountChar('%', ExecuteText(n)) == n
  {
    var head := "execute fooplan(";
    assert ExecuteText(n) == head + Placeholders(n) + ");";
    ghost var t := head + Placeholders(n) + ");";
    assert t[..|head|] == head && t[|t| - 2..] == ");" && t[|head|..|t| - 2] == Placeholders(n);
    assert '%' !in head && '%' !in ");";
    CountCharFrame('%', head, Placeholders(n), ");");
    PercentPlaceholders(n);
  }

  /** `ExecutePrepareSQLCompiler.as_sql` over the bound values, in their
      order: one `%s` per value inside `execute fooplan(...);`, and the
      values themselves as the parameter list. */
  function ExecuteAsSql<V>(values: seq<V>): (r: (string, seq<V>))
    ensures r.1 == values
    ensures |r.0| >= 18 && r.0[..16] == "execute fooplan(" && r.0[|r.0| - 2..] == ");"
    ensures CountChar('%', r.0) == |values|
    ensures |values| >= 1 ==> Split(',', r.0[16..|r.0| - 2]) == Repeat("%s", |values|)
  {
    ExecuteTextShape(|values|);
    if |values| >= 1 then PlaceholdersShape(|values|); (ExecuteText(|values|), values)
    else (ExecuteText(|values|), values)
  }
}
