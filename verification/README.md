# django-prepared-query, modelled in Dafny

django-prepared-query adds server-side prepared statements to Django
querysets. A filter is written with `BindParam` placeholders in place of
values. The placeholders register themselves on the query. `prepare()`
then:

- refuses placeholders on `IsNull` and `In` lookups;
- types each placeholder by the field it is compared with;
- compiles a `PREPARE fooplan (<types>) AS <sql>;` statement.

From then on the queryset refuses every ordinary queryset operation.
`execute(**kwargs)` checks that exactly the registered names are given and
cleans every value by its parameter's field. It makes sure the statement
is prepared on the connection's current raw connection, sending a PREPARE
only when the connection's record does not already name that raw
connection. It then runs `execute fooplan(%s,...)`. Around this sit:

- the PostgreSQL "prepared operations" dialect and its vendor factory;
- the flattening of a where tree into its lookups;
- a statements pool that inserts an empty list on a miss.

The project has one Dafny module per source file, plus two modules of
shared vocabulary:

- `Errors`: the exceptions, and the `Result`, `Outcome` and `Option` types.
- `Text`: Python's `join`, `split`, `str.format` with `{}` fields,
  `%`-formatting with `%s` and `%%`, `%d`, and `str(int)`.
- `Params`, `Utils`, `Query`, `Compiler`, `Operations`, `StatementsPool`,
  `QuerySet`: one module per source file.

Where the source mutates objects, the model uses classes:

- `FieldType`, whose `max_length` the parameter may set;
- `BindParam`, whose field type `prepare()` back-fills;
- `PrepareQuery`, which holds the registry and the prepared data;
- `PreparedQuerySet`;
- `Connection`, which holds the `prepared_statements` attribute, the raw
  connection identity and the statements sent;
- `Pool`.

Loops become methods with invariants. Each method is tied to a pure
function on values, and the lemmas are stated about those functions.

Django's collaborators are parameters of the model:

- `as_sql` gives the SQL and parameter list handed to the compiler;
- `db_type` is a function from a field's view to a column type;
- `get_prep_value` and `run_validators` are partial functions;
- the lookup classes are a three-way kind;
- the identity of the raw connection is a number.

The code differs from what its docstrings and names suggest in several
places. The model follows the code:

- The statement name is the fixed `fooplan`. It is not derived from the SQL.
- A duplicate parameter name raises `IncorrectBindParameter`.
- A value that cannot be cleaned raises Django's `ValidationError`.
- An unknown non-empty vendor passes the factory's check and then fails
  calling `None` (`TypeError`). It is not refused up front.
- The statement cache that `_execute_prepare` consults is the connection's
  `prepared_statements` attribute: a statement name mapped to a raw
  connection. The statements pool is a separate, unused structure.
- `prepare()` compiles the statement and discards the text, so the stored
  statement SQL stays `None`. There are no bind arrays, no limit/offset
  substitution and no session-variable dialect.

## Model

| member | source | states |
|---|---|---|
| Query.Register | django_prepared_query/query.py:45-51 | A hash already registered leaves the registry as it is. A new hash under a name in use fails with IncorrectBindParameter("'name' parameter used multiple times"). Otherwise exactly hash↦name is added and the name joins the set. |
| Query.RegisterKeepsInvariant | django_prepared_query/query.py:45-51 | Registering keeps the registry invariant: the name set is exactly the registered parameters' names, and no two registered hashes share a name. |
| Query.RegisterIdempotent | django_prepared_query/query.py:46-47 | Registering the same parameter a second time changes nothing. |
| Query.SameNameRejected | django_prepared_query/query.py:48-49 | Of two new hashes with the same name, the second registration fails with the duplicate-name error. |
| Query.FieldsByName | django_prepared_query/queryset.py:117-119 | The field of each registered parameter, by name: the keys are exactly the registered names, and each name maps to its parameter's field type. |
| Query.CompilerConnection | django_prepared_query/query.py:53-58 | Neither alias nor connection is a ValueError. A non-empty alias is looked up and wins over the connection; an alias that is not configured fails. Otherwise the given connection is used. |
| Query.PrepareQuery.constructor | django_prepared_query/query.py:9-16 | A new query has an empty hash map, name set and order, statement name '', SQL None and parameters (), and satisfies the registry invariant. |
| Query.PrepareQuery.ClonePreparedData | django_prepared_query/query.py:18-25 | The target's six prepared fields become this query's, sharing the same values. Its where tree and parameter values are untouched, and the target is returned. |
| Query.PrepareQuery.Clone | django_prepared_query/query.py:37-43 | A fresh query of the requested class with the same where tree, the same prepared data and the same parameter values (the execute query's clone at lines 66-69 hands those on too). The registry invariant holds. |
| Query.PrepareQuery.SetPrepareStatementName | django_prepared_query/query.py:27-28 | Only the statement name changes, to the given one. |
| Query.PrepareQuery.SetPrepareStatementSql | django_prepared_query/query.py:30-32 | Only the statement SQL and its parameters change, to the given ones. |
| Query.PrepareQuery.SetPrepareParamsOrder | django_prepared_query/query.py:34-35 | Only the parameter order changes, to the given one. |
| Query.PrepareQuery.AddPrepareParam | django_prepared_query/query.py:45-51 | The registry moves exactly as Register says, failing with its error. On success the parameter object is filed under its hash, and the invariant is kept. |
| Query.PrepareQuery.GetWhereNodes | django_prepared_query/utils.py:13-14 | One item per leaf of the query's where tree, each a leaf of that tree. |
| Query.ResolveExpression | django_prepared_query/params.py:22-25 | The parameter is registered on the query, so a duplicate name fails here rather than at prepare() time. On success the query's registry is Register's result, and the object filed under a new hash is the original parameter, not the returned copy; every other entry keeps its object. The copy has the same name, hash and field. Nothing else of the query changes, and without a query the call fails. |
| Params.BindParam.constructor | django_prepared_query/params.py:8-14 | The name and field type are the given ones, and the hash is the given 20-character token. A given field whose max_length is falsy gets 256; a truthy max_length, or no field at all, is left alone. |
| Params.BindParam.Repr | django_prepared_query/params.py:16-17 | The text is 'BindParam(' + name + ')', and the name can be read back from between the parentheses. |
| Params.BindParam.AsSql | django_prepared_query/params.py:19-20 | Exactly one `{}` field, and a one-element parameter list holding the hash. |
| Utils.TraverseLength | django_prepared_query/utils.py:4-10 | The traversal yields one item per leaf (nothing for a node without children). |
| Utils.TraverseYieldsLeaves | django_prepared_query/utils.py:4-10 | An item is yielded if and only if it is a leaf somewhere in the tree; inner nodes are never yielded. |
| Utils.TraverseConcat | django_prepared_query/utils.py:5-10 | Depth first, left to right: the children a + b yield what a yields followed by what b yields. |
| Utils.TraverseChild | django_prepared_query/utils.py:5-10 | A leaf child contributes itself, and a nested node its own traversal, in place among its siblings. |
| Compiler.RegisteredHashesBound | django_prepared_query/compiler.py:11-15 | There are at most as many registered hashes as parameters, and exactly as many if and only if every parameter is a registered hash. |
| Compiler.ArgumentTypesFollowRegistered | django_prepared_query/compiler.py:10-15 | The argument list succeeds exactly when every registered parameter met is typed, failing with AttributeError otherwise. Its j-th entry is the column type of the j-th registered hash among the parameters; other parameters contribute nothing. |
| Compiler.PrepareSqlSpecErrors | django_prepared_query/compiler.py:8-21 | Compiling a statement fails only with AttributeError, IndexError or a format error. |
| Compiler.PrepareSqlShape | django_prepared_query/compiler.py:16-21 | For SQL of brace-free pieces around `{}` fields, with no more fields than parameters: the statement is 'PREPARE fooplan (' + types joined by ',' + ') AS ', then the SQL with its k-th field replaced by the decimal k, then ';'. The parameter list is empty. |
| Compiler.PrepareSqlTooManyMarkers | django_prepared_query/compiler.py:18-19 | The numbers run only to the number of parameters, so more `{}` fields than parameters fail with IndexError. |
| Compiler.PrepareSql | django_prepared_query/compiler.py:8-21 | The argument-collecting loop computes PrepareSqlSpec of the registered parameters' current typing, and on success returns an empty parameter list. |
| Compiler.ExecuteTextShape | django_prepared_query/compiler.py:34-35 | The execute statement is 'execute fooplan(' + the placeholders + ');', and holds exactly n '%'. |
| Compiler.ExecuteAsSql | django_prepared_query/compiler.py:31-35 | The parameters are the values themselves, in order. The text is framed by 'execute fooplan(' and ');', holds one '%' per value, and between the parentheses splits into n copies of '%s'. |
| Operations.PrepareSql | django_prepared_query/operations.py:5-20 | Only PostgreSQL renders, and every other class raises NotImplementedError. With arguments the text is 'PREPARE name (t1,...) AS sql;'; without, 'PREPARE name  AS sql;' with two spaces. |
| Operations.PrepareSqlArgumentsRecoverable | django_prepared_query/operations.py:16-20 | The argument types can be read back from the PREPARE text by splitting between the parentheses at commas. |
| Operations.ExecuteSql | django_prepared_query/operations.py:8-26 | Only PostgreSQL renders. With k > 0 arguments the text is 'EXECUTE name(' + k × '%s' joined by ',' + ');'; with none, 'EXECUTE name;'. Only k enters the text. |
| Operations.PreparePlaceholder | django_prepared_query/operations.py:11-29 | Only PostgreSQL renders: '$' followed by the decimal of the index, from which the index is read back. |
| Operations.Create | django_prepared_query/operations.py:52-57 | A falsy vendor raises ImproperlyConfigured. A vendor in the mapping gets its class. Any other vendor fails with TypeError after the check. |
| Operations.MappingVendors | django_prepared_query/operations.py:45-50 | The mapping names exactly postgresql, mysql, sqlite and oracle. |
| Operations.OnlyPostgresqlPrepares | django_prepared_query/operations.py:32-57 | The factory plus prepare_sql yields a statement if and only if the vendor is 'postgresql'. |
| StatementsPool.Lookup | django_prepared_query/statements_pool.py:10-16 | A present key returns its list and changes nothing. A missing truthy key gets [] and returns it. A missing falsy key inserts nothing and fails with KeyError. |
| StatementsPool.LookupKeepsOtherKeys | django_prepared_query/statements_pool.py:10-16 | A lookup neither adds, removes nor alters any other key. |
| StatementsPool.LookupReturnsStored | django_prepared_query/statements_pool.py:10-16 | A lookup succeeds exactly when the key is present afterwards, and then it returns the stored list. |
| StatementsPool.LookupIdempotent | django_prepared_query/statements_pool.py:10-16 | Repeating a lookup changes nothing and returns the same result, so an existing list is never reset. |
| StatementsPool.LookupsOnlyGrow | django_prepared_query/statements_pool.py:10-16 | Over any series of lookups, keys are only added (and only truthy ones), and no stored list changes. |
| StatementsPool.Pool.constructor | django_prepared_query/statements_pool.py:19 | The module-level pool starts empty. |
| StatementsPool.Pool.GetItem | django_prepared_query/statements_pool.py:10-16 | The returned value and the new contents are exactly Lookup's. |
| Text.FormatMarkers | django_prepared_query/compiler.py:18-19 | str.format over brace-free pieces joined by `{}` fills the k-th field with the k-th remaining argument, left to right. |
| Text.FormatTooFewArguments | django_prepared_query/compiler.py:19 | str.format with more `{}` fields than arguments left fails with IndexError. |
| Text.FormatNeedsArguments | django_prepared_query/compiler.py:19 | A template that formats successfully has no more `{}` fields than arguments left. |
| Text.PercentFormatSplice | django_prepared_query/queryset.py:24 | %-formatting pieces joined by '%s' with one argument per '%s' splices the arguments in, in order. |
| Text.PercentFormatTooFew | django_prepared_query/queryset.py:24 | %-formatting with fewer arguments than '%s' conversions fails with TypeError. |
| Text.PlaceholdersShape | django_prepared_query/compiler.py:34 | k joined '%s' placeholders take 3k - 1 characters and split back into k copies of '%s'. |
| Text.IntDecimalRoundTrip | django_prepared_query/operations.py:29 | '%d' of an integer is an optionally signed run of digits that parses back to that integer. |
| QuerySet.CheckPrepared | django_prepared_query/queryset.py:56-58 | Raises OperationOnPreparedStatement with the given message exactly when the queryset is prepared. |
| QuerySet.PreparedQuerySet.Guard | django_prepared_query/queryset.py:29-51 | Each guarded operation fails with its own message (also those at lines 134-268) exactly when the queryset is prepared, and otherwise passes on to Django. |
| QuerySet.PreparedQuerySet.constructor | django_prepared_query/queryset.py:15-20 | Not prepared, no placeholders. The given query is kept, or else a fresh empty PrepareQuery is made. |
| QuerySet.Expressions | django_prepared_query/queryset.py:85-87 | A single right-hand side is treated as a one-element list, and a sequence is taken as it is. |
| QuerySet.ResolveParam | django_prepared_query/queryset.py:94-98 | Inside a subquery the parameter is registered (failing as Register says) and is itself the one typed. Elsewhere the registry is untouched, and an unregistered hash is a KeyError. |
| QuerySet.Backfill | django_prepared_query/queryset.py:99-100 | A parameter without a field type gets the given field; one with a type keeps it, and no other parameter changes. Each parameter then has the type the steps so far, plus this one, give it. |
| QuerySet.TypeBind | django_prepared_query/queryset.py:94-100 | After resolving, a parameter without a field type gets the lookup's field, and one with a type keeps it. Only registration errors arise, registered keys are only added, and outside a subquery the registry is unchanged. On success the typing step (parameter typed, field) follows the walk's earlier steps, and every parameter has the type those steps give it. |
| QuerySet.TypeExpr | django_prepared_query/queryset.py:90-100 | A plain value passes untouched. A bind parameter on an IsNull or In lookup raises NotSupportedLookup with the lookup's message, and that error arises only then. Any other bind parameter is typed as TypeBind says; outside a subquery it passes exactly when its hash is registered. |
| QuerySet.TypeExprs | django_prepared_query/queryset.py:88-100 | The expressions are walked in order and the walk stops at the first error, at a bind parameter. On an IsNull or In lookup the error is NotSupportedLookup, raised at the first bind parameter. Outside a subquery the registry is untouched, and a stop on a lookup that is not refused is at an unregistered hash. |
| QuerySet.TypeLookup | django_prepared_query/queryset.py:85-100 | A bind parameter on an IsNull or In lookup raises NotSupportedLookup("<lookup_name> lookup isn't supported in prepared statements"), and that error arises only then. Outside a subquery the lookup passes exactly when all its parameters are registered. Every parameter keeps its type or, having none, gets the lookup's field. On success the types are exactly those the walk's steps, this lookup's appended, give. |
| QuerySet.TypeNode | django_prepared_query/queryset.py:84-100 | One lookup of the walk. On success the lookups so far are all accepted, their parameters resolve, and every parameter has the type their steps give it. A NotSupportedLookup names this lookup, which binds on IsNull or In. |
| QuerySet.TypeAll | django_prepared_query/queryset.py:84-100 | The walk passes only if no lookup binds on IsNull or In, and a NotSupportedLookup names such a lookup. No existing field type is ever replaced. On success every parameter has the type the whole walk's steps give it: the field of the first lookup that offers it one. |
| QuerySet.CheckTyped | django_prepared_query/queryset.py:101-103 | Passes if and only if every registered parameter is typed. Otherwise raises PreparedStatementException('Field type is required for <hash>') for an untyped one. |
| QuerySet.PrepareCopy | django_prepared_query/queryset.py:84-105 | On success no refused lookup remains, every registered parameter is typed, and the parameters are retyped as the walk's steps say. The statement compiles. The result is a fresh PrepareQuery with the same where tree, registry, order, statement data and values. The failures are exactly the walk's, the untyped check's or the compiler's. |
| QuerySet.TypeAfterKeeps | django_prepared_query/queryset.py:99-100 | A parameter that has a field type keeps it, whatever typing steps follow. |
| QuerySet.TypesAfterKeep | django_prepared_query/queryset.py:84-100 | After any walk, the parameters that had a type when the walk began still have it. |
| QuerySet.TypeAfterFirst | django_prepared_query/queryset.py:84-100 | An untyped parameter ends with the field of the first step that offers it a field that is not None. |
| QuerySet.TypeAfterUntouched | django_prepared_query/queryset.py:99-100 | An untyped parameter that no step offers a field stays untyped. |
| QuerySet.TypeAfterOffered | django_prepared_query/queryset.py:99-100 | A step that offers a parameter a field leaves it typed. |
| QuerySet.TypeAfterAppend | django_prepared_query/queryset.py:84-100 | Typing steps compose: steps a then b give what a + b gives. |
| QuerySet.TypeAfterOne | django_prepared_query/queryset.py:88-100 | Steps of one lookup, which all offer its field, leave a type or fill a missing one with that field. |
| QuerySet.TouchesHas | django_prepared_query/queryset.py:88-100 | Each bind parameter of a lookup is one of its typing steps, offering the parameter it stands for the lookup's field. |
| QuerySet.WalkTouchesHas | django_prepared_query/queryset.py:84-100 | Each bind parameter of the walk is one of the walk's typing steps. |
| QuerySet.WalkTypes | django_prepared_query/queryset.py:84-100 | After the walk, the parameter any bind parameter of a lookup with a field stands for is typed, whatever it started from. |
| QuerySet.TouchesExtend | django_prepared_query/queryset.py:94-98 | Registering more parameters does not change what a lookup's bind parameters stand for, nor its typing steps. |
| QuerySet.PreparedQuerySet.Prepare | django_prepared_query/queryset.py:82-108 | On success the queryset becomes prepared. Its query is a fresh, fully typed PrepareQuery holding the old query's data, whose statement compiles; the parameters are retyped as the walk's steps say. On failure the flag and the query are as before, and the errors are PrepareCopy's. |
| QuerySet.Record | django_prepared_query/queryset.py:71-78 | After a PREPARE the name maps to the current raw connection; every other name keeps its entry (an absent map counts as empty). |
| QuerySet.RecordedNotPreparedAgain | django_prepared_query/queryset.py:74-78 | Once recorded for a raw connection, the statement is not prepared again there. On any other raw connection, or once the connection is closed, it is. |
| QuerySet.PrepareCountIsSwitches | django_prepared_query/queryset.py:67-80 | Over a run of executions, PREPARE is sent once at the start (unless already recorded) and once after every change of raw connection, never otherwise. |
| QuerySet.Connection.PrepareStatement | django_prepared_query/queryset.py:74-78 | Connects if closed. The PREPARE text is the compiled statement for the parameters' typing, sent once. The name is then recorded for the current raw connection; on failure nothing is sent or recorded. |
| QuerySet.PreparedQuerySet.ExecutePrepare | django_prepared_query/queryset.py:67-80 | A PREPARE is issued exactly when the name is not recorded for the current raw connection, and afterwards it is recorded. The query becomes a fresh execute query with the same where tree, registry, order, statement name, SQL, SQL parameters and values. |
| QuerySet.GetKwargFinds | django_prepared_query/queryset.py:120 | `kwargs.get(name)` of a name held by one entry is that entry's value. |
| QuerySet.GetKwargMissing | django_prepared_query/queryset.py:120 | `kwargs.get(name)` of an absent name is None. |
| QuerySet.PutKwarg | django_prepared_query/queryset.py:128 | Writing back keeps every name and position, and replaces exactly the named entry's value. |
| QuerySet.CleanValue | django_prepared_query/queryset.py:118-127 | A model instance is replaced by its primary key. A value get_prep_value cannot convert is a ValidationError naming value and parameter. A successful result is the converted value and passes the field's validators. |
| QuerySet.CleanStep | django_prepared_query/queryset.py:118-128 | One round of the cleaning loop writes the cleaned value back under its name and keeps the loop invariant, or raises that value's cleaning failure. |
| QuerySet.CleanKwargs | django_prepared_query/queryset.py:117-128 | Succeeds exactly when every value cleans. The result keeps every name and holds each cleaned value; a failure is the failure of some value. |
| QuerySet.CheckKwargs | django_prepared_query/queryset.py:113-128 | Keys that differ from the registered names in any way raise IncorrectBindParameter('Incorrect params'). Otherwise the values are cleaned as CleanKwargs says. |
| QuerySet.PreparedQuerySet.RunExecute | django_prepared_query/queryset.py:129-132 | After cleaning: on success the result is the execute statement over the cleaned values and they become the parameter values of a fresh execute query keeping all other data. The connection effects are ExecutePrepare's, and its compiler errors are the only failures, leaving query, sent statements and record as they were. |
| QuerySet.PreparedQuerySet.Execute | django_prepared_query/queryset.py:110-132 | Unprepared, raises QueryNotPrepared. Keys that are not exactly the registered names raise IncorrectBindParameter. A ValidationError comes from some value's cleaning; the only other failures are the PREPARE compiler's, and then nothing was sent or recorded. On success the result is the execute statement over the cleaned values, in keyword order, and those values are stored on a fresh execute query that keeps the where tree, registry, order, statement name, SQL and SQL parameters. A PREPARE was sent and recorded exactly when the name was not recorded for the current raw connection. |
| QuerySet.ReprOf | django_prepared_query/queryset.py:22-27 | Unprepared, it is Django's repr. Prepared with no stored statement, TypeError. Otherwise 'PreparedQuerySet <' + the statement %-formatted with its parameters + ' (' + order joined by ', ' + ')>', failing exactly when the formatting does. |
| QuerySet.ReprOfPlainStatement | django_prepared_query/queryset.py:22-26 | A statement without '%' and an empty parameter tuple is shown unchanged, followed by the parameter order. |
| QuerySet.PreparedQuerySet.Repr | django_prepared_query/queryset.py:22-27 | The queryset's repr follows ReprOf on its own flag and query; a prepared one is framed by 'PreparedQuerySet <' and ')>'. |

## Left out

- Django internals are parameters: `Query.as_sql` and `pre_sql_setup`, row materialisation, `_base_iter`, and the other `super()` delegations.
- `Query.PrepareQuery.Clone` models the Django 2 branch of `clone` (and `chain`), which copies the instance's attributes: the where tree and all prepared data, parameter values included, for every target class. The Django 1.x branch, which passes `klass` and other arguments on to Django's own `clone`, is not modelled. `prepare()` takes Django's SQL and parameter list, and the (lookup, inside-a-subquery) pairs of the where walk, as inputs.
- Field behaviour (`db_type`, `get_prep_value`, `run_validators`, `output_field`) is an uninterpreted function. Django's coercion rules are not part of this model.
- `PrepareSQLCompiler.execute_sql` and the cursor are I/O. A PREPARE sent is recorded in `Connection.sent`. In `_execute_prepare`, `connections[self.db]` is the given `Connection`; the failure of that lookup for an unknown alias is modelled only in `Query.CompilerConnection`.
- The debug `print` in `prepare_sql` is not modelled.
- The random hash of `generate_random_string` is a constructor argument of length 20.
- The weak references of the statements pool are not modelled: an entry stays until the pool is dropped.
- Python object sharing: `_clone_prepared_data` shares the dict and set objects, while the model copies map and set values. A later in-place change through one query is therefore not seen by its clones.
- Dictionary iteration order: `CleanKwargs` and `CheckTyped` visit names in an unspecified order, so with several failures any of them may be reported. Keyword arguments are an ordered list with distinct names.
- `str.format` is modelled for `{}`, `{{` and `}}` only. A numbered or named field (`{0}`, `{name}`) is a format error here, and so is an automatic field with a conversion or format spec (`{!r}`, `{:x}`); Python accepts all of these. `%`-formatting is modelled for `%s` and `%%` only.
- Compiler.PrepareSqlSpecErrors: `db_type` is taken to return a string. A `db_type` of None, which makes `','.join` raise TypeError, is not modelled. Neither is an unhashable SQL parameter, which raises TypeError at the registry lookup.
- QuerySet.PreparedQuerySet.Prepare: the ghost `params` argument names the parameter objects `prepare()` may retype. It is a frame for the proof, not an input of the source.
- `manager.py`, the demo application, tests and setup are not part of this model.
