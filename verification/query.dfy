/** The query object of a prepared queryset: Django's query plus the
    registry of bind parameters and the prepared-statement data. */
module Query {
  import opened Errors
  import opened Params
  import opened Lookups
  import Utils

  /** The two query classes: the one used while building and preparing, and
      the one used to execute. */
  datatype QueryClass = PrepareQueryClass | ExecutePrepareQueryClass

  /** An execute-time value: a plain value (by its rendering), a model
      instance (by its primary key) or None. */
  datatype Value = Scalar(rendered: string) | ModelInstance(pk: string) | NoneValue

  /** One keyword argument of `execute`, in call order. */
  datatype Kwarg = Kwarg(name: string, value: Value)

  /** The registry as values: the name each registered hash carries, and the
      set of registered names. */
  datatype Registry = Registry(byHash: map<string, string>, names: set<string>)

  /** A registered hash carrying `name`. */
  ghost function NameOwner(byHash: map<string, string>, name: string): (h: string)
    requires name in byHash.Values
    ensures h in byHash && byHash[h] == name
  {
    var h :| h in byHash && byHash[h] == name; h
  }

  /** The set of names is exactly the set of registered parameters' names,
      and each name is carried by one hash only: the owner of a registered
      hash's name is that hash. */
  ghost predicate RegistryInvariant(reg: Registry)
  {
    && reg.names == reg.byHash.Values
    && forall h | h in reg.byHash :: reg.byHash[h] in reg.byHash.Values && NameOwner(reg.byHash, reg.byHash[h]) == h
  }

  /** Under the registry invariant no two registered hashes share a name. */
  lemma NamesDistinct(reg: Registry, h1: string, h2: string)
    requires RegistryInvariant(reg)
    requires h1 in reg.byHash && h2 in reg.byHash && reg.byHash[h1] == reg.byHash[h2]
    ensures h1 == h2
  {
  }

  function DuplicateMessage(name: string): string
  {
    "'" + name + "' parameter used multiple times"
  }

  /** `add_prepare_param` on values. A hash already registered changes
      nothing; a new hash under a name already in use is refused; otherwise
      exactly the new entry and its name are added. */
  function Register(reg: Registry, hash: string, name: string): (r: Result<Registry>)
    ensures hash in reg.byHash ==> r == Success(reg)
    ensures r.Failure? <==> hash !in reg.byHash && name in reg.names
    ensures r.Failure? ==> r.error == IncorrectBindParameter(DuplicateMessage(name))
    ensures r.Success? && hash !in reg.byHash ==>
      r.value.byHash == reg.byHash[hash := name] && r.value.names == reg.names + {name}
    ensures r.Success? ==> hash in r.value.byHash && r.value.byHash[hash] == (if hash in reg.byHash then reg.byHash[hash] else name)
  {
    if hash in reg.byHash then Success(reg)
    else if name in reg.names then Failure(IncorrectBindParameter(DuplicateMessage(name)))
    else Success(Registry(reg.byHash[hash := name], reg.names + {name}))
  }

  /** Registering keeps the registry invariant. */
  lemma RegisterKeepsInvariant(reg: Registry, hash: string, name: string)
    requires RegistryInvariant(reg)
    requires Register(reg, hash, name).Success?
    ensures RegistryInvariant(Register(reg, hash, name).value)
  {
    if hash !in reg.byHash {
      var m := reg.byHash[hash := name];
      assert m.Values == reg.byHash.Values + {name} by {
        forall v | v in m.Values ensures v in reg.byHash.Values + {name} {
          var h :| h in m && m[h] == v;
          if h != hash { assert h in reg.byHash && reg.byHash[h] == v; }
        }
        forall v | v in reg.byHash.Values + {name} ensures v in m.Values {
          if v == name {
            assert m[hash] == v;
          } else {
            var h :| h in reg.byHash && reg.byHash[h] == v;
            assert h != hash && m[h] == v;
          }
        }
      }
    }
  }

  /** Registering the same parameter twice is registering it once. */
  lemma {:induction false} RegisterIdempotent(reg: Registry, hash: string, name: string)
    requires Register(reg, hash, name).Success?
    ensures Register(Register(reg, hash, name).value, hash, name) == Register(reg, hash, name)
  {
  }

  /** Two parameters with different hashes and the same name cannot both be
      registered on one query: the second fails, whatever came before. */
  lemma SameNameRejected(reg: Registry, hash1: string, hash2: string, name: string)
    requires hash1 != hash2 && hash1 !in reg.byHash && hash2 !in reg.byHash
    requires Register(reg, hash1, name).Success?
    ensures Register(Register(reg, hash1, name).value, hash2, name) == Failure(IncorrectBindParameter(DuplicateMessage(name)))
  {
  }

  /** The name each registered hash carries (names and hashes of bind
      parameters are never reassigned, so this reads no state). */
  function HashNames(byHash: map<string, BindParam>): (m: map<string, string>)
    ensures m.Keys == byHash.Keys
    ensures forall h | h in byHash :: m[h] == byHash[h].name
  {
    map h | h in byHash :: byHash[h].name
  }

  /** The typing of each registered parameter. */
  function FieldViews(byHash: map<string, BindParam>): (m: map<string, Option<FieldView>>)
    reads set h | h in byHash :: byHash[h]
    reads set h | h in byHash && byHash[h].fieldType != null :: byHash[h].fieldType
    ensures m.Keys == byHash.Keys
  {
    map h | h in byHash :: ViewOf(byHash[h].fieldType)
  }

  /** The typing of the registered parameters depends only on the
      parameters and their fields. */
  twostate lemma FieldViewsUnchanged(byHash: map<string, BindParam>)
    requires forall h | h in byHash :: unchanged(byHash[h])
    requires forall h | h in byHash && byHash[h].fieldType != null :: unchanged(byHash[h].fieldType)
    ensures FieldViews(byHash) == old(FieldViews(byHash))
  {
  }

  /** The typing of each registered parameter, by the parameter's name
      (names are unique among registered parameters). */
  function FieldsByName(byHash: map<string, BindParam>): (m: map<string, Option<FieldView>>)
    reads set h | h in byHash :: byHash[h]
    reads set h | h in byHash && byHash[h].fieldType != null :: byHash[h].fieldType
    requires forall h | h in byHash :: byHash[h].name in HashNames(byHash).Values && NameOwner(HashNames(byHash), byHash[h].name) == h
    ensures m.Keys == HashNames(byHash).Values
    ensures forall h | h in byHash :: m[byHash[h].name] == ViewOf(byHash[h].fieldType)
  {
    var m := map h | h in byHash :: byHash[h].name := ViewOf(byHash[h].fieldType);
    assert m.Keys == HashNames(byHash).Values by {
      forall n | n in HashNames(byHash).Values ensures n in m.Keys {
        var h :| h in HashNames(byHash) && HashNames(byHash)[h] == n;
        assert byHash[h].name == n;
      }
    }
    m
  }

  /** `get_prepare_compiler` / `get_compiler`: the connection the compiler is
      bound to. Neither alias nor connection is a ValueError; a non-empty
      alias is looked up and wins over the connection; otherwise the given
      connection is used. */
  function CompilerConnection(using: Option<string>, connection: Option<nat>, connections: map<string, nat>): (r: Result<Option<nat>>)
    ensures r == Failure(ValueError("Need either using or connection")) <==> using.None? && connection.None?
    ensures using.Some? && using.value != "" ==>
      r == if using.value in connections then Success(Some(connections[using.value])) else Failure(ConnectionDoesNotExist(using.value))
    ensures (using.None? || using.value == "") && !(using.None? && connection.None?) ==> r == Success(connection)
  {
    if using.None? && connection.None? then Failure(ValueError("Need either using or connection"))
    else if using.Some? && using.value != "" then
      if using.value in connections then Success(Some(connections[using.value]))
      else Failure(ConnectionDoesNotExist(using.value))
    else Success(connection)
  }

  class PrepareQuery {
    const klass: QueryClass
    /** Django's where tree; the rest of Django's query is not modelled. */
    var where: Utils.WhereNode<Lookup>
    var byHash: map<string, BindParam>
    var names: set<string>
    var order: seq<string>
    var statementName: string
    var statementSql: Option<string>
    var statementSqlParams: seq<SqlParam>
    /** `prepare_params_values`; None while the attribute is absent. */
    var paramsValues: Option<seq<Kwarg>>

    function RegistryView(): Registry
      reads this
    {
      Registry(HashNames(byHash), names)
    }

    /** The registry invariant, and every parameter filed under its hash. */
    ghost predicate Valid()
      reads this
    {
      RegistryInvariant(RegistryView()) && forall h | h in byHash :: byHash[h].hash == h
    }

    /** This query and `other` hold the same where tree, registry, parameter
        order, statement data and parameter values; only the class may
        differ. */
    ghost predicate SameData(other: PrepareQuery)
      reads this, other
    {
      SameStatement(other) && paramsValues == other.paramsValues
    }

    /** As SameData, except for the parameter values. */
    ghost predicate SameStatement(other: PrepareQuery)
      reads this`where, this`byHash, this`names, this`order, this`statementName, this`statementSql, this`statementSqlParams
      reads other`where, other`byHash, other`names, other`order, other`statementName, other`statementSql, other`statementSqlParams
    {
      && where == other.where && byHash == other.byHash && names == other.names && order == other.order
      && statementName == other.statementName && statementSql == other.statementSql
      && statementSqlParams == other.statementSqlParams
    }

    /** A fresh query: empty registry and order, statement name '', SQL None,
        parameters (). */
    constructor (klass: QueryClass, where: Utils.WhereNode<Lookup>)
      ensures Valid()
      ensures this.klass == klass && this.where == where
      ensures byHash == map[] && names == {} && order == []
      ensures statementName == "" && statementSql == None && statementSqlParams == []
      ensures paramsValues == None
    {
      this.klass := klass;
      this.where := where;
      byHash := map[];
      names := {};
      order := [];
      statementName := "";
      statementSql := None;
      statementSqlParams := [];
      paramsValues := None;
      new;
      assert RegistryView().byHash == map[];
    }

    /** `_clone_prepared_data`: the target's six prepared fields become this
        query's; nothing else of the target changes. */
    method ClonePreparedData(target: PrepareQuery) returns (r: PrepareQuery)
      modifies target
      ensures r == target
      ensures target.byHash == byHash && target.names == names && target.order == order
      ensures target.statementName == statementName && target.statementSql == statementSql
      ensures target.statementSqlParams == statementSqlParams
      ensures target.where == old(target.where) && target.paramsValues == old(target.paramsValues)
      ensures target != this ==> unchanged(this)
    {
      target.byHash := byHash;
      target.names := names;
      target.order := order;
      target.statementName := statementName;
      target.statementSql := statementSql;
      target.statementSqlParams := statementSqlParams;
      r := target;
    }

    /** `clone(klass=...)`: a fresh query of the requested class with the same
        where tree and prepared data. The parameter values are handed on as
        well: Django's clone copies the instance's attributes, and the
        execute query's clone copies them explicitly. */
    method Clone(newClass: QueryClass) returns (q: PrepareQuery)
      requires Valid()
      ensures fresh(q) && q.Valid()
      ensures q.klass == newClass && q.where == where
      ensures q.byHash == byHash && q.names == names && q.order == order
      ensures q.statementName == statementName && q.statementSql == statementSql
      ensures q.statementSqlParams == statementSqlParams
      ensures q.paramsValues == paramsValues
    {
      q := new PrepareQuery(newClass, where);
      q := ClonePreparedData(q);
      q.paramsValues := paramsValues;
    }

    method SetPrepareStatementName(name: string)
      modifies this`statementName
      ensures statementName == name
    {
      statementName := name;
    }

    method SetPrepareStatementSql(sql: string, params: seq<SqlParam>)
      modifies this`statementSql, this`statementSqlParams
      ensures statementSql == Some(sql) && statementSqlParams == params
    {
      statementSql := Some(sql);
      statementSqlParams := params;
    }

    method SetPrepareParamsOrder(order: seq<string>)
      modifies this`order
      ensures this.order == order
    {
      this.order := order;
    }

    /** `add_prepare_param`: the registry moves as Register says, the
        parameter object is filed under its hash, and the invariant holds. */
    method AddPrepareParam(p: BindParam) returns (r: Outcome)
      requires Valid()
      modifies this`byHash, this`names
      ensures Valid()
      ensures r.Fail? <==> Register(old(RegistryView()), p.hash, p.name).Failure?
      ensures r.Fail? ==> r.error == Register(old(RegistryView()), p.hash, p.name).error
      ensures r.Pass? ==> RegistryView() == Register(old(RegistryView()), p.hash, p.name).value
      ensures byHash == if r.Pass? && p.hash !in old(byHash) then old(byHash)[p.hash := p] else old(byHash)
    {
      if p.hash in byHash {
        return Pass;
      }
      if p.name in names {
        return Fail(IncorrectBindParameter(DuplicateMessage(p.name)));
      }
      RegisterKeepsInvariant(RegistryView(), p.hash, p.name);
      byHash := byHash[p.hash := p];
      names := names + {p.name};
      assert HashNames(byHash) == HashNames(old(byHash))[p.hash := p.name];
      r := Pass;
    }

    /** `get_where_nodes(query)`: the traversal of the query's where tree,
        one item per leaf, each a leaf of the tree. */
    function GetWhereNodes(): (r: seq<Lookup>)
      reads this
      ensures |r| == Utils.LeafCount(where)
      ensures forall i | 0 <= i < |r| :: Utils.HasLeaf(where, r[i])
    {
      var r := Utils.Traverse(where);
      Utils.TraverseLength(where);
      forall i | 0 <= i < |r| ensures Utils.HasLeaf(where, r[i]) {
        Utils.TraverseYieldsLeaves(where, r[i]);
      }
      r
    }
  }

  /** `BindParam.resolve_expression`: registers the parameter itself on the
      query (so a duplicate name fails here, before prepare) and returns
      Django's copy of it. Without a query the call fails on None. */
  method ResolveExpression(p: BindParam, query: PrepareQuery?) returns (r: Result<BindParam>)
    requires query != null ==> query.Valid()
    modifies query
    ensures query == null ==> r == Failure(AttributeError)
    ensures query != null ==> query.Valid() && query.where == old(query.where)
    ensures query != null ==> query.order == old(query.order) && query.statementName == old(query.statementName)
    ensures query != null ==>
      query.statementSql == old(query.statementSql) && query.statementSqlParams == old(query.statementSqlParams)
    ensures query != null ==> query.paramsValues == old(query.paramsValues)
    ensures query != null ==>
      (r.Failure? <==> Register(old(query.RegistryView()), p.hash, p.name).Failure?)
    ensures query != null && r.Failure? ==> r.error == IncorrectBindParameter(DuplicateMessage(p.name))
    ensures query != null && r.Success? ==>
      query.RegistryView() == Register(old(query.RegistryView()), p.hash, p.name).value
    ensures query != null ==>
      query.byHash == if r.Success? && p.hash !in old(query.byHash) then old(query.byHash)[p.hash := p] else old(query.byHash)
    ensures r.Success? ==> fresh(r.value) && r.value.name == p.name && r.value.hash == p.hash && r.value.fieldType == p.fieldType
  {
    var c := new BindParam.Copy(p);
    if query == null {
      return Failure(AttributeError);
    }
    var o := query.AddPrepareParam(p);
    if o.Fail? {
      return Failure(o.error);
    }
    r := Success(c);
  }
}
