/** The prepared queryset: a queryset that is prepared once, after which
    only `execute` may run it, and whose executions share one server-side
    statement per raw connection. */
module QuerySet {
  import opened Errors
  import opened Params
  import opened Lookups
  import opened Query
  import opened Text
  import Compiler
  import Utils

  /** The queryset operations that refuse to run on a prepared queryset. */
  datatype Operation =
    | Iter | Len | Bool | GetItem | And | Or
    | Iterator | Aggregate | Count | Get | Create | BulkCreate | GetOrCreate | UpdateOrCreate
    | EarliestOrLatest | First | Last | InBulk | Delete | Update | Exists | Raw
    | ValuesOp | ValuesList | Dates | Datetimes | NoneOp | All | FilterOrExclude
    | SelectRelated | PrefetchRelated | Annotate | OrderBy | Distinct | Extra
    | Reverse | Defer | Only | Using

  /** The message each guarded operation raises with. */
  function GuardMessage(op: Operation): string
  {
    match op
    case Iter => "PreparedQuerySet object is not iterable"
    case Len => "PreparedQuerySet object has no len()"
    case Bool => "PreparedQuerySet can't be fetched without calling execute method"
    case GetItem => "PreparedQuerySet can't be fetched without calling execute method"
    case And => "AND not allowed on prepared statement"
    case Or => "OR not allowed on prepared statement"
    case Iterator => "Iterator not allowed on prepared statement"
    case Aggregate => "Aggregate not allowed on prepared statement"
    case Count => "Count not allowed on prepared statement"
    case Get => "Get not allowed on prepared statement"
    case Create => "Create not allowed on prepared statement"
    case BulkCreate => "Bulk Create not allowed on prepared statement"
    case GetOrCreate => "Get or create not allowed on prepared statement"
    case UpdateOrCreate => "Update or create not allowed on prepared statement"
    case EarliestOrLatest => "Earliest or latest not allowed on prepared statement"
    case First => "First not allowed on prepared statement"
    case Last => "Last not allowed on prepared statement"
    case InBulk => "Operation not allowed on prepared statement"
    case Delete => "Delete not allowed on prepared statement"
    case Update => "Update not allowed on prepared statement"
    case Exists => "Exists not allowed on prepared statement"
    case Raw => "Raw not allowed on prepared statement"
    case ValuesOp => "Values not allowed on prepared statement"
    case ValuesList => "Values list not allowed on prepared statement"
    case Dates => "Dates not allowed on prepared statement"
    case Datetimes => "Datetimes not allowed on prepared statement"
    case NoneOp => "None not allowed on prepared statement"
    case All => "All not allowed on prepared statement"
    case FilterOrExclude => "Filter not allowed on prepared statement"
    case SelectRelated => "Select related not allowed on prepared statement"
    case PrefetchRelated => "Prefetch related not allowed on prepared statement"
    case Annotate => "Annotate not allowed on prepared statement"
    case OrderBy => "Order by not allowed on prepared statement"
    case Distinct => "Distinct not allowed on prepared statement"
    case Extra => "Extra not allowed on prepared statement"
    case Reverse => "Reverse not allowed on prepare statement"
    case Defer => "Defer not allowed on prepare statement"
    case Only => "Only not allowed on prepare statement"
    case Using => "Using not allowed on prepare statement"
  }

  /** `_check_prepared(msg)`: raises exactly on a prepared queryset. */
  function CheckPrepared(prepared: bool, msg: string): (r: Outcome)
    ensures r.Fail? <==> prepared
    ensures r.Fail? ==> r.error == OperationOnPreparedStatement(msg)
  {
    if prepared then Fail(OperationOnPreparedStatement(msg)) else Pass
  }

  // ---------------------------------------------------------------------
  // prepare()
  // ---------------------------------------------------------------------

  /** The expressions of a right-hand side; a single expression is treated
      as a one-element list. */
  function Expressions(rhs: Rhs): (es: seq<Expr>)
    ensures rhs.Single? ==> es == [rhs.expr]
    ensures rhs.Many? ==> es == rhs.exprs
  {
    match rhs
    case Single(e) => [e]
    case Many(es) => es
  }

  /** The lookups that take no bind parameter. */
  predicate Refused(lookup: Lookup)
  {
    lookup.kind == IsNull || lookup.kind == In
  }

  /** The message of NotSupportedLookup for a lookup. */
  function NotSupportedMessage(lookup: Lookup): string
  {
    lookup.lookupName + " lookup isn't supported in prepared statements"
  }

  /** The lookup carries a bind parameter although it is IsNull or In. */
  predicate RefusedBind(lookup: Lookup)
  {
    Refused(lookup) && exists m | 0 <= m < |Expressions(lookup.rhs)| :: Expressions(lookup.rhs)[m].Bind?
  }

  /** The bind parameters one lookup carries. */
  ghost function BindsIn(lookup: Lookup): set<BindParam>
  {
    set m | 0 <= m < |Expressions(lookup.rhs)| && Expressions(lookup.rhs)[m].Bind? :: Expressions(lookup.rhs)[m].param
  }

  /** The registered parameter objects. */
  ghost function Registered(byHash: map<string, BindParam>): set<BindParam>
  {
    set h | h in byHash :: byHash[h]
  }

  /** The bind parameters the lookups of the where tree carry. */
  ghost function BindsOf(nodes: seq<(Lookup, bool)>): set<BindParam>
  {
    set k, p | 0 <= k < |nodes| && p in BindsIn(nodes[k].0) :: p
  }

  /** Every registered parameter has a field type. */
  predicate AllTyped(byHash: map<string, BindParam>)
    reads set h | h in byHash :: byHash[h]
  {
    forall h | h in byHash :: byHash[h].fieldType != null
  }

  /** The parameter object `prepare()` types for a bind parameter: inside a
      subquery the parameter itself, otherwise the one registered under its
      hash. */
  function Target(byHash: map<string, BindParam>, param: BindParam, isInner: bool): BindParam
    requires isInner || param.hash in byHash
  {
    if isInner then param else byHash[param.hash]
  }

  /** Every bind parameter among the first `n` of `exprs` stands for some
      parameter object. */
  predicate Resolves(byHash: map<string, BindParam>, exprs: seq<Expr>, n: nat, isInner: bool)
  {
    n <= |exprs| && forall m | 0 <= m < n && exprs[m].Bind? :: isInner || exprs[m].param.hash in byHash
  }

  /** The typing steps of the first `n` expressions of a lookup, in order:
      each bind parameter offers the object it stands for the lookup's
      field. */
  function Touches(byHash: map<string, BindParam>, exprs: seq<Expr>, n: nat, isInner: bool, field: FieldType?): seq<(BindParam, FieldType?)>
    requires Resolves(byHash, exprs, n, isInner)
  {
    if n == 0 then []
    else
      Touches(byHash, exprs, n - 1, isInner, field) +
      (if exprs[n - 1].Bind? then [(Target(byHash, exprs[n - 1].param, isInner), field)] else [])
  }

  /** Every bind parameter of the first `n` lookups of the walk stands for
      some parameter object. */
  predicate WalkResolves(byHash: map<string, BindParam>, nodes: seq<(Lookup, bool)>, n: nat)
  {
    n <= |nodes| &&
    forall k | 0 <= k < n :: Resolves(byHash, Expressions(nodes[k].0.rhs), |Expressions(nodes[k].0.rhs)|, nodes[k].1)
  }

  /** The typing steps of the first `n` lookups of the walk, lookup after
      lookup. */
  function WalkTouches(byHash: map<string, BindParam>, nodes: seq<(Lookup, bool)>, n: nat): seq<(BindParam, FieldType?)>
    requires WalkResolves(byHash, nodes, n)
  {
    if n == 0 then []
    else
      var exprs := Expressions(nodes[n - 1].0.rhs);
      WalkTouches(byHash, nodes, n - 1) + Touches(byHash, exprs, |exprs|, nodes[n - 1].1, nodes[n - 1].0.lhsOutputField)
  }

  /** The field type of `p`, starting from `t`, after the typing steps `s`:
      a step that offers `p` a field while it has none sets it; every other
      step leaves it. */
  function TypeAfter(t: FieldType?, s: seq<(BindParam, FieldType?)>, p: BindParam): FieldType?
    decreases |s|
  {
    if s == [] then t
    else
      var u := TypeAfter(t, s[..|s| - 1], p);
      if s[|s| - 1].0 == p && u == null then s[|s| - 1].1 else u
  }

  /** Between the method's entry and now, every parameter of `ps` went from
      its field type to the one the typing steps `s` give it. */
  twostate predicate Retyped(ps: set<BindParam>, new s: seq<(BindParam, FieldType?)>)
    reads ps
  {
    forall p | p in ps :: p.fieldType == TypeAfter(old(p.fieldType), s, p)
  }

  /** Every parameter of `ps` has the field type the typing steps `s` give
      it from its type in `t0`. */
  predicate TypesAfter(ps: set<BindParam>, t0: map<BindParam, FieldType?>, s: seq<(BindParam, FieldType?)>)
    reads ps
  {
    forall p | p in ps :: p in t0 && p.fieldType == TypeAfter(t0[p], s, p)
  }

  /** `b2` keeps every entry of `b1`. */
  predicate Extends(b1: map<string, BindParam>, b2: map<string, BindParam>)
  {
    forall h | h in b1 :: h in b2 && b2[h] == b1[h]
  }

  /** Keeping entries is transitive. */
  lemma ExtendsTrans(b1: map<string, BindParam>, b2: map<string, BindParam>, b3: map<string, BindParam>)
    requires Extends(b1, b2) && Extends(b2, b3)
    ensures Extends(b1, b3) && b1.Keys <= b3.Keys
  {
  }

  /** Registering more parameters does not change what a lookup's bind
      parameters stand for. */
  lemma {:induction false} TouchesExtend(b1: map<string, BindParam>, b2: map<string, BindParam>, exprs: seq<Expr>, n: nat,
                                         isInner: bool, field: FieldType?)
    requires Extends(b1, b2) && Resolves(b1, exprs, n, isInner)
    ensures Resolves(b2, exprs, n, isInner)
    ensures Touches(b2, exprs, n, isInner, field) == Touches(b1, exprs, n, isInner, field)
  {
    if n > 0 {
      TouchesExtend(b1, b2, exprs, n - 1, isInner, field);
    }
  }

  /** One more lookup of the walk resolves, and its steps follow the earlier ones. */
  lemma WalkNext(byHash: map<string, BindParam>, nodes: seq<(Lookup, bool)>, i: nat)
    requires i < |nodes| && WalkResolves(byHash, nodes, i)
    requires Resolves(byHash, Expressions(nodes[i].0.rhs), |Expressions(nodes[i].0.rhs)|, nodes[i].1)
    ensures WalkResolves(byHash, nodes, i + 1)
    ensures WalkTouches(byHash, nodes, i + 1) == WalkTouches(byHash, nodes, i) +
      Touches(byHash, Expressions(nodes[i].0.rhs), |Expressions(nodes[i].0.rhs)|, nodes[i].1, nodes[i].0.lhsOutputField)
  {
  }

  /** The same for the walk. */
  lemma {:induction false} WalkExtend(b1: map<string, BindParam>, b2: map<string, BindParam>, nodes: seq<(Lookup, bool)>, n: nat)
    requires Extends(b1, b2) && WalkResolves(b1, nodes, n)
    ensures WalkResolves(b2, nodes, n)
    ensures WalkTouches(b2, nodes, n) == WalkTouches(b1, nodes, n)
  {
    forall k | 0 <= k < n
      ensures Resolves(b2, Expressions(nodes[k].0.rhs), |Expressions(nodes[k].0.rhs)|, nodes[k].1)
    {
      var exprs := Expressions(nodes[k].0.rhs);
      TouchesExtend(b1, b2, exprs, |exprs|, nodes[k].1, nodes[k].0.lhsOutputField);
    }
    if n > 0 {
      var exprs := Expressions(nodes[n - 1].0.rhs);
      WalkExtend(b1, b2, nodes, n - 1);
      TouchesExtend(b1, b2, exprs, |exprs|, nodes[n - 1].1, nodes[n - 1].0.lhsOutputField);
    }
  }

  /** Every step of one lookup offers that lookup's field. */
  lemma {:induction false} TouchesOffer(byHash: map<string, BindParam>, exprs: seq<Expr>, n: nat, isInner: bool, field: FieldType?)
    requires Resolves(byHash, exprs, n, isInner)
    ensures forall i | 0 <= i < |Touches(byHash, exprs, n, isInner, field)| :: Touches(byHash, exprs, n, isInner, field)[i].1 == field
  {
    if n > 0 {
      TouchesOffer(byHash, exprs, n - 1, isInner, field);
    }
  }

  /** Steps that all offer `field` leave a type as it is or fill an untyped
      parameter with `field`. */
  lemma {:induction false} TypeAfterOne(t: FieldType?, s: seq<(BindParam, FieldType?)>, p: BindParam, field: FieldType?)
    requires forall i | 0 <= i < |s| :: s[i].1 == field
    ensures TypeAfter(t, s, p) == t || (t == null && TypeAfter(t, s, p) == field)
    decreases |s|
  {
    if s != [] {
      TypeAfterOne(t, s[..|s| - 1], p, field);
    }
  }

  /** Steps that all offer `field`, taken from the types `t1`, leave each
      type of `t1` or fill an untyped parameter with `field`. */
  lemma TypedFromSteps(ps: set<BindParam>, t0: map<BindParam, FieldType?>, t1: map<BindParam, FieldType?>,
                       steps: seq<(BindParam, FieldType?)>, more: seq<(BindParam, FieldType?)>, field: FieldType?)
    requires forall p | p in ps :: p in t0 && p in t1 && t1[p] == TypeAfter(t0[p], steps, p)
    requires TypesAfter(ps, t0, steps + more)
    requires forall i | 0 <= i < |more| :: more[i].1 == field
    ensures forall p | p in ps :: p.fieldType == t1[p] || (t1[p] == null && p.fieldType == field)
  {
    forall p | p in ps
      ensures p.fieldType == t1[p] || (t1[p] == null && p.fieldType == field)
    {
      TypeAfterAppend(t0[p], steps, more, p);
      TypeAfterOne(t1[p], more, p, field);
    }
  }

  /** Typing steps compose: the steps `a` then `b` give what `a + b` gives. */
  lemma {:induction false} TypeAfterAppend(t: FieldType?, a: seq<(BindParam, FieldType?)>, b: seq<(BindParam, FieldType?)>, p: BindParam)
    ensures TypeAfter(t, a + b, p) == TypeAfter(TypeAfter(t, a, p), b, p)
    decreases |b|
  {
    if b == [] {
      assert a + b == a;
    } else {
      var init := b[..|b| - 1];
      assert (a + b)[..|a + b| - 1] == a + init;
      TypeAfterAppend(t, a, init, p);
    }
  }

  /** A parameter that has a field type keeps it, whatever the steps. */
  lemma {:induction false} TypeAfterKeeps(t: FieldType?, s: seq<(BindParam, FieldType?)>, p: BindParam)
    requires t != null
    ensures TypeAfter(t, s, p) == t
    decreases |s|
  {
    if s != [] {
      TypeAfterKeeps(t, s[..|s| - 1], p);
    }
  }

  /** Typed as a walk's steps leave them, the parameters that had a type
      when the walk began still have it. */
  lemma TypesAfterKeep(ps: set<BindParam>, t0: map<BindParam, FieldType?>, s: seq<(BindParam, FieldType?)>)
    requires TypesAfter(ps, t0, s)
    ensures forall p | p in ps :: t0[p] != null ==> p.fieldType == t0[p]
  {
    forall p | p in ps && t0[p] != null
      ensures p.fieldType == t0[p]
    {
      TypeAfterKeeps(t0[p], s, p);
    }
  }

  /** An untyped parameter gets the field of the first step that offers it
      one that is not None. */
  lemma {:induction false} TypeAfterFirst(s: seq<(BindParam, FieldType?)>, p: BindParam, j: nat)
    requires j < |s| && s[j].0 == p && s[j].1 != null
    requires forall i | 0 <= i < j :: s[i].0 == p ==> s[i].1 == null
    ensures TypeAfter(null, s, p) == s[j].1
    decreases |s|
  {
    var init := s[..|s| - 1];
    if j < |s| - 1 {
      TypeAfterFirst(init, p, j);
    } else {
      TypeAfterUntouched(init, p);
    }
  }

  /** An untyped parameter that no step offers a field stays untyped. */
  lemma {:induction false} TypeAfterUntouched(s: seq<(BindParam, FieldType?)>, p: BindParam)
    requires forall i | 0 <= i < |s| :: s[i].0 == p ==> s[i].1 == null
    ensures TypeAfter(null, s, p) == null
    decreases |s|
  {
    if s != [] {
      TypeAfterUntouched(s[..|s| - 1], p);
    }
  }

  /** A step that offers a parameter a field leaves it typed. */
  lemma {:induction false} TypeAfterOffered(t: FieldType?, s: seq<(BindParam, FieldType?)>, p: BindParam, j: nat)
    requires j < |s| && s[j].0 == p && s[j].1 != null
    ensures TypeAfter(t, s, p) != null
    decreases |s|
  {
    var init := s[..|s| - 1];
    if j < |s| - 1 {
      TypeAfterOffered(t, init, p, j);
      TypeAfterKeeps(TypeAfter(t, init, p), [s[|s| - 1]], p);
      assert s == init + [s[|s| - 1]];
      TypeAfterAppend(t, init, [s[|s| - 1]], p);
    }
  }

  /** Each bind parameter of a lookup is one of its typing steps, offering
      the object it stands for the lookup's field. */
  lemma {:induction false} TouchesHas(byHash: map<string, BindParam>, exprs: seq<Expr>, n: nat, isInner: bool, field: FieldType?, m: nat)
    requires Resolves(byHash, exprs, n, isInner)
    requires m < n && exprs[m].Bind?
    ensures (Target(byHash, exprs[m].param, isInner), field) in Touches(byHash, exprs, n, isInner, field)
  {
    if m < n - 1 {
      TouchesHas(byHash, exprs, n - 1, isInner, field, m);
    }
  }

  /** Each bind parameter of the walk is one of its typing steps. */
  lemma {:induction false} WalkTouchesHas(byHash: map<string, BindParam>, nodes: seq<(Lookup, bool)>, n: nat, k: nat, m: nat)
    requires WalkResolves(byHash, nodes, n)
    requires k < n && m < |Expressions(nodes[k].0.rhs)| && Expressions(nodes[k].0.rhs)[m].Bind?
    ensures (Target(byHash, Expressions(nodes[k].0.rhs)[m].param, nodes[k].1), nodes[k].0.lhsOutputField) in WalkTouches(byHash, nodes, n)
  {
    if k < n - 1 {
      WalkTouchesHas(byHash, nodes, n - 1, k, m);
    } else {
      var exprs := Expressions(nodes[k].0.rhs);
      TouchesHas(byHash, exprs, |exprs|, nodes[k].1, nodes[k].0.lhsOutputField, m);
    }
  }

  /** After the walk, every parameter a bind parameter of a lookup with a
      field stands for has a field type, whatever it started from. */
  lemma WalkTypes(byHash: map<string, BindParam>, nodes: seq<(Lookup, bool)>, t: FieldType?, k: nat, m: nat)
    requires WalkResolves(byHash, nodes, |nodes|)
    requires k < |nodes| && m < |Expressions(nodes[k].0.rhs)| && Expressions(nodes[k].0.rhs)[m].Bind?
    requires nodes[k].0.lhsOutputField != null
    ensures TypeAfter(t, WalkTouches(byHash, nodes, |nodes|), Target(byHash, Expressions(nodes[k].0.rhs)[m].param, nodes[k].1)) != null
  {
    var step := (Target(byHash, Expressions(nodes[k].0.rhs)[m].param, nodes[k].1), nodes[k].0.lhsOutputField);
    WalkTouchesHas(byHash, nodes, |nodes|, k, m);
    var s := WalkTouches(byHash, nodes, |nodes|);
    var j :| 0 <= j < |s| && s[j] == step;
    TypeAfterOffered(t, s, step.0, j);
  }

  /** The parameter object `prepare()` types for one bind parameter of a
      lookup. Inside a subquery the parameter is registered first and is
      itself the one typed; otherwise it is the parameter registered under
      its hash, and an unregistered hash is a KeyError. */
  method ResolveParam(q: PrepareQuery, param: BindParam, isInner: bool) returns (r: Result<BindParam>)
    requires q.Valid()
    modifies q`byHash, q`names
    ensures q.Valid()
    ensures isInner ==> (r.Failure? <==> Register(old(q.RegistryView()), param.hash, param.name).Failure?)
    ensures isInner && r.Failure? ==> r.error == IncorrectBindParameter(DuplicateMessage(param.name))
    ensures isInner && r.Success? ==> r.value == param && param.hash in q.byHash
    ensures isInner ==> q.byHash == (if r.Success? && param.hash !in old(q.byHash) then old(q.byHash)[param.hash := param] else old(q.byHash))
    ensures !isInner ==> q.byHash == old(q.byHash) && q.names == old(q.names)
    ensures !isInner ==> (r.Success? <==> param.hash in q.byHash)
    ensures !isInner && r.Failure? ==> r.error == KeyError
    ensures !isInner && r.Success? ==> r.value == q.byHash[param.hash]
    ensures Extends(old(q.byHash), q.byHash)
  {
    if isInner {
      ghost var before := q.RegistryView();
      var o := q.AddPrepareParam(param);
      if o.Fail? {
        assert Register(before, param.hash, param.name).Failure?;
        return Failure(o.error);
      }
      r := Success(param);
    } else {
      if param.hash !in q.byHash {
        return Failure(KeyError);
      }
      r := Success(q.byHash[param.hash]);
    }
  }

  /** Between the method's entry and now, each parameter of `ps` kept its
      field type or, having none, got `field`. */
  twostate predicate TypedFrom(ps: set<BindParam>, field: FieldType?)
    reads ps
  {
    forall p | p in ps :: p.fieldType == old(p.fieldType) || (old(p.fieldType) == null && p.fieldType == field)
  }

  /** The back-fill itself: a parameter without a field type gets `field`;
      no other parameter changes. */
  method Backfill(p: BindParam, field: FieldType?, ghost frame: set<BindParam>,
                  ghost t0: map<BindParam, FieldType?>, ghost steps: seq<(BindParam, FieldType?)>)
    requires p in frame && TypesAfter(frame, t0, steps)
    modifies p
    ensures p.fieldType == (if old(p.fieldType) == null then field else old(p.fieldType))
    ensures TypedFrom(frame, field)
    ensures TypesAfter(frame, t0, steps + [(p, field)])
  {
    if p.fieldType == null {
      p.fieldType := field;
    }
    assert (steps + [(p, field)])[..|steps|] == steps;
  }

  /** `prepare()` on one bind parameter of a lookup whose field is `field`:
      the parameter is resolved and, when it has no field type, given
      `field`. */
  method TypeBind(q: PrepareQuery, param: BindParam, isInner: bool, field: FieldType?, ghost frame: set<BindParam>,
                  ghost t0: map<BindParam, FieldType?>, ghost steps: seq<(BindParam, FieldType?)>)
    returns (r: Outcome)
    requires q.Valid()
    requires param in frame && Registered(q.byHash) <= frame
    requires TypesAfter(frame, t0, steps)
    modifies q`byHash, q`names, frame
    ensures q.Valid()
    ensures r.Fail? ==> (isInner && r.error.IncorrectBindParameter?) || (!isInner && r.error == KeyError)
    ensures !isInner ==> q.byHash == old(q.byHash) && q.names == old(q.names) && (r.Pass? <==> param.hash in q.byHash)
    ensures old(q.byHash).Keys <= q.byHash.Keys && Extends(old(q.byHash), q.byHash)
    ensures forall h | h in q.byHash :: q.byHash[h] in frame
    ensures TypedFrom(frame, field)
    ensures r.Pass? ==> isInner || param.hash in q.byHash
    ensures r.Pass? ==> var p := Target(q.byHash, param, isInner);
      p.fieldType == (if old(p.fieldType) == null then field else old(p.fieldType))
    ensures r.Pass? ==> TypesAfter(frame, t0, steps + [(Target(q.byHash, param, isInner), field)])
    ensures r.Fail? ==> q.byHash == old(q.byHash) && TypesAfter(frame, t0, steps)
  {
    var resolved := ResolveParam(q, param, isInner);
    forall h | h in q.byHash ensures q.byHash[h] in frame {
      if !(isInner && h == param.hash) {
        assert old(q.byHash)[h] in Registered(old(q.byHash));
      }
    }
    if resolved.Failure? {
      return Fail(resolved.error);
    }
    assert resolved.value in frame;
    Backfill(resolved.value, field, frame, t0, steps);
    r := Pass;
  }

  /** The walk inside one lookup after its first `j` expressions: the
      registry is valid and within `frame`, the bind parameters so far stand
      for parameter objects, and every parameter has the type the walk's
      steps give it, `steps` being those before this lookup. */
  ghost predicate Walked(q: PrepareQuery, lookup: Lookup, isInner: bool, j: nat, frame: set<BindParam>,
                         t0: map<BindParam, FieldType?>, steps: seq<(BindParam, FieldType?)>)
    reads q, frame
  {
    q.Valid() && (forall h | h in q.byHash :: q.byHash[h] in frame) &&
    Resolves(q.byHash, Expressions(lookup.rhs), j, isInner) &&
    TypesAfter(frame, t0, steps + Touches(q.byHash, Expressions(lookup.rhs), j, isInner, lookup.lhsOutputField))
  }

  /** One expression of a lookup in `prepare()`'s walk: a plain value is
      passed over; a bind parameter is refused on an IsNull or In lookup and
      typed by the lookup's field otherwise. `steps` are the walk's steps
      before this lookup. */
  method TypeExpr(q: PrepareQuery, lookup: Lookup, isInner: bool, j: nat, ghost frame: set<BindParam>,
                  ghost t0: map<BindParam, FieldType?>, ghost steps: seq<(BindParam, FieldType?)>)
    returns (r: Outcome)
    requires j < |Expressions(lookup.rhs)| && BindsIn(lookup) <= frame
    requires Walked(q, lookup, isInner, j, frame, t0, steps)
    modifies q`byHash, q`names, frame
    ensures q.Valid()
    ensures !Expressions(lookup.rhs)[j].Bind? ==> r == Pass
    ensures Expressions(lookup.rhs)[j].Bind? && Refused(lookup) ==> r == Fail(NotSupportedLookup(NotSupportedMessage(lookup)))
    ensures r.Fail? ==> r.error.NotSupportedLookup? || r.error.IncorrectBindParameter? || r.error == KeyError
    ensures r.Fail? && r.error.NotSupportedLookup? ==> Expressions(lookup.rhs)[j].Bind? && Refused(lookup)
    ensures !isInner ==> q.byHash == old(q.byHash) && q.names == old(q.names)
    ensures !isInner && Expressions(lookup.rhs)[j].Bind? && !Refused(lookup) ==>
      (r.Pass? <==> Expressions(lookup.rhs)[j].param.hash in q.byHash)
    ensures Extends(old(q.byHash), q.byHash)
    ensures forall h | h in q.byHash :: q.byHash[h] in frame
    ensures r.Pass? ==> Walked(q, lookup, isInner, j + 1, frame, t0, steps)
    ensures r.Fail? ==> Walked(q, lookup, isInner, j, frame, t0, steps)
  {
    assert Registered(q.byHash) <= frame;
    var exprs := Expressions(lookup.rhs);
    var e := exprs[j];
    ghost var before := q.byHash;
    ghost var done := Touches(before, exprs, j, isInner, lookup.lhsOutputField);
    if !e.Bind? {
      assert done + [] == done;
      return Pass;
    }
    if lookup.kind == IsNull || lookup.kind == In {
      return Fail(NotSupportedLookup(NotSupportedMessage(lookup)));
    }
    assert e.param in frame;
    r := TypeBind(q, e.param, isInner, lookup.lhsOutputField, frame, t0, steps + done);
    if r.Pass? {
      TouchesExtend(before, q.byHash, exprs, j, isInner, lookup.lhsOutputField);
      assert steps + (done + [(Target(q.byHash, e.param, isInner), lookup.lhsOutputField)])
        == steps + done + [(Target(q.byHash, e.param, isInner), lookup.lhsOutputField)];
    }
  }

  /** The loop of `prepare()` over one lookup's expressions, in order; it
      stops at the first error, and `j` is the expression reached. */
  method TypeExprs(q: PrepareQuery, lookup: Lookup, isInner: bool, ghost frame: set<BindParam>,
                   ghost t0: map<BindParam, FieldType?>, ghost steps: seq<(BindParam, FieldType?)>)
    returns (r: Outcome, j: nat)
    requires BindsIn(lookup) <= frame
    requires Walked(q, lookup, isInner, 0, frame, t0, steps)
    modifies q`byHash, q`names, frame
    ensures Walked(q, lookup, isInner, j, frame, t0, steps)
    ensures r.Pass? ==> j == |Expressions(lookup.rhs)|
    ensures r.Fail? ==> j < |Expressions(lookup.rhs)| && Expressions(lookup.rhs)[j].Bind?
    ensures r.Fail? ==> r.error.NotSupportedLookup? || r.error.IncorrectBindParameter? || r.error == KeyError
    ensures r.Fail? && Refused(lookup) ==> r.error == NotSupportedLookup(NotSupportedMessage(lookup))
    ensures r.Fail? && r.error.NotSupportedLookup? ==> Refused(lookup)
    ensures r.Fail? && !isInner && !Refused(lookup) ==> Expressions(lookup.rhs)[j].param.hash !in q.byHash
    ensures Refused(lookup) ==> forall m | 0 <= m < j :: !Expressions(lookup.rhs)[m].Bind?
    ensures !isInner ==> q.byHash == old(q.byHash) && q.names == old(q.names)
    ensures Extends(old(q.byHash), q.byHash)
  {
    var exprs := Expressions(lookup.rhs);
    j := 0;
    while j < |exprs|
      invariant Walked(q, lookup, isInner, j, frame, t0, steps)
      invariant !isInner ==> q.byHash == old(q.byHash) && q.names == old(q.names)
      invariant Extends(old(q.byHash), q.byHash)
      invariant Refused(lookup) ==> forall m | 0 <= m < j :: !exprs[m].Bind?
    {
      ghost var before := q.byHash;
      r := TypeExpr(q, lookup, isInner, j, frame, t0, steps);
      ExtendsTrans(old(q.byHash), before, q.byHash);
      if r.Fail? {
        return;
      }
      j := j + 1;
    }
    r := Pass;
  }

  /** One lookup of `prepare()`'s walk, its expressions in order. A bind
      parameter on an IsNull or In lookup is refused; every other one is
      typed by the lookup's field. */
  method TypeLookup(q: PrepareQuery, lookup: Lookup, isInner: bool, ghost frame: set<BindParam>,
                    ghost t0: map<BindParam, FieldType?>, ghost steps: seq<(BindParam, FieldType?)>)
    returns (r: Outcome)
    requires q.Valid()
    requires BindsIn(lookup) <= frame && Registered(q.byHash) <= frame
    requires TypesAfter(frame, t0, steps)
    modifies q`byHash, q`names, frame
    ensures q.Valid()
    ensures RefusedBind(lookup) ==> r == Fail(NotSupportedLookup(NotSupportedMessage(lookup)))
    ensures r.Fail? && r.error.NotSupportedLookup? ==> RefusedBind(lookup)
    ensures r.Fail? ==> r.error.NotSupportedLookup? || r.error.IncorrectBindParameter? || r.error == KeyError
    ensures !isInner ==> q.byHash == old(q.byHash) && q.names == old(q.names)
    ensures !isInner && !RefusedBind(lookup) ==>
      (r.Pass? <==> forall m | 0 <= m < |Expressions(lookup.rhs)| && Expressions(lookup.rhs)[m].Bind? ::
        Expressions(lookup.rhs)[m].param.hash in q.byHash)
    ensures old(q.byHash).Keys <= q.byHash.Keys && Extends(old(q.byHash), q.byHash)
    ensures forall h | h in q.byHash :: q.byHash[h] in frame
    ensures TypedFrom(frame, lookup.lhsOutputField)
    ensures r.Pass? ==> Resolves(q.byHash, Expressions(lookup.rhs), |Expressions(lookup.rhs)|, isInner)
    ensures r.Pass? ==> TypesAfter(frame, t0, steps +
      Touches(q.byHash, Expressions(lookup.rhs), |Expressions(lookup.rhs)|, isInner, lookup.lhsOutputField))
  {
    ghost var t1 := map p | p in frame :: p.fieldType;
    assert steps + [] == steps;
    forall h | h in q.byHash ensures q.byHash[h] in frame {
      assert q.byHash[h] in Registered(q.byHash);
    }
    var j;
    r, j := TypeExprs(q, lookup, isInner, frame, t0, steps);
    ExtendsTrans(old(q.byHash), q.byHash, q.byHash);
    ghost var exprs := Expressions(lookup.rhs);
    TouchesOffer(q.byHash, exprs, j, isInner, lookup.lhsOutputField);
    TypedFromSteps(frame, t0, t1, steps, Touches(q.byHash, exprs, j, isInner, lookup.lhsOutputField), lookup.lhsOutputField);
    if r.Fail? {
      assert exprs[j].Bind?;
    }
  }

  /** Between the method's entry and now, no parameter of `ps` that had a
      field type lost or changed it. */
  twostate predicate KeptTypes(ps: set<BindParam>)
    reads ps
  {
    forall p | p in ps :: old(p.fieldType) != null ==> p.fieldType == old(p.fieldType)
  }

  /** The walk of `prepare()` after its first `i` lookups: the registry is
      valid and within `frame`, none of those lookups was refused, their bind
      parameters stand for parameter objects, and every parameter has the type
      their steps give it. */
  ghost predicate WalkedAll(q: PrepareQuery, nodes: seq<(Lookup, bool)>, i: nat, frame: set<BindParam>,
                            t0: map<BindParam, FieldType?>)
    reads q, frame
  {
    q.Valid() && (forall h | h in q.byHash :: q.byHash[h] in frame) &&
    (forall k | 0 <= k < i && k < |nodes| :: !RefusedBind(nodes[k].0)) &&
    WalkResolves(q.byHash, nodes, i) && TypesAfter(frame, t0, WalkTouches(q.byHash, nodes, i))
  }

  /** Lookup `i` of `prepare()`'s walk. */
  method TypeNode(q: PrepareQuery, nodes: seq<(Lookup, bool)>, i: nat, ghost frame: set<BindParam>,
                  ghost t0: map<BindParam, FieldType?>)
    returns (r: Outcome)
    requires i < |nodes| && BindsOf(nodes) <= frame
    requires WalkedAll(q, nodes, i, frame, t0)
    modifies q`byHash, q`names, frame
    ensures q.Valid() && forall h | h in q.byHash :: q.byHash[h] in frame
    ensures Extends(old(q.byHash), q.byHash)
    ensures TypedFrom(frame, nodes[i].0.lhsOutputField)
    ensures r.Pass? ==> WalkedAll(q, nodes, i + 1, frame, t0)
    ensures r.Fail? ==> r.error.NotSupportedLookup? || r.error.IncorrectBindParameter? || r.error == KeyError
    ensures r.Fail? && r.error.NotSupportedLookup? ==>
      RefusedBind(nodes[i].0) && r.error == NotSupportedLookup(NotSupportedMessage(nodes[i].0))
  {
    assert BindsIn(nodes[i].0) <= BindsOf(nodes);
    assert Registered(q.byHash) <= frame;
    ghost var before := q.byHash;
    r := TypeLookup(q, nodes[i].0, nodes[i].1, frame, t0, WalkTouches(q.byHash, nodes, i));
    if r.Pass? {
      WalkExtend(before, q.byHash, nodes, i);
      WalkNext(q.byHash, nodes, i);
    }
  }

  /** The walk of `prepare()` over the (lookup, inside-a-subquery) pairs of
      the where tree, lookup by lookup; it stops at the first error. `t0`
      holds the parameters' field types when the walk begins. */
  method TypeAll(q: PrepareQuery, nodes: seq<(Lookup, bool)>, ghost frame: set<BindParam>,
                 ghost t0: map<BindParam, FieldType?>)
    returns (r: Outcome)
    requires q.Valid()
    requires BindsOf(nodes) <= frame && Registered(q.byHash) <= frame
    requires forall p | p in frame :: p in t0 && t0[p] == p.fieldType
    modifies q`byHash, q`names, frame
    ensures q.Valid()
    ensures r.Pass? ==> forall k | 0 <= k < |nodes| :: !RefusedBind(nodes[k].0)
    ensures r.Fail? && r.error.NotSupportedLookup? ==>
      exists k | 0 <= k < |nodes| :: RefusedBind(nodes[k].0) && r.error == NotSupportedLookup(NotSupportedMessage(nodes[k].0))
    ensures r.Fail? ==> r.error.NotSupportedLookup? || r.error.IncorrectBindParameter? || r.error == KeyError
    ensures old(q.byHash).Keys <= q.byHash.Keys && Extends(old(q.byHash), q.byHash)
    ensures forall h | h in q.byHash :: q.byHash[h] in frame
    ensures forall p | p in frame :: t0[p] != null ==> p.fieldType == t0[p]
    ensures r.Pass? ==> WalkResolves(q.byHash, nodes, |nodes|) && TypesAfter(frame, t0, WalkTouches(q.byHash, nodes, |nodes|))
  {
    forall h | h in q.byHash ensures q.byHash[h] in frame {
      assert q.byHash[h] in Registered(q.byHash);
    }
    var i := 0;
    while i < |nodes|
      invariant i <= |nodes|
      invariant WalkedAll(q, nodes, i, frame, t0)
      invariant Extends(old(q.byHash), q.byHash)
    {
      ghost var before := q.byHash;
      TypesAfterKeep(frame, t0, WalkTouches(q.byHash, nodes, i));
      r := TypeNode(q, nodes, i, frame, t0);
      ExtendsTrans(old(q.byHash), before, q.byHash);
      if r.Fail? {
        return;
      }
      i := i + 1;
    }
    TypesAfterKeep(frame, t0, WalkTouches(q.byHash, nodes, i));
    ExtendsTrans(old(q.byHash), q.byHash, q.byHash);
    r := Pass;
  }

  /** The check after the walk: every registered parameter must have a
      field type; an untyped one is reported under its hash. */
  method CheckTyped(byHash: map<string, BindParam>) returns (r: Outcome)
    ensures r.Pass? <==> AllTyped(byHash)
    ensures r.Fail? ==> exists h | h in byHash ::
      byHash[h].fieldType == null && r.error == PreparedStatementException("Field type is required for " + h)
  {
    var keys := byHash.Keys;
    while keys != {}
      invariant keys <= byHash.Keys
      invariant forall h | h in byHash && h !in keys :: byHash[h].fieldType != null
      decreases keys
    {
      var h :| h in keys;
      if byHash[h].fieldType == null {
        return Fail(PreparedStatementException("Field type is required for " + h));
      }
      keys := keys - {h};
    }
    r := Pass;
  }

  /** The work of `prepare()` on its query `q`. Walks the (lookup,
      inside-a-subquery) pairs of the where tree: a bind parameter on an
      IsNull or In lookup is refused; one inside a subquery is registered
      first; the parameter it stands for gets the lookup's field as its type
      when it has none. Then every registered parameter must be typed, and
      the statement is compiled on a PrepareQuery copy, which is the result.
      `compiled` is Django's SQL and parameters for that copy, `dbType` the
      column-type collaborator, `params` the parameter objects within reach. */
  method PrepareCopy(q: PrepareQuery, nodes: seq<(Lookup, bool)>, compiled: SqlFragment, dbType: Compiler.DbType,
                     ghost params: set<BindParam>)
    returns (r: Result<PrepareQuery>)
    requires q.Valid()
    requires BindsOf(nodes) <= params && Registered(q.byHash) <= params
    modifies q`byHash, q`names, params
    ensures q.Valid()
    ensures r.Success? ==> fresh(r.value) && r.value.Valid() && r.value.klass == PrepareQueryClass
    ensures r.Success? ==> r.value.SameData(q)
    ensures r.Success? ==> WalkResolves(q.byHash, nodes, |nodes|) && Retyped(params, WalkTouches(q.byHash, nodes, |nodes|))
    ensures r.Success? ==> AllTyped(q.byHash) && forall k | 0 <= k < |nodes| :: !RefusedBind(nodes[k].0)
    ensures r.Success? ==> Compiler.PrepareSqlSpec(compiled.sql, compiled.params, FieldViews(q.byHash), dbType).Success?
    ensures old(q.byHash).Keys <= q.byHash.Keys
    ensures Registered(q.byHash) <= params
    ensures KeptTypes(params)
    ensures r.Failure? && r.error.NotSupportedLookup? ==>
      exists k | 0 <= k < |nodes| :: RefusedBind(nodes[k].0) && r.error == NotSupportedLookup(NotSupportedMessage(nodes[k].0))
    ensures r.Failure? && r.error.PreparedStatementException? ==>
      exists h | h in q.byHash :: q.byHash[h].fieldType == null && r.error.msg == "Field type is required for " + h
    ensures r.Failure? ==>
      || r.error.NotSupportedLookup? || r.error.IncorrectBindParameter? || r.error == KeyError
      || r.error.PreparedStatementException? || r.error in {AttributeError, IndexError, FormatError}
  {
    ghost var t0 := map p | p in params :: p.fieldType;
    var o := TypeAll(q, nodes, params, t0);
    if o.Fail? {
      return Failure(o.error);
    }
    o := CheckTyped(q.byHash);
    if o.Fail? {
      return Failure(o.error);
    }
    var c := q.Clone(PrepareQueryClass);
    var text := Compiler.PrepareSql(compiled.sql, compiled.params, c.byHash, dbType);
    if text.Failure? {
      Compiler.PrepareSqlSpecErrors(compiled.sql, compiled.params, FieldViews(c.byHash), dbType);
      return Failure(text.error);
    }
    r := Success(c);
  }

  // ---------------------------------------------------------------------
  // _execute_prepare(): the per-connection statement cache
  // ---------------------------------------------------------------------

  /** A PREPARE is issued unless the statement name is already recorded
      for the current raw connection (an absent map counts as empty, and a
      closed connection never matches). */
  predicate NeedsPrepare(ps: Option<map<string, nat>>, name: string, raw: Option<nat>)
  {
    ps.None? || name !in ps.value || raw != Some(ps.value[name])
  }

  /** The map after a PREPARE on raw connection `raw`. */
  function Record(ps: Option<map<string, nat>>, name: string, raw: nat): (m: map<string, nat>)
    ensures name in m && m[name] == raw
    ensures forall n | n != name :: (n in m <==> ps.Some? && n in ps.value)
    ensures forall n | n != name && n in m :: m[n] == ps.value[n]
  {
    (if ps.None? then map[] else ps.value)[name := raw]
  }

  /** The connection's map after one execution on connected raw connection
      `raw`. */
  function AfterExecute(ps: Option<map<string, nat>>, name: string, raw: nat): Option<map<string, nat>>
  {
    if NeedsPrepare(ps, name, Some(raw)) then Some(Record(ps, name, raw)) else ps
  }

  /** Once prepared on a raw connection, the statement is not prepared again
      there; on any other raw connection, or once the connection is closed,
      it is. */
  lemma RecordedNotPreparedAgain(ps: Option<map<string, nat>>, name: string, raw: nat, other: Option<nat>)
    ensures !NeedsPrepare(Some(Record(ps, name, raw)), name, Some(raw))
    ensures other != Some(raw) ==> NeedsPrepare(Some(Record(ps, name, raw)), name, other)
  {
  }

  /** The number of PREPAREs issued by executions on the raw connections
      `raws`, in order. */
  function PrepareCount(ps: Option<map<string, nat>>, name: string, raws: seq<nat>): nat
    decreases |raws|
  {
    if raws == [] then 0
    else (if NeedsPrepare(ps, name, Some(raws[0])) then 1 else 0) + PrepareCount(AfterExecute(ps, name, raws[0]), name, raws[1..])
  }

  /** The number of times the raw connection changes between consecutive
      executions. */
  function Switches(raws: seq<nat>): nat
    decreases |raws|
  {
    if |raws| < 2 then 0 else (if raws[0] != raws[1] then 1 else 0) + Switches(raws[1..])
  }

  /** A run of executions prepares once at the start (unless the statement
      is already there) and once more after every change of raw connection,
      and never otherwise. */
  lemma {:induction false} PrepareCountIsSwitches(ps: Option<map<string, nat>>, name: string, raws: seq<nat>)
    requires raws != []
    ensures PrepareCount(ps, name, raws) == (if NeedsPrepare(ps, name, Some(raws[0])) then 1 else 0) + Switches(raws)
    decreases |raws|
  {
    var after := AfterExecute(ps, name, raws[0]);
    assert after.Some? && name in after.value && after.value[name] == raws[0];
    if |raws| >= 2 {
      PrepareCountIsSwitches(after, name, raws[1..]);
      assert raws[1..][0] == raws[1];
    }
  }

  // ---------------------------------------------------------------------
  // execute(): cleaning the values
  // ---------------------------------------------------------------------

  /** The set of keyword names. */
  function KwargNames(kwargs: seq<Kwarg>): set<string>
  {
    set i | 0 <= i < |kwargs| :: kwargs[i].name
  }

  /** Keyword arguments have distinct names. */
  predicate DistinctNames(kwargs: seq<Kwarg>)
  {
    forall i, j | 0 <= i < j < |kwargs| :: kwargs[i].name != kwargs[j].name
  }

  /** `kwargs.get(name)`: the value of the entry named `name`, None (the
      Python value) when there is none. */
  function GetKwarg(kwargs: seq<Kwarg>, name: string): Value
    decreases |kwargs|
  {
    if kwargs == [] then NoneValue
    else if kwargs[0].name == name then kwargs[0].value
    else GetKwarg(kwargs[1..], name)
  }

  /** Looking up the name of an entry whose name no other entry has finds
      that entry's value. */
  lemma {:induction false} GetKwargFinds(kwargs: seq<Kwarg>, i: nat)
    requires i < |kwargs|
    requires forall j | 0 <= j < |kwargs| && kwargs[j].name == kwargs[i].name :: j == i
    ensures GetKwarg(kwargs, kwargs[i].name) == kwargs[i].value
    decreases i
  {
    if i > 0 {
      var tail := kwargs[1..];
      forall j | 0 <= j < |tail| && tail[j].name == tail[i - 1].name ensures j == i - 1 {
        assert kwargs[j + 1].name == kwargs[i].name;
      }
      GetKwargFinds(tail, i - 1);
    }
  }

  /** A name no entry has is looked up as None. */
  lemma {:induction false} GetKwargMissing(kwargs: seq<Kwarg>, name: string)
    requires forall j | 0 <= j < |kwargs| :: kwargs[j].name != name
    ensures GetKwarg(kwargs, name) == NoneValue
    decreases |kwargs|
  {
    if kwargs != [] {
      GetKwargMissing(kwargs[1..], name);
    }
  }

  /** `kwargs[name] = value` for a present name: the entry keeps its place. */
  function PutKwarg(kwargs: seq<Kwarg>, name: string, value: Value): (r: seq<Kwarg>)
    ensures |r| == |kwargs|
    ensures forall i | 0 <= i < |kwargs| :: r[i].name == kwargs[i].name
    ensures forall i | 0 <= i < |kwargs| :: r[i].value == if kwargs[i].name == name then value else kwargs[i].value
    decreases |kwargs|
  {
    if kwargs == [] then []
    else [if kwargs[0].name == name then Kwarg(name, value) else kwargs[0]] + PutKwarg(kwargs[1..], name, value)
  }

  /** The values in keyword order. */
  function ValuesOf(kwargs: seq<Kwarg>): (vs: seq<Value>)
    ensures |vs| == |kwargs| && forall i | 0 <= i < |kwargs| :: vs[i] == kwargs[i].value
  {
    seq(|kwargs|, i requires 0 <= i < |kwargs| => kwargs[i].value)
  }

  /** The str() of a value in a message. */
  function Render(v: Value): string
  {
    match v
    case Scalar(s) => s
    case ModelInstance(pk) => pk
    case NoneValue => "None"
  }

  function IncorrectTypeMessage(v: Value, name: string): string
  {
    Render(v) + " is incorrect type for " + name + " parameter"
  }

  /** `field.get_prep_value(value)`: the converted value, or None when it
      raises. */
  type PrepValue = (FieldView, Value) -> Option<Value>

  /** `field.run_validators(value)`: the message of the ValidationError it
      raises, or None. */
  type Validators = (FieldView, Value) -> Option<string>

  /** Cleaning one execute-time value for the parameter `name` typed by
      `field`: a model instance stands for its primary key; a value the
      field cannot convert (or a missing field) is a ValidationError naming
      value and parameter; a converted value that fails the field's
      validators is that validator's ValidationError. */
  function CleanValue(field: Option<FieldView>, name: string, v: Value, prep: PrepValue, validate: Validators): (r: Result<Value>)
    ensures field.None? ==> r.Failure?
    ensures r.Success? ==> prep(field.value, if v.ModelInstance? then Scalar(v.pk) else v) == Some(r.value)
    ensures r.Success? ==> validate(field.value, r.value).None?
    ensures r.Failure? ==> r.error.ValidationError?
  {
    var param := if v.ModelInstance? then Scalar(v.pk) else v;
    if field.None? then Failure(ValidationError(IncorrectTypeMessage(param, name)))
    else match prep(field.value, param)
      case None => Failure(ValidationError(IncorrectTypeMessage(param, name)))
      case Some(c) =>
        match validate(field.value, c)
        case Some(msg) => Failure(ValidationError(msg))
        case None => Success(c)
  }

  /** The cleaning loop of `execute`: the keyword value of every
      registered parameter is cleaned by the parameter's field and written
      back under its name; the first failure met is raised (the registry's
      iteration order is left open). `fields` gives each registered name its
      field. */
  method CleanKwargs(fields: map<string, Option<FieldView>>, kwargs: seq<Kwarg>, prep: PrepValue, validate: Validators)
    returns (r: Result<seq<Kwarg>>)
    requires DistinctNames(kwargs)
    requires forall i | 0 <= i < |kwargs| :: kwargs[i].name in fields
    requires forall n | n in fields :: n in KwargNames(kwargs)
    ensures r.Success? <==> forall i | 0 <= i < |kwargs| :: CleanAt(fields, kwargs, i, prep, validate).Success?
    ensures r.Success? ==> |r.value| == |kwargs| && forall i | 0 <= i < |kwargs| ::
      r.value[i].name == kwargs[i].name && CleanAt(fields, kwargs, i, prep, validate) == Success(r.value[i].value)
    ensures r.Failure? ==> exists i | 0 <= i < |kwargs| :: CleanAt(fields, kwargs, i, prep, validate) == Failure(r.error)
  {
    var kw := kwargs;
    var names := fields.Keys;
    while names != {}
      invariant names <= fields.Keys
      invariant CleanedOutside(fields, kwargs, kw, names, prep, validate)
      decreases names
    {
      var name :| name in names;
      assert name in KwargNames(kwargs);
      var next := CleanStep(fields, kwargs, kw, names, name, prep, validate);
      if next.Failure? {
        return Failure(next.error);
      }
      kw := next.value;
      names := names - {name};
    }
    r := Success(kw);
  }

  /** The cleaning of the keyword value at position k by its field. */
  function CleanAt(fields: map<string, Option<FieldView>>, kwargs: seq<Kwarg>, k: int, prep: PrepValue, validate: Validators): Result<Value>
    requires 0 <= k < |kwargs| && kwargs[k].name in fields
  {
    CleanValue(fields[kwargs[k].name], kwargs[k].name, kwargs[k].value, prep, validate)
  }

  /** `values` are the cleaned keyword values, in keyword order. */
  ghost predicate CleanedValues(fields: map<string, Option<FieldView>>, kwargs: seq<Kwarg>, values: seq<Value>, prep: PrepValue, validate: Validators)
  {
    && (forall i | 0 <= i < |kwargs| :: kwargs[i].name in fields)
    && |values| == |kwargs|
    && forall i | 0 <= i < |kwargs| :: CleanAt(fields, kwargs, i, prep, validate) == Success(values[i])
  }

  /** The cleaning of some keyword value fails. */
  ghost predicate SomeCleaningFails(fields: map<string, Option<FieldView>>, kwargs: seq<Kwarg>, prep: PrepValue, validate: Validators)
  {
    exists i | 0 <= i < |kwargs| :: kwargs[i].name in fields && CleanAt(fields, kwargs, i, prep, validate).Failure?
  }

  /** The state of the cleaning loop: `kw` has the names of `kwargs`; the
      entries whose names are still pending keep their values, the others
      hold their cleaned values. */
  ghost predicate CleanedOutside(fields: map<string, Option<FieldView>>, kwargs: seq<Kwarg>, kw: seq<Kwarg>, names: set<string>, prep: PrepValue, validate: Validators)
    requires forall i | 0 <= i < |kwargs| :: kwargs[i].name in fields
  {
    && |kw| == |kwargs|
    && (forall k | 0 <= k < |kw| :: kw[k].name == kwargs[k].name)
    && (forall k | 0 <= k < |kw| && kw[k].name in names :: kw[k].value == kwargs[k].value)
    && (forall k | 0 <= k < |kw| && kw[k].name !in names :: CleanAt(fields, kwargs, k, prep, validate) == Success(kw[k].value))
  }

  /** One round of the cleaning loop: the pending name's value is looked up,
      cleaned and written back, or its failure is raised. */
  method CleanStep(fields: map<string, Option<FieldView>>, kwargs: seq<Kwarg>, kw: seq<Kwarg>, names: set<string>, name: string, prep: PrepValue, validate: Validators)
    returns (r: Result<seq<Kwarg>>)
    requires DistinctNames(kwargs)
    requires forall i | 0 <= i < |kwargs| :: kwargs[i].name in fields
    requires CleanedOutside(fields, kwargs, kw, names, prep, validate)
    requires name in names && name in KwargNames(kwargs)
    ensures r.Success? ==> CleanedOutside(fields, kwargs, r.value, names - {name}, prep, validate)
    ensures r.Failure? ==> exists i | 0 <= i < |kwargs| :: CleanAt(fields, kwargs, i, prep, validate) == Failure(r.error)
  {
    var k :| 0 <= k < |kwargs| && kwargs[k].name == name;
    forall j | 0 <= j < |kw| && kw[j].name == kw[k].name ensures j == k {
      assert kwargs[j].name == kwargs[k].name;
    }
    GetKwargFinds(kw, k);
    var param := GetKwarg(kw, name);
    var cleaned := CleanValue(fields[name], name, param, prep, validate);
    if cleaned.Failure? {
      assert CleanAt(fields, kwargs, k, prep, validate) == cleaned;
      return Failure(cleaned.error);
    }
    var next := PutKwarg(kw, name, cleaned.value);
    forall j | 0 <= j < |next| && next[j].name !in names - {name}
      ensures CleanAt(fields, kwargs, j, prep, validate) == Success(next[j].value)
    {
      if kwargs[j].name == name {
        assert j == k;
      }
    }
    r := Success(next);
  }

  // ---------------------------------------------------------------------
  // __repr__
  // ---------------------------------------------------------------------

  /** str() of an entry of the statement's parameter tuple. */
  function RenderParam(p: SqlParam): string
  {
    match p
    case Str(s) => s
    case NonStr(r) => r
  }

  function RenderParams(ps: seq<SqlParam>): (rs: seq<string>)
    ensures |rs| == |ps| && forall i | 0 <= i < |ps| :: rs[i] == RenderParam(ps[i])
  {
    seq(|ps|, i requires 0 <= i < |ps| => RenderParam(ps[i]))
  }

  /** `repr(qs)` on its parts. Unprepared, it is Django's own repr; prepared,
      the stored statement is %-formatted with its parameters, which fails
      with TypeError while no statement is stored. */
  function ReprOf(prepared: bool, sql: Option<string>, sqlParams: seq<SqlParam>, order: seq<string>, baseRepr: string): (r: Result<string>)
    ensures !prepared ==> r == Success(baseRepr)
    ensures prepared && sql.None? ==> r == Failure(TypeError)
    ensures prepared && sql.Some? ==>
      (r.Success? <==> PercentFormat(sql.value, RenderParams(sqlParams)).Success?)
    ensures prepared && r.Success? ==>
      r.value == "PreparedQuerySet <" + PercentFormat(sql.value, RenderParams(sqlParams)).value + " (" + Join(", ", order) + ")>"
  {
    if !prepared then Success(baseRepr)
    else if sql.None? then Failure(TypeError)
    else
      var q :- PercentFormat(sql.value, RenderParams(sqlParams));
      Success("PreparedQuerySet <" + q + " (" + Join(", ", order) + ")>")
  }

  /** A stored statement without '%' and an empty parameter tuple (what
      the compiler returns) is shown as it is, followed by the parameter
      order. */
  lemma ReprOfPlainStatement(sql: string, order: seq<string>, baseRepr: string)
    requires '%' !in sql
    ensures ReprOf(true, Some(sql), [], order, baseRepr) ==
      Success("PreparedQuerySet <" + sql + " (" + Join(", ", order) + ")>")
  {
    PercentFormatFree(sql, "", []);
    assert sql + "" == sql;
  }

  /** The checks of `execute` between the prepared flag and the statement:
      the keyword names must be exactly the registered `names`, and then
      every value is cleaned by the field `fields` gives its name. */
  method CheckKwargs(names: set<string>, fields: map<string, Option<FieldView>>, kwargs: seq<Kwarg>, prep: PrepValue, validate: Validators)
    returns (r: Result<seq<Kwarg>>)
    requires fields.Keys == names
    requires DistinctNames(kwargs)
    ensures KwargNames(kwargs) != names ==> r == Failure(IncorrectBindParameter("Incorrect params"))
    ensures r.Success? ==> KwargNames(kwargs) == names
    ensures r.Success? ==> |r.value| == |kwargs| && forall i | 0 <= i < |kwargs| :: r.value[i].name == kwargs[i].name
    ensures r.Success? ==> CleanedValues(fields, kwargs, ValuesOf(r.value), prep, validate)
    ensures r.Failure? && r.error.ValidationError? ==> SomeCleaningFails(fields, kwargs, prep, validate)
    ensures r.Failure? ==> r.error.IncorrectBindParameter? || r.error.ValidationError?
  {
    if KwargNames(kwargs) != names {
      return Failure(IncorrectBindParameter("Incorrect params"));
    }
    forall i | 0 <= i < |kwargs| ensures kwargs[i].name in fields {
      assert kwargs[i].name in KwargNames(kwargs);
    }
    r := CleanKwargs(fields, kwargs, prep, validate);
    if r.Failure? {
      var i :| 0 <= i < |kwargs| && CleanAt(fields, kwargs, i, prep, validate) == Failure(r.error);
    }
  }

  /** The database connection, as far as the cache touches it. */
  class Connection {
    /** The `prepared_statements` attribute: absent until the first PREPARE,
        then the raw connection each statement name was prepared on. */
    var preparedStatements: Option<map<string, nat>>
    /** `connection.connection`: the identity of the raw connection, None
        while closed. */
    var raw: Option<nat>
    /** The PREPARE statements sent through this connection, in order. */
    var sent: seq<string>

    constructor (raw: Option<nat>)
      ensures preparedStatements == None && this.raw == raw && sent == []
    {
      preparedStatements := None;
      this.raw := raw;
      sent := [];
    }

    /** The PREPARE half of `_execute_prepare`: the compiler's cursor
        connects first (to raw connection `newRaw` when closed), the
        statement for `byHash`'s parameters is compiled and sent, and then
        `name` is recorded for the current raw connection. */
    method PrepareStatement(name: string, compiled: SqlFragment, byHash: map<string, BindParam>,
                            dbType: Compiler.DbType, newRaw: nat)
      returns (r: Outcome)
      modifies this
      ensures raw == if old(raw).None? then Some(newRaw) else old(raw)
      ensures var text := Compiler.PrepareSqlSpec(compiled.sql, compiled.params, old(FieldViews(byHash)), dbType);
        && (r.Pass? <==> text.Success?)
        && (r.Pass? ==> sent == old(sent) + [text.value.sql])
        && (r.Pass? ==> preparedStatements == Some(Record(old(preparedStatements), name, raw.value)))
        && (r.Fail? ==> sent == old(sent) && preparedStatements == old(preparedStatements))
      ensures r.Fail? ==> r.error in {AttributeError, IndexError, FormatError}
    {
      label entry:
      if raw.None? {
        raw := Some(newRaw);
      }
      var text := Compiler.PrepareSql(compiled.sql, compiled.params, byHash, dbType);
      FieldViewsUnchanged@entry(byHash);
      if text.Failure? {
        Compiler.PrepareSqlSpecErrors(compiled.sql, compiled.params, FieldViews(byHash), dbType);
        return Fail(text.error);
      }
      var ps := if preparedStatements.None? then map[] else preparedStatements.value;
      sent := sent + [text.value.sql];
      preparedStatements := Some(ps[name := raw.value]);
      r := Pass;
    }

    /** `connections.close_all()`: the raw connection is gone; the
        attribute stays. */
    method Close()
      modifies this`raw
      ensures raw == None
    {
      raw := None;
    }
  }

  class PreparedQuerySet {
    var query: PrepareQuery
    var prepared: bool
    var preparePlaceholders: seq<string>
    /** The database alias. */
    const db: string

    ghost predicate Valid()
      reads this, query
    {
      query.Valid()
    }

    /** `PreparedQuerySet(query=...)`: the given query, or a fresh
        PrepareQuery without one; not prepared; no placeholders. */
    constructor (db: string, query: PrepareQuery?)
      requires query != null ==> query.Valid()
      ensures Valid() && this.db == db
      ensures query != null ==> this.query == query
      ensures query == null ==>
        fresh(this.query) && this.query.klass == PrepareQueryClass && this.query.byHash == map[] && this.query.names == {}
      ensures !prepared && preparePlaceholders == []
    {
      this.db := db;
      if query == null {
        this.query := new PrepareQuery(PrepareQueryClass, Utils.WhereNode([]));
      } else {
        this.query := query;
      }
      prepared := false;
      preparePlaceholders := [];
    }

    /** A guarded operation: refused on a prepared queryset, handed to
        Django otherwise. */
    method Guard(op: Operation) returns (r: Outcome)
      ensures r.Fail? <==> prepared
      ensures r.Fail? ==> r.error == OperationOnPreparedStatement(GuardMessage(op))
    {
      r := CheckPrepared(prepared, GuardMessage(op));
    }

    /** `__repr__`, given Django's own repr of the queryset. */
    function Repr(baseRepr: string): (r: Result<string>)
      reads this, query
      ensures !prepared ==> r == Success(baseRepr)
      ensures prepared && query.statementSql.None? ==> r == Failure(TypeError)
      ensures prepared && r.Success? ==>
        |r.value| >= 21 && r.value[..18] == "PreparedQuerySet <" && r.value[|r.value| - 2..] == ")>"
    {
      var r := ReprOf(prepared, query.statementSql, query.statementSqlParams, query.order, baseRepr);
      if prepared && r.Success? then
        var q := PercentFormat(query.statementSql.value, RenderParams(query.statementSqlParams)).value;
        var s := "PreparedQuerySet <" + q + " (" + Join(", ", query.order) + ")>";
        assert r.value == s;
        assert s == "PreparedQuerySet <" + (q + " (" + Join(", ", query.order)) + ")>";
        r
      else r
    }

    /** The end of `prepare()`: the copy becomes the query, and the
        queryset is prepared. */
    method Adopt(copy: PrepareQuery)
      modifies this`query, this`prepared
      ensures query == copy && prepared
    {
      query := copy;
      prepared := true;
    }

    /** `prepare()`: the work is done by PrepareCopy on the current query;
        on success its copy becomes the query of a now prepared queryset. */
    method Prepare(nodes: seq<(Lookup, bool)>, compiled: SqlFragment, dbType: Compiler.DbType, ghost params: set<BindParam>)
      returns (r: Outcome)
      requires Valid()
      requires BindsOf(nodes) <= params && Registered(query.byHash) <= params
      modifies this`query, this`prepared, query`byHash, query`names, params
      ensures Valid()
      ensures r.Pass? ==> prepared && fresh(query) && query.klass == PrepareQueryClass
      ensures r.Pass? ==> query.SameData(old(query))
      ensures r.Pass? ==> AllTyped(query.byHash) && forall k | 0 <= k < |nodes| :: !RefusedBind(nodes[k].0)
      ensures r.Pass? ==> WalkResolves(query.byHash, nodes, |nodes|) && Retyped(params, WalkTouches(query.byHash, nodes, |nodes|))
      ensures r.Pass? ==> Compiler.PrepareSqlSpec(compiled.sql, compiled.params, FieldViews(query.byHash), dbType).Success?
      ensures r.Fail? ==> prepared == old(prepared) && query == old(query)
      ensures old(query.byHash).Keys <= query.byHash.Keys
      ensures Registered(query.byHash) <= params
      ensures KeptTypes(params)
      ensures r.Fail? && r.error.NotSupportedLookup? ==>
        exists k | 0 <= k < |nodes| :: RefusedBind(nodes[k].0) && r.error == NotSupportedLookup(NotSupportedMessage(nodes[k].0))
      ensures r.Fail? && r.error.PreparedStatementException? ==>
        exists h | h in query.byHash :: query.byHash[h].fieldType == null && r.error.msg == "Field type is required for " + h
      ensures r.Fail? ==>
        || r.error.NotSupportedLookup? || r.error.IncorrectBindParameter? || r.error == KeyError
        || r.error.PreparedStatementException? || r.error in {AttributeError, IndexError, FormatError}
    {
      var c := PrepareCopy(query, nodes, compiled, dbType, params);
      if c.Failure? {
        return Fail(c.error);
      }
      label copied:
      Adopt(c.value);
      FieldViewsUnchanged@copied(query.byHash);
      r := Pass;
    }

    /** `_execute_prepare()` on connection `conn`. The statement is prepared
        (connecting first, to raw connection `newRaw`, when closed) unless
        the connection's map records its name for the current raw
        connection; then the map records it for that raw connection. The
        query becomes an execute query with the same prepared data. */
    method ExecutePrepare(conn: Connection, compiled: SqlFragment, dbType: Compiler.DbType, newRaw: nat) returns (r: Outcome)
      requires Valid()
      modifies this`query, conn
      ensures Valid() && prepared == old(prepared)
      ensures !old(NeedsPrepare(conn.preparedStatements, query.statementName, conn.raw)) ==>
        r.Pass? && conn.raw == old(conn.raw) && conn.sent == old(conn.sent)
        && conn.preparedStatements == old(conn.preparedStatements)
      ensures old(NeedsPrepare(conn.preparedStatements, query.statementName, conn.raw)) ==>
        var text := Compiler.PrepareSqlSpec(compiled.sql, compiled.params, old(FieldViews(query.byHash)), dbType);
        && conn.raw == (if old(conn.raw).None? then Some(newRaw) else old(conn.raw))
        && (r.Pass? <==> text.Success?)
        && (r.Pass? ==> conn.sent == old(conn.sent) + [text.value.sql])
        && (r.Pass? ==> conn.preparedStatements == Some(Record(old(conn.preparedStatements), old(query.statementName), conn.raw.value)))
        && (r.Fail? ==> conn.sent == old(conn.sent) && conn.preparedStatements == old(conn.preparedStatements))
      ensures r.Pass? ==> fresh(query) && query.klass == ExecutePrepareQueryClass
      ensures r.Pass? ==> query.SameData(old(query))
      ensures r.Fail? ==> query == old(query) && r.error in {AttributeError, IndexError, FormatError}
    {
      label entry:
      var name := query.statementName;
      var source := query;
      if NeedsPrepare(conn.preparedStatements, name, conn.raw) {
        var p := query.Clone(PrepareQueryClass);
        FieldViewsUnchanged@entry(p.byHash);
        r := conn.PrepareStatement(name, compiled, p.byHash, dbType, newRaw);
        if r.Fail? {
          return;
        }
        source := p;
      }
      query := source.Clone(ExecutePrepareQueryClass);
      r := Pass;
    }

    /** The end of `execute()`, once the keywords `kw` are cleaned: the
        statement is made available on the connection, the cleaned keywords
        become the query's parameter values, and the execute statement is
        run with their values, in keyword order. */
    method RunExecute(kw: seq<Kwarg>, conn: Connection, compiled: SqlFragment, dbType: Compiler.DbType, newRaw: nat)
      returns (r: Result<(string, seq<Value>)>)
      requires Valid()
      modifies this`query, conn
      ensures Valid() && prepared == old(prepared)
      ensures r.Success? ==> r == Success(Compiler.ExecuteAsSql(ValuesOf(kw)))
      ensures r.Success? ==> query.paramsValues == Some(kw)
      ensures r.Failure? ==> r.error in {AttributeError, IndexError, FormatError}
      ensures r.Failure? ==> query == old(query) && conn.sent == old(conn.sent) && conn.preparedStatements == old(conn.preparedStatements)
      ensures r.Success? ==> fresh(query) && query.klass == ExecutePrepareQueryClass
      ensures r.Success? ==> query.SameStatement(old(query))
      ensures r.Success? && !old(NeedsPrepare(conn.preparedStatements, query.statementName, conn.raw)) ==>
        conn.raw == old(conn.raw) && conn.sent == old(conn.sent) && conn.preparedStatements == old(conn.preparedStatements)
      ensures r.Success? && old(NeedsPrepare(conn.preparedStatements, query.statementName, conn.raw)) ==>
        var text := Compiler.PrepareSqlSpec(compiled.sql, compiled.params, old(FieldViews(query.byHash)), dbType);
        && text.Success?
        && conn.raw == (if old(conn.raw).None? then Some(newRaw) else old(conn.raw))
        && conn.sent == old(conn.sent) + [text.value.sql]
        && conn.preparedStatements == Some(Record(old(conn.preparedStatements), old(query.statementName), conn.raw.value))
    {
      var o := ExecutePrepare(conn, compiled, dbType, newRaw);
      if o.Fail? {
        return Failure(o.error);
      }
      label executed:
      query.paramsValues := Some(kw);
      assert unchanged@executed(conn);
      r := Success(Compiler.ExecuteAsSql(ValuesOf(kw)));
    }

    /** `execute(**kwargs)`: refused before prepare; the keyword names must
        be exactly the registered names; each value is cleaned by its
        parameter's field; then RunExecute. The result is the execute
        statement and its parameters (the rows are Django's). */
    method Execute(kwargs: seq<Kwarg>, conn: Connection, compiled: SqlFragment, dbType: Compiler.DbType,
                   newRaw: nat, prep: PrepValue, validate: Validators)
      returns (r: Result<(string, seq<Value>)>)
      requires Valid()
      requires DistinctNames(kwargs)
      modifies this`query, conn
      ensures Valid() && prepared == old(prepared)
      ensures !prepared ==> r == Failure(QueryNotPrepared("Query isn't prepared!"))
      ensures prepared && KwargNames(kwargs) != old(query.names) ==> r == Failure(IncorrectBindParameter("Incorrect params"))
      ensures r.Success? ==> prepared && KwargNames(kwargs) == old(query.names)
      ensures r.Success? ==> CleanedValues(old(FieldsByName(query.byHash)), kwargs, r.value.1, prep, validate)
      ensures r.Success? ==> r.value == Compiler.ExecuteAsSql(r.value.1)
      ensures r.Success? ==> query.paramsValues.Some? && ValuesOf(query.paramsValues.value) == r.value.1
      ensures r.Failure? && r.error.ValidationError? ==> SomeCleaningFails(old(FieldsByName(query.byHash)), kwargs, prep, validate)
      ensures r.Failure? ==>
        || r.error.QueryNotPrepared? || r.error.IncorrectBindParameter? || r.error.ValidationError?
        || r.error in {AttributeError, IndexError, FormatError}
      ensures r.Failure? ==> query == old(query) && conn.sent == old(conn.sent) && conn.preparedStatements == old(conn.preparedStatements)
      ensures r.Success? ==> fresh(query) && query.klass == ExecutePrepareQueryClass
      ensures r.Success? ==> query.SameStatement(old(query))
      ensures r.Success? && !old(NeedsPrepare(conn.preparedStatements, query.statementName, conn.raw)) ==>
        conn.raw == old(conn.raw) && conn.sent == old(conn.sent) && conn.preparedStatements == old(conn.preparedStatements)
      ensures r.Success? && old(NeedsPrepare(conn.preparedStatements, query.statementName, conn.raw)) ==>
        var text := Compiler.PrepareSqlSpec(compiled.sql, compiled.params, old(FieldViews(query.byHash)), dbType);
        && text.Success?
        && conn.raw == (if old(conn.raw).None? then Some(newRaw) else old(conn.raw))
        && conn.sent == old(conn.sent) + [text.value.sql]
        && conn.preparedStatements == Some(Record(old(conn.preparedStatements), old(query.statementName), conn.raw.value))
    {
      if !prepared {
        return Failure(QueryNotPrepared("Query isn't prepared!"));
      }
      var fields := FieldsByName(query.byHash);
      assert fields.Keys == query.names;
      label checking:
      var kw :- CheckKwargs(query.names, fields, kwargs, prep, validate);
      FieldViewsUnchanged@checking(query.byHash);
      r := RunExecute(kw, conn, compiled, dbType, newRaw);
    }
  }
}
