/**
 * Binding of symbols within one evaluation context, and evaluation of the
 * bound trees. Binding resolves every reference to its current value and
 * every function identifier to its implementation; the shared symbol tree is
 * left untouched.
 */
module Evaluation {
  import opened Wrappers
  import opened Values
  import opened Symbols
  import opened Errors
  import opened References
  import opened Functions

  /** A symbol after binding: references have become inputs carrying their value. */
  datatype BoundSymbol =
    | BoundInput(value: Value)
    | BoundCall(implementation: FunctionImplementation, arguments: seq<BoundSymbol>)
    | BoundLiteral(value: Value)
    | BoundNull

  /** Every function identifier reachable from `s`. */
  function FunctionIdents(s: Symbol): set<FunctionIdent>
  {
    match s
    case Function(info, args) =>
      {info.ident} + set i, f | 0 <= i < |args| && f in FunctionIdents(args[i]) :: f
    case _ => {}
  }

  /**
   * Binds `s` against a reference resolver and the function registry. The
   * arguments of a call are bound left to right before the call's own
   * identifier is looked up; the first identifier missing is reported.
   */
  function Bind(s: Symbol, refs: Registry, fns: FunctionRegistry): (r: Result<BoundSymbol, CollectError>)
    ensures r.Failure? ==> r.error.UnknownReference? || r.error.UnknownFunction?
    decreases s, 1
  {
    match s
    case Reference(info) =>
      if info.ident in refs then Success(BoundInput(refs[info.ident].Value()))
      else Failure(UnknownReference(info.ident))
    case Function(info, args) =>
      var bargs :- BindAll(args, refs, fns);
      if info.ident in fns then Success(BoundCall(fns[info.ident], bargs))
      else Failure(UnknownFunction(info.ident))
    case Literal(v) => Success(BoundLiteral(v))
    case Null => Success(BoundNull)
  }

  function BindAll(ss: seq<Symbol>, refs: Registry, fns: FunctionRegistry): (r: Result<seq<BoundSymbol>, CollectError>)
    ensures r.Success? ==> |r.value| == |ss| && forall j | 0 <= j < |ss| :: Bind(ss[j], refs, fns) == Success(r.value[j])
    ensures r.Failure? ==> r.error.UnknownReference? || r.error.UnknownFunction?
    decreases ss, 0
  {
    if ss == [] then Success([])
    else
      var b :- Bind(ss[0], refs, fns);
      var bs :- BindAll(ss[1..], refs, fns);
      Success([b] + bs)
  }

  /** The value of a bound tree; it can only fail inside a function implementation. */
  function Eval(b: BoundSymbol): (r: Result<Value, CollectError>)
    ensures r.Failure? ==> r.error.EvaluationError?
  {
    match b
    case BoundInput(v) => Success(v)
    case BoundCall(f, args) =>
      var vs :- EvalAll(args);
      Evaluate(f, vs)
    case BoundLiteral(v) => Success(v)
    case BoundNull => Success(NullValue)
  }

  /** Evaluates bound symbols left to right; the first failure is the result. */
  function EvalAll(bs: seq<BoundSymbol>): (r: Result<seq<Value>, CollectError>)
    ensures r.Success? <==> forall j | 0 <= j < |bs| :: Eval(bs[j]).Success?
    ensures r.Success? ==> |r.value| == |bs| && forall j | 0 <= j < |bs| :: Eval(bs[j]) == Success(r.value[j])
    ensures r.Failure? ==> r.error.EvaluationError?
  {
    if bs == [] then Success([])
    else
      var v :- Eval(bs[0]);
      var vs :- EvalAll(bs[1..]);
      Success([v] + vs)
  }

  /** The value of a symbol in a context: bind it, then evaluate it. */
  function ValueOf(s: Symbol, refs: Registry, fns: FunctionRegistry): Result<Value, CollectError>
  {
    var b :- Bind(s, refs, fns);
    Eval(b)
  }

  /**
   * Binding fails exactly when some reachable identifier is missing, and the
   * error then names one of the missing identifiers.
   */
  lemma {:induction false} BindSucceedsIff(s: Symbol, refs: Registry, fns: FunctionRegistry)
    ensures Bind(s, refs, fns).Success? <==> ReferenceIdents(s) <= refs.Keys && FunctionIdents(s) <= fns.Keys
    ensures Bind(s, refs, fns).Failure? ==> MissingIdent(Bind(s, refs, fns).error, s, refs, fns)
    decreases s, 1
  {
    match s
    case Reference(_) =>
    case Literal(_) =>
    case Null =>
    case Function(info, args) =>
      BindAllSucceedsIff(args, refs, fns);
      var r := Bind(s, refs, fns);
      if r.Failure? && BindAll(args, refs, fns).Failure? {
        var e := BindAll(args, refs, fns).error;
        var i :| 0 <= i < |args| && MissingIdent(e, args[i], refs, fns);
        MissingIdentInArgument(e, info, args, i, refs, fns);
      }
  }

  lemma {:induction false} BindAllSucceedsIff(ss: seq<Symbol>, refs: Registry, fns: FunctionRegistry)
    ensures BindAll(ss, refs, fns).Success? <==>
      forall i | 0 <= i < |ss| :: ReferenceIdents(ss[i]) <= refs.Keys && FunctionIdents(ss[i]) <= fns.Keys
    ensures BindAll(ss, refs, fns).Failure? ==>
      exists i | 0 <= i < |ss| :: MissingIdent(BindAll(ss, refs, fns).error, ss[i], refs, fns)
    decreases ss, 0
  {
    if ss != [] {
      BindSucceedsIff(ss[0], refs, fns);
      BindAllSucceedsIff(ss[1..], refs, fns);
      if BindAll(ss, refs, fns).Failure? && Bind(ss[0], refs, fns).Success? {
        var e := BindAll(ss, refs, fns).error;
        var i :| 0 <= i < |ss| - 1 && MissingIdent(e, ss[1..][i], refs, fns);
        assert ss[1..][i] == ss[i + 1];
      }
      forall i | 0 < i < |ss| ensures ss[i] == ss[1..][i - 1] { }
    }
  }

  /** `e` reports an identifier reachable from `s` that the registries lack. */
  predicate MissingIdent(e: CollectError, s: Symbol, refs: Registry, fns: FunctionRegistry)
  {
    || (e.UnknownReference? && e.ident in ReferenceIdents(s) && e.ident !in refs)
    || (e.UnknownFunction? && e.functionIdent in FunctionIdents(s) && e.functionIdent !in fns)
  }

  lemma MissingIdentInArgument(e: CollectError, info: FunctionInfo, args: seq<Symbol>, i: nat,
                               refs: Registry, fns: FunctionRegistry)
    requires i < |args| && MissingIdent(e, args[i], refs, fns)
    ensures MissingIdent(e, Function(info, args), refs, fns)
  {
  }

  /** The two resolvers give every identifier in `ids` the same presence and value. */
  predicate AgreeOn(r1: Registry, r2: Registry, ids: set<ReferenceIdent>)
  {
    forall id | id in ids :: (id in r1 <==> id in r2) && (id in r1 ==> r1[id].Value() == r2[id].Value())
  }

  /** Binding reads the resolver only at the identifiers the symbol reaches. */
  lemma {:induction false} BindAgree(s: Symbol, r1: Registry, r2: Registry, fns: FunctionRegistry)
    requires AgreeOn(r1, r2, ReferenceIdents(s))
    ensures Bind(s, r1, fns) == Bind(s, r2, fns)
    decreases s, 1
  {
    match s
    case Reference(_) =>
    case Literal(_) =>
    case Null =>
    case Function(_, args) =>
      BindAllAgree(args, r1, r2, fns);
  }

  lemma {:induction false} BindAllAgree(ss: seq<Symbol>, r1: Registry, r2: Registry, fns: FunctionRegistry)
    requires forall i | 0 <= i < |ss| :: AgreeOn(r1, r2, ReferenceIdents(ss[i]))
    ensures BindAll(ss, r1, fns) == BindAll(ss, r2, fns)
    decreases ss, 0
  {
    if ss != [] {
      BindAgree(ss[0], r1, r2, fns);
      assert forall i | 0 <= i < |ss[1..]| :: ss[1..][i] == ss[i + 1];
      BindAllAgree(ss[1..], r1, r2, fns);
    }
  }
}
