/**
 * The saga participant's transaction registry: transactions are registered
 * under unique names and requests are dispatched to them by name. A
 * transaction's dispatch hands the saga context back unchanged.
 */
module Saga {
  import opened Wrappers

  /** A saga transaction, known by its name; its back-reference to the participant is not kept. */
  datatype SagaTransaction = SagaTransaction(name: string)

  /** What a transaction's dispatch returns: the context it was given. */
  function DispatchSagaTransaction<C>(t: SagaTransaction, context: C): C
  {
    context
  }

  /** The exception a second registration of a name raises. */
  function DuplicateMessage(name: string): string
  {
    "sagaTransactionName(" + name + ") can only be associated with one method."
  }

  /** Dispatching a name with no transaction dereferences a null lookup. */
  const NullTransaction := "java.lang.NullPointerException"

  /**
   * Registration as a function of the registry: a name already present is
   * refused with the duplicate message; otherwise the registry gains
   * exactly that name's entry.
   */
  function Register(m: map<string, SagaTransaction>, name: string, t: SagaTransaction)
    : (r: Result<map<string, SagaTransaction>, string>)
    ensures r.Err? <==> name in m
    ensures r.Err? ==> r.error == DuplicateMessage(name)
    ensures r.Ok? ==> r.value.Keys == m.Keys + {name} && r.value[name] == t
    ensures r.Ok? ==> forall n :: n in m ==> r.value[n] == m[n]
  {
    if name in m then Err(DuplicateMessage(name)) else Ok(m[name := t])
  }

  /** Dispatch as a function of the registry: a registered name hands the context back; any other fails. */
  function Dispatch<C>(m: map<string, SagaTransaction>, name: string, context: C): (r: Result<C, string>)
    ensures r.Ok? <==> name in m
    ensures r.Ok? ==> r.value == context
    ensures r.Err? ==> r.error == NullTransaction
  {
    if name in m then Ok(DispatchSagaTransaction(m[name], context)) else Err(NullTransaction)
  }

  /** Once a name is registered, dispatching it succeeds and hands the context back, whatever else is registered. */
  lemma {:induction false} RegisteredNameDispatches<C>(m: map<string, SagaTransaction>, name: string, t: SagaTransaction,
                                                       others: seq<(string, SagaTransaction)>, context: C)
    requires Register(m, name, t).Ok?
    ensures var after := RegisterAll(Register(m, name, t).value, others);
      Dispatch(after.0, name, context) == Ok(context) && after.0[name] == t
  {
    RegisterAllKeeps(Register(m, name, t).value, others);
  }

  /** Registering a sequence of transactions in order; the first refusal throws, so nothing after it is registered. */
  function RegisterAll(m: map<string, SagaTransaction>, ts: seq<(string, SagaTransaction)>)
    : (map<string, SagaTransaction>, Option<string>)
  {
    if ts == [] then (m, None)
    else
      var r := RegisterAll(m, ts[..|ts| - 1]);
      var last := ts[|ts| - 1];
      if r.1.Some? then r
      else
        match Register(r.0, last.0, last.1)
        case Ok(m') => (m', None)
        case Err(e) => (r.0, Some(e))
  }

  /** A sequence of registrations never replaces an entry already present. */
  lemma {:induction false} RegisterAllKeeps(m: map<string, SagaTransaction>, ts: seq<(string, SagaTransaction)>)
    ensures m.Keys <= RegisterAll(m, ts).0.Keys
    ensures forall n :: n in m ==> RegisterAll(m, ts).0[n] == m[n]
  {
    if ts != [] {
      RegisterAllKeeps(m, ts[..|ts| - 1]);
    }
  }

  /** The names a sequence of registrations uses. */
  function Names(ts: seq<(string, SagaTransaction)>): set<string>
  {
    set i | 0 <= i < |ts| :: ts[i].0
  }

  /** No name of the sequence is registered already, and none repeats. */
  ghost predicate AllFresh(m: map<string, SagaTransaction>, ts: seq<(string, SagaTransaction)>)
  {
    && (forall i :: 0 <= i < |ts| ==> ts[i].0 !in m)
    && (forall i, j :: 0 <= i < j < |ts| ==> ts[i].0 != ts[j].0)
  }

  /** When no registration is refused, every name maps to the transaction registered under it, and nothing else is added. */
  lemma {:induction false} RegisterAllContents(m: map<string, SagaTransaction>, ts: seq<(string, SagaTransaction)>)
    requires RegisterAll(m, ts).1.None?
    ensures RegisterAll(m, ts).0.Keys == m.Keys + Names(ts)
    ensures forall i :: 0 <= i < |ts| ==> ts[i].0 in RegisterAll(m, ts).0 && RegisterAll(m, ts).0[ts[i].0] == ts[i].1
  {
    if ts != [] {
      var init := ts[..|ts| - 1];
      var last := ts[|ts| - 1];
      var r := RegisterAll(m, init);
      assert r.1.None? && last.0 !in r.0;
      assert RegisterAll(m, ts).0 == r.0[last.0 := last.1];
      RegisterAllContents(m, init);
      assert forall i :: 0 <= i < |init| ==> init[i] == ts[i];
      assert Names(ts) == Names(init) + {last.0};
    }
  }

  /** A sequence of registrations goes through exactly when its names are fresh and pairwise different. */
  lemma {:induction false} RegisterAllSucceedsIffFresh(m: map<string, SagaTransaction>, ts: seq<(string, SagaTransaction)>)
    ensures RegisterAll(m, ts).1.None? <==> AllFresh(m, ts)
  {
    if ts != [] {
      var init := ts[..|ts| - 1];
      var last := ts[|ts| - 1];
      RegisterAllSucceedsIffFresh(m, init);
      assert forall i :: 0 <= i < |init| ==> init[i] == ts[i];
      var r := RegisterAll(m, init);
      if r.1.None? {
        RegisterAllContents(m, init);
        if last.0 in r.0 && last.0 !in m {
          var i :| 0 <= i < |init| && init[i].0 == last.0;
          assert ts[i].0 == ts[|ts| - 1].0;
        }
      } else {
        assert !AllFresh(m, init);
      }
    }
  }

  /** The participant: its registry of transactions by name. */
  class SagaParticipant {
    var sagaTransactionMap: map<string, SagaTransaction>

    /** A new participant has no transactions. */
    constructor ()
      ensures sagaTransactionMap == map[]
    {
      sagaTransactionMap := map[];
    }

    /**
     * `registerSagaTransaction`: a name already present throws and leaves the
     * registry as it was; otherwise exactly that entry is added.
     */
    method RegisterSagaTransaction(name: string, t: SagaTransaction) returns (r: Result<(), string>)
      modifies this
      ensures old(Register(sagaTransactionMap, name, t)).Err? ==>
        r == Err(old(Register(sagaTransactionMap, name, t)).error) && sagaTransactionMap == old(sagaTransactionMap)
      ensures old(Register(sagaTransactionMap, name, t)).Ok? ==>
        r == Ok(()) && sagaTransactionMap == old(Register(sagaTransactionMap, name, t)).value
    {
      if name in sagaTransactionMap {
        return Err(DuplicateMessage(name));
      }
      sagaTransactionMap := sagaTransactionMap[name := t];
      r := Ok(());
    }

    /** `dispatchRequest`: looks the name up and dispatches to its transaction; the registry is only read. */
    method DispatchRequest<C>(name: string, context: C) returns (r: Result<C, string>)
      ensures r == Dispatch(sagaTransactionMap, name, context)
    {
      if name !in sagaTransactionMap {
        return Err(NullTransaction);
      }
      r := Ok(DispatchSagaTransaction(sagaTransactionMap[name], context));
    }
  }
}
