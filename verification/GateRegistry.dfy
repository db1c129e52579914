/** The registry of gates and their evaluation in order. */
module GateRegistries {
  import opened Common

  /** Whatever is handed to a gate. */
  type Data = nat

  datatype Decision = PASS | BLOCK

  datatype GateResult = GateResult(gateId: string, decision: Decision)

  /** A gate names itself in its result, but nothing makes it do so. */
  datatype Gate = Gate(gateId: string, evaluate: Option<Data> -> GateResult)

  function Lookup(data: map<string, Data>, gateId: string): Option<Data> {
    if gateId in data then Some(data[gateId]) else None
  }

  predicate NoDuplicates(ids: seq<string>) {
    forall i, j :: 0 <= i < j < |ids| ==> ids[i] != ids[j]
  }

  /** The order lists each registered id once. */
  ghost predicate Consistent(gates: map<string, Gate>, order: seq<string>) {
    && NoDuplicates(order)
    && (forall id :: id in order <==> id in gates)
    && forall id :: id in gates ==> gates[id].gateId == id
  }

  function Appended(order: seq<string>, id: string): seq<string> {
    if id in order then order else order + [id]
  }

  function Without(order: seq<string>, id: string): seq<string> {
    if order == [] then []
    else if order[0] == id then order[1..]
    else [order[0]] + Without(order[1..], id)
  }

  /** The verdicts of all gates, in order. */
  function Verdicts(gates: map<string, Gate>, order: seq<string>, data: map<string, Data>): seq<GateResult>
    requires forall id :: id in order ==> id in gates
  {
    seq(|order|, i requires 0 <= i < |order| => gates[order[i]].evaluate(Lookup(data, order[i])))
  }

  class GateRegistry {
    var gates: map<string, Gate>
    var executionOrder: seq<string>

    ghost predicate Valid()
      reads this
    {
      Consistent(gates, executionOrder)
    }

    constructor ()
      ensures Valid() && gates == map[] && executionOrder == []
    {
      gates, executionOrder := map[], [];
    }

    method Register(gate: Gate)
      requires Valid()
      modifies this
      ensures Valid()
      ensures gates == old(gates)[gate.gateId := gate] && executionOrder == Appended(old(executionOrder), gate.gateId)
    {
      gates := gates[gate.gateId := gate];
      if gate.gateId !in executionOrder {
        executionOrder := executionOrder + [gate.gateId];
      }
    }

    method Unregister(gateId: string)
      requires Valid()
      modifies this
      ensures Valid()
      ensures gates == old(gates) - {gateId} && executionOrder == Without(old(executionOrder), gateId)
    {
      WithoutRemoves(executionOrder, gateId);
      gates := gates - {gateId};
      if gateId in executionOrder {
        executionOrder := Without(executionOrder, gateId);
      }
    }

    /** The verdicts in order, cut after the first BLOCK if asked to. */
    method EvaluateAll(data: map<string, Data>, stopOnBlock: bool) returns (results: seq<GateResult>)
      requires Valid()
      ensures results <= Verdicts(gates, executionOrder, data)
      ensures forall i :: 0 <= i < |results| - 1 ==> stopOnBlock ==> results[i].decision == PASS
      ensures |results| < |executionOrder| ==>
                stopOnBlock && results != [] && results[|results| - 1].decision == BLOCK
    {
      results := [];
      for i := 0 to |executionOrder|
        invariant results == Verdicts(gates, executionOrder, data)[..i]
        invariant forall j :: 0 <= j < i ==> stopOnBlock ==> results[j].decision == PASS
      {
        var gateId := executionOrder[i];
        assert gateId in executionOrder;
        var result := gates[gateId].evaluate(Lookup(data, gateId));
        results := results + [result];
        if stopOnBlock && result.decision == BLOCK {
          break;
        }
      }
    }
  }

  // ---- Registering and unregistering ----

  lemma {:induction false} WithoutMembers(order: seq<string>, id: string, x: string)
    requires NoDuplicates(order)
    ensures x in Without(order, id) <==> x in order && x != id
  {
    if order == [] {
    } else if order[0] == id {
      assert order == [id] + order[1..];
    } else {
      assert order == [order[0]] + order[1..];
      WithoutMembers(order[1..], id, x);
    }
  }

  lemma {:induction false} WithoutRemoves(order: seq<string>, id: string)
    requires NoDuplicates(order)
    ensures NoDuplicates(Without(order, id))
    ensures forall x :: x in Without(order, id) <==> x in order && x != id
    ensures id !in order ==> Without(order, id) == order
  {
    forall x {
      WithoutMembers(order, id, x);
    }
    if order != [] && order[0] != id {
      var rest := Without(order[1..], id);
      WithoutRemoves(order[1..], id);
      assert order[0] !in rest;
    }
  }

  lemma {:induction false} WithoutLast(order: seq<string>, id: string)
    requires id !in order
    ensures Without(order + [id], id) == order
  {
    if order != [] {
      WithoutLast(order[1..], id);
      assert (order + [id])[1..] == order[1..] + [id];
    }
  }

  /** Unregistering undoes the registration of a new gate; registering a gate again keeps its
      place, while registering it after unregistering puts it last. */
  lemma RegistrationRoundTrips(gates: map<string, Gate>, order: seq<string>, gate: Gate)
    requires Consistent(gates, order)
    ensures gate.gateId !in gates ==>
              gates[gate.gateId := gate] - {gate.gateId} == gates && Without(Appended(order, gate.gateId), gate.gateId) == order
    ensures gate.gateId in gates ==> Appended(order, gate.gateId) == order
    ensures Appended(Without(order, gate.gateId), gate.gateId) == Without(order, gate.gateId) + [gate.gateId]
  {
    WithoutRemoves(order, gate.gateId);
    if gate.gateId !in gates {
      WithoutLast(order, gate.gateId);
    }
  }
}
