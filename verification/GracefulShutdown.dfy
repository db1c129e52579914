/** Graceful shutdown: draining and cancelling orders while other tasks go on, then stopping
    the services in reverse. What other tasks do while the shutdown waits is a parameter.
  */
module GracefulShutdowns {

  datatype Phase = RUNNING | DRAINING | STOPPING_SERVICES | CLEANUP | COMPLETED

  const PHASES := [RUNNING, DRAINING, STOPPING_SERVICES, CLEANUP, COMPLETED]

  function Rank(p: Phase): (r: nat)
    ensures r < 5 && PHASES[r] == p
  {
    match p
    case RUNNING => 0
    case DRAINING => 1
    case STOPPING_SERVICES => 2
    case CLEANUP => 3
    case COMPLETED => 4
  }

  /** What happens to an order's task at its turn to be cancelled: there is none left to cancel
      (no task, or one that is done by then), it ends or times out, or it ends with an
      exception of its own. Every order has one turn, and any answer is possible. */
  datatype CancelEnd = NothingToCancel | Ends | Raises

  datatype PendingOrder = PendingOrder(orderId: string, onCancel: CancelEnd)

  datatype StopEnd = Stops | TimesOut | Fails

  datatype Service = Service(name: string, onStop: StopEnd)

  /** What another task may call while the shutdown waits. */
  datatype Call = RegisterOrder(order: PendingOrder) | CompleteOrder(orderId: string) | RegisterService(service: Service)

  datatype Outcome = AlreadyInProgress | Aborted | Finished(drained: int, cancelled: nat, stopped: seq<string>)

  type Orders = map<string, PendingOrder>

  // ---- What other tasks' calls leave ----

  /** Once no orders are accepted, only completions matter. */
  function WithoutCompleted(pending: Orders, calls: seq<Call>): Orders {
    if calls == [] then pending
    else
      var before := WithoutCompleted(pending, calls[..|calls| - 1]);
      match calls[|calls| - 1]
      case CompleteOrder(id) => before - {id}
      case _ => before
  }

  /** The orders pending after `k` polls. */
  function Remaining(pending: Orders, others: nat -> seq<Call>, k: nat): Orders {
    if k == 0 then pending else WithoutCompleted(Remaining(pending, others, k - 1), others(k - 1))
  }

  lemma {:induction false} WithoutCompletedKeeps(pending: Orders, calls: seq<Call>, id: string)
    ensures id in WithoutCompleted(pending, calls) <==> id in pending && CompleteOrder(id) !in calls
    ensures id in WithoutCompleted(pending, calls) ==> WithoutCompleted(pending, calls)[id] == pending[id]
  {
    if calls != [] {
      var front := calls[..|calls| - 1];
      WithoutCompletedKeeps(pending, front, id);
      assert calls == front + [calls[|calls| - 1]];
    }
  }

  /** An order is still pending after `k` polls exactly if it was at first and was not
      completed during any of them. */
  lemma {:induction false} RemainsUnlessCompleted(pending: Orders, others: nat -> seq<Call>, k: nat, id: string)
    ensures id in Remaining(pending, others, k)
       <==> id in pending && forall j: nat :: j < k ==> CompleteOrder(id) !in others(j)
    ensures id in Remaining(pending, others, k) ==> Remaining(pending, others, k)[id] == pending[id]
  {
    if k > 0 {
      RemainsUnlessCompleted(pending, others, k - 1, id);
      WithoutCompletedKeeps(Remaining(pending, others, k - 1), others(k - 1), id);
    }
  }

  // ---- Services ----

  /** The names of the services that stop in time, last registered first. */
  function StoppedNames(services: seq<Service>): seq<string> {
    if services == [] then []
    else
      var last := services[|services| - 1];
      (if last.onStop == Stops then [last.name] else []) + StoppedNames(services[..|services| - 1])
  }

  lemma StopLast(services: seq<Service>, n: nat, stopped: seq<string>)
    requires n < |services|
    ensures var now := if services[n].onStop == Stops then stopped + [services[n].name] else stopped;
            stopped + StoppedNames(services[..n + 1]) == now + StoppedNames(services[..n])
  {
    assert services[..n + 1][..n] == services[..n];
  }

  /** The positions of those services. */
  function StoppedAt(services: seq<Service>): seq<nat> {
    if services == [] then []
    else
      var n := |services| - 1;
      (if services[n].onStop == Stops then [n] else []) + StoppedAt(services[..n])
  }

  lemma {:induction false} StoppedAtDescends(services: seq<Service>)
    ensures forall i :: i in StoppedAt(services) ==> i < |services|
    ensures forall k, m :: 0 <= k < m < |StoppedAt(services)| ==> StoppedAt(services)[m] < StoppedAt(services)[k]
  {
    if services != [] {
      var n := |services| - 1;
      var all, rest := StoppedAt(services), StoppedAt(services[..n]);
      StoppedAtDescends(services[..n]);
      assert forall m :: 0 <= m < |rest| ==> rest[m] in rest;
      if services[n].onStop == Stops {
        assert all == [n] + rest;
      } else {
        assert all == rest;
      }
    }
  }

  lemma {:induction false} StoppedAtExactly(services: seq<Service>, i: nat)
    requires i < |services|
    ensures i in StoppedAt(services) <==> services[i].onStop == Stops
  {
    var n := |services| - 1;
    if i < n {
      StoppedAtExactly(services[..n], i);
    } else {
      StoppedAtDescends(services[..n]);
    }
  }

  lemma {:induction false} StoppedAtLength(services: seq<Service>)
    ensures |StoppedNames(services)| == |StoppedAt(services)|
  {
    if services != [] {
      StoppedAtLength(services[..|services| - 1]);
    }
  }

  predicate NamedAt(services: seq<Service>, at: seq<nat>, names: seq<string>, k: nat) {
    k < |at| && k < |names| && at[k] < |services| && services[at[k]].name == names[k]
  }

  lemma {:induction false} StoppedAtNames(services: seq<Service>, k: nat)
    requires k < |StoppedAt(services)|
    ensures NamedAt(services, StoppedAt(services), StoppedNames(services), k)
  {
    var n := |services| - 1;
    var front := services[..n];
    StoppedAtLength(services);
    if services[n].onStop != Stops {
      StoppedAtNames(front, k);
    } else if k > 0 {
      assert StoppedAt(services) == [n] + StoppedAt(front);
      assert StoppedNames(services) == [services[n].name] + StoppedNames(front);
      StoppedAtNames(front, k - 1);
    }
  }

  /** The stopped services are a subsequence of the reversed registration order, and no
      service that can stop is missing because of another. */
  lemma StoppedInReverse(services: seq<Service>) returns (at: seq<nat>)
    ensures |at| == |StoppedNames(services)|
    ensures forall k :: 0 <= k < |at| ==> NamedAt(services, at, StoppedNames(services), k)
    ensures forall k, m :: 0 <= k < m < |at| ==> at[m] < at[k]
    ensures forall i :: 0 <= i < |services| ==> (i in at <==> services[i].onStop == Stops)
  {
    at := StoppedAt(services);
    StoppedAtLength(services);
    StoppedAtDescends(services);
    forall k | 0 <= k < |at| {
      StoppedAtNames(services, k);
    }
    forall i | 0 <= i < |services|
      ensures i in at <==> services[i].onStop == Stops
    {
      StoppedAtExactly(services, i);
    }
  }

  // ---- The manager ----

  class GracefulShutdownManager {
    var phase: Phase
    var services: seq<Service>
    var pendingOrders: Orders
    var acceptingOrders: bool
    /** The phases so far. */
    ghost var phases: seq<Phase>

    /** Orders are accepted only while running, and no phase is skipped or repeated. */
    ghost predicate Valid()
      reads this
    {
      && (acceptingOrders <==> phase == RUNNING)
      && phases == PHASES[..Rank(phase) + 1]
    }

    constructor ()
      ensures Valid() && phase == RUNNING && services == [] && pendingOrders == map[]
    {
      phase, services, pendingOrders, acceptingOrders := RUNNING, [], map[], true;
      phases := [RUNNING];
    }

    method RegisterService(service: Service)
      requires Valid()
      modifies this`services
      ensures Valid() && services == old(services) + [service]
    {
      services := services + [service];
    }

    method RegisterPendingOrder(order: PendingOrder) returns (accepted: bool)
      requires Valid()
      modifies this`pendingOrders
      ensures Valid() && (accepted <==> phase == RUNNING)
      ensures pendingOrders == if accepted then old(pendingOrders)[order.orderId := order] else old(pendingOrders)
    {
      if !acceptingOrders {
        return false;
      }
      pendingOrders := pendingOrders[order.orderId := order];
      accepted := true;
    }

    method CompletePendingOrder(orderId: string)
      requires Valid()
      modifies this`pendingOrders
      ensures Valid() && pendingOrders == old(pendingOrders) - {orderId}
    {
      pendingOrders := pendingOrders - {orderId};
    }

    /** Other tasks' calls during one wait of the shutdown. */
    method Wait(calls: seq<Call>)
      requires Valid() && phase != RUNNING
      modifies this`services, this`pendingOrders
      ensures Valid() && old(services) <= services
      ensures pendingOrders == WithoutCompleted(old(pendingOrders), calls)
    {
      for i := 0 to |calls|
        invariant Valid() && old(services) <= services
        invariant pendingOrders == WithoutCompleted(old(pendingOrders), calls[..i])
      {
        assert calls[..i + 1][..i] == calls[..i];
        match calls[i] {
          case RegisterOrder(order) =>
            var accepted := RegisterPendingOrder(order);
            assert !accepted;
          case CompleteOrder(id) =>
            CompletePendingOrder(id);
          case RegisterService(service) =>
            RegisterService(service);
        }
      }
      assert calls[..|calls|] == calls;
    }

    /** Polls until nothing is pending or the timeout has passed. */
    method DrainPendingOrders(timeout: real, others: nat -> seq<Call>) returns (drained: int, polls: nat)
      requires Valid() && phase == DRAINING
      modifies this`services, this`pendingOrders
      ensures Valid() && old(services) <= services
      ensures pendingOrders == Remaining(old(pendingOrders), others, polls)
      ensures drained == |old(pendingOrders)| - |pendingOrders|
      ensures pendingOrders == map[] || polls as real >= timeout
      ensures polls > 0 ==> polls as real < timeout + 1.0 && Remaining(old(pendingOrders), others, polls - 1) != map[]
    {
      polls := 0;
      if pendingOrders == map[] {
        return 0, polls;
      }
      var initialCount := |pendingOrders|;
      var elapsed := 0.0;
      while pendingOrders != map[] && elapsed < timeout
        invariant Valid() && old(services) <= services
        invariant elapsed == polls as real
        invariant pendingOrders == Remaining(old(pendingOrders), others, polls)
        invariant polls > 0 ==> elapsed < timeout + 1.0 && Remaining(old(pendingOrders), others, polls - 1) != map[]
        decreases timeout - elapsed
      {
        Wait(others(polls));
        polls := polls + 1;
        elapsed := elapsed + 1.0;
      }
      drained := initialCount - |pendingOrders|;
    }

    /** Cancels every order pending at the start, unless a task answers with an exception of
        its own, which ends the whole shutdown. */
    method CancelRemainingOrders(others: nat -> seq<Call>, from: nat)
      returns (cancelled: nat, aborted: bool, waits: nat)
      requires Valid() && phase == DRAINING
      modifies this`services, this`pendingOrders
      ensures Valid() && old(services) <= services
      ensures aborted <==> HasRaising(old(pendingOrders))
      ensures if aborted then pendingOrders.Keys <= old(pendingOrders).Keys
              else pendingOrders == map[] && cancelled == |old(pendingOrders)|
    {
      cancelled, waits, aborted := 0, from, false;
      var snapshot := pendingOrders;
      var rest := snapshot.Keys;
      while rest != {}
        invariant Valid() && old(services) <= services && rest <= snapshot.Keys
        invariant pendingOrders.Keys <= snapshot.Keys
        invariant cancelled == |snapshot| - |rest|
        invariant forall id :: id in snapshot && id !in rest ==> snapshot[id].onCancel != Raises
      {
        var id :| id in rest;
        if snapshot[id].onCancel != NothingToCancel {
          ghost var before := pendingOrders;
          Wait(others(waits));
          forall x | x in pendingOrders
            ensures x in before
          {
            WithoutCompletedKeeps(before, others(waits), x);
          }
          waits := waits + 1;
          if snapshot[id].onCancel == Raises {
            return cancelled, true, waits;
          }
        }
        rest := rest - {id};
        cancelled := cancelled + 1;
      }
      pendingOrders := map[];
    }

    method StopServices(others: nat -> seq<Call>, from: nat) returns (stopped: seq<string>, waits: nat)
      requires Valid() && phase == STOPPING_SERVICES && pendingOrders == map[]
      modifies this`services, this`pendingOrders
      ensures Valid() && old(services) <= services && pendingOrders == map[]
      ensures stopped == StoppedNames(old(services))
    {
      stopped, waits := [], from;
      var toStop := services;
      var n := |toStop|;
      assert toStop[..n] == toStop;
      while n > 0
        invariant 0 <= n <= |toStop|
        invariant Valid() && old(services) <= services && pendingOrders == map[]
        invariant stopped + StoppedNames(toStop[..n]) == StoppedNames(toStop)
      {
        n := n - 1;
        Wait(others(waits));
        NothingCompletes(others(waits));
        waits := waits + 1;
        StopLast(toStop, n, stopped);
        if toStop[n].onStop == Stops {
          stopped := stopped + [toStop[n].name];
        }
      }
    }

    /** A first shutdown ends complete, with every order drained or cancelled, or is aborted by
        an order still pending after the polls; any further one does nothing, so after an
        abort the manager stays in DRAINING. */
    method Shutdown(timeout: real, others: nat -> seq<Call>) returns (outcome: Outcome, ghost polls: nat)
      requires Valid()
      modifies this
      ensures Valid() && Rank(old(phase)) <= Rank(phase) && old(services) <= services
      ensures old(phase) != RUNNING ==>
                outcome == AlreadyInProgress && phase == old(phase) && pendingOrders == old(pendingOrders) && services == old(services)
      ensures old(phase) == RUNNING ==> !outcome.AlreadyInProgress?
      ensures outcome.Finished? ==>
                && phase == COMPLETED && pendingOrders == map[]
                && outcome.drained + outcome.cancelled == |old(pendingOrders)|
                && outcome.cancelled == |Remaining(old(pendingOrders), others, polls)|
                && StopsSome(outcome.stopped, old(services), services)
      ensures outcome.Aborted? ==>
                phase == DRAINING && pendingOrders.Keys <= Remaining(old(pendingOrders), others, polls).Keys
      ensures old(phase) == RUNNING ==>
                (outcome.Aborted? <==> HasRaising(Remaining(old(pendingOrders), others, polls)))
      ensures polls > 0 ==> polls as real < timeout + 1.0
      ensures outcome.Finished? && outcome.cancelled > 0 ==> polls as real >= timeout
    {
      polls := 0;
      if phase != RUNNING {
        return AlreadyInProgress, 0;
      }
      phase, phases := DRAINING, PHASES[..2];
      acceptingOrders := false;
      var drained, waits := DrainPendingOrders(timeout, others);
      polls := waits;
      ghost var left := pendingOrders;
      assert left == Remaining(old(pendingOrders), others, polls);
      var cancelled := 0;
      if pendingOrders != map[] {
        var aborted: bool;
        cancelled, aborted, waits := CancelRemainingOrders(others, waits);
        if aborted {
          return Aborted, polls;
        }
      }
      assert cancelled == |left| && !HasRaising(left);
      phase, phases := STOPPING_SERVICES, PHASES[..3];
      ghost var atStop := services;
      var stopped: seq<string>;
      stopped, waits := StopServices(others, waits);
      assert atStop == services[..|atStop|];
      assert StopsSome(stopped, old(services), services);
      phase, phases := CLEANUP, PHASES[..4];
      phase, phases := COMPLETED, PHASES[..5];
      outcome := Finished(drained, cancelled, stopped);
    }
  }

  ghost predicate HasRaising(pending: Orders) {
    exists id :: id in pending && pending[id].onCancel == Raises
  }

  /** `stopped` are the stoppable services among those registered when stopping began. */
  ghost predicate StopsSome(stopped: seq<string>, atFirst: seq<Service>, atEnd: seq<Service>) {
    exists n :: |atFirst| <= n <= |atEnd| && stopped == StoppedNames(atEnd[..n])
  }

  lemma {:induction false} NothingCompletes(calls: seq<Call>)
    ensures WithoutCompleted(map[], calls) == map[]
  {
    if calls != [] {
      NothingCompletes(calls[..|calls| - 1]);
    }
  }
}
