/** shoc::accepter_queues as an object, with fibers resumed from inside its methods. */
module AccepterModel {
  import opened AccepterSpec
  import opened AccepterProofs

  /** What accept() hands back: an awaitable that is ready, failed, or a space to wait in. */
  datatype Awaitable<P> = Ready(value: P) | Failed | Space(id: nat)

  class AccepterQueues<P> {
    var pendingData: seq<P>
    var pendingAccepters: seq<Accepter<P>>
    var disconnected: bool
    ghost var supplied: seq<P>
    ghost var delivered: seq<(nat, P)>
    ghost var errors: seq<nat>
    var count: nat  // numbers the receptables handed out

    ghost function View(): Queues<P>
      reads this
    {
      Queues(pendingData, pendingAccepters, disconnected, count, supplied, delivered, errors)
    }

    constructor ()
      ensures View() == Empty()
    {
      pendingData, pendingAccepters, disconnected, count := [], [], false, 0;
      supplied, delivered, errors := [], [], [];
    }

    method Accept(fiber: seq<Op<P>>) returns (result: Awaitable<P>)
      modifies this
      ensures View() == AcceptStep(old(View()), fiber)
      ensures match result
              case Ready(v) => delivered == old(delivered) + [(old(count), v)]
              case Failed => errors == old(errors) + [old(count)]
              case Space(id) => id == old(count) && pendingAccepters == old(pendingAccepters) + [Accepter(id, fiber)]
    {
      if pendingData != [] {
        result := Ready(pendingData[0]);
        delivered := delivered + [(count, pendingData[0])];
        pendingData := pendingData[1..];
      } else if disconnected {
        result := Failed;
        errors := errors + [count];
      } else {
        result := Space(count);
        pendingAccepters := pendingAccepters + [Accepter(count, fiber)];
      }
      count := count + 1;
    }

    method Supply(payload: P)
      requires Inv(View())
      modifies this
      ensures View() == SupplyStep(old(View()), payload)
      decreases Weight(pendingAccepters), 1
    {
      ghost var q := View();
      supplied := supplied + [payload];
      if pendingAccepters == [] {
        pendingData := pendingData + [payload];
      } else {
        var accepter := pendingAccepters[0];
        delivered := delivered + [(accepter.id, payload)];
        pendingAccepters := pendingAccepters[1..];
        DeliverKeeps(q, payload);
        Resume(accepter.fiber);
      }
    }

    /** The loop ends because a resumed fiber cannot queue itself again. */
    method Disconnect()
      requires Inv(View())
      modifies this
      ensures View() == Drain(old(View()).(disconnected := true))
      decreases Weight(pendingAccepters), 1
    {
      ghost var d := View().(disconnected := true);
      disconnected := true;
      while pendingAccepters != []
        invariant Inv(View()) && disconnected
        invariant Drain(d) == Drain(View())
        invariant Weight(pendingAccepters) <= old(Weight(pendingAccepters))
        decreases |pendingAccepters|
      {
        DismissFirst();
      }
    }

    /** One round of the loop: the longest waiting accepter gets its error and goes on. */
    method DismissFirst()
      requires Inv(View()) && disconnected && pendingAccepters != []
      modifies this
      ensures Inv(View()) && disconnected && Drain(View()) == Drain(old(View()))
      ensures |pendingAccepters| < |old(pendingAccepters)|
      ensures Weight(pendingAccepters) < old(Weight(pendingAccepters))
      decreases Weight(pendingAccepters), 0
    {
      ghost var q := View();
      DrainRound(q);
      var accepter := pendingAccepters[0];
      errors := errors + [accepter.id];
      pendingAccepters := pendingAccepters[1..];
      assert View() == Dismiss(q);
      Resume(accepter.fiber);
    }

    /** A fiber continues: it performs its operations on these queues. */
    method Resume(ops: seq<Op<P>>)
      requires Inv(View())
      modifies this
      ensures View() == Exec(old(View()), ops)
      decreases Weight(pendingAccepters) + Size(ops), 0
    {
      if ops != [] {
        assert Size(ops) == OpSize(ops[0]) + Size(ops[1..]);
        match ops[0] {
          case Accept(fiber) =>
            AcceptStepKeeps(View(), fiber);
            var _ := Accept(fiber);
          case Supply(p) =>
            SupplyStepKeeps(View(), p);
            Supply(p);
          case Disconnect =>
            DrainKeeps(View().(disconnected := true));
            Disconnect();
        }
        Resume(ops[1..]);
      }
    }
  }
}
