/** The extension's approval slots: opened by a request, settled by a decision or a closed window. */
module Approvals {
  import opened Options

  type SlotId = nat
  type CallId = nat

  datatype Kind = Connect | SignAndSend

  datatype Payload = Payload(to: string, amount: string)

  datatype Slot = Slot(origin: string, kind: Kind, payload: Payload, call: CallId, windowId: Option<nat>)

  // `outcomes` remembers how every settled slot was settled.
  datatype Book = Book(pending: map<SlotId, Slot>, outcomes: map<SlotId, bool>)

  function Settle(b: Book, id: SlotId, approved: bool): Book {
    if id !in b.pending then b
    else Book(map x | x in b.pending && x != id :: b.pending[x], b.outcomes[id := approved])
  }

  function InWindow(b: Book, windowId: nat): set<SlotId> {
    set id | id in b.pending && b.pending[id].windowId == Some(windowId)
  }

  function Reject(b: Book, ids: set<SlotId>): Book {
    Book(map id | id in b.pending && id !in ids :: b.pending[id],
         map id | id in b.outcomes.Keys + ids :: if id in ids then false else b.outcomes[id])
  }

  function CloseWindow(b: Book, windowId: nat): Book {
    Reject(b, InWindow(b, windowId))
  }

  /** A closed window rejects the pending slots shown in it, and touches no other slot. */
  lemma CloseWindowExactly(b: Book, windowId: nat, id: SlotId)
    requires id in b.pending
    ensures var b' := CloseWindow(b, windowId);
            if b.pending[id].windowId == Some(windowId)
            then id !in b'.pending && id in b'.outcomes && !b'.outcomes[id]
            else id in b'.pending && b'.pending[id] == b.pending[id] && (id in b'.outcomes <==> id in b.outcomes)
  {
  }

  // A settled slot is no longer pending.
  ghost predicate Wellformed(b: Book) {
    b.pending.Keys !! b.outcomes.Keys
  }

  /** Settling a slot twice, in whatever way, changes nothing the second time. */
  lemma SettledOnce(b: Book, id: SlotId, first: bool, second: bool, windowId: nat)
    requires Wellformed(b)
    ensures var b' := Settle(b, id, first);
            && Wellformed(b')
            && Settle(b', id, second) == b'
            && (id in b.pending ==>
                  var outcomes := CloseWindow(b', windowId).outcomes; id in outcomes && outcomes[id] == first)
            && (forall x | x in b.outcomes :: x in b'.outcomes && b'.outcomes[x] == b.outcomes[x])
  {
  }

  // Slots leave `pending` only with an outcome, and outcomes stay.
  ghost predicate Progresses(b: Book, b': Book) {
    && Wellformed(b')
    && b'.pending.Keys <= b.pending.Keys
    && b'.pending.Keys + b'.outcomes.Keys == b.pending.Keys + b.outcomes.Keys
    && forall id | id in b.outcomes :: id in b'.outcomes && b'.outcomes[id] == b.outcomes[id]
  }

  lemma SettleProgresses(b: Book, id: SlotId, approved: bool)
    requires Wellformed(b)
    ensures Progresses(b, Settle(b, id, approved))
  {
  }

  lemma CloseWindowProgresses(b: Book, windowId: nat)
    requires Wellformed(b)
    ensures Progresses(b, CloseWindow(b, windowId))
  {
  }

  lemma RejectNothing(b: Book)
    ensures Reject(b, {}) == b
  {
  }

  lemma RejectOneMore(b: Book, ids: set<SlotId>, id: SlotId)
    requires id in b.pending && id !in ids
    ensures id in Reject(b, ids).pending && Reject(b, ids).pending[id] == b.pending[id]
    ensures Settle(Reject(b, ids), id, false) == Reject(b, ids + {id})
  {
    var once, more := Settle(Reject(b, ids), id, false), Reject(b, ids + {id});
    assert once.pending == more.pending;
    assert once.outcomes == more.outcomes;
  }

  class PendingApprovals {
    var pending: map<SlotId, Slot>
    var outcomes: map<SlotId, bool>

    constructor ()
      ensures Value() == Book(map[], map[])
    {
      pending, outcomes := map[], map[];
    }

    function Value(): Book
      reads this
    {
      Book(pending, outcomes)
    }

    method RequestApproval(id: SlotId, origin: string, kind: Kind, payload: Payload, call: CallId)
      requires id !in pending && id !in outcomes
      modifies this`pending
      ensures pending == old(pending)[id := Slot(origin, kind, payload, call, None)]
      ensures old(Wellformed(Value())) ==> Wellformed(Value())
    {
      pending := pending[id := Slot(origin, kind, payload, call, None)];
    }

    method SettleSlot(id: SlotId, approved: bool)
      modifies this
      ensures Value() == Settle(old(Value()), id, approved)
    {
      if id !in pending {
        return;
      }
      pending := map x | x in pending && x != id :: pending[x];
      outcomes := outcomes[id := approved];
    }

    method OnWindowRemoved(windowId: nat)
      requires Wellformed(Value())
      modifies this
      ensures Value() == CloseWindow(old(Value()), windowId) && Wellformed(Value())
    {
      ghost var was := Value();
      ghost var done: set<SlotId> := {};
      RejectNothing(was);
      var todo := pending.Keys;
      hide Settle, Reject;
      while todo != {}
        invariant todo <= was.pending.Keys && done == InWindow(was, windowId) - todo
        invariant Value() == Reject(was, done)
        decreases todo
      {
        var id :| id in todo;
        RejectOneMore(was, done, id);
        if pending[id].windowId == Some(windowId) {
          SettleSlot(id, false);
          done := done + {id};
        }
        todo := todo - {id};
      }
      assert done == InWindow(was, windowId);
      CloseWindowProgresses(was, windowId);
    }
  }
}
