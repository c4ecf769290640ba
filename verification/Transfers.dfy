/** What becomes of an approved transfer, and where transfers come from. */
module Transfers {
  import opened Options
  import opened Approvals
  import opened ProviderProtocol

  // ---- An approved transfer is submitted ---------------------------------------------------

  // The step takes an approved handler off its way: an error of its own, or an eviction once the
  // approval is in.
  predicate Drops(s: System, step: Step, id: CallId) {
    && id in s.phases
    && var p := s.phases[id];
       || (step == Fail(id) && (p.Fetching? || p.Submitting?))
       || (step == Evict && (p.Fetching? || p.Submitting?
                             || (p.Asking? && p.slot in s.book.outcomes && s.book.outcomes[p.slot])))
  }

  ghost predicate OwnSlot(s: System, id: CallId, slot: SlotId) {
    slot in s.slots && s.slots[slot].call == id
  }

  // No approval of this handler's is in or can still come.
  ghost predicate Hopeless(s: System, id: CallId) {
    forall slot | OwnSlot(s, id, slot) ::
      slot !in s.book.pending && !(slot in s.book.outcomes && s.book.outcomes[slot])
  }

  // How far a sign-and-send handler is, as long as nothing dropped it.
  ghost predicate OnItsWay(s: System, id: CallId) {
    && At(s, id) && s.calls[id].verb.SendCall?
    && match s.phases[id]
       case Checking => forall slot :: !OwnSlot(s, id, slot)
       case Checked(_) => forall slot :: !OwnSlot(s, id, slot)
       case Asking(own) => forall slot | OwnSlot(s, id, slot) :: slot == own
       case Fetching => true
       case Submitting => true
       case Over => id in s.submitted || Hopeless(s, id)
       case _ => false
  }

  ghost predicate Lost(s: System, id: CallId) {
    At(s, id) && s.phases[id].Over? && id !in s.submitted
  }

  lemma ArrivesClean(s: System, id: CallId, call: Call)
    requires Inv(s) && Enabled(s, Arrive(id, call)) && call.verb.SendCall?
    ensures OnItsWay(Apply(s, Arrive(id, call)), id)
  {
    hide HasApproval, Trusted, PhaseOk;
    forall slot | slot in s.slots ensures s.slots[slot].call in s.calls {
      assert SlotOk(RecordOf(s), slot);
    }
  }

  lemma OwnStepKeepsWay(s: System, step: Step, id: CallId)
    requires Inv(s) && OnItsWay(s, id) && Enabled(s, step) && !Drops(s, step, id)
    requires step.Read? || step.Continue? || step.Resume? || step.Write? || step.Fetch? || step.Submit? || step.Fail?
    requires step.id == id
    ensures OnItsWay(Apply(s, step), id)
  {
    hide HasApproval, Trusted, SlotOk, PhaseOk, AllTrusted, KindOf, PayloadOf;
    var s' := Apply(s, step);
    if step.Continue? {
      assert forall slot | OwnSlot(s', id, slot) :: slot == step.slot || OwnSlot(s, id, slot);
    } else {
      assert s'.slots == s.slots && s'.book == s.book;
      assert forall slot | OwnSlot(s', id, slot) :: OwnSlot(s, id, slot);
    }
  }

  // A step of another handler: it opens no prompt in this one's name.
  lemma OtherStepSees(s: System, step: Step, id: CallId)
    requires Enabled(s, step) && At(s, id)
    requires step.Read? || step.Continue? || step.Resume? || step.Write? || step.Fetch? || step.Submit? || step.Fail?
    requires step.id != id
    ensures var s' := Apply(s, step);
            && At(s', id) && s'.phases[id] == s.phases[id] && s'.calls[id] == s.calls[id]
            && s'.book.outcomes == s.book.outcomes && (id in s'.submitted <==> id in s.submitted)
            && forall slot | OwnSlot(s', id, slot) ::
                 OwnSlot(s, id, slot) && (slot in s'.book.pending ==> slot in s.book.pending)
  {
    hide Asks, Remove, KindOf, PayloadOf;
  }

  lemma OtherStepKeepsWay(s: System, step: Step, id: CallId)
    requires Inv(s) && OnItsWay(s, id) && Enabled(s, step)
    requires step.Read? || step.Continue? || step.Resume? || step.Write? || step.Fetch? || step.Submit? || step.Fail?
    requires step.id != id
    ensures OnItsWay(Apply(s, step), id)
  {
    hide Inv, OwnSlot, Apply, Enabled;
    OtherStepSees(s, step, id);
  }

  lemma OutsideKeepsWay(s: System, step: Step, id: CallId)
    requires Inv(s) && OnItsWay(s, id) && Enabled(s, step) && !Drops(s, step, id)
    requires step.Arrive? || step.ShowWindow? || step.Decide? || step.WindowClosed? || step.SetLock? || step.Evict?
    ensures OnItsWay(Apply(s, step), id)
  {
    hide HasApproval, Trusted, SlotOk, PhaseOk, AllTrusted;
    var s' := Apply(s, step);
    assert s'.slots == s.slots && s'.calls[id] == s.calls[id];
    assert forall slot :: OwnSlot(s', id, slot) <==> OwnSlot(s, id, slot);
    if Hopeless(s, id) { HopelessStays(s, step, id); }
  }

  lemma HopelessStays(s: System, step: Step, id: CallId)
    requires Hopeless(s, id) && Enabled(s, step)
    requires step.Arrive? || step.ShowWindow? || step.Decide? || step.WindowClosed? || step.SetLock? || step.Evict?
    ensures Hopeless(Apply(s, step), id)
  {
    var s' := Apply(s, step);
    forall slot | OwnSlot(s', id, slot)
      ensures slot !in s'.book.pending && !(slot in s'.book.outcomes && s'.book.outcomes[slot])
    {
      assert OwnSlot(s, id, slot);
    }
  }

  lemma StepKeepsWay(s: System, step: Step, id: CallId)
    requires Inv(s) && OnItsWay(s, id) && Enabled(s, step) && !Drops(s, step, id)
    ensures OnItsWay(Apply(s, step), id)
  {
    hide Inv, OnItsWay, Enabled, Apply, Drops;
    if step.Arrive? || step.ShowWindow? || step.Decide? || step.WindowClosed? || step.SetLock? || step.Evict? {
      OutsideKeepsWay(s, step, id);
    } else if step.id == id {
      OwnStepKeepsWay(s, step, id);
    } else {
      OtherStepKeepsWay(s, step, id);
    }
  }

  lemma DropLoses(s: System, step: Step, id: CallId)
    requires Inv(s) && At(s, id) && Enabled(s, step) && Drops(s, step, id)
    ensures Lost(Apply(s, step), id)
  {
    hide HasApproval, Trusted, SlotOk, PhaseOk, AllTrusted;
  }

  lemma StaysLost(s: System, step: Step, id: CallId)
    requires Lost(s, id) && Enabled(s, step)
    ensures Lost(Apply(s, step), id)
  {
    hide Settle, CloseWindow, Asks, Remove, KindOf, PayloadOf;
  }

  predicate NeverDropped(s: System, steps: seq<Step>, id: CallId)
    requires CanRun(s, steps)
    decreases |steps|
  {
    steps != [] ==> !Drops(s, steps[0], id) && NeverDropped(Apply(s, steps[0]), steps[1..], id)
  }

  lemma {:induction false} LostForGood(s: System, steps: seq<Step>, id: CallId)
    requires Lost(s, id) && CanRun(s, steps)
    ensures Lost(Run(s, steps), id)
    decreases |steps|
  {
    hide Lost, Enabled, Apply;
    if steps != [] {
      StaysLost(s, steps[0], id);
      LostForGood(Apply(s, steps[0]), steps[1..], id);
    }
  }

  // Not made yet, or no sign-and-send call, or on its way.
  ghost predicate Sound(s: System, id: CallId) {
    (id !in s.calls && id !in s.phases) || (id in s.calls && !s.calls[id].verb.SendCall?) || OnItsWay(s, id)
  }

  lemma StepKeepsSound(s: System, step: Step, id: CallId)
    requires Inv(s) && Sound(s, id) && Enabled(s, step) && !Drops(s, step, id)
    ensures Sound(Apply(s, step), id)
  {
    if id in s.calls && s.calls[id].verb.SendCall? {
      StepKeepsWay(s, step, id);
    } else if step.Arrive? && step.id == id {
      hide Inv;
      if step.call.verb.SendCall? { ArrivesClean(s, id, step.call); }
    } else {
      hide Inv, OnItsWay;
      CallStands(s, step, id);
    }
  }

  lemma CallStands(s: System, step: Step, id: CallId)
    requires Enabled(s, step) && !(step.Arrive? && step.id == id)
    ensures id in s.calls ==> id in Apply(s, step).calls && Apply(s, step).calls[id] == s.calls[id]
    ensures id !in s.calls && id !in s.phases ==> id !in Apply(s, step).calls && id !in Apply(s, step).phases
  {
    hide Settle, CloseWindow, Asks, Remove, KindOf, PayloadOf;
  }

  lemma {:induction false} RunKeepsWay(s: System, steps: seq<Step>, id: CallId)
    requires Inv(s) && Sound(s, id) && CanRun(s, steps)
    ensures if NeverDropped(s, steps, id) then Sound(Run(s, steps), id)
            else Lost(Run(s, steps), id) || (id in Run(s, steps).calls && !Run(s, steps).calls[id].verb.SendCall?)
    decreases |steps|
  {
    hide Inv, Sound, Enabled, Apply, Drops, Lost;
    if steps != [] {
      var s1 := Apply(s, steps[0]);
      StepKeepsInv(s, steps[0]);
      if Drops(s, steps[0], id) {
        DroppedIsMade(s, steps[0], id);
        DropLoses(s, steps[0], id);
        LostForGood(s1, steps[1..], id);
      } else {
        StepKeepsSound(s, steps[0], id);
        RunKeepsWay(s1, steps[1..], id);
      }
    }
  }

  lemma DroppedIsMade(s: System, step: Step, id: CallId)
    requires Inv(s) && Drops(s, step, id)
    ensures At(s, id)
  {
  }

  /**
   * Over any run from a fresh state: an approved sign-and-send call whose handler is over has been
   * submitted if and only if no step dropped the handler, by an error of its own or an eviction
   * after the approval.
   */
  lemma ApprovedIsSubmittedExactly(s: System, steps: seq<Step>, id: CallId)
    requires Fresh(s) && CanRun(s, steps)
    requires var s' := Run(s, steps); At(s', id) && s'.calls[id].verb.SendCall? && s'.phases[id].Over?
    requires HasApproval(RecordOf(Run(s, steps)), id)
    ensures id in Run(s, steps).submitted <==> NeverDropped(s, steps, id)
  {
    FreshIsInv(s);
    assert Sound(s, id);
    RunKeepsWay(s, steps, id);
    var s' := Run(s, steps);
    var slot :| Approved(RecordOf(s'), slot) && s'.slots[slot].call == id;
    assert OwnSlot(s', id, slot);
  }

  // ---- Such runs exist ---------------------------------------------------------------------

  function SendCallOf(origin: string, to: string, amount: string): Call {
    Call(SendCall, origin, to, Some(amount))
  }

  function Sending(id: CallId, slot: SlotId, call: Call, rest: seq<Step>): seq<Step> {
    [Arrive(id, call)] + ([Read(id)] + ([Continue(id, slot)] + rest))
  }

  function Confirming(id: CallId, slot: SlotId, rest: seq<Step>): seq<Step> {
    [Decide(slot, true)] + ([Resume(id)] + ([Fetch(id)] + ([Submit(id)] + rest)))
  }

  // The state with the prompt of a transfer open.
  function AskingToSend(s: System, id: CallId, slot: SlotId, origin: string, to: string, amount: string): System {
    var request := Slot(origin, SignAndSend, Payload(to, amount), id, None);
    s.(calls := s.calls[id := SendCallOf(origin, to, amount)], phases := s.phases[id := Asking(slot)],
       slots := s.slots[slot := request], book := s.book.(pending := s.book.pending[slot := request]))
  }

  function Sent(s: System, id: CallId, slot: SlotId, origin: string, to: string, amount: string): System {
    s.(calls := s.calls[id := SendCallOf(origin, to, amount)], phases := s.phases[id := Over],
       slots := s.slots[slot := Slot(origin, SignAndSend, Payload(to, amount), id, None)],
       book := s.book.(outcomes := s.book.outcomes[slot := true]), submitted := s.submitted + {id})
  }

  lemma SendingAsks(
      s: System, id: CallId, slot: SlotId, origin: string, to: string, amount: string, rest: seq<Step>)
    requires id !in s.calls && id !in s.phases && slot !in s.slots
    requires origin in s.connections && s.unlocked && to != ""
    requires CanRun(AskingToSend(s, id, slot, origin, to, amount), rest)
    ensures var steps := Sending(id, slot, SendCallOf(origin, to, amount), rest);
            CanRun(s, steps) && Run(s, steps) == Run(AskingToSend(s, id, slot, origin, to, amount), rest)
  {
    hide CanRun, Run;
    var arrive := Arrive(id, SendCallOf(origin, to, amount));
    var s1 := Apply(s, arrive);
    var s2 := Apply(s1, Read(id));
    assert s2 == SetPhase(s1, id, Checked(true));
    assert Apply(s2, Continue(id, slot)) == AskingToSend(s, id, slot, origin, to, amount);
    RunCons(s2, Continue(id, slot), rest);
    RunCons(s1, Read(id), [Continue(id, slot)] + rest);
    RunCons(s, arrive, [Read(id)] + ([Continue(id, slot)] + rest));
  }

  // An approved handler left alone fetches and submits.
  lemma ApprovedGoesOn(s: System, id: CallId, rest: seq<Step>)
    requires At(s, id) && s.calls[id].verb.SendCall? && s.phases[id].Asking?
    requires s.phases[id].slot in s.book.outcomes && s.book.outcomes[s.phases[id].slot]
    requires CanRun(SetPhase(s, id, Over).(submitted := s.submitted + {id}), rest)
    ensures var steps := [Resume(id)] + ([Fetch(id)] + ([Submit(id)] + rest));
            CanRun(s, steps) && Run(s, steps) == Run(SetPhase(s, id, Over).(submitted := s.submitted + {id}), rest)
  {
    hide CanRun, Run;
    var s1 := Apply(s, Resume(id));
    var s2 := Apply(s1, Fetch(id));
    assert Apply(s2, Submit(id)) == SetPhase(s, id, Over).(submitted := s.submitted + {id});
    RunCons(s2, Submit(id), rest);
    RunCons(s1, Fetch(id), [Submit(id)] + rest);
    RunCons(s, Resume(id), [Fetch(id)] + ([Submit(id)] + rest));
  }

  lemma ConfirmingSubmits(
      s: System, id: CallId, slot: SlotId, origin: string, to: string, amount: string, rest: seq<Step>)
    requires slot !in s.book.pending && CanRun(Sent(s, id, slot, origin, to, amount), rest)
    ensures var t := AskingToSend(s, id, slot, origin, to, amount);
            && CanRun(t, Confirming(id, slot, rest))
            && Run(t, Confirming(id, slot, rest)) == Run(Sent(s, id, slot, origin, to, amount), rest)
  {
    hide CanRun, Run;
    var t := AskingToSend(s, id, slot, origin, to, amount);
    var t1 := t.(book := Book(s.book.pending, s.book.outcomes[slot := true]));
    SettlesWhatOpened(s.book, slot, t.book.pending[slot]);
    hide Settle;
    assert Enabled(t, Decide(slot, true)) && Apply(t, Decide(slot, true)) == t1;
    assert SetPhase(t1, id, Over).(submitted := t1.submitted + {id}) == Sent(s, id, slot, origin, to, amount);
    hide Enabled, Apply, Sent;
    ApprovedGoesOn(t1, id, rest);
    RunCons(t, Decide(slot, true), [Resume(id)] + ([Fetch(id)] + ([Submit(id)] + rest)));
  }

  lemma SendWorks(s: System, id: CallId, slot: SlotId, origin: string, to: string, amount: string)
      returns (steps: seq<Step>)
    requires id !in s.calls && id !in s.phases && slot !in s.slots && slot !in s.book.pending
    requires origin in s.connections && s.unlocked && to != ""
    ensures CanRun(s, steps) && Run(s, steps) == Sent(s, id, slot, origin, to, amount)
  {
    hide CanRun, Run, Sent, AskingToSend;
    RunEmpty(Sent(s, id, slot, origin, to, amount));
    ConfirmingSubmits(s, id, slot, origin, to, amount, []);
    SendingAsks(s, id, slot, origin, to, amount, Confirming(id, slot, []));
    steps := Sending(id, slot, SendCallOf(origin, to, amount), Confirming(id, slot, []));
  }

  function Listed(s: System, id: CallId): System
    requires id in s.calls
  {
    SetPhase(s, id, Over).(connections := s.connections + [s.calls[id].origin], unlocked := true)
  }

  lemma AddingLists(s: System, id: CallId, rest: seq<Step>)
    requires At(s, id) && s.phases[id].Adding? && s.calls[id].origin !in s.connections
    requires CanRun(Listed(s, id), rest)
    ensures var steps := [Read(id)] + ([Write(id)] + ([SetLock(true)] + rest));
            CanRun(s, steps) && Run(s, steps) == Run(Listed(s, id), rest)
  {
    hide CanRun, Run;
    var s1 := Apply(s, Read(id));
    var s2 := Apply(s1, Write(id));
    assert Apply(s2, SetLock(true)) == Listed(s, id);
    RunCons(s2, SetLock(true), rest);
    RunCons(s1, Write(id), [SetLock(true)] + rest);
    RunCons(s, Read(id), [Write(id)] + ([SetLock(true)] + rest));
  }

  /**
   * From every fresh state, for any site and any transfer with a recipient, a run exists in which
   * the site is connected if it was not, and the transfer is approved and submitted.
   */
  lemma TransferIsReached(s: System, origin: string, to: string, amount: string) returns (steps: seq<Step>, id: CallId)
    requires Fresh(s) && to != ""
    ensures CanRun(s, steps)
    ensures var s' := Run(s, steps);
            && s'.submitted == {id} && id in s'.calls && s'.calls[id] == SendCallOf(origin, to, amount)
            && origin in s'.connections && HasApproval(RecordOf(s'), id)
  {
    if origin in s.connections {
      id := 0;
      var open := s.(unlocked := true);
      var rest := SendWorks(open, 0, 0, origin, to, amount);
      assert Apply(s, SetLock(true)) == open;
      RunCons(s, SetLock(true), rest);
      steps := [SetLock(true)] + rest;
      assert Approved(RecordOf(Sent(open, 0, 0, origin, to, amount)), 0);
    } else {
      id := 1;
      var s1 := Approving(s, 0, 0, origin);
      var s2 := Listed(s1, 0);
      var rest := SendWorks(s2, 1, 1, origin, to, amount);
      var more := [Read(0)] + ([Write(0)] + ([SetLock(true)] + rest));
      hide CanRun, Run;
      AddingLists(s1, 0, rest);
      ConnectingApproves(s, 0, 0, origin, more);
      steps := Connecting(0, 0, origin) + more;
      assert Approved(RecordOf(Sent(s2, 1, 1, origin, to, amount)), 1);
    }
  }

  // ---- Where transfers come from -----------------------------------------------------------

  // A handler that found its site connected had reason to, and a prompt to send comes only from there.
  ghost predicate SendsAreTrusted(s: System) {
    && (forall id | At(s, id) && s.phases[id] == Checked(true) :: Trusted(RecordOf(s), s.calls[id].origin))
    && (forall slot | slot in s.slots && s.slots[slot].kind.SignAndSend? ::
          Trusted(RecordOf(s), s.slots[slot].origin) && s.slots[slot].payload.to != "")
  }

  lemma OneIsTrusted(r: Record, r': Record, origin: string)
    requires Extends(r, r') && Trusted(r, origin)
    ensures Trusted(r', origin)
  {
    assert AllTrusted(r, [origin]);
    TrustPersists(r, r', [origin]);
    assert origin in [origin];
  }

  lemma ContinueMeans(s: System, id: CallId, slot: SlotId)
    requires Enabled(s, Continue(id, slot))
    ensures var s', c := Apply(s, Continue(id, slot)), s.calls[id];
            var found := s.phases[id].connected;
            && (slot in s'.slots <==>
                  || (c.verb == ConnectCall && !found)
                  || (c.verb == SendCall && found && s.unlocked && c.to != "" && c.amount != None))
            && (slot in s'.slots && c.verb == SendCall && c.amount.Some? ==>
                  s'.slots[slot] == Slot(c.origin, SignAndSend, Payload(c.to, c.amount.value), id, None))
            && (slot in s'.slots && c.verb == ConnectCall ==>
                  s'.slots[slot] == Slot(c.origin, Connect, Payload("", ""), id, None))
            && (forall x | x in s'.slots && x != slot :: x in s.slots && s'.slots[x] == s.slots[x])
  {
  }

  lemma StepKeepsSendsTrusted(s: System, step: Step)
    requires Inv(s) && SendsAreTrusted(s) && Enabled(s, step)
    ensures SendsAreTrusted(Apply(s, step))
  {
    StepKeepsInv(s, step);
    var s' := Apply(s, step);
    forall slot | slot in s'.slots && s'.slots[slot].kind.SignAndSend?
      ensures Trusted(RecordOf(s'), s'.slots[slot].origin) && s'.slots[slot].payload.to != ""
    {
      NewSlotIsTrusted(s, step, slot);
    }
    forall id | At(s', id) && s'.phases[id] == Checked(true) ensures Trusted(RecordOf(s'), s'.calls[id].origin) {
      NewFindIsTrusted(s, step, id);
    }
  }

  lemma NewSlotIsTrusted(s: System, step: Step, slot: SlotId)
    requires Inv(s) && SendsAreTrusted(s) && Enabled(s, step) && Extends(RecordOf(s), RecordOf(Apply(s, step)))
    requires slot in Apply(s, step).slots && Apply(s, step).slots[slot].kind.SignAndSend?
    ensures var request := Apply(s, step).slots[slot];
            Trusted(RecordOf(Apply(s, step)), request.origin) && request.payload.to != ""
  {
    hide Inv, Extends, Trusted;
    if step.Continue? && step.slot == slot {
      ContinueMeans(s, step.id, slot);
      OneIsTrusted(RecordOf(s), RecordOf(Apply(s, step)), s.calls[step.id].origin);
    } else {
      SlotStands(s, step, slot);
      OneIsTrusted(RecordOf(s), RecordOf(Apply(s, step)), s.slots[slot].origin);
    }
  }

  lemma SlotStands(s: System, step: Step, slot: SlotId)
    requires Enabled(s, step) && slot in Apply(s, step).slots && !(step.Continue? && step.slot == slot)
    ensures slot in s.slots && Apply(s, step).slots[slot] == s.slots[slot]
  {
    hide Settle, CloseWindow, Asks, Remove, KindOf, PayloadOf;
  }

  lemma NewFindIsTrusted(s: System, step: Step, id: CallId)
    requires Inv(s) && SendsAreTrusted(s) && Enabled(s, step) && Extends(RecordOf(s), RecordOf(Apply(s, step)))
    requires At(Apply(s, step), id) && Apply(s, step).phases[id] == Checked(true)
    ensures Trusted(RecordOf(Apply(s, step)), Apply(s, step).calls[id].origin)
  {
    hide Trusted, RecordOk, HandlersOk, SubmittedOk, BookOk;
    FindStands(s, step, id);
    if step == Read(id) {
      assert s.calls[id].origin in s.connections;
    }
    hide Extends, Inv;
    OneIsTrusted(RecordOf(s), RecordOf(Apply(s, step)), s.calls[id].origin);
  }

  lemma FindStands(s: System, step: Step, id: CallId)
    requires Enabled(s, step) && At(Apply(s, step), id) && Apply(s, step).phases[id] == Checked(true)
    ensures At(s, id) && Apply(s, step).calls[id] == s.calls[id]
    ensures if step == Read(id) then s.calls[id].origin in s.connections else s.phases[id] == Checked(true)
  {
    hide Settle, CloseWindow, Asks, Remove, KindOf, PayloadOf;
  }

  lemma {:induction false} RunKeepsSendsTrusted(s: System, steps: seq<Step>)
    requires Inv(s) && SendsAreTrusted(s) && CanRun(s, steps)
    ensures SendsAreTrusted(Run(s, steps))
    decreases |steps|
  {
    hide Inv, SendsAreTrusted, Enabled, Apply;
    if steps != [] {
      StepKeepsInv(s, steps[0]);
      StepKeepsSendsTrusted(s, steps[0]);
      RunKeepsSendsTrusted(Apply(s, steps[0]), steps[1..]);
    }
  }

  /** Every submitted transfer has a recipient and comes from a site connected before or by an approval. */
  lemma SubmittedWereTrusted(s: System, steps: seq<Step>, id: CallId)
    requires Fresh(s) && CanRun(s, steps) && id in Run(s, steps).submitted
    ensures var s' := Run(s, steps);
            id in s'.calls && s'.calls[id].to != "" && Trusted(RecordOf(s'), s'.calls[id].origin)
  {
    FreshIsInv(s);
    RunKeepsInv(s, steps);
    RunKeepsSendsTrusted(s, steps);
    var s' := Run(s, steps);
    var slot :| Approved(RecordOf(s'), slot) && s'.slots[slot].call == id;
    assert SlotOk(RecordOf(s'), slot);
  }

  /** Windows may show and close, the worker be evicted and a handler past its approval fail at any time. */
  lemma TroubleIsAlwaysPossible(s: System, id: CallId, slot: SlotId, windowId: nat)
    ensures Enabled(s, WindowClosed(windowId)) && Enabled(s, Evict)
    ensures slot in s.book.pending ==> Enabled(s, ShowWindow(slot, windowId))
    ensures id in s.calls && id in s.phases && (s.phases[id] == Fetching || s.phases[id] == Submitting) ==>
              Enabled(s, Fail(id))
  {
  }

  // ---- Disconnecting -----------------------------------------------------------------------

  lemma {:induction false} StateAtKeepsInv(s: System, steps: seq<Step>, k: nat)
    requires Inv(s) && CanRun(s, steps) && k <= |steps|
    ensures Inv(StateAt(s, steps, k))
    decreases k
  {
    hide Inv, Enabled, Apply;
    if k > 0 {
      StepKeepsInv(s, steps[0]);
      StateAtKeepsInv(Apply(s, steps[0]), steps[1..], k - 1);
    }
  }

  lemma DisconnectReads(t: System, id: CallId)
    requires Inv(t) && Enabled(t, Read(id)) && t.calls[id].verb.DisconnectCall?
    ensures Apply(t, Read(id)).phases[id] == Writing(Remove(t.connections, t.calls[id].origin))
    ensures PastRead(Apply(t, Read(id)), id)
  {
    hide HasApproval, AllTrusted, SlotOk;
    assert PhaseOk(RecordOf(t), id, t.phases[id]);
  }

  lemma DisconnectWrites(t: System, u: System, id: CallId)
    requires Inv(t) && Enabled(t, Read(id)) && t.calls[id].verb.DisconnectCall? && Enabled(u, Write(id))
    requires u.phases[id] == Apply(t, Read(id)).phases[id]
    ensures var list := Apply(u, Write(id)).connections;
            && t.calls[id].origin !in list
            && forall o :: o in list <==> o in t.connections && o != t.calls[id].origin
  {
    hide Inv;
    DisconnectReads(t, id);
  }

  lemma CanWrite(u: System, id: CallId)
    requires Enabled(u, Write(id))
    ensures At(u, id) && u.phases[id].Writing?
  {
  }

  /** A disconnect's write leaves its site unlisted, and of the sites it read every other. */
  lemma DisconnectUnlists(s: System, steps: seq<Step>, id: CallId, r: nat, w: nat)
    requires Inv(s) && CanRun(s, steps) && r < w < |steps| && steps[r] == Read(id) && steps[w] == Write(id)
    requires var t := StateAt(s, steps, r); At(t, id) && t.calls[id].verb.DisconnectCall?
    ensures var t, list := StateAt(s, steps, r), StateAt(s, steps, w + 1).connections;
            && t.calls[id].origin !in list
            && forall o :: o in list <==> o in t.connections && o != t.calls[id].origin
  {
    hide Enabled, Apply, CanRun, StateAt, Inv, PastRead;
    var t, u := StateAt(s, steps, r), StateAt(s, steps, w);
    StateAtKeepsInv(s, steps, r);
    StateAtSteps(s, steps, r);
    StateAtSteps(s, steps, w);
    DisconnectReads(t, id);
    WriterStands(s, steps, id, r + 1, w);
    CanWrite(u, id);
    DisconnectWrites(t, u, id);
  }

  // ---- Locking -----------------------------------------------------------------------------

  lemma LockedOpensNone(s: System, step: Step, slot: SlotId)
    requires !s.unlocked && Enabled(s, step) && step != SetLock(true)
    requires slot in Apply(s, step).slots && Apply(s, step).slots[slot].kind.SignAndSend?
    ensures slot in s.slots && !Apply(s, step).unlocked
  {
    hide Settle, CloseWindow, Remove;
    if step.Continue? && step.slot == slot {
      ContinueMeans(s, step.id, slot);
    } else {
      SlotStands(s, step, slot);
    }
  }

  lemma StaysLocked(s: System, step: Step)
    requires !s.unlocked && Enabled(s, step) && step != SetLock(true)
    ensures !Apply(s, step).unlocked
  {
    hide Settle, CloseWindow, Asks, Remove, KindOf, PayloadOf;
  }

  /** While the wallet is locked, and it is after an eviction, no prompt for a transfer opens. */
  lemma {:induction false} NoPromptWhileLocked(s: System, steps: seq<Step>, slot: SlotId)
    requires CanRun(s, steps) && !s.unlocked && forall k | 0 <= k < |steps| :: steps[k] != SetLock(true)
    requires slot in Run(s, steps).slots && Run(s, steps).slots[slot].kind.SignAndSend?
    ensures slot in s.slots
    decreases |steps|
  {
    hide Enabled, Apply;
    if steps != [] {
      StaysLocked(s, steps[0]);
      NoPromptWhileLocked(Apply(s, steps[0]), steps[1..], slot);
      SlotPersistsBack(s, steps, slot);
      LockedOpensNone(s, steps[0], slot);
    }
  }

  lemma SlotPersistsBack(s: System, steps: seq<Step>, slot: SlotId)
    requires CanRun(s, steps) && steps != [] && slot in Apply(s, steps[0]).slots
    requires slot in Run(s, steps).slots && Run(s, steps).slots[slot].kind.SignAndSend?
    ensures Apply(s, steps[0]).slots[slot].kind.SignAndSend?
  {
    SlotsStay(Apply(s, steps[0]), steps[1..], slot);
  }

  lemma {:induction false} SlotsStay(s: System, steps: seq<Step>, slot: SlotId)
    requires CanRun(s, steps) && slot in s.slots
    ensures slot in Run(s, steps).slots && Run(s, steps).slots[slot] == s.slots[slot]
    decreases |steps|
  {
    hide Enabled, Apply;
    if steps != [] {
      SlotStays(s, steps[0], slot);
      SlotsStay(Apply(s, steps[0]), steps[1..], slot);
    }
  }

  lemma SlotStays(s: System, step: Step, slot: SlotId)
    requires Enabled(s, step) && slot in s.slots
    ensures slot in Apply(s, step).slots && Apply(s, step).slots[slot] == s.slots[slot]
  {
    hide Settle, CloseWindow, Asks, Remove, KindOf, PayloadOf;
  }

  /** An eviction ends every handler and prompt, and locks the wallet; what was settled or listed stays. */
  lemma EvictionEndsAll(s: System)
    ensures var s' := Apply(s, Evict);
            && (forall id | id in s.phases :: id in s'.phases && s'.phases[id] == Over)
            && s'.book.pending == map[] && s'.book.outcomes == s.book.outcomes && !s'.unlocked
            && s'.connections == s.connections && s'.submitted == s.submitted
  {
  }
}
