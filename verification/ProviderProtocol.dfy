/**
 * The extension's provider handlers, interleaved at their awaits: connect, sign-and-send and
 * disconnect calls of any number of sites, decisions, closed windows, and evictions of the worker.
 */
module ProviderProtocol {
  import opened Options
  import opened Approvals

  datatype Verb = ConnectCall | SendCall | DisconnectCall

  datatype Call = Call(verb: Verb, origin: string, to: string, amount: Option<string>)

  // Where a handler is suspended.
  datatype Phase =
    | Checking
    | Checked(connected: bool)
    | Asking(slot: SlotId)
    | Adding
    | Writing(list: seq<string>)
    | Fetching
    | Submitting
    | Over

  // `slots` remembers every slot ever opened; `trusted` are the origins connected before.
  datatype System = System(
    calls: map<CallId, Call>, phases: map<CallId, Phase>, slots: map<SlotId, Slot>, book: Book,
    connections: seq<string>, unlocked: bool, submitted: set<CallId>, trusted: set<string>)

  datatype Step =
    | Arrive(id: CallId, call: Call)
    | Read(id: CallId)
    | Continue(id: CallId, slot: SlotId)
    | ShowWindow(slot: SlotId, windowId: nat)
    | Decide(slot: SlotId, approved: bool)
    | WindowClosed(windowId: nat)
    | Resume(id: CallId)
    | Write(id: CallId)
    | Fetch(id: CallId)
    | Submit(id: CallId)
    | Fail(id: CallId)
    | SetLock(unlocked: bool)
    | Evict

  function SetPhase(s: System, id: CallId, p: Phase): System {
    s.(phases := s.phases[id := p])
  }

  function PayloadOf(c: Call): Payload {
    if c.verb.SendCall? && c.amount.Some? then Payload(c.to, c.amount.value) else Payload("", "")
  }

  function KindOf(c: Call): Kind {
    if c.verb.SendCall? then SignAndSend else Connect
  }

  // Whether a call that has looked itself up goes on to ask the user.
  predicate Asks(s: System, c: Call, connected: bool) {
    match c.verb
    case ConnectCall => !connected
    case SendCall => connected && s.unlocked && c.to != "" && c.amount.Some?
    case DisconnectCall => false
  }

  function Remove(list: seq<string>, origin: string): (r: seq<string>)
    ensures forall o :: o in r <==> o in list && o != origin
  {
    if list == [] then []
    else (if list[0] == origin then [] else [list[0]]) + Remove(list[1..], origin)
  }

  predicate At(s: System, id: CallId) {
    id in s.calls && id in s.phases
  }

  predicate Enabled(s: System, step: Step) {
    match step
    case Arrive(id, _) => id !in s.calls && id !in s.phases
    case Read(id) => At(s, id) && (s.phases[id].Checking? || s.phases[id].Adding?)
    case Continue(id, slot) => At(s, id) && s.phases[id].Checked? && slot !in s.slots
    case ShowWindow(slot, _) => slot in s.book.pending
    case Decide(_, _) => true
    case WindowClosed(_) => true
    case Resume(id) => At(s, id) && s.phases[id].Asking? && s.phases[id].slot in s.book.outcomes
    case Write(id) => At(s, id) && s.phases[id].Writing?
    case Fetch(id) => At(s, id) && s.phases[id].Fetching?
    case Submit(id) => At(s, id) && s.phases[id].Submitting?
    case Fail(id) => At(s, id) && (s.phases[id].Fetching? || s.phases[id].Submitting?)
    case SetLock(_) => true
    case Evict => true
  }

  function Apply(s: System, step: Step): System
    requires Enabled(s, step)
  {
    match step
    case Arrive(id, call) => SetPhase(s.(calls := s.calls[id := call]), id, Checking)
    case Read(id) =>
      var c := s.calls[id];
      if s.phases[id].Adding? then
        SetPhase(s, id, if c.origin in s.connections then Over else Writing(s.connections + [c.origin]))
      else if c.verb.DisconnectCall? then SetPhase(s, id, Writing(Remove(s.connections, c.origin)))
      else SetPhase(s, id, Checked(c.origin in s.connections))
    case Continue(id, slot) =>
      var c := s.calls[id];
      if Asks(s, c, s.phases[id].connected) then
        var request := Slot(c.origin, KindOf(c), PayloadOf(c), id, None);
        SetPhase(s.(slots := s.slots[slot := request], book := s.book.(pending := s.book.pending[slot := request])),
                 id, Asking(slot))
      else SetPhase(s, id, Over)
    case ShowWindow(slot, windowId) =>
      s.(book := s.book.(pending := s.book.pending[slot := s.book.pending[slot].(windowId := Some(windowId))]))
    case Decide(slot, approved) => s.(book := Settle(s.book, slot, approved))
    case WindowClosed(windowId) => s.(book := CloseWindow(s.book, windowId))
    case Resume(id) =>
      if !s.book.outcomes[s.phases[id].slot] then SetPhase(s, id, Over)
      else SetPhase(s, id, if s.calls[id].verb.SendCall? then Fetching else Adding)
    case Write(id) => SetPhase(s.(connections := s.phases[id].list), id, Over)
    case Fetch(id) => SetPhase(s, id, Submitting)
    case Submit(id) => SetPhase(s.(submitted := s.submitted + {id}), id, Over)
    case Fail(id) => SetPhase(s, id, Over)
    case SetLock(unlocked) => s.(unlocked := unlocked)
    case Evict => s.(phases := map id | id in s.phases :: Over, book := s.book.(pending := map[]), unlocked := false)
  }

  predicate CanRun(s: System, steps: seq<Step>)
    decreases |steps|
  {
    steps != [] ==> Enabled(s, steps[0]) && CanRun(Apply(s, steps[0]), steps[1..])
  }

  function Run(s: System, steps: seq<Step>): System
    requires CanRun(s, steps)
    decreases |steps|
  {
    if steps == [] then s else Run(Apply(s, steps[0]), steps[1..])
  }

  // ---- Approvals behind every effect -------------------------------------------------------

  // What only ever grows: calls made, slots opened, outcomes given.
  datatype Record = Record(
    calls: map<CallId, Call>, slots: map<SlotId, Slot>, outcomes: map<SlotId, bool>, trusted: set<string>)

  function RecordOf(s: System): Record {
    Record(s.calls, s.slots, s.book.outcomes, s.trusted)
  }

  predicate Approved(r: Record, slot: SlotId) {
    slot in r.slots && slot in r.outcomes && r.outcomes[slot]
  }

  // The user approved a slot of this call's own.
  ghost predicate HasApproval(r: Record, id: CallId) {
    exists slot :: Approved(r, slot) && r.slots[slot].call == id
  }

  ghost predicate Trusted(r: Record, origin: string) {
    origin in r.trusted
    || exists slot :: Approved(r, slot) && r.slots[slot].kind.Connect? && r.slots[slot].origin == origin
  }

  ghost predicate AllTrusted(r: Record, list: seq<string>) {
    forall origin | origin in list :: Trusted(r, origin)
  }

  ghost predicate SlotOk(r: Record, slot: SlotId)
    requires slot in r.slots
  {
    var request := r.slots[slot];
    && request.call in r.calls
    && var c := r.calls[request.call];
       !c.verb.DisconnectCall? && request.origin == c.origin && request.kind == KindOf(c)
       && request.payload == PayloadOf(c)
  }

  ghost predicate PhaseOk(r: Record, id: CallId, p: Phase)
    requires id in r.calls
  {
    match p
    case Checking => true
    case Checked(_) => !r.calls[id].verb.DisconnectCall?
    case Asking(slot) => slot in r.slots && r.slots[slot].call == id
    case Adding => r.calls[id].verb.ConnectCall? && HasApproval(r, id)
    case Writing(list) => AllTrusted(r, list)
    case Fetching => r.calls[id].verb.SendCall? && HasApproval(r, id)
    case Submitting => r.calls[id].verb.SendCall? && HasApproval(r, id)
    case Over => true
  }

  ghost predicate RecordOk(r: Record) {
    forall slot | slot in r.slots :: SlotOk(r, slot)
  }

  ghost predicate HandlersOk(s: System) {
    && s.phases.Keys == s.calls.Keys
    && forall id | id in s.calls :: PhaseOk(RecordOf(s), id, s.phases[id])
  }

  ghost predicate SubmittedOk(s: System) {
    forall id | id in s.submitted ::
      && id in s.calls && s.calls[id].verb.SendCall? && HasApproval(RecordOf(s), id)
      && id in s.phases && s.phases[id].Over?
  }

  ghost predicate BookOk(s: System) {
    && Wellformed(s.book)
    && s.book.pending.Keys <= s.slots.Keys && s.book.outcomes.Keys <= s.slots.Keys
  }

  ghost predicate Inv(s: System) {
    && RecordOk(RecordOf(s))
    && HandlersOk(s)
    && SubmittedOk(s)
    && BookOk(s)
    && AllTrusted(RecordOf(s), s.connections)
  }

  ghost predicate Fresh(s: System) {
    && s.calls == map[] && s.phases == map[] && s.slots == map[] && s.submitted == {}
    && s.book == Book(map[], map[]) && forall origin | origin in s.connections :: origin in s.trusted
  }

  lemma FreshIsInv(s: System)
    requires Fresh(s)
    ensures Inv(s)
  {
  }

  ghost predicate Extends(r: Record, r': Record) {
    && (forall slot | slot in r.slots :: slot in r'.slots && r'.slots[slot] == r.slots[slot])
    && (forall slot | slot in r.outcomes :: slot in r'.outcomes && r'.outcomes[slot] == r.outcomes[slot])
    && (forall id | id in r.calls :: id in r'.calls && r'.calls[id] == r.calls[id])
    && r'.trusted == r.trusted
  }

  lemma ApprovalPersists(r: Record, r': Record, id: CallId)
    requires Extends(r, r') && HasApproval(r, id)
    ensures HasApproval(r', id)
  {
    var slot :| Approved(r, slot) && r.slots[slot].call == id;
    assert Approved(r', slot);
  }

  lemma TrustPersists(r: Record, r': Record, list: seq<string>)
    requires Extends(r, r') && AllTrusted(r, list)
    ensures AllTrusted(r', list)
  {
    forall origin | origin in list ensures Trusted(r', origin) {
      assert Trusted(r, origin);
      if origin !in r.trusted {
        var slot :| Approved(r, slot) && r.slots[slot].kind.Connect? && r.slots[slot].origin == origin;
        assert Approved(r', slot);
      }
    }
  }

  lemma PhasePersists(r: Record, r': Record, id: CallId, p: Phase)
    requires Extends(r, r') && id in r.calls && PhaseOk(r, id, p)
    ensures PhaseOk(r', id, p)
  {
    match p
    case Adding => ApprovalPersists(r, r', id);
    case Fetching => ApprovalPersists(r, r', id);
    case Submitting => ApprovalPersists(r, r', id);
    case Writing(list) => TrustPersists(r, r', list);
    case _ =>
  }

  /** A handler that is not over may go on to any phase its approvals allow. */
  lemma HandlerMoves(s: System, id: CallId, p: Phase)
    requires Inv(s) && At(s, id) && !s.phases[id].Over? && PhaseOk(RecordOf(s), id, p)
    ensures Inv(SetPhase(s, id, p)) && RecordOf(SetPhase(s, id, p)) == RecordOf(s)
  {
    hide PhaseOk, HasApproval, AllTrusted, SlotOk;
    var s' := SetPhase(s, id, p);
    assert RecordOf(s') == RecordOf(s);
  }

  /** A record that only grows keeps everything else as it was. */
  lemma RecordGrows(s: System, s': System)
    requires Inv(s) && Extends(RecordOf(s), RecordOf(s')) && RecordOk(RecordOf(s')) && BookOk(s')
    requires s'.phases.Keys == s'.calls.Keys && s'.connections == s.connections && s'.submitted == s.submitted
    requires forall id | id in s.phases :: id in s'.phases && (s'.phases[id] == s.phases[id] || s'.phases[id].Over?)
    requires forall id | id in s'.phases && id !in s.phases :: s'.phases[id].Checking?
    ensures Inv(s')
  {
    hide SlotOk, Trusted, HasApproval, PhaseOk;
    var r, r' := RecordOf(s), RecordOf(s');
    TrustPersists(r, r', s.connections);
    forall id | id in s'.calls ensures PhaseOk(r', id, s'.phases[id]) {
      FreePhases(r', id);
      if id in s.calls && s'.phases[id] == s.phases[id] {
        PhasePersists(r, r', id, s.phases[id]);
      }
    }
    forall id | id in s.submitted ensures HasApproval(r', id) {
      ApprovalPersists(r, r', id);
    }
  }

  lemma FreePhases(r: Record, id: CallId)
    requires id in r.calls
    ensures PhaseOk(r, id, Checking) && PhaseOk(r, id, Over)
  {
  }

  lemma ConnectIsTrusted(r: Record, id: CallId, list: seq<string>)
    requires RecordOk(r) && id in r.calls && r.calls[id].verb.ConnectCall? && HasApproval(r, id) && AllTrusted(r, list)
    ensures AllTrusted(r, list + [r.calls[id].origin])
  {
    var slot :| Approved(r, slot) && r.slots[slot].call == id;
    assert SlotOk(r, slot);
    assert Trusted(r, r.calls[id].origin);
  }

  lemma ReadKeepsInv(s: System, id: CallId)
    requires Inv(s) && Enabled(s, Read(id))
    ensures Inv(Apply(s, Read(id))) && Extends(RecordOf(s), RecordOf(Apply(s, Read(id))))
  {
    hide HasApproval, Trusted, SlotOk;
    var r, c := RecordOf(s), s.calls[id];
    assert PhaseOk(r, id, s.phases[id]);
    if s.phases[id].Adding? {
      ConnectIsTrusted(r, id, s.connections);
    }
    HandlerMoves(s, id, Apply(s, Read(id)).phases[id]);
  }

  lemma SlotOpens(s: System, slot: SlotId, request: Slot)
    requires Inv(s) && slot !in s.slots && SlotOk(RecordOf(s.(slots := s.slots[slot := request])), slot)
    ensures var book := s.book.(pending := s.book.pending[slot := request]);
            var s' := s.(slots := s.slots[slot := request], book := book);
            Inv(s') && Extends(RecordOf(s), RecordOf(s'))
  {
    hide HasApproval, AllTrusted, PhaseOk, SlotOk;
    var s' := s.(slots := s.slots[slot := request], book := s.book.(pending := s.book.pending[slot := request]));
    SlotsStand(RecordOf(s), RecordOf(s'), {slot});
    RecordGrows(s, s');
  }

  // Slots keep what is right about them while calls are only added.
  lemma SlotsStand(r: Record, r': Record, added: set<SlotId>)
    requires RecordOk(r) && forall id | id in r.calls :: id in r'.calls && r'.calls[id] == r.calls[id]
    requires r'.slots.Keys == r.slots.Keys + added
    requires forall slot | slot in r'.slots ::
               if slot in added then SlotOk(r', slot) else r'.slots[slot] == r.slots[slot]
    ensures RecordOk(r')
  {
    hide KindOf, PayloadOf;
    forall slot | slot in r'.slots ensures SlotOk(r', slot) {
      if slot !in added { assert SlotOk(r, slot); }
    }
  }

  lemma ContinueKeepsInv(s: System, id: CallId, slot: SlotId)
    requires Inv(s) && Enabled(s, Continue(id, slot))
    ensures Inv(Apply(s, Continue(id, slot))) && Extends(RecordOf(s), RecordOf(Apply(s, Continue(id, slot))))
  {
    hide HasApproval, Trusted, AllTrusted, RecordOk;
    var c := s.calls[id];
    assert PhaseOk(RecordOf(s), id, s.phases[id]);
    if Asks(s, c, s.phases[id].connected) {
      var request := Slot(c.origin, KindOf(c), PayloadOf(c), id, None);
      var s1 := s.(slots := s.slots[slot := request], book := s.book.(pending := s.book.pending[slot := request]));
      hide Inv, Asks, KindOf, PayloadOf;
      SlotOpens(s, slot, request);
      HandlerMoves(s1, id, Asking(slot));
    } else {
      HandlerMoves(s, id, Over);
    }
  }

  lemma ResumeKeepsInv(s: System, id: CallId)
    requires Inv(s) && Enabled(s, Resume(id))
    ensures Inv(Apply(s, Resume(id))) && Extends(RecordOf(s), RecordOf(Apply(s, Resume(id))))
  {
    hide Trusted;
    var r, slot := RecordOf(s), s.phases[id].slot;
    assert PhaseOk(r, id, s.phases[id]);
    assert SlotOk(r, slot);
    if s.book.outcomes[slot] {
      assert Approved(r, slot);
    }
    HandlerMoves(s, id, Apply(s, Resume(id)).phases[id]);
  }

  lemma EndKeepsInv(s: System, step: Step)
    requires Inv(s) && Enabled(s, step) && (step.Write? || step.Fetch? || step.Submit? || step.Fail?)
    ensures Inv(Apply(s, step)) && Extends(RecordOf(s), RecordOf(Apply(s, step)))
  {
    hide HasApproval, Trusted, SlotOk;
    var p := s.phases[step.id];
    assert PhaseOk(RecordOf(s), step.id, p);
    var s1 := SetPhase(s, step.id, if step.Fetch? then Submitting else Over);
    HandlerMoves(s, step.id, s1.phases[step.id]);
    assert RecordOf(Apply(s, step)) == RecordOf(s1);
    if step.Write? {
      assert Apply(s, step) == s1.(connections := p.list);
    } else if step.Submit? {
      assert Apply(s, step) == s1.(submitted := s.submitted + {step.id});
    }
  }

  lemma BookMoves(s: System, book: Book)
    requires Inv(s) && Progresses(s.book, book)
    ensures Inv(s.(book := book)) && Extends(RecordOf(s), RecordOf(s.(book := book)))
  {
    hide HasApproval, AllTrusted, PhaseOk, SlotOk;
    var s' := s.(book := book);
    SlotsStand(RecordOf(s), RecordOf(s'), {});
    RecordGrows(s, s');
  }

  lemma ShowWindowProgresses(b: Book, slot: SlotId, windowId: nat)
    requires Wellformed(b) && slot in b.pending
    ensures Progresses(b, b.(pending := b.pending[slot := b.pending[slot].(windowId := Some(windowId))]))
  {
  }

  lemma BookStepKeepsInv(s: System, step: Step)
    requires Inv(s) && Enabled(s, step) && (step.ShowWindow? || step.Decide? || step.WindowClosed?)
    ensures Inv(Apply(s, step)) && Extends(RecordOf(s), RecordOf(Apply(s, step)))
  {
    hide RecordOk, HandlersOk, SubmittedOk, AllTrusted, Settle, CloseWindow, Progresses;
    match step {
      case Decide(slot, approved) => SettleProgresses(s.book, slot, approved);
      case WindowClosed(windowId) => CloseWindowProgresses(s.book, windowId);
      case ShowWindow(slot, windowId) => ShowWindowProgresses(s.book, slot, windowId);
    }
    BookMoves(s, Apply(s, step).book);
    assert Apply(s, step) == s.(book := Apply(s, step).book);
  }

  lemma OutsideKeepsInv(s: System, step: Step)
    requires Inv(s) && Enabled(s, step) && (step.Arrive? || step.SetLock? || step.Evict?)
    ensures Inv(Apply(s, step)) && Extends(RecordOf(s), RecordOf(Apply(s, step)))
  {
    hide HasApproval, AllTrusted, PhaseOk, SlotOk;
    var s' := Apply(s, step);
    SlotsStand(RecordOf(s), RecordOf(s'), {});
    RecordGrows(s, s');
  }

  lemma StepKeepsInv(s: System, step: Step)
    requires Inv(s) && Enabled(s, step)
    ensures Inv(Apply(s, step)) && Extends(RecordOf(s), RecordOf(Apply(s, step)))
  {
    hide Inv, Extends, Apply;
    match step
    case Read(id) => ReadKeepsInv(s, id);
    case Continue(id, slot) => ContinueKeepsInv(s, id, slot);
    case Resume(id) => ResumeKeepsInv(s, id);
    case Write(_) => EndKeepsInv(s, step);
    case Fetch(_) => EndKeepsInv(s, step);
    case Submit(_) => EndKeepsInv(s, step);
    case Fail(_) => EndKeepsInv(s, step);
    case ShowWindow(_, _) => BookStepKeepsInv(s, step);
    case Decide(_, _) => BookStepKeepsInv(s, step);
    case WindowClosed(_) => BookStepKeepsInv(s, step);
    case _ => OutsideKeepsInv(s, step);
  }

  /** Over any interleaving: the invariant, and no call, slot or outcome is ever taken back. */
  lemma {:induction false} RunKeepsInv(s: System, steps: seq<Step>)
    requires Inv(s) && CanRun(s, steps)
    ensures Inv(Run(s, steps)) && Extends(RecordOf(s), RecordOf(Run(s, steps)))
    decreases |steps|
  {
    hide Inv, Enabled, Apply, RecordOf;
    if steps != [] {
      StepKeepsInv(s, steps[0]);
      RunKeepsInv(Apply(s, steps[0]), steps[1..]);
    }
  }

  // ---- What a user can rely on -------------------------------------------------------------

  datatype Transfer = Transfer(origin: string, payload: Payload)

  ghost function SubmittedCalls(s: System, x: Transfer): set<CallId>
    requires Inv(s)
  {
    set id | id in s.submitted && Transfer(s.calls[id].origin, PayloadOf(s.calls[id])) == x
  }

  ghost function ApprovedSlots(s: System, x: Transfer): set<SlotId> {
    set slot | slot in s.slots && slot in s.book.outcomes && s.book.outcomes[slot]
               && s.slots[slot].kind.SignAndSend? && Transfer(s.slots[slot].origin, s.slots[slot].payload) == x
  }

  lemma {:induction false} CoveredIsNoLarger(ids: set<CallId>, slots: set<SlotId>, s: System)
    requires slots <= s.slots.Keys
    requires forall id | id in ids :: exists slot | slot in slots :: s.slots[slot].call == id
    ensures |ids| <= |slots|
    decreases slots
  {
    if slots == {} {
      assert ids == {};
    } else {
      var slot :| slot in slots;
      var id := s.slots[slot].call;
      CoveredIsNoLarger(ids - {id}, slots - {slot}, s);
      assert |ids| <= |ids - {id}| + 1;
    }
  }

  /**
   * For every origin and payload, transfers submitted never outnumber approved sign-and-send slots
   * with that same origin and payload.
   */
  lemma TransfersWereApproved(s: System, steps: seq<Step>, x: Transfer)
    requires Fresh(s) && CanRun(s, steps)
    ensures Inv(Run(s, steps))
    ensures |SubmittedCalls(Run(s, steps), x)| <= |ApprovedSlots(Run(s, steps), x)|
  {
    FreshIsInv(s);
    RunKeepsInv(s, steps);
    var s' := Run(s, steps);
    forall id | id in SubmittedCalls(s', x)
      ensures exists slot | slot in ApprovedSlots(s', x) :: s'.slots[slot].call == id
    {
      var slot :| Approved(RecordOf(s'), slot) && s'.slots[slot].call == id;
      assert SlotOk(RecordOf(s'), slot);
      assert slot in ApprovedSlots(s', x);
    }
    CoveredIsNoLarger(SubmittedCalls(s', x), ApprovedSlots(s', x), s');
  }

  /** No handler submits twice. */
  lemma SubmitsOnce(s: System, id: CallId)
    requires Inv(s) && Enabled(s, Submit(id))
    ensures id !in s.submitted
  {
    assert PhaseOk(RecordOf(s), id, s.phases[id]);
  }

  /** Every listed origin was connected before or had an approved connect, even when list writes are lost. */
  lemma ConnectionsWereApproved(s: System, steps: seq<Step>, origin: string)
    requires Fresh(s) && CanRun(s, steps) && origin in Run(s, steps).connections
    ensures Trusted(RecordOf(Run(s, steps)), origin)
  {
    FreshIsInv(s);
    RunKeepsInv(s, steps);
  }

  /** A slot settled by a decision or a closed window stays settled the same way. */
  lemma SlotsSettleOnce(s: System, steps: seq<Step>, slot: SlotId)
    requires Inv(s) && CanRun(s, steps) && slot in s.book.outcomes
    ensures var b := Run(s, steps).book;
            slot in b.outcomes && b.outcomes[slot] == s.book.outcomes[slot] && slot !in b.pending
  {
    RunKeepsInv(s, steps);
  }

  // ---- When an approved connect stays listed -----------------------------------------------

  // The state before step k of a run.
  function StateAt(s: System, steps: seq<Step>, k: nat): System
    requires CanRun(s, steps) && k <= |steps|
    decreases k
  {
    if k == 0 then s else StateAt(Apply(s, steps[0]), steps[1..], k - 1)
  }

  lemma {:induction false} StateAtSteps(s: System, steps: seq<Step>, k: nat)
    requires CanRun(s, steps) && k < |steps|
    ensures Enabled(StateAt(s, steps, k), steps[k])
    ensures StateAt(s, steps, k + 1) == Apply(StateAt(s, steps, k), steps[k])
    decreases k
  {
    hide Enabled, Apply;
    if k > 0 {
      StateAtSteps(Apply(s, steps[0]), steps[1..], k - 1);
    }
  }

  lemma {:induction false} StateAtEnd(s: System, steps: seq<Step>)
    requires CanRun(s, steps)
    ensures StateAt(s, steps, |steps|) == Run(s, steps)
    decreases |steps|
  {
    hide Enabled, Apply;
    if steps != [] {
      StateAtEnd(Apply(s, steps[0]), steps[1..]);
    }
  }

  lemma StepKeepsList(s: System, step: Step)
    requires Enabled(s, step) && !step.Write?
    ensures Apply(s, step).connections == s.connections
  {
    hide Settle, CloseWindow, Asks, Remove, KindOf, PayloadOf;
  }

  // Only writes change the list.
  lemma {:induction false} ListStands(s: System, steps: seq<Step>, i: nat, j: nat)
    requires CanRun(s, steps) && i <= j <= |steps|
    requires forall k | i <= k < j :: !steps[k].Write?
    ensures StateAt(s, steps, j).connections == StateAt(s, steps, i).connections
    decreases j - i
  {
    if i < j {
      hide Enabled, Apply;
      ListStands(s, steps, i, j - 1);
      StateAtSteps(s, steps, j - 1);
      StepKeepsList(StateAt(s, steps, j - 1), steps[j - 1]);
    }
  }

  // A handler past its read is about to write what it has, or over.
  predicate PastRead(s: System, id: CallId) {
    id in s.phases && (s.phases[id].Writing? || s.phases[id].Over?)
  }

  lemma StepKeepsPastRead(s: System, step: Step, id: CallId)
    requires Enabled(s, step) && PastRead(s, id)
    ensures PastRead(Apply(s, step), id)
    ensures Apply(s, step).phases[id].Writing? ==> Apply(s, step).phases[id] == s.phases[id]
  {
    hide Settle, CloseWindow, Asks, Remove, KindOf, PayloadOf;
  }

  lemma StepKeepsAdding(s: System, step: Step, id: CallId)
    requires Enabled(s, step) && At(s, id) && s.phases[id].Adding?
    ensures At(Apply(s, step), id) && (Apply(s, step).phases[id].Adding? || PastRead(Apply(s, step), id))
  {
    hide Settle, CloseWindow, Asks, Remove, KindOf, PayloadOf;
  }

  lemma StepKeepsCalls(s: System, step: Step, id: CallId)
    requires Enabled(s, step) && At(s, id)
    ensures At(Apply(s, step), id) && Apply(s, step).calls[id] == s.calls[id]
  {
    hide Settle, CloseWindow, Asks, Remove, KindOf, PayloadOf;
  }

  lemma {:induction false} WriterStands(s: System, steps: seq<Step>, id: CallId, i: nat, j: nat)
    requires CanRun(s, steps) && i <= j <= |steps| && PastRead(StateAt(s, steps, i), id)
    ensures var t := StateAt(s, steps, j);
            PastRead(t, id) && (t.phases[id].Writing? ==> t.phases[id] == StateAt(s, steps, i).phases[id])
    decreases j - i
  {
    if i < j {
      hide Enabled, Apply;
      WriterStands(s, steps, id, i, j - 1);
      StateAtSteps(s, steps, j - 1);
      StepKeepsPastRead(StateAt(s, steps, j - 1), steps[j - 1], id);
    }
  }

  lemma {:induction false} AdderStands(s: System, steps: seq<Step>, id: CallId, j: nat)
    requires CanRun(s, steps) && j <= |steps| && At(s, id) && s.phases[id].Adding?
    ensures At(StateAt(s, steps, j), id) && StateAt(s, steps, j).calls[id] == s.calls[id]
    ensures StateAt(s, steps, j).phases[id].Adding? || PastRead(StateAt(s, steps, j), id)
    decreases j
  {
    if 0 < j {
      hide Enabled, Apply, PastRead;
      AdderStands(s, steps, id, j - 1);
      StateAtSteps(s, steps, j - 1);
      var before, step := StateAt(s, steps, j - 1), steps[j - 1];
      StepKeepsCalls(before, step, id);
      if before.phases[id].Adding? {
        StepKeepsAdding(before, step, id);
      } else {
        StepKeepsPastRead(before, step, id);
      }
    }
  }

  // In a run, the handler of an approved connect reads the list at step r and writes it at step w.
  ghost predicate Connects(s: System, steps: seq<Step>, id: CallId, r: nat, w: nat) {
    && CanRun(s, steps) && At(s, id) && s.phases[id].Adding?
    && r < w < |steps| && steps[r] == Read(id) && steps[w] == Write(id)
  }

  /** What a write leaves: the list as it was read, and the origin it did not have. */
  lemma WriteListsWhatWasRead(s: System, steps: seq<Step>, id: CallId, r: nat, w: nat)
    requires Connects(s, steps, id, r, w)
    ensures var list, origin := StateAt(s, steps, r).connections, s.calls[id].origin;
            origin !in list && StateAt(s, steps, w + 1).connections == list + [origin]
  {
    AdderStands(s, steps, id, r);
    StateAtSteps(s, steps, r);
    WriterStands(s, steps, id, r + 1, w);
    StateAtSteps(s, steps, w);
  }

  /** A write loses exactly the origins listed since its read. */
  lemma WriteLosesExactly(s: System, steps: seq<Step>, id: CallId, r: nat, w: nat, origin: string)
    requires Connects(s, steps, id, r, w) && origin in StateAt(s, steps, w).connections
    ensures origin in StateAt(s, steps, w + 1).connections
            <==> origin in StateAt(s, steps, r).connections || origin == s.calls[id].origin
  {
    WriteListsWhatWasRead(s, steps, id, r, w);
  }

  /** A connect whose read and write have no other write between them loses nothing and lists its origin. */
  lemma UninterruptedConnectLosesNothing(s: System, steps: seq<Step>, id: CallId, r: nat, w: nat)
    requires Connects(s, steps, id, r, w) && forall k | r < k < w :: !steps[k].Write?
    ensures StateAt(s, steps, w + 1).connections == StateAt(s, steps, w).connections + [s.calls[id].origin]
  {
    WriteListsWhatWasRead(s, steps, id, r, w);
    ListStands(s, steps, r, w);
  }

  // Two connects that both write, the first one before the second, and nobody else.
  ghost predicate ConnectInOrder(
      s: System, steps: seq<Step>, a: CallId, ra: nat, wa: nat, b: CallId, rb: nat, wb: nat)
  {
    && Connects(s, steps, a, ra, wa) && Connects(s, steps, b, rb, wb) && wa < wb
    && (forall k | 0 <= k < |steps| && steps[k].Write? :: k == wa || k == wb)
    && s.calls[a].origin != s.calls[b].origin
    && s.calls[a].origin !in s.connections && s.calls[b].origin !in s.connections
  }

  lemma SecondWriteDecides(s: System, steps: seq<Step>, a: CallId, ra: nat, wa: nat, b: CallId, rb: nat, wb: nat)
    requires ConnectInOrder(s, steps, a, ra, wa, b, rb, wb)
    ensures Run(s, steps).connections == StateAt(s, steps, rb).connections + [s.calls[b].origin]
  {
    WriteListsWhatWasRead(s, steps, b, rb, wb);
    ListStands(s, steps, wb + 1, |steps|);
    StateAtEnd(s, steps);
  }

  lemma SecondReadSees(s: System, steps: seq<Step>, a: CallId, ra: nat, wa: nat, b: CallId, rb: nat, wb: nat)
    requires ConnectInOrder(s, steps, a, ra, wa, b, rb, wb)
    ensures s.calls[a].origin in StateAt(s, steps, rb).connections <==> wa < rb
  {
    if wa < rb {
      WriteListsWhatWasRead(s, steps, a, ra, wa);
      ListStands(s, steps, wa + 1, rb);
    } else {
      assert steps[rb] != steps[wa];
      ListStands(s, steps, 0, rb);
    }
  }

  lemma ConnectsInOrder(s: System, steps: seq<Step>, a: CallId, ra: nat, wa: nat, b: CallId, rb: nat, wb: nat)
    requires ConnectInOrder(s, steps, a, ra, wa, b, rb, wb)
    ensures s.calls[b].origin in Run(s, steps).connections
    ensures s.calls[a].origin in Run(s, steps).connections <==> wa < rb
  {
    SecondWriteDecides(s, steps, a, ra, wa, b, rb, wb);
    SecondReadSees(s, steps, a, ra, wa, b, rb, wb);
  }

  /**
   * Two approved connects of different origins, among any steps of other handlers that do not
   * write: both origins end up listed if and only if one's write comes before the other's read.
   */
  lemma ConcurrentConnectsLoseAWrite(
      s: System, steps: seq<Step>, a: CallId, ra: nat, wa: nat, b: CallId, rb: nat, wb: nat)
    requires Connects(s, steps, a, ra, wa) && Connects(s, steps, b, rb, wb)
    requires forall k | 0 <= k < |steps| && steps[k].Write? :: k == wa || k == wb
    requires s.calls[a].origin != s.calls[b].origin
    requires s.calls[a].origin !in s.connections && s.calls[b].origin !in s.connections
    ensures var list := Run(s, steps).connections;
            (s.calls[a].origin in list && s.calls[b].origin in list) <==> (wa < rb || wb < ra)
  {
    assert wa != wb;
    if wa < wb {
      ConnectsInOrder(s, steps, a, ra, wa, b, rb, wb);
    } else {
      ConnectsInOrder(s, steps, b, rb, wb, a, ra, wa);
    }
  }

  // A connect call up to the point where its approval has come in.
  function Connecting(id: CallId, slot: SlotId, origin: string): seq<Step> {
    [Arrive(id, Call(ConnectCall, origin, "", None)), Read(id), Continue(id, slot), Decide(slot, true), Resume(id)]
  }

  function Approving(s: System, id: CallId, slot: SlotId, origin: string): System {
    s.(calls := s.calls[id := Call(ConnectCall, origin, "", None)],
       phases := s.phases[id := Adding],
       slots := s.slots[slot := Slot(origin, Connect, Payload("", ""), id, None)],
       book := s.book.(outcomes := s.book.outcomes[slot := true]))
  }

  lemma RunCons(s: System, step: Step, rest: seq<Step>)
    requires Enabled(s, step) && CanRun(Apply(s, step), rest)
    ensures CanRun(s, [step] + rest) && Run(s, [step] + rest) == Run(Apply(s, step), rest)
  {
    hide Enabled, Apply;
    assert ([step] + rest)[1..] == rest;
  }

  // The state with the prompt of `Connecting` open.
  function Prompting(s: System, id: CallId, slot: SlotId, origin: string): System {
    var request := Slot(origin, Connect, Payload("", ""), id, None);
    s.(calls := s.calls[id := Call(ConnectCall, origin, "", None)],
       phases := s.phases[id := Asking(slot)],
       slots := s.slots[slot := request],
       book := s.book.(pending := s.book.pending[slot := request]))
  }

  lemma ConnectingPrompts(s: System, id: CallId, slot: SlotId, origin: string, rest: seq<Step>)
    requires id !in s.calls && id !in s.phases && slot !in s.slots && origin !in s.connections
    requires CanRun(Prompting(s, id, slot, origin), rest)
    ensures var arrive := Arrive(id, Call(ConnectCall, origin, "", None));
            var steps := [arrive] + ([Read(id)] + ([Continue(id, slot)] + rest));
            CanRun(s, steps) && Run(s, steps) == Run(Prompting(s, id, slot, origin), rest)
  {
    hide CanRun, Run;
    var arrive := Arrive(id, Call(ConnectCall, origin, "", None));
    var s1 := Apply(s, arrive);
    var s2 := Apply(s1, Read(id));
    assert s2 == SetPhase(s1, id, Checked(false));
    assert Apply(s2, Continue(id, slot)) == Prompting(s, id, slot, origin);
    RunCons(s2, Continue(id, slot), rest);
    RunCons(s1, Read(id), [Continue(id, slot)] + rest);
    RunCons(s, arrive, [Read(id)] + ([Continue(id, slot)] + rest));
  }

  lemma SettlesWhatOpened(b: Book, slot: SlotId, request: Slot)
    requires slot !in b.pending
    ensures Settle(b.(pending := b.pending[slot := request]), slot, true) == b.(outcomes := b.outcomes[slot := true])
  {
    var pending := b.pending[slot := request];
    assert (map x | x in pending && x != slot :: pending[x]) == b.pending;
  }

  lemma PromptApproves(s: System, id: CallId, slot: SlotId, origin: string, rest: seq<Step>)
    requires slot !in s.book.pending && CanRun(Approving(s, id, slot, origin), rest)
    ensures var t, steps := Prompting(s, id, slot, origin), [Decide(slot, true)] + ([Resume(id)] + rest);
            CanRun(t, steps) && Run(t, steps) == Run(Approving(s, id, slot, origin), rest)
  {
    hide CanRun, Run;
    var t := Prompting(s, id, slot, origin);
    var t1 := Apply(t, Decide(slot, true));
    SettlesWhatOpened(s.book, slot, t.book.pending[slot]);
    hide Settle;
    assert t1 == t.(book := Book(s.book.pending, s.book.outcomes[slot := true]));
    assert Apply(t1, Resume(id)) == Approving(s, id, slot, origin);
    RunCons(t1, Resume(id), rest);
    RunCons(t, Decide(slot, true), [Resume(id)] + rest);
  }

  lemma ConnectingApproves(s: System, id: CallId, slot: SlotId, origin: string, rest: seq<Step>)
    requires id !in s.calls && id !in s.phases && slot !in s.slots && slot !in s.book.pending
    requires origin !in s.connections && CanRun(Approving(s, id, slot, origin), rest)
    ensures var steps := Connecting(id, slot, origin) + rest;
            CanRun(s, steps) && Run(s, steps) == Run(Approving(s, id, slot, origin), rest)
  {
    hide CanRun, Run, Prompting, Approving;
    var more := [Decide(slot, true)] + ([Resume(id)] + rest);
    PromptApproves(s, id, slot, origin, rest);
    ConnectingPrompts(s, id, slot, origin, more);
    assert Connecting(id, slot, origin) + rest
           == [Arrive(id, Call(ConnectCall, origin, "", None))] + ([Read(id)] + ([Continue(id, slot)] + more));
  }

  lemma OverlapLosesFirst(s: System, a: CallId, b: CallId)
    requires At(s, a) && At(s, b) && a != b && s.phases[a].Adding? && s.phases[b].Adding?
    requires s.calls[a].origin !in s.connections && s.calls[b].origin !in s.connections
    ensures var steps := [Read(a)] + ([Read(b)] + ([Write(a)] + ([Write(b)] + [])));
            CanRun(s, steps) && Run(s, steps).connections == s.connections + [s.calls[b].origin]
  {
    hide CanRun, Run;
    var s1 := Apply(s, Read(a));
    var s2 := Apply(s1, Read(b));
    var s3 := Apply(s2, Write(a));
    var s4 := Apply(s3, Write(b));
    RunEmpty(s4);
    RunCons(s3, Write(b), []);
    RunCons(s2, Write(a), [Write(b)] + []);
    RunCons(s1, Read(b), [Write(a)] + ([Write(b)] + []));
    RunCons(s, Read(a), [Read(b)] + ([Write(a)] + ([Write(b)] + [])));
  }

  /** From every fresh state such a run exists: two sites connect, both are approved, one is not listed. */
  lemma OverlapIsReached(s: System, x: string, y: string) returns (steps: seq<Step>)
    requires Fresh(s) && x != y && x !in s.connections && y !in s.connections
    ensures CanRun(s, steps)
    ensures var s' := Run(s, steps);
            && s'.connections == s.connections + [y]
            && HasApproval(RecordOf(s'), 0) && 0 in s'.calls && s'.calls[0] == Call(ConnectCall, x, "", None)
  {
    var s1 := Approving(s, 0, 0, x);
    var s2 := Approving(s1, 1, 1, y);
    var rest := [Read(0)] + ([Read(1)] + ([Write(0)] + ([Write(1)] + [])));
    steps := Connecting(0, 0, x) + (Connecting(1, 1, y) + rest);
    hide CanRun, Run;
    OverlapLosesFirst(s2, 0, 1);
    ConnectingApproves(s1, 1, 1, y, rest);
    ConnectingApproves(s, 0, 0, x, Connecting(1, 1, y) + rest);
    FreshIsInv(s);
    hide Fresh, Inv;
    ApprovingKeepsInv(s, 0, 0, x);
    ApprovingKeepsInv(s1, 1, 1, y);
    RunKeepsInv(s2, rest);
    assert Approved(RecordOf(s2), 0);
    ApprovalPersists(RecordOf(s2), RecordOf(Run(s2, rest)), 0);
  }

  lemma ApprovingKeepsInv(s: System, id: CallId, slot: SlotId, origin: string)
    requires Inv(s) && id !in s.calls && id !in s.phases && slot !in s.slots && slot !in s.book.pending
    requires origin !in s.connections
    ensures Inv(Approving(s, id, slot, origin))
  {
    hide Inv;
    var end := Approving(s, id, slot, origin);
    RunEmpty(end);
    ConnectingApproves(s, id, slot, origin, []);
    RunKeepsInv(s, Connecting(id, slot, origin) + []);
  }

  lemma RunEmpty(s: System)
    ensures CanRun(s, []) && Run(s, []) == s
  {
  }
}
