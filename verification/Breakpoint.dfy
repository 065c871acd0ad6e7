/**
 The pause/resume protocol of internal/breakpoint/controller.go. Any number of
 goroutines run `Pause`, `Resume`, `ResumeAll` and `Subscribe`; a step is one
 locked section or one channel operation, and steps interleave freely. A flow
 has at most one live `Pause`, because a script runs on the flow's own goroutine
 and waits inside `Pause`.
 */
module Breakpoint {
  import opened Common

  type FlowID = string

  // Identities of one `Pause` call with its pending hit and channel, of one
  // `Resume` or `ResumeAll` call, and of one subscriber's channel.
  type PauseId = nat
  type CallId = nat
  type SubId = nat

  datatype Phase = Request | Response

  datatype Hit = Hit(flow: FlowID, phase: Phase, headers: map<string, string>, body: string)

  datatype Answer = Answer(headers: map<string, string>, body: Option<string>, skipped: bool)

  const SKIPPED := Answer(map[], None, true)

  /** Capacities of the answer and subscriber channels. */
  const ANSWER_CAPACITY := 1
  const INBOX_CAPACITY := 16

  // ----- goroutines -----

  datatype PausePc =
    | Registering
    | Notifying(todo: seq<SubId>) // registered; waits for an answer once `todo` is empty
    | Returned(answer: Answer)

  datatype Pause = Pause(hit: Hit, pc: PausePc, channel: seq<Answer>)

  datatype Kind = One(flow: FlowID, answer: Answer) | All

  /** A `Resume` or `ResumeAll` call, and the hits it took but has not answered yet. */
  datatype Call = Call(kind: Kind, locked: bool, hands: seq<PauseId>)

  function AnswerOf(k: Kind): Answer {
    match k
    case One(_, a) => a
    case All => SKIPPED
  }

  predicate Addresses(k: Kind, flow: FlowID) {
    k.One? ==> k.flow == flow
  }

  /**
   Bookkeeping that no step looks at: where the answer of each `Pause` has got to,
   and by which call.
   */
  datatype Place = NotYet | InMap | With(call: CallId) | InChannel(call: CallId) | Gone(call: CallId)

  datatype State = State(
    pending: map<FlowID, PauseId>,
    subscribers: seq<SubId>,
    inboxes: map<SubId, seq<Hit>>,
    pauses: map<PauseId, Pause>,
    calls: map<CallId, Call>,
    place: map<PauseId, Place>)

  const INIT := State(map[], [], map[], map[], map[], map[])

  // ----- steps -----

  datatype Step =
    | CallPause(p: PauseId, hit: Hit)
    | Register(p: PauseId)
    | Notify(p: PauseId)
    | Receive(p: PauseId)
    | CallResume(c: CallId, kind: Kind)
    | Take(c: CallId, taken: seq<PauseId>)
    | Send(c: CallId)
    | Subscribe(sub: SubId)
    | Drain(sub: SubId)

  predicate IsLive(p: Pause) {
    !p.pc.Returned?
  }

  ghost predicate Distinct<T>(s: seq<T>) {
    forall i, j :: 0 <= i < j < |s| ==> s[i] != s[j]
  }

  /** `s` lists the elements of `xs`, each once, in some order. */
  ghost predicate Enumerates(s: seq<PauseId>, xs: set<PauseId>) {
    Distinct(s) && forall x :: x in s <==> x in xs
  }

  /** What a call finds in the pending map. */
  ghost predicate Finds(k: Kind, pending: map<FlowID, PauseId>, taken: seq<PauseId>) {
    match k
    case One(flow, _) => taken == if flow in pending then [pending[flow]] else []
    case All => Enumerates(taken, pending.Values)
  }

  ghost predicate Enabled(s: State, step: Step) {
    match step
    case CallPause(p, hit) =>
      p !in s.pauses && forall q :: q in s.pauses && IsLive(s.pauses[q]) ==> s.pauses[q].hit.flow != hit.flow
    case Register(p) => p in s.pauses && s.pauses[p].pc.Registering?
    case Notify(p) => p in s.pauses && s.pauses[p].pc.Notifying? && s.pauses[p].pc.todo != []
    case Receive(p) => p in s.pauses && s.pauses[p].pc == Notifying([]) && s.pauses[p].channel != []
    case CallResume(c, _) => c !in s.calls
    case Take(c, taken) => c in s.calls && !s.calls[c].locked && Finds(s.calls[c].kind, s.pending, taken)
    case Send(c) =>
      && c in s.calls && s.calls[c].hands != [] && s.calls[c].hands[0] in s.pauses
      && |s.pauses[s.calls[c].hands[0]].channel| < ANSWER_CAPACITY
    case Subscribe(sub) => sub !in s.inboxes
    case Drain(sub) => sub in s.inboxes && s.inboxes[sub] != []
  }

  function Delivered(inboxes: map<SubId, seq<Hit>>, sub: SubId, hit: Hit): map<SubId, seq<Hit>> {
    if sub in inboxes && |inboxes[sub]| < INBOX_CAPACITY then inboxes[sub := inboxes[sub] + [hit]] else inboxes
  }

  ghost function Moved(place: map<PauseId, Place>, ps: seq<PauseId>, to: Place): map<PauseId, Place> {
    map p | p in place :: if p in ps then to else place[p]
  }

  ghost function Apply(s: State, step: Step): State
    requires Enabled(s, step)
  {
    match step
    case CallPause(p, hit) =>
      s.(pauses := s.pauses[p := Pause(hit, Registering, [])], place := s.place[p := NotYet])
    case Register(p) =>
      s.(pending := s.pending[s.pauses[p].hit.flow := p],
         pauses := s.pauses[p := s.pauses[p].(pc := Notifying(s.subscribers))],
         place := s.place[p := InMap])
    case Notify(p) =>
      var todo := s.pauses[p].pc.todo;
      s.(inboxes := Delivered(s.inboxes, todo[0], s.pauses[p].hit),
         pauses := s.pauses[p := s.pauses[p].(pc := Notifying(todo[1..]))])
    case Receive(p) =>
      var ch := s.pauses[p].channel;
      s.(pauses := s.pauses[p := s.pauses[p].(pc := Returned(ch[0]), channel := ch[1..])],
         place := s.place[p := if p in s.place && s.place[p].InChannel? then Gone(s.place[p].call) else NotYet])
    case CallResume(c, kind) => s.(calls := s.calls[c := Call(kind, false, [])])
    case Take(c, taken) =>
      s.(pending := if s.calls[c].kind.One? then s.pending - {s.calls[c].kind.flow} else map[],
         calls := s.calls[c := s.calls[c].(locked := true, hands := taken)],
         place := Moved(s.place, taken, With(c)))
    case Send(c) =>
      var hands := s.calls[c].hands;
      var p := hands[0];
      s.(pauses := s.pauses[p := s.pauses[p].(channel := s.pauses[p].channel + [AnswerOf(s.calls[c].kind)])],
         calls := s.calls[c := s.calls[c].(hands := hands[1..])],
         place := s.place[p := InChannel(c)])
    case Subscribe(sub) => s.(subscribers := s.subscribers + [sub], inboxes := s.inboxes[sub := []])
    case Drain(sub) => s.(inboxes := s.inboxes[sub := s.inboxes[sub][1..]])
  }

  // ----- the invariant -----

  /** Each `Pause` is where its bookkeeping says, with what it should hold there. */
  ghost predicate PauseOk(s: State, p: PauseId)
    requires p in s.pauses && p in s.place
  {
    var pause := s.pauses[p];
    match s.place[p]
    case NotYet => pause.pc.Registering? && pause.channel == []
    case InMap =>
      && pause.pc.Notifying? && pause.channel == []
      && pause.hit.flow in s.pending && s.pending[pause.hit.flow] == p
    case With(c) =>
      && pause.pc.Notifying? && pause.channel == []
      && c in s.calls && p in s.calls[c].hands && Addresses(s.calls[c].kind, pause.hit.flow)
    case InChannel(c) =>
      && pause.pc.Notifying? && c in s.calls && s.calls[c].locked
      && pause.channel == [AnswerOf(s.calls[c].kind)] && Addresses(s.calls[c].kind, pause.hit.flow)
    case Gone(c) =>
      && c in s.calls && s.calls[c].locked && pause.channel == []
      && pause.pc == Returned(AnswerOf(s.calls[c].kind)) && Addresses(s.calls[c].kind, pause.hit.flow)
  }

  ghost predicate PausesOk(s: State) {
    s.place.Keys == s.pauses.Keys && forall p :: p in s.pauses ==> PauseOk(s, p)
  }

  ghost predicate PendingOk(s: State) {
    forall f :: f in s.pending ==>
      s.pending[f] in s.pauses && s.pending[f] in s.place &&
      s.place[s.pending[f]] == InMap && s.pauses[s.pending[f]].hit.flow == f
  }

  ghost predicate CallsOk(s: State) {
    forall c :: c in s.calls ==>
      && Distinct(s.calls[c].hands)
      && (!s.calls[c].locked ==> s.calls[c].hands == [])
      && (forall p :: p in s.calls[c].hands ==> p in s.place && s.place[p] == With(c))
  }

  /** The place of `p` is in the hands of call `c`, in a channel it filled, or past it. */
  predicate Served(place: Place, c: CallId) {
    place == With(c) || place == InChannel(c) || place == Gone(c)
  }

  /** A `Resume` call serves at most one `Pause`. */
  ghost predicate ServesOne(s: State) {
    forall p, q, c |
      && p in s.place && q in s.place && c in s.calls && s.calls[c].kind.One?
      && Served(s.place[p], c) && Served(s.place[q], c) :: p == q
  }

  ghost predicate OneLivePerFlow(s: State) {
    forall p, q |
      && p in s.pauses && q in s.pauses && IsLive(s.pauses[p]) && IsLive(s.pauses[q])
      && s.pauses[p].hit.flow == s.pauses[q].hit.flow :: p == q
  }

  ghost predicate InboxesOk(s: State) {
    && (forall sub :: sub in s.subscribers ==> sub in s.inboxes)
    && (forall sub :: sub in s.inboxes ==> |s.inboxes[sub]| <= INBOX_CAPACITY)
    && (forall p, sub :: p in s.pauses && s.pauses[p].pc.Notifying? && sub in s.pauses[p].pc.todo ==> sub in s.inboxes)
  }

  ghost predicate Inv(s: State) {
    PausesOk(s) && PendingOk(s) && CallsOk(s) && ServesOne(s) && OneLivePerFlow(s) && InboxesOk(s)
  }

  lemma InitInv()
    ensures Inv(INIT)
  {
  }

  lemma KeepsOneLive(s: State, step: Step)
    requires OneLivePerFlow(s) && Enabled(s, step)
    ensures OneLivePerFlow(Apply(s, step))
  {
    hide Moved, Delivered, Finds;
  }

  lemma KeepsInboxes(s: State, step: Step)
    requires InboxesOk(s) && Enabled(s, step)
    ensures InboxesOk(Apply(s, step))
  {
    hide Moved, Finds, IsLive;
  }

  lemma KeepsPending(s: State, step: Step)
    requires PausesOk(s) && PendingOk(s) && CallsOk(s) && Enabled(s, step)
    ensures PendingOk(Apply(s, step))
  {
    hide PausesOk, PauseOk, PendingOk, CallsOk, Finds, Moved, Delivered, Apply, Enabled;
    match step
    case Take(c, taken) => TakeKeepsPending(s, c, taken);
    case Send(c) => SendKeepsPending(s, c);
    case Receive(p) => ReceiveKeepsPending(s, p);
    case _ => OthersKeepPending(s, step);
  }

  lemma OthersKeepPending(s: State, step: Step)
    requires PausesOk(s) && PendingOk(s) && Enabled(s, step) && !step.Take? && !step.Send? && !step.Receive?
    ensures PendingOk(Apply(s, step))
  {
    hide PauseOk, Delivered;
    if step.Register? {
      assert PauseOk(s, step.p) by {
        hide PendingOk;
      }
      RegisteringIsNotYet(s, step.p);
    }
  }

  lemma RegisteringIsNotYet(s: State, p: PauseId)
    requires p in s.pauses && p in s.place && PauseOk(s, p) && s.pauses[p].pc.Registering?
    ensures s.place[p] == NotYet
  {
  }

  lemma AnsweredIsInChannel(s: State, p: PauseId)
    requires p in s.pauses && p in s.place && PauseOk(s, p) && s.pauses[p].channel != []
    ensures s.place[p].InChannel?
  {
  }

  lemma ReceiveKeepsPending(s: State, p: PauseId)
    requires PausesOk(s) && PendingOk(s) && Enabled(s, Receive(p))
    ensures PendingOk(Apply(s, Receive(p)))
  {
    hide PauseOk;
    assert PauseOk(s, p) by {
      hide PendingOk;
    }
    AnsweredIsInChannel(s, p);
  }

  lemma SendKeepsPending(s: State, c: CallId)
    requires PendingOk(s) && CallsOk(s) && Enabled(s, Send(c))
    ensures PendingOk(Apply(s, Send(c)))
  {
    hide Distinct;
    assert s.calls[c].hands[0] in s.calls[c].hands;
  }

  lemma TakeKeepsPending(s: State, c: CallId, taken: seq<PauseId>)
    requires PendingOk(s) && Enabled(s, Take(c, taken))
    ensures PendingOk(Apply(s, Take(c, taken)))
  {
    hide Distinct, Enumerates;
  }

  /** The hits a call takes were waiting in the map and are meant for it. */
  lemma TakenWereWaiting(s: State, c: CallId, taken: seq<PauseId>)
    requires PendingOk(s) && c in s.calls && Finds(s.calls[c].kind, s.pending, taken)
    ensures Distinct(taken)
    ensures forall p :: p in taken ==>
              p in s.pauses && p in s.place && s.place[p] == InMap && Addresses(s.calls[c].kind, s.pauses[p].hit.flow)
    ensures s.calls[c].kind.One? ==> |taken| <= 1
  {
    if s.calls[c].kind.All? {
      forall p | p in taken ensures exists f :: f in s.pending && s.pending[f] == p {
        assert p in s.pending.Values;
      }
    }
  }

  /** A call that has not locked yet has served nobody. */
  lemma NobodyServedYet(s: State, c: CallId)
    requires PausesOk(s) && CallsOk(s) && (c in s.calls ==> !s.calls[c].locked)
    ensures forall p :: p in s.place ==> !Served(s.place[p], c)
  {
    hide Addresses, Distinct;
    forall p | p in s.place ensures !Served(s.place[p], c) {
      assert PauseOk(s, p);
    }
  }

  lemma KeepsCalls(s: State, step: Step)
    requires PausesOk(s) && PendingOk(s) && CallsOk(s) && Enabled(s, step)
    ensures CallsOk(Apply(s, step))
  {
    hide PausesOk, PendingOk, CallsOk, Apply, Enabled;
    match step
    case Take(c, taken) => TakeKeepsCalls(s, c, taken);
    case Send(c) => SendKeepsCalls(s, c);
    case _ => OthersKeepCalls(s, step);
  }

  /** A step that is no call's finds its `Pause` in nobody's hands. */
  lemma OthersKeepCalls(s: State, step: Step)
    requires PausesOk(s) && CallsOk(s) && Enabled(s, step) && !step.Take? && !step.Send?
    ensures CallsOk(Apply(s, step))
  {
    hide PauseOk, Delivered, IsLive;
    if step.Register? || step.Receive? {
      assert PauseOk(s, step.p) by {
        hide CallsOk;
      }
      if step.Register? {
        RegisteringIsNotYet(s, step.p);
      } else {
        AnsweredIsInChannel(s, step.p);
      }
    }
  }

  lemma TakeKeepsCalls(s: State, c: CallId, taken: seq<PauseId>)
    requires PendingOk(s) && CallsOk(s) && Enabled(s, Take(c, taken))
    ensures CallsOk(Apply(s, Take(c, taken)))
  {
    TakenWereWaiting(s, c, taken);
    hide Distinct, Addresses, Finds;
  }

  lemma SendKeepsCalls(s: State, c: CallId)
    requires CallsOk(s) && Enabled(s, Send(c))
    ensures CallsOk(Apply(s, Send(c)))
  {
    hide Addresses;
    var hands := s.calls[c].hands;
    assert hands[0] in hands && hands[0] !in hands[1..];
  }

  lemma KeepsServesOne(s: State, step: Step)
    requires PausesOk(s) && PendingOk(s) && CallsOk(s) && ServesOne(s) && Enabled(s, step)
    ensures ServesOne(Apply(s, step))
  {
    hide PausesOk, PendingOk, CallsOk, ServesOne, Apply, Enabled;
    match step
    case CallResume(c, kind) => CallResumeKeepsServesOne(s, c, kind);
    case Take(c, taken) => TakeKeepsServesOne(s, c, taken);
    case Send(c) => SendKeepsServesOne(s, c);
    case _ => OthersKeepServesOne(s, step);
  }

  lemma CallResumeKeepsServesOne(s: State, c: CallId, kind: Kind)
    requires PausesOk(s) && CallsOk(s) && ServesOne(s) && Enabled(s, CallResume(c, kind))
    ensures ServesOne(Apply(s, CallResume(c, kind)))
  {
    NobodyServedYet(s, c);
    hide PausesOk, CallsOk;
  }

  lemma OthersKeepServesOne(s: State, step: Step)
    requires PausesOk(s) && ServesOne(s) && Enabled(s, step)
    requires !step.CallResume? && !step.Take? && !step.Send?
    ensures ServesOne(Apply(s, step))
  {
    assert s.place.Keys == s.pauses.Keys by {
      PlacesAreKnown(s);
    }
    hide PausesOk, Served, Apply, Enabled;
    var t := Apply(s, step);
    assert t.calls == s.calls by {
      CallsUntouched(s, step);
    }
    forall p, c | p in t.place && Served(t.place[p], c) ensures p in s.place && Served(s.place[p], c) {
      ServedBefore(s, step, p, c);
    }
  }

  lemma CallsUntouched(s: State, step: Step)
    requires Enabled(s, step) && !step.CallResume? && !step.Take? && !step.Send?
    ensures Apply(s, step).calls == s.calls
  {
    hide Delivered, IsLive;
  }

  lemma ServedBefore(s: State, step: Step, p: PauseId, c: CallId)
    requires s.place.Keys == s.pauses.Keys && Enabled(s, step) && !step.Take? && !step.Send?
    requires p in Apply(s, step).place && Served(Apply(s, step).place[p], c)
    ensures p in s.place && Served(s.place[p], c)
  {
    hide Delivered, IsLive;
  }

  lemma SendKeepsServesOne(s: State, c: CallId)
    requires CallsOk(s) && ServesOne(s) && Enabled(s, Send(c))
    ensures ServesOne(Apply(s, Send(c)))
  {
    hide Distinct;
    var p := s.calls[c].hands[0];
    assert p in s.calls[c].hands && s.place[p] == With(c);
    hide CallsOk;
  }

  lemma TakeKeepsServesOne(s: State, c: CallId, taken: seq<PauseId>)
    requires PausesOk(s) && PendingOk(s) && CallsOk(s) && ServesOne(s) && Enabled(s, Take(c, taken))
    ensures ServesOne(Apply(s, Take(c, taken)))
  {
    NobodyServedYet(s, c);
    TakenWereWaiting(s, c, taken);
    hide PausesOk, PauseOk, PendingOk, CallsOk, Finds, Addresses, Distinct;
  }

  lemma PlacesAreKnown(s: State)
    requires PausesOk(s)
    ensures s.place.Keys == s.pauses.Keys
  {
  }

  lemma KeepsPauses(s: State, step: Step)
    requires PausesOk(s) && PendingOk(s) && CallsOk(s) && OneLivePerFlow(s) && Enabled(s, step)
    ensures PausesOk(Apply(s, step))
  {
    hide PausesOk, PendingOk, CallsOk, OneLivePerFlow, Apply, Enabled;
    match step
    case Register(p) => RegisterKeepsPauses(s, p);
    case Receive(p) => ReceiveKeepsPauses(s, p);
    case Take(c, taken) => TakeKeepsPauses(s, c, taken);
    case Send(c) => SendKeepsPauses(s, c);
    case CallResume(c, kind) => CallResumeKeepsPauses(s, c, kind);
    case _ => OthersKeepPauses(s, step);
  }

  lemma OthersKeepPauses(s: State, step: Step)
    requires PausesOk(s) && Enabled(s, step)
    requires step.CallPause? || step.Notify? || step.Subscribe? || step.Drain?
    ensures PausesOk(Apply(s, step))
  {
    hide Addresses, Delivered, IsLive;
    var t := Apply(s, step);
    forall q | q in t.pauses ensures PauseOk(t, q) {
      assert q in s.pauses ==> PauseOk(s, q);
    }
  }

  /** A new registration overwrites nobody: another hit of the flow would still be live. */
  lemma RegisterKeepsPauses(s: State, p: PauseId)
    requires PausesOk(s) && PendingOk(s) && OneLivePerFlow(s) && Enabled(s, Register(p))
    ensures PausesOk(Apply(s, Register(p)))
  {
    var t := Apply(s, Register(p));
    forall q | q in t.pauses ensures PauseOk(t, q) {
      assert PauseOk(s, q);
    }
  }

  lemma ReceiveKeepsPauses(s: State, p: PauseId)
    requires PausesOk(s) && Enabled(s, Receive(p))
    ensures PausesOk(Apply(s, Receive(p)))
  {
    hide Addresses;
    var t := Apply(s, Receive(p));
    assert PauseOk(s, p);
    forall q | q in t.pauses ensures PauseOk(t, q) {
      assert PauseOk(s, q);
    }
  }

  lemma CallResumeKeepsPauses(s: State, c: CallId, kind: Kind)
    requires PausesOk(s) && Enabled(s, CallResume(c, kind))
    ensures PausesOk(Apply(s, CallResume(c, kind)))
  {
    hide Addresses;
    var t := Apply(s, CallResume(c, kind));
    forall q | q in t.pauses ensures PauseOk(t, q) {
      assert PauseOk(s, q);
    }
  }

  lemma TakeKeepsPauses(s: State, c: CallId, taken: seq<PauseId>)
    requires PausesOk(s) && PendingOk(s) && CallsOk(s) && Enabled(s, Take(c, taken))
    ensures PausesOk(Apply(s, Take(c, taken)))
  {
    TakenWereWaiting(s, c, taken);
    hide Addresses, Distinct, PendingOk;
    var t := Apply(s, Take(c, taken));
    forall q | q in t.pauses ensures PauseOk(t, q) {
      assert PauseOk(s, q);
      if q !in taken && s.place[q] == InMap {
        StillInMap(s, c, taken, q);
      }
    }
  }

  /** What a call does not take, it leaves in the map. */
  lemma StillInMap(s: State, c: CallId, taken: seq<PauseId>, q: PauseId)
    requires Enabled(s, Take(c, taken)) && q in s.pauses && q in s.place && PauseOk(s, q)
    requires s.place[q] == InMap && q !in taken
    ensures var flow, t := s.pauses[q].hit.flow, Apply(s, Take(c, taken));
            flow in t.pending && t.pending[flow] == q
  {
    hide Addresses, Distinct, Moved;
    var flow := s.pauses[q].hit.flow;
    assert s.pending[flow] == q && q in s.pending.Values;
  }

  lemma SendKeepsPauses(s: State, c: CallId)
    requires PausesOk(s) && CallsOk(s) && Enabled(s, Send(c))
    ensures PausesOk(Apply(s, Send(c)))
  {
    hide PauseOk;
    var t, p := Apply(s, Send(c)), s.calls[c].hands[0];
    assert p in s.calls[c].hands && p in s.place && s.place[p] == With(c) && s.calls[c].locked;
    hide CallsOk;
    assert PauseOk(s, p);
    forall q | q in t.pauses ensures PauseOk(t, q) {
      assert PauseOk(s, q);
      if q == p {
        SendFillsChannel(s, c);
      } else {
        SendLeavesOthers(s, c, q);
      }
    }
  }

  lemma SendFillsChannel(s: State, c: CallId)
    requires Enabled(s, Send(c)) && s.calls[c].locked
    requires var p := s.calls[c].hands[0]; p in s.place && s.place[p] == With(c) && PauseOk(s, p)
    ensures PauseOk(Apply(s, Send(c)), s.calls[c].hands[0])
  {
    hide Addresses;
  }

  lemma SendLeavesOthers(s: State, c: CallId, q: PauseId)
    requires Enabled(s, Send(c)) && q in s.pauses && q in s.place && q != s.calls[c].hands[0] && PauseOk(s, q)
    ensures PauseOk(Apply(s, Send(c)), q)
  {
    hide Addresses;
    assert s.calls[c].hands == [s.calls[c].hands[0]] + s.calls[c].hands[1..];
  }

  lemma StepKeepsInv(s: State, step: Step)
    requires Inv(s) && Enabled(s, step)
    ensures Inv(Apply(s, step))
  {
    hide PausesOk, PendingOk, CallsOk, ServesOne, OneLivePerFlow, InboxesOk, Apply, Enabled;
    KeepsPauses(s, step);
    KeepsPending(s, step);
    KeepsCalls(s, step);
    KeepsServesOne(s, step);
    KeepsOneLive(s, step);
    KeepsInboxes(s, step);
  }

  // ----- what holds in every reachable state -----

  /** The hit of `p` is in the pending map. */
  ghost predicate IsPending(s: State, p: PauseId)
    requires p in s.pauses
  {
    var flow := s.pauses[p].hit.flow;
    flow in s.pending && s.pending[flow] == p
  }

  ghost predicate IsHeldBy(s: State, c: CallId, p: PauseId) {
    c in s.calls && p in s.calls[c].hands
  }

  /**
   A registered `Pause` that has not returned is in exactly one place: the
   pending map, the hands of exactly one call, or its own filled channel.
   */
  lemma ExactlyOnePlace(s: State, p: PauseId)
    requires Inv(s) && p in s.pauses && s.pauses[p].pc.Notifying?
    ensures var pending, answered := IsPending(s, p), s.pauses[p].channel != [];
            var held := exists c :: IsHeldBy(s, c, p);
            && (pending || held || answered)
            && !(pending && held) && !(pending && answered) && !(held && answered)
    ensures forall c, d :: IsHeldBy(s, c, p) && IsHeldBy(s, d, p) ==> c == d
    ensures forall c :: c in s.calls ==> Distinct(s.calls[c].hands)
    ensures |s.pauses[p].channel| <= ANSWER_CAPACITY
  {
    hide Distinct, Addresses;
    assert PauseOk(s, p);
    if s.place[p].With? {
      assert IsHeldBy(s, s.place[p].call, p);
    }
  }

  /** No resumer ever waits for room in a channel. */
  lemma SendsNeverBlock(s: State, c: CallId)
    requires Inv(s) && c in s.calls && s.calls[c].hands != []
    ensures Enabled(s, Send(c))
  {
    hide Distinct, Addresses;
    var p := s.calls[c].hands[0];
    assert p in s.calls[c].hands && PauseOk(s, p);
  }

  /** Neither does a notification: a full subscriber just misses it. */
  lemma NotificationsNeverBlock(s: State, p: PauseId)
    requires Inv(s) && p in s.pauses && s.pauses[p].pc.Notifying? && s.pauses[p].pc.todo != []
    ensures Enabled(s, Notify(p))
    ensures var sub, t := s.pauses[p].pc.todo[0], Apply(s, Notify(p));
            && sub in s.inboxes && sub in t.inboxes && |t.inboxes[sub]| <= INBOX_CAPACITY
            && t.inboxes[sub] ==
               if |s.inboxes[sub]| < INBOX_CAPACITY then s.inboxes[sub] + [s.pauses[p].hit] else s.inboxes[sub]
  {
    hide PausesOk, PendingOk, CallsOk, ServesOne, OneLivePerFlow;
    assert s.pauses[p].pc.todo[0] in s.pauses[p].pc.todo;
  }

  /** Once the map is empty and no call holds a hit, every waiting `Pause` has its answer. */
  lemma NobodyIsForgotten(s: State, p: PauseId)
    requires Inv(s) && s.pending == map[] && forall c :: c in s.calls ==> s.calls[c].hands == []
    requires p in s.pauses && s.pauses[p].pc.Notifying?
    ensures |s.pauses[p].channel| == 1
    ensures s.pauses[p].pc.todo == [] ==> Enabled(s, Receive(p))
  {
    hide Distinct, Addresses, PendingOk, CallsOk, OneLivePerFlow, InboxesOk, ServesOne;
    assert PauseOk(s, p);
    hide Inv, PausesOk;
  }

  /**
   A `Pause` that has notified everybody can return, or a call is about to send
   to it, or it still waits in the map for somebody to resume it.
   */
  lemma OnlyAResumeIsWaitedFor(s: State, p: PauseId)
    requires Inv(s) && p in s.pauses && s.pauses[p].pc == Notifying([])
    ensures Enabled(s, Receive(p)) || (exists c :: IsHeldBy(s, c, p) && Enabled(s, Send(c))) || IsPending(s, p)
  {
    ExactlyOnePlace(s, p);
    hide Inv;
    if c :| IsHeldBy(s, c, p) {
      SendsNeverBlock(s, c);
    }
  }

  // ----- whole runs -----

  /** The states and steps of one interleaving. */
  ghost predicate IsRun(run: seq<State>, steps: seq<Step>) {
    && |run| == |steps| + 1 && run[0] == INIT
    && forall i :: 0 <= i < |steps| ==> Enabled(run[i], steps[i]) && run[i + 1] == Apply(run[i], steps[i])
  }

  lemma {:induction false} RunInv(run: seq<State>, steps: seq<Step>, i: nat)
    requires IsRun(run, steps) && i < |run|
    ensures Inv(run[i])
  {
    hide Inv, Enabled, Apply;
    if i == 0 {
      InitInv();
    } else {
      RunInv(run, steps, i - 1);
      StepKeepsInv(run[i - 1], steps[i - 1]);
    }
  }

  /**
   A `Pause` returns only the value of one `Resume` call for its own flow, which
   answers no other `Pause`, or the skip of a `ResumeAll`.
   */
  lemma ReturnedAnswers(run: seq<State>, steps: seq<Step>, i: nat, p: PauseId)
    requires IsRun(run, steps) && i < |run| && p in run[i].pauses && run[i].pauses[p].pc.Returned?
    ensures var s := run[i];
            && p in s.place && s.place[p].Gone? && s.place[p].call in s.calls
            && var kind := s.calls[s.place[p].call].kind;
               && s.pauses[p].pc.answer == AnswerOf(kind)
               && (kind.One? ==>
                     && kind.flow == s.pauses[p].hit.flow
                     && forall q :: q in s.place && Served(s.place[q], s.place[p].call) ==> q == p)
  {
    RunInv(run, steps, i);
    assert PauseOk(run[i], p);
  }

  /** How far the answer of `p` has got; a step only ever moves it on. */
  function Stage(s: State, p: PauseId): nat {
    if p !in s.place then 0
    else match s.place[p]
    case NotYet => 1
    case InMap => 2
    case With(_) => 3
    case InChannel(_) => 4
    case Gone(_) => 5
  }

  predicate Advances(step: Step, p: PauseId, from: State) {
    || step == Register(p) || step == Receive(p) || (step.CallPause? && step.p == p)
    || (step.Take? && p in step.taken)
    || (step.Send? && step.c in from.calls && from.calls[step.c].hands != [] && from.calls[step.c].hands[0] == p)
  }

  lemma StageAdvances(s: State, step: Step, p: PauseId)
    requires Inv(s) && Enabled(s, step)
    ensures Stage(Apply(s, step), p) == Stage(s, p) + if Advances(step, p, s) then 1 else 0
  {
    hide Inv, Apply, Enabled, Stage;
    match step
    case Take(c, taken) => TakeStages(s, c, taken, p);
    case Send(c) =>
      SendStage(s, c);
      SendElsewhere(s, c, p);
    case Receive(q) =>
      ReceiveStage(s, q);
      ReceiveElsewhere(s, q, p);
    case _ => OtherStages(s, step, p);
  }

  lemma SendElsewhere(s: State, c: CallId, p: PauseId)
    requires Enabled(s, Send(c))
    ensures Advances(Send(c), p, s) <==> s.calls[c].hands[0] == p
    ensures p != s.calls[c].hands[0] ==> Stage(Apply(s, Send(c)), p) == Stage(s, p)
  {
  }

  lemma ReceiveElsewhere(s: State, q: PauseId, p: PauseId)
    requires Enabled(s, Receive(q))
    ensures p != q ==> Stage(Apply(s, Receive(q)), p) == Stage(s, p)
  {
  }

  lemma OtherStages(s: State, step: Step, p: PauseId)
    requires Inv(s) && Enabled(s, step) && !step.Take? && !step.Send? && !step.Receive?
    ensures Stage(Apply(s, step), p) == Stage(s, p) + if Advances(step, p, s) then 1 else 0
  {
    hide PendingOk, CallsOk, OneLivePerFlow, InboxesOk, ServesOne, Delivered, PauseOk;
    assert s.place.Keys == s.pauses.Keys;
    if step.Register? {
      assert PauseOk(s, step.p);
      RegisteringIsNotYet(s, step.p);
    }
    hide Inv, PausesOk;
  }

  lemma TakeStages(s: State, c: CallId, taken: seq<PauseId>, p: PauseId)
    requires Inv(s) && Enabled(s, Take(c, taken))
    ensures Stage(Apply(s, Take(c, taken)), p) == Stage(s, p) + if p in taken then 1 else 0
  {
    hide Distinct, Addresses, PausesOk, CallsOk, OneLivePerFlow, InboxesOk, ServesOne;
    TakenWereWaiting(s, c, taken);
  }

  lemma {:induction false} StageNeverFalls(run: seq<State>, steps: seq<Step>, i: nat, j: nat, p: PauseId)
    requires IsRun(run, steps) && i <= j < |run|
    ensures Stage(run[i], p) <= Stage(run[j], p)
  {
    hide Inv, Enabled, Apply, Stage, Advances;
    if i < j {
      StageNeverFalls(run, steps, i, j - 1, p);
      RunInv(run, steps, j - 1);
      StageAdvances(run[j - 1], steps[j - 1], p);
    }
  }

  /** Step `i` of a run answers the hit `p`. */
  ghost predicate AnswersAt(run: seq<State>, steps: seq<Step>, i: nat, p: PauseId)
    requires IsRun(run, steps) && i < |steps|
  {
    steps[i].Send? && run[i].calls[steps[i].c].hands[0] == p
  }

  /** No hit is answered twice, and no `Pause` returns twice. */
  lemma AnsweredAndReturnedOnce(run: seq<State>, steps: seq<Step>, i: nat, j: nat, p: PauseId)
    requires IsRun(run, steps) && i < j < |steps|
    ensures !(AnswersAt(run, steps, i, p) && AnswersAt(run, steps, j, p))
    ensures !(steps[i] == Receive(p) && steps[j] == Receive(p))
  {
    hide Inv;
    RunInv(run, steps, i);
    RunInv(run, steps, j);
    StageNeverFalls(run, steps, i + 1, j, p);
    if AnswersAt(run, steps, i, p) {
      SendStage(run[i], steps[i].c);
      if AnswersAt(run, steps, j, p) {
        SendStage(run[j], steps[j].c);
      }
    }
    if steps[i] == Receive(p) {
      ReceiveStage(run[i], p);
      if steps[j] == Receive(p) {
        ReceiveStage(run[j], p);
      }
    }
  }

  lemma SendStage(s: State, c: CallId)
    requires Inv(s) && Enabled(s, Send(c))
    ensures var p := s.calls[c].hands[0]; Stage(s, p) == 3 && Stage(Apply(s, Send(c)), p) == 4
  {
    hide Distinct, Addresses, PauseOk;
    assert s.calls[c].hands[0] in s.calls[c].hands;
  }

  lemma ReceiveStage(s: State, p: PauseId)
    requires Inv(s) && Enabled(s, Receive(p))
    ensures Stage(s, p) == 4 && Stage(Apply(s, Receive(p)), p) == 5
  {
    hide PendingOk, CallsOk, OneLivePerFlow, InboxesOk, ServesOne, PauseOk;
    assert PauseOk(s, p);
    AnsweredIsInChannel(s, p);
    hide Inv, PausesOk;
  }

  /** Which call an answer comes from, once it is sent. */
  ghost predicate SentBy(s: State, p: PauseId, c: CallId) {
    p in s.place && (s.place[p] == InChannel(c) || s.place[p] == Gone(c))
  }

  lemma SentByStays(s: State, step: Step, p: PauseId, c: CallId)
    requires Inv(s) && Enabled(s, step)
    ensures SentBy(Apply(s, step), p, c) <==>
            SentBy(s, p, c) || (step == Send(c) && s.calls[c].hands[0] == p)
  {
    hide Inv, Apply, Enabled, SentBy;
    match step
    case Take(d, taken) => TakeSendsNothing(s, d, taken, p, c);
    case Send(d) => SendSends(s, d, p, c);
    case Receive(q) => ReceiveSendsNothing(s, q, p, c);
    case _ => OthersSendNothing(s, step, p, c);
  }

  lemma SendPlace(s: State, c: CallId)
    requires Enabled(s, Send(c))
    ensures Apply(s, Send(c)).place == s.place[s.calls[c].hands[0] := InChannel(c)]
  {
  }

  lemma SendSends(s: State, d: CallId, p: PauseId, c: CallId)
    requires Inv(s) && Enabled(s, Send(d))
    ensures SentBy(Apply(s, Send(d)), p, c) <==> SentBy(s, p, c) || (d == c && s.calls[d].hands[0] == p)
  {
    hide Inv;
    SendStage(s, d);
    SendPlace(s, d);
    hide Apply, Enabled;
  }

  lemma ReceiveSendsNothing(s: State, q: PauseId, p: PauseId, c: CallId)
    requires Inv(s) && Enabled(s, Receive(q))
    ensures SentBy(Apply(s, Receive(q)), p, c) <==> SentBy(s, p, c)
  {
    hide Inv;
    ReceiveStage(s, q);
  }

  lemma OthersSendNothing(s: State, step: Step, p: PauseId, c: CallId)
    requires Inv(s) && Enabled(s, step) && !step.Take? && !step.Send? && !step.Receive?
    ensures SentBy(Apply(s, step), p, c) <==> SentBy(s, p, c)
  {
    hide PendingOk, CallsOk, OneLivePerFlow, InboxesOk, ServesOne, Delivered, PauseOk, IsLive;
    assert s.place.Keys == s.pauses.Keys;
    if step.Register? {
      assert PauseOk(s, step.p);
      RegisteringIsNotYet(s, step.p);
    }
    hide Inv, PausesOk;
  }

  lemma CallStays(s: State, step: Step, c: CallId)
    requires Enabled(s, step) && c in s.calls
    ensures c in Apply(s, step).calls && Apply(s, step).calls[c].kind == s.calls[c].kind
    ensures s.calls[c].locked && s.calls[c].hands == [] ==> Apply(s, step).calls[c] == s.calls[c]
  {
    hide Delivered, Moved, Finds, IsLive;
  }

  lemma MovedAt(place: map<PauseId, Place>, ps: seq<PauseId>, to: Place, p: PauseId)
    requires p in place
    ensures p in Moved(place, ps, to) && Moved(place, ps, to)[p] == if p in ps then to else place[p]
  {
  }

  lemma MovedKeys(place: map<PauseId, Place>, ps: seq<PauseId>, to: Place)
    ensures Moved(place, ps, to).Keys == place.Keys
  {
  }

  lemma TakenWasWaiting(s: State, d: CallId, taken: seq<PauseId>, p: PauseId)
    requires Inv(s) && Enabled(s, Take(d, taken)) && p in taken
    ensures p in s.place && s.place[p] == InMap
  {
    TakenWereWaiting(s, d, taken);
  }

  lemma TakePlace(s: State, d: CallId, taken: seq<PauseId>)
    requires Enabled(s, Take(d, taken))
    ensures Apply(s, Take(d, taken)).place == Moved(s.place, taken, With(d))
  {
    hide Moved, Finds;
  }

  lemma TakeSendsNothing(s: State, d: CallId, taken: seq<PauseId>, p: PauseId, c: CallId)
    requires Inv(s) && Enabled(s, Take(d, taken))
    ensures SentBy(Apply(s, Take(d, taken)), p, c) <==> SentBy(s, p, c)
  {
    hide Inv, Moved, Finds;
    TakePlace(s, d, taken);
    hide Apply, Enabled;
    MovedKeys(s.place, taken, With(d));
    if p in s.place {
      MovedAt(s.place, taken, With(d), p);
      if p in taken {
        TakenWasWaiting(s, d, taken, p);
      }
    }
  }

  /** An answer in a channel or past it was put there by one earlier send to this `Pause`. */
  lemma {:induction false} AnswerWasSent(run: seq<State>, steps: seq<Step>, i: nat, p: PauseId, c: CallId)
    returns (k: nat)
    requires IsRun(run, steps) && i < |run| && SentBy(run[i], p, c)
    ensures k < i && steps[k] == Send(c) && AnswersAt(run, steps, k, p)
    ensures c in run[k].calls && c in run[i].calls && run[k].calls[c].kind == run[i].calls[c].kind
  {
    hide Inv, Apply, SentBy;
    NothingSentFirst(p, c);
    RunInv(run, steps, i - 1);
    SentByStays(run[i - 1], steps[i - 1], p, c);
    if SentBy(run[i - 1], p, c) {
      k := AnswerWasSent(run, steps, i - 1, p, c);
      CallStays(run[i - 1], steps[i - 1], c);
    } else {
      CallStays(run[i - 1], steps[i - 1], c);
      k := i - 1;
    }
  }

  lemma NothingSentFirst(p: PauseId, c: CallId)
    ensures !SentBy(INIT, p, c)
  {
  }

  /**
   The value a `Pause` returns was sent to it earlier in the run, by a `Resume`
   for its own flow with that value or by a `ResumeAll` with a skip.
   */
  lemma ReturnedValueWasSent(run: seq<State>, steps: seq<Step>, i: nat, p: PauseId) returns (k: nat)
    requires IsRun(run, steps) && i < |run| && p in run[i].pauses && run[i].pauses[p].pc.Returned?
    ensures k < i && AnswersAt(run, steps, k, p)
    ensures steps[k].c in run[k].calls
    ensures match run[k].calls[steps[k].c].kind
            case One(flow, answer) => flow == run[i].pauses[p].hit.flow && answer == run[i].pauses[p].pc.answer
            case All => run[i].pauses[p].pc.answer == Answer(map[], None, true)
  {
    hide Inv, Apply, Enabled;
    ReturnedAnswers(run, steps, i, p);
    k := AnswerWasSent(run, steps, i, p, run[i].place[p].call);
  }

  /** The `Pause` is in the hands of call `c`, or answered by it. */
  ghost predicate ServedBy(s: State, p: PauseId, c: CallId) {
    p in s.place && Served(s.place[p], c)
  }

  /** Once a call has taken a hit, nobody else serves it. */
  lemma ServedByStays(s: State, step: Step, p: PauseId, c: CallId)
    requires Inv(s) && Enabled(s, step) && ServedBy(s, p, c)
    ensures ServedBy(Apply(s, step), p, c)
  {
    hide Inv, Apply, Enabled, ServedBy;
    match step
    case Take(d, taken) => TakeKeepsServed(s, d, taken, p, c);
    case Send(d) => SendKeepsServed(s, d, p, c);
    case Receive(q) => ReceiveKeepsServed(s, q, p, c);
    case _ => OthersKeepServed(s, step, p, c);
  }

  lemma TakeKeepsServed(s: State, d: CallId, taken: seq<PauseId>, p: PauseId, c: CallId)
    requires Inv(s) && Enabled(s, Take(d, taken)) && ServedBy(s, p, c)
    ensures ServedBy(Apply(s, Take(d, taken)), p, c)
  {
    hide Inv, Moved, Finds;
    TakePlace(s, d, taken);
    hide Apply, Enabled;
    MovedAt(s.place, taken, With(d), p);
    if p in taken {
      TakenWasWaiting(s, d, taken, p);
    }
  }

  lemma SendKeepsServed(s: State, d: CallId, p: PauseId, c: CallId)
    requires Inv(s) && Enabled(s, Send(d)) && ServedBy(s, p, c)
    ensures ServedBy(Apply(s, Send(d)), p, c)
  {
    hide PausesOk, PendingOk, ServesOne, OneLivePerFlow, InboxesOk, Distinct;
    assert s.calls[d].hands[0] in s.calls[d].hands;
    SendPlace(s, d);
    hide Apply, Enabled;
  }

  lemma ReceiveKeepsServed(s: State, q: PauseId, p: PauseId, c: CallId)
    requires Inv(s) && Enabled(s, Receive(q)) && ServedBy(s, p, c)
    ensures ServedBy(Apply(s, Receive(q)), p, c)
  {
    hide Inv;
    ReceiveStage(s, q);
  }

  lemma OthersKeepServed(s: State, step: Step, p: PauseId, c: CallId)
    requires Inv(s) && Enabled(s, step) && !step.Take? && !step.Send? && !step.Receive? && ServedBy(s, p, c)
    ensures ServedBy(Apply(s, step), p, c)
  {
    hide PendingOk, CallsOk, OneLivePerFlow, InboxesOk, ServesOne, Delivered, PauseOk, IsLive;
    assert s.place.Keys == s.pauses.Keys;
    if step.Register? {
      assert PauseOk(s, step.p);
      RegisteringIsNotYet(s, step.p);
    }
    hide Inv, PausesOk;
  }

  lemma {:induction false} ServedByForever(
    run: seq<State>, steps: seq<Step>, i: nat, j: nat, p: PauseId, c: CallId)
    requires IsRun(run, steps) && i <= j < |run| && c in run[i].calls && ServedBy(run[i], p, c)
    ensures ServedBy(run[j], p, c) && c in run[j].calls && run[j].calls[c].kind == run[i].calls[c].kind
  {
    hide Inv, Enabled, Apply, ServedBy;
    if i < j {
      ServedByForever(run, steps, i, j - 1, p, c);
      RunInv(run, steps, j - 1);
      ServedByStays(run[j - 1], steps[j - 1], p, c);
      CallStays(run[j - 1], steps[j - 1], c);
    }
  }

  lemma PendingIsFound(s: State, c: CallId, taken: seq<PauseId>, p: PauseId)
    requires Enabled(s, Take(c, taken)) && p in s.pauses && IsPending(s, p)
    requires c in s.calls && Addresses(s.calls[c].kind, s.pauses[p].hit.flow)
    ensures p in taken
  {
    hide Distinct;
    assert p in s.pending.Values;
  }

  /** A call takes every pending hit it is for. */
  lemma PendingIsTaken(s: State, c: CallId, taken: seq<PauseId>, p: PauseId)
    requires Inv(s) && Enabled(s, Take(c, taken)) && p in s.pauses && IsPending(s, p)
    requires c in s.calls && Addresses(s.calls[c].kind, s.pauses[p].hit.flow)
    ensures p in taken && ServedBy(Apply(s, Take(c, taken)), p, c)
  {
    hide Inv, Moved;
    PendingIsFound(s, c, taken, p);
    hide Finds;
    TakenWasWaiting(s, c, taken, p);
    TakePlace(s, c, taken);
    MovedAt(s.place, taken, With(c), p);
  }

  /**
   The call that reaches a waiting hit first decides what its `Pause` returns:
   `Resume` for its flow with the value of the call, `ResumeAll` with a skip.
   */
  lemma FirstCallDecides(run: seq<State>, steps: seq<Step>, i: nat, j: nat, p: PauseId)
    requires IsRun(run, steps) && i < j < |run| && steps[i].Take?
    requires p in run[i].pauses && IsPending(run[i], p)
    requires Addresses(run[i].calls[steps[i].c].kind, run[i].pauses[p].hit.flow)
    requires p in run[j].pauses && run[j].pauses[p].pc.Returned?
    ensures p in steps[i].taken
    ensures run[j].pauses[p].pc.answer ==
            match run[i].calls[steps[i].c].kind
            case One(_, answer) => answer
            case All => Answer(map[], None, true)
  {
    var c := steps[i].c;
    assert c in run[i].calls;
    hide Inv, Apply, Enabled, IsPending, Addresses;
    RunInv(run, steps, i);
    PendingIsTaken(run[i], c, steps[i].taken, p);
    CallStays(run[i], steps[i], c);
    assert run[i + 1] == Apply(run[i], Take(c, steps[i].taken));
    ServedByForever(run, steps, i + 1, j, p, c);
    ReturnedAnswers(run, steps, j, p);
  }

  lemma TwoDiffer(s: seq<PauseId>)
    requires Distinct(s) && |s| >= 2
    ensures s[0] != s[1]
  {
  }

  /** A `Resume` holds at most one hit. */
  lemma OneHand(s: State, c: CallId)
    requires CallsOk(s) && ServesOne(s) && c in s.calls && s.calls[c].kind.One?
    ensures |s.calls[c].hands| <= 1
  {
    var hands := s.calls[c].hands;
    forall i, j | 0 <= i < |hands| && 0 <= j < |hands| ensures hands[i] == hands[j] {
      assert hands[i] in hands && hands[j] in hands;
    }
    if |hands| >= 2 {
      TwoDiffer(hands);
    }
  }

  /** A `Resume` that has sent has nothing left to send. */
  lemma OneHandEmpties(s: State, c: CallId)
    requires Inv(s) && Enabled(s, Send(c)) && s.calls[c].kind.One?
    ensures Apply(s, Send(c)).calls[c].hands == [] && Apply(s, Send(c)).calls[c].locked
  {
    OneHand(s, c);
    hide PausesOk, PendingOk, ServesOne, OneLivePerFlow, InboxesOk, Addresses;
  }

  lemma {:induction false} EmptyHandsStay(run: seq<State>, steps: seq<Step>, i: nat, j: nat, c: CallId)
    requires IsRun(run, steps) && i <= j < |run|
    requires c in run[i].calls && run[i].calls[c].locked && run[i].calls[c].hands == []
    ensures c in run[j].calls && run[j].calls[c].locked && run[j].calls[c].hands == []
  {
    hide Enabled, Apply;
    if i < j {
      EmptyHandsStay(run, steps, i, j - 1, c);
      CallStays(run[j - 1], steps[j - 1], c);
    }
  }

  /** One `Resume` call answers at most one `Pause`, once. */
  lemma ResumeSendsOnce(run: seq<State>, steps: seq<Step>, i: nat, j: nat, c: CallId)
    requires IsRun(run, steps) && i < j < |steps| && steps[i] == Send(c) && run[i].calls[c].kind.One?
    ensures steps[j] != Send(c)
  {
    hide Inv, Apply;
    RunInv(run, steps, i);
    OneHandEmpties(run[i], c);
    assert run[i + 1] == Apply(run[i], Send(c));
    CallStays(run[i], steps[i], c);
    EmptyHandsStay(run, steps, i + 1, j, c);
  }

  /** What a `Pause` returned is final. */
  lemma {:induction false} ReturnIsFinal(run: seq<State>, steps: seq<Step>, i: nat, j: nat, p: PauseId)
    requires IsRun(run, steps) && i <= j < |run| && p in run[i].pauses && run[i].pauses[p].pc.Returned?
    ensures p in run[j].pauses && run[j].pauses[p] == run[i].pauses[p]
  {
    hide Inv, Enabled, Apply;
    if i < j {
      ReturnIsFinal(run, steps, i, j - 1, p);
      RunInv(run, steps, j - 1);
      ReturnedStays(run[j - 1], steps[j - 1], p);
    }
  }

  lemma ReturnedStays(s: State, step: Step, p: PauseId)
    requires Inv(s) && Enabled(s, step) && p in s.pauses && s.pauses[p].pc.Returned?
    ensures p in Apply(s, step).pauses && Apply(s, step).pauses[p] == s.pauses[p]
  {
    hide Distinct, Addresses, Finds, Delivered, Moved, PendingOk, OneLivePerFlow, InboxesOk, ServesOne;
    assert PauseOk(s, p);
    if step.Send? {
      assert s.calls[step.c].hands[0] in s.calls[step.c].hands;
    }
  }

  // ----- what subscribers see -----

  /** The subscribers a `Pause` has still to notify. */
  function Todo(s: State, p: PauseId): seq<SubId> {
    if p in s.pauses && s.pauses[p].pc.Notifying? then s.pauses[p].pc.todo else []
  }

  ghost predicate SubscribersOnce(s: State) {
    Distinct(s.subscribers) && forall p :: p in s.pauses ==> Distinct(Todo(s, p))
  }

  lemma StepKeepsSubscribersOnce(s: State, step: Step)
    requires InboxesOk(s) && SubscribersOnce(s) && Enabled(s, step)
    ensures SubscribersOnce(Apply(s, step))
  {
    hide Distinct;
    var t := Apply(s, step);
    if step.Subscribe? {
      NewSubscriber(s, step.sub);
    }
    forall p | p in t.pauses ensures Distinct(Todo(t, p)) {
      TodoAfter(s, step, p);
      DistinctTail(Todo(s, p));
      NothingTwice();
    }
    hide Apply, Enabled;
  }

  lemma NewSubscriber(s: State, sub: SubId)
    requires InboxesOk(s) && Distinct(s.subscribers) && sub !in s.inboxes
    ensures Distinct(s.subscribers + [sub])
  {
    DistinctLonger(s.subscribers, sub);
  }

  lemma DistinctTail(s: seq<SubId>)
    requires Distinct(s)
    ensures s != [] ==> Distinct(s[1..]) && s[0] !in s[1..]
  {
  }

  lemma NothingTwice()
    ensures Distinct<SubId>([])
  {
  }

  /** Registering copies the subscribers, and each notification takes one off the front. */
  lemma TodoAfter(s: State, step: Step, p: PauseId)
    requires Enabled(s, step)
    ensures Todo(Apply(s, step), p) ==
            if step == Register(p) then s.subscribers
            else if step == Notify(p) then Todo(s, p)[1..]
            else if step == Receive(p) then []
            else Todo(s, p)
  {
    hide Delivered, Moved, Finds, IsLive;
  }

  lemma {:induction false} RunSubscribersOnce(run: seq<State>, steps: seq<Step>, i: nat)
    requires IsRun(run, steps) && i < |run|
    ensures SubscribersOnce(run[i])
  {
    hide Inv, Enabled, Apply;
    if i == 0 {
      NothingTwice();
    } else {
      RunSubscribersOnce(run, steps, i - 1);
      RunInv(run, steps, i - 1);
      InboxesAreOk(run[i - 1]);
      StepKeepsSubscribersOnce(run[i - 1], steps[i - 1]);
    }
  }

  lemma InboxesAreOk(s: State)
    requires Inv(s)
    ensures InboxesOk(s)
  {
  }

  /** Step `i` of a run is the attempt of `p` to notify `sub`. */
  ghost predicate NotifiesAt(run: seq<State>, steps: seq<Step>, i: nat, p: PauseId, sub: SubId)
    requires IsRun(run, steps) && i < |steps|
  {
    steps[i] == Notify(p) && Todo(run[i], p)[0] == sub
  }

  /** `p` is registered and has `sub` not before it: it never will. */
  predicate Passed(s: State, p: PauseId, sub: SubId) {
    p in s.pauses && !s.pauses[p].pc.Registering? && sub !in Todo(s, p)
  }

  lemma PassedStays(s: State, step: Step, p: PauseId, sub: SubId)
    requires Enabled(s, step) && Passed(s, p, sub)
    ensures Passed(Apply(s, step), p, sub)
  {
    TodoAfter(s, step, p);
    hide Delivered, Moved, Finds, IsLive, Todo;
  }

  lemma {:induction false} PassedForever(run: seq<State>, steps: seq<Step>, i: nat, j: nat, p: PauseId, sub: SubId)
    requires IsRun(run, steps) && i <= j < |run| && Passed(run[i], p, sub)
    ensures Passed(run[j], p, sub)
  {
    hide Enabled, Apply, Passed;
    if i < j {
      PassedForever(run, steps, i, j - 1, p, sub);
      PassedStays(run[j - 1], steps[j - 1], p, sub);
    }
  }

  lemma NotifyPasses(s: State, p: PauseId)
    requires SubscribersOnce(s) && Enabled(s, Notify(p))
    ensures Todo(s, p) != [] && Passed(Apply(s, Notify(p)), p, Todo(s, p)[0])
  {
    TodoAfter(s, Notify(p), p);
    DistinctTail(Todo(s, p));
    hide Delivered, Todo, Distinct;
  }

  /** No subscriber is notified twice of one hit. */
  lemma NotifiedOnce(run: seq<State>, steps: seq<Step>, i: nat, j: nat, p: PauseId, sub: SubId)
    requires IsRun(run, steps) && i < j < |steps| && NotifiesAt(run, steps, i, p, sub)
    ensures !NotifiesAt(run, steps, j, p, sub)
  {
    hide Apply, SubscribersOnce, Todo;
    RunSubscribersOnce(run, steps, i);
    NotifyPasses(run[i], p);
    assert run[i + 1] == Apply(run[i], Notify(p));
    PassedForever(run, steps, i + 1, j, p, sub);
    if steps[j] == Notify(p) {
      RunSubscribersOnce(run, steps, j);
      NotifyPasses(run[j], p);
    }
  }

  /** A hit is for those who had subscribed when it was registered. */
  lemma {:induction false} TodoWasSubscribed(run: seq<State>, steps: seq<Step>, i: nat, p: PauseId, sub: SubId)
    returns (r: nat)
    requires IsRun(run, steps) && i < |run| && sub in Todo(run[i], p)
    ensures r < i && steps[r] == Register(p) && sub in run[r].subscribers
  {
    hide Enabled, Apply;
    if i == 0 {
      assert false;
    } else {
      TodoAfter(run[i - 1], steps[i - 1], p);
      hide Todo;
      if steps[i - 1] == Register(p) {
        r := i - 1;
      } else {
        r := TodoWasSubscribed(run, steps, i - 1, p, sub);
      }
    }
  }

  lemma SubscribersAfter(s: State, step: Step, sub: SubId)
    requires Enabled(s, step) && sub in Apply(s, step).subscribers
    ensures sub in s.subscribers || step == Step.Subscribe(sub)
  {
    hide Delivered, Moved, Finds, IsLive;
  }

  lemma {:induction false} SubscribedBefore(run: seq<State>, steps: seq<Step>, i: nat, sub: SubId) returns (q: nat)
    requires IsRun(run, steps) && i < |run| && sub in run[i].subscribers
    ensures q < i && steps[q] == Step.Subscribe(sub)
  {
    hide Enabled, Apply;
    if i == 0 {
      assert false;
    } else {
      SubscribersAfter(run[i - 1], steps[i - 1], sub);
      if steps[i - 1] == Step.Subscribe(sub) {
        q := i - 1;
      } else {
        q := SubscribedBefore(run, steps, i - 1, sub);
      }
    }
  }

  /** A notification comes after the registration of its hit, and that after the subscription. */
  lemma NotifiedAfterSubscribing(run: seq<State>, steps: seq<Step>, i: nat, p: PauseId, sub: SubId)
    returns (q: nat, r: nat)
    requires IsRun(run, steps) && i < |steps| && NotifiesAt(run, steps, i, p, sub)
    ensures q < r < i && steps[q] == Step.Subscribe(sub) && steps[r] == Register(p)
  {
    hide Apply, Todo;
    RunSubscribersOnce(run, steps, i);
    NotifyPasses(run[i], p);
    r := TodoWasSubscribed(run, steps, i, p, sub);
    q := SubscribedBefore(run, steps, r, sub);
  }

  /** Whoever had subscribed is notified before the `Pause` waits for its answer. */
  lemma {:induction false} SubscribersAreNotified(
    run: seq<State>, steps: seq<Step>, r: nat, j: nat, p: PauseId, sub: SubId)
    returns (i: nat)
    requires IsRun(run, steps) && r < j < |run| && steps[r] == Register(p) && sub in run[r].subscribers
    requires sub !in Todo(run[j], p)
    ensures r < i < j && NotifiesAt(run, steps, i, p, sub)
  {
    hide Apply, Todo;
    TodoAfter(run[j - 1], steps[j - 1], p);
    if j - 1 == r {
      assert false;
    } else if sub !in Todo(run[j - 1], p) {
      i := SubscribersAreNotified(run, steps, r, j - 1, p, sub);
    } else {
      LeavesTodo(run[j - 1], steps[j - 1], p, sub);
      i := j - 1;
    }
  }

  lemma LeavesTodo(s: State, step: Step, p: PauseId, sub: SubId)
    requires Enabled(s, step) && sub in Todo(s, p) && sub !in Todo(Apply(s, step), p)
    ensures step == Notify(p) && Todo(s, p)[0] == sub
  {
    TodoAfter(s, step, p);
    hide Apply;
  }

  /** What step `step` adds to the channel of `sub`, and what it takes out. */
  function AddedBy(s: State, step: Step, sub: SubId): seq<Hit> {
    if step.Notify? && Todo(s, step.p) != [] && Todo(s, step.p)[0] == sub
       && sub in s.inboxes && |s.inboxes[sub]| < INBOX_CAPACITY
    then [s.pauses[step.p].hit]
    else []
  }

  function Inbox(s: State, sub: SubId): seq<Hit> {
    if sub in s.inboxes then s.inboxes[sub] else []
  }

  function ReadBy(s: State, step: Step, sub: SubId): seq<Hit> {
    if step == Drain(sub) && Inbox(s, sub) != [] then [Inbox(s, sub)[0]] else []
  }

  /** All hits put into the channel of `sub` in the first `i` steps, and all it has read. */
  function DeliveredTo(run: seq<State>, steps: seq<Step>, i: nat, sub: SubId): seq<Hit>
    requires i <= |steps| <= |run|
  {
    if i == 0 then [] else DeliveredTo(run, steps, i - 1, sub) + AddedBy(run[i - 1], steps[i - 1], sub)
  }

  function ReadFrom(run: seq<State>, steps: seq<Step>, i: nat, sub: SubId): seq<Hit>
    requires i <= |steps| <= |run|
  {
    if i == 0 then [] else ReadFrom(run, steps, i - 1, sub) + ReadBy(run[i - 1], steps[i - 1], sub)
  }

  lemma InboxAfter(s: State, step: Step, sub: SubId)
    requires Enabled(s, step)
    ensures ReadBy(s, step, sub) + Inbox(Apply(s, step), sub) == Inbox(s, sub) + AddedBy(s, step, sub)
  {
    hide Moved, Finds, IsLive;
  }

  /** A subscriber reads the hits delivered to it in order, losing and repeating none. */
  lemma {:induction false} InboxIsFifo(run: seq<State>, steps: seq<Step>, i: nat, sub: SubId)
    requires IsRun(run, steps) && i <= |steps|
    ensures ReadFrom(run, steps, i, sub) + Inbox(run[i], sub) == DeliveredTo(run, steps, i, sub)
  {
    hide Enabled, Apply, AddedBy, ReadBy;
    if i > 0 {
      hide Inbox;
      var s, step := run[i - 1], steps[i - 1];
      var before, was := ReadFrom(run, steps, i - 1, sub), Inbox(s, sub);
      InboxIsFifo(run, steps, i - 1, sub);
      InboxAfter(s, step, sub);
      Reassociate(before, ReadBy(s, step, sub), Inbox(run[i], sub));
      Reassociate(before, was, AddedBy(s, step, sub));
    }
  }

  // ----- the controller's locked sections -----

  ghost predicate OneFlowEach(pending: map<FlowID, PauseId>) {
    forall f, g | f in pending && g in pending && pending[f] == pending[g] :: f == g
  }

  /** The loop of `ResumeAll` still has to visit `rest` and has listed everything else. */
  ghost predicate SoFarTaken(pending: map<FlowID, PauseId>, rest: map<FlowID, PauseId>, all: seq<PauseId>) {
    && (forall f :: f in rest ==> f in pending && rest[f] == pending[f])
    && (forall f :: f in pending ==> (f in rest <==> pending[f] !in all))
    && (forall p :: p in all ==> p in pending.Values)
    && Distinct(all)
  }

  lemma NothingTaken(pending: map<FlowID, PauseId>)
    ensures SoFarTaken(pending, pending, [])
  {
  }

  lemma TakenOneMore(pending: map<FlowID, PauseId>, rest: map<FlowID, PauseId>, all: seq<PauseId>, f: FlowID)
    requires OneFlowEach(pending) && SoFarTaken(pending, rest, all) && f in rest
    ensures SoFarTaken(pending, rest - {f}, all + [rest[f]])
  {
    var p := rest[f];
    assert p in pending.Values;
    DistinctLonger(all, p);
    hide Distinct;
  }

  lemma DistinctLonger(s: seq<PauseId>, x: PauseId)
    requires Distinct(s) && x !in s
    ensures Distinct(s + [x])
  {
  }

  lemma TakesEverything(s: State, c: CallId, all: seq<PauseId>)
    requires c in s.calls && !s.calls[c].locked && s.calls[c].kind.All?
    requires SoFarTaken(s.pending, map[], all)
    ensures Enabled(s, Take(c, all))
    ensures Apply(s, Take(c, all)).pending == map[] && Apply(s, Take(c, all)).subscribers == s.subscribers
  {
    hide Distinct, Moved;
    forall p | p in s.pending.Values ensures p in all {
      var f :| f in s.pending && s.pending[f] == p;
    }
  }

  /** The controller's own fields; `hits` holds the hit of every pending `Pause`. */
  class Controller {
    var pending: map<FlowID, PauseId>
    var hits: map<PauseId, Hit>
    var subscribers: seq<SubId>

    ghost predicate Valid()
      reads this
    {
      forall f :: f in pending ==> pending[f] in hits && hits[pending[f]].flow == f
    }

    /** The fields as a state of the protocol has them. */
    ghost predicate Represents(s: State)
      reads this
    {
      && pending == s.pending && subscribers == s.subscribers
      && forall f :: f in pending ==>
           pending[f] in s.pauses && pending[f] in hits && s.pauses[pending[f]].hit == hits[pending[f]]
    }

    constructor ()
      ensures Valid() && Represents(INIT)
    {
      pending, hits, subscribers := map[], map[], [];
    }

    /** The locked section of `Pause`: step `Register`. */
    method Enter(p: PauseId, hit: Hit, ghost s: State) returns (subs: seq<SubId>)
      requires Valid() && Represents(s) && Enabled(s, Register(p)) && s.pauses[p].hit == hit
      modifies this
      ensures Valid() && Represents(Apply(s, Register(p)))
      ensures Apply(s, Register(p)).pauses[p].pc == Notifying(subs)
    {
      pending := pending[hit.flow := p];
      hits := hits[p := hit];
      subs := subscribers;
    }

    /** The locked section of `Subscribe`. */
    method AddSubscriber(sub: SubId, ghost s: State)
      requires Valid() && Represents(s) && Enabled(s, Step.Subscribe(sub))
      modifies this`subscribers
      ensures Valid() && Represents(Apply(s, Step.Subscribe(sub)))
    {
      subscribers := subscribers + [sub];
    }

    /** The locked section of `Resume`: step `Take` of a call for one flow. */
    method TakeOne(flow: FlowID, ghost c: CallId, ghost s: State) returns (ph: Option<PauseId>)
      requires Valid() && Represents(s) && c in s.calls && !s.calls[c].locked
      requires s.calls[c].kind.One? && s.calls[c].kind.flow == flow
      modifies this`pending
      ensures Valid()
      ensures var taken := if ph.Some? then [ph.value] else [];
              Enabled(s, Take(c, taken)) && Represents(Apply(s, Take(c, taken)))
    {
      ph := if flow in pending then Some(pending[flow]) else None;
      if ph.Some? {
        pending := pending - {flow};
      } else {
        assert pending - {flow} == pending;
      }
    }

    /** The locked section of `ResumeAll`: step `Take` of a call for all flows. */
    method TakeAll(ghost c: CallId, ghost s: State) returns (all: seq<PauseId>)
      requires Valid() && Represents(s) && c in s.calls && !s.calls[c].locked && s.calls[c].kind.All?
      modifies this`pending
      ensures Valid()
      ensures Enabled(s, Take(c, all)) && Represents(Apply(s, Take(c, all)))
    {
      hide Enabled, Apply, SoFarTaken;
      assert OneFlowEach(pending);
      all := [];
      var rest := pending;
      NothingTaken(pending);
      while rest != map[]
        invariant pending == s.pending && SoFarTaken(pending, rest, all)
        decreases |rest|
      {
        var f :| f in rest;
        TakenOneMore(pending, rest, all, f);
        all := all + [rest[f]];
        rest := rest - {f};
      }
      TakesEverything(s, c, all);
      pending := map[];
    }

    /** Every pending hit once, in some order. */
    method Pending() returns (list: seq<Hit>)
      requires Valid()
      ensures Distinct(list)
      ensures forall h :: h in list <==> h.flow in pending && hits[pending[h.flow]] == h
    {
      list := [];
      var rest := pending;
      while rest != map[]
        invariant rest.Keys <= pending.Keys && forall f :: f in rest ==> rest[f] == pending[f]
        invariant Distinct(list)
        invariant forall h :: h in list <==> h.flow in pending && h.flow !in rest && hits[pending[h.flow]] == h
        decreases |rest|
      {
        var f :| f in rest;
        list := list + [hits[rest[f]]];
        rest := rest - {f};
      }
    }
  }
}
