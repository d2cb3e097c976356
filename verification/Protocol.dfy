/** What each connection goes through, told by its steps: the scripts a handler can
    follow, the token and the grant behind every tunnel, and what is left of a
    connection whose handler has ended. */
module Protocol {
  import opened Prelude
  import opened Hosts
  import opened Config
  import B = Backend
  import R = Routing
  import opened Resolution
  import opened ControlPlane
  import opened Tunnels
  import opened TunnelSafety
  import Revocation

  // ----------------------------------------------------------------- scripts

  /** The steps of the handler of `c` since the connection was accepted. */
  ghost function Own(steps: seq<Step>, c: ConnId, k: nat): seq<Step>
    requires k <= |steps|
  {
    if k == 0 || (steps[k - 1].Accept? && steps[k - 1].id == c) then []
    else if IsHandlerStep(steps[k - 1], c) then Own(steps, c, k - 1) + [steps[k - 1]]
    else Own(steps, c, k - 1)
  }

  /** The address from which the connection was accepted. */
  ghost function PeerOf(steps: seq<Step>, c: ConnId, k: nat): Option<string>
    requires k <= |steps|
  {
    if k == 0 then None
    else if steps[k - 1].Accept? && steps[k - 1].id == c then Some(steps[k - 1].peer)
    else PeerOf(steps, c, k - 1)
  }

  function Closes(c: ConnId, n: nat): seq<Step> {
    seq(n, i => CloseDisplaced(c))
  }

  /** Hello, admission, check. */
  function Greeting(c: ConnId, t: Token, g: Grant): seq<Step> {
    [StreamOpened(c), HelloRead(c, t), BackendGrants(c, g), CheckOpen(c)]
  }

  /** And then the install, with the connections it displaced being closed. */
  function Setup(c: ConnId, t: Token, g: Grant, n: nat): seq<Step> {
    Greeting(c, t, g) + [Install(c)] + Closes(c, n)
  }

  /** After an install for grant `g` the handler went on with `tail`. */
  ghost predicate Went(p: Policy, c: ConnId, g: Grant, own: seq<Step>, tail: seq<Step>) {
    exists t: Token, n: nat :: MayGrant(p, t, g) && own == Setup(c, t, g, n) + tail
  }

  ghost predicate AdmittedBy(p: Policy, c: ConnId, g: Grant, own: seq<Step>, t: Token) {
    MayGrant(p, t, g) && own == [StreamOpened(c), HelloRead(c, t), BackendGrants(c, g)]
  }

  ghost predicate CheckedBy(p: Policy, c: ConnId, g: Grant, own: seq<Step>, t: Token) {
    MayGrant(p, t, g) && own == Greeting(c, t, g)
  }

  predicate Refused(c: ConnId, own: seq<Step>, t: Token) {
    own == [StreamOpened(c), HelloRefused(c)] || own == [StreamOpened(c), HelloRead(c, t), BackendRefuses(c)]
  }

  predicate RejectedBy(c: ConnId, own: seq<Step>, t: Token) {
    || own == [StreamOpened(c), HelloRefused(c), RejectClosed(c)]
    || own == [StreamOpened(c), HelloRead(c, t), BackendRefuses(c), RejectClosed(c)]
  }

  function Held(c: ConnId): seq<Step> {
    [AllDisplacedClosed(c), WelcomeSent(c), Register(c)]
  }

  /** The welcome could not be sent, and the routes were taken back. */
  function Undone(c: ConnId): seq<Step> {
    [AllDisplacedClosed(c), WelcomeFailed(c), Undo(c)]
  }

  /** The tunnel was held until its peer was gone or the server shut down. */
  ghost predicate WentDown(p: Policy, c: ConnId, g: Grant, own: seq<Step>) {
    || Went(p, c, g, own, Held(c) + [PeerGone(c), Remove(c), Unregister(c)])
    || Went(p, c, g, own, Held(c) + [ShutDown(c), Remove(c), Unregister(c)])
  }

  /** The complete scripts. */
  ghost predicate Complete(p: Policy, c: ConnId, own: seq<Step>) {
    || own == [StreamFailed(c)]
    || own == [StreamTimeout(c)]
    || own == [StreamOpened(c), HelloEof(c)]
    || (exists t: Token :: RejectedBy(c, own, t))
    || (exists t: Token, g :: CheckedBy(p, c, g, own, t))
    || (exists g :: Went(p, c, g, own, Undone(c)))
    || (exists g :: WentDown(p, c, g, own))
  }

  /** The script that leads to each phase. */
  ghost predicate Explains(p: Policy, c: ConnId, own: seq<Step>, phase: Phase) {
    match phase
    case AwaitStream => own == []
    case AwaitHello => own == [StreamOpened(c)]
    case AwaitAdmit(t) => own == [StreamOpened(c), HelloRead(c, t)]
    case Admitted(g) => exists t: Token :: AdmittedBy(p, c, g, own, t)
    case Installing(g) => exists t: Token :: CheckedBy(p, c, g, own, t)
    case Closing(g, _) => Went(p, c, g, own, [])
    case Welcoming(g) => Went(p, c, g, own, [AllDisplacedClosed(c)])
    case Undoing(g) => Went(p, c, g, own, [AllDisplacedClosed(c), WelcomeFailed(c)])
    case Registering(g) => Went(p, c, g, own, [AllDisplacedClosed(c), WelcomeSent(c)])
    case Holding(g) => Went(p, c, g, own, Held(c))
    case Removing(g) => Went(p, c, g, own, Held(c) + [PeerGone(c)]) || Went(p, c, g, own, Held(c) + [ShutDown(c)])
    case Unregistering(g) =>
      || Went(p, c, g, own, Held(c) + [PeerGone(c), Remove(c)])
      || Went(p, c, g, own, Held(c) + [ShutDown(c), Remove(c)])
    case Rejecting => exists t: Token :: Refused(c, own, t)
    case Done => Complete(p, c, own)
  }

  // ------------------------------------------------- each step extends a script

  lemma WentOn(p: Policy, c: ConnId, g: Grant, own: seq<Step>, tail: seq<Step>, step: Step)
    requires Went(p, c, g, own, tail)
    ensures Went(p, c, g, own + [step], tail + [step])
  {
    var t: Token, n: nat :| MayGrant(p, t, g) && own == Setup(c, t, g, n) + tail;
    assert own + [step] == Setup(c, t, g, n) + (tail + [step]);
  }

  lemma WentOnClosing(p: Policy, c: ConnId, g: Grant, own: seq<Step>)
    requires Went(p, c, g, own, [])
    ensures Went(p, c, g, own + [CloseDisplaced(c)], [])
  {
    var t: Token, n: nat :| MayGrant(p, t, g) && own == Setup(c, t, g, n) + [];
    assert Closes(c, n) + [CloseDisplaced(c)] == Closes(c, n + 1);
    assert own + [CloseDisplaced(c)] == Setup(c, t, g, n + 1) + [];
  }

  lemma WentOnInstall(p: Policy, c: ConnId, g: Grant, own: seq<Step>, t: Token)
    requires CheckedBy(p, c, g, own, t)
    ensures Went(p, c, g, own + [Install(c)], [])
  {
    assert Closes(c, 0) == [];
    assert own + [Install(c)] == Setup(c, t, g, 0) + [];
  }

  lemma HandshakeExplained(p: Policy, s: State, step: Step, own: seq<Step>)
    requires Enabled(p, s, step) && IsHandshake(step) && !step.BackendGrants? && !step.CheckOpen?
    requires Explains(p, step.id, own, s.handlers[step.id].phase)
    ensures Explains(p, step.id, own + [step], Apply(p, s, step).handlers[step.id].phase)
  {
    var c := step.id;
    var any: Token := seq(32, i => 0);
    match step {
      case HelloRefused(_) => assert Refused(c, own + [step], any);
      case BackendRefuses(_) =>
        assert Refused(c, own + [step], s.handlers[c].phase.token);
      case _ =>
    }
  }

  lemma AdmissionExplained(p: Policy, s: State, step: Step, own: seq<Step>)
    requires Enabled(p, s, step) && (step.BackendGrants? || step.CheckOpen?)
    requires Explains(p, step.id, own, s.handlers[step.id].phase)
    ensures Explains(p, step.id, own + [step], Apply(p, s, step).handlers[step.id].phase)
  {
    var c, ph := step.id, s.handlers[step.id].phase;
    if step.BackendGrants? {
      assert AdmittedBy(p, c, step.grant, own + [step], ph.token);
    } else {
      var t: Token :| AdmittedBy(p, c, ph.grant, own, t);
      assert CheckedBy(p, c, ph.grant, own + [step], t);
    }
  }

  lemma RejectionExplained(p: Policy, s: State, step: Step, own: seq<Step>)
    requires Enabled(p, s, step) && step.RejectClosed?
    requires Explains(p, step.id, own, s.handlers[step.id].phase)
    ensures Explains(p, step.id, own + [step], Apply(p, s, step).handlers[step.id].phase)
  {
    var t: Token :| Refused(step.id, own, t);
    assert RejectedBy(step.id, own + [step], t);
  }

  lemma SetupExplained(p: Policy, s: State, step: Step, own: seq<Step>)
    requires Enabled(p, s, step) && (step.Install? || step.CloseDisplaced? || step.AllDisplacedClosed?)
    requires Explains(p, step.id, own, s.handlers[step.id].phase)
    ensures Explains(p, step.id, own + [step], Apply(p, s, step).handlers[step.id].phase)
  {
    var c, g := step.id, s.handlers[step.id].phase.grant;
    match step {
      case Install(_) =>
        var t: Token :| CheckedBy(p, c, g, own, t);
        WentOnInstall(p, c, g, own, t);
      case CloseDisplaced(_) => WentOnClosing(p, c, g, own);
      case AllDisplacedClosed(_) =>
        WentOn(p, c, g, own, [], step);
        assert [] + [step] == [AllDisplacedClosed(c)];
    }
  }

  lemma WelcomeExplained(p: Policy, s: State, step: Step, own: seq<Step>)
    requires Enabled(p, s, step) && (step.WelcomeSent? || step.WelcomeFailed?)
    requires Explains(p, step.id, own, s.handlers[step.id].phase)
    ensures Explains(p, step.id, own + [step], Apply(p, s, step).handlers[step.id].phase)
  {
    var c, g := step.id, s.handlers[step.id].phase.grant;
    WentOn(p, c, g, own, [AllDisplacedClosed(c)], step);
    assert [AllDisplacedClosed(c)] + [step] == [AllDisplacedClosed(c), step];
  }

  lemma RegisterExplained(p: Policy, s: State, c: ConnId, own: seq<Step>)
    requires Enabled(p, s, Register(c)) && Explains(p, c, own, s.handlers[c].phase)
    ensures Explains(p, c, own + [Register(c)], Apply(p, s, Register(c)).handlers[c].phase)
  {
    var tail := [AllDisplacedClosed(c), WelcomeSent(c)];
    WentOn(p, c, s.handlers[c].phase.grant, own, tail, Register(c));
    assert tail + [Register(c)] == Held(c);
  }

  lemma UndoExplained(p: Policy, s: State, c: ConnId, own: seq<Step>)
    requires Enabled(p, s, Undo(c)) && Explains(p, c, own, s.handlers[c].phase)
    ensures Explains(p, c, own + [Undo(c)], Apply(p, s, Undo(c)).handlers[c].phase)
  {
    var g := s.handlers[c].phase.grant;
    var tail := [AllDisplacedClosed(c), WelcomeFailed(c)];
    WentOn(p, c, g, own, tail, Undo(c));
    assert tail + [Undo(c)] == Undone(c);
  }

  lemma EndOfHold(p: Policy, s: State, step: Step, own: seq<Step>)
    requires Enabled(p, s, step) && (step.PeerGone? || step.ShutDown?)
    requires Explains(p, step.id, own, s.handlers[step.id].phase)
    ensures Explains(p, step.id, own + [step], Apply(p, s, step).handlers[step.id].phase)
  {
    WentOn(p, step.id, s.handlers[step.id].phase.grant, own, Held(step.id), step);
  }

  /** Removal of the routes, then of the registry entry, after the same cause. */
  lemma WentOnAfter(p: Policy, c: ConnId, g: Grant, own: seq<Step>, cause: Step, before: seq<Step>, step: Step)
    requires Went(p, c, g, own, Held(c) + ([cause] + before))
    ensures Went(p, c, g, own + [step], Held(c) + ([cause] + before + [step]))
  {
    WentOn(p, c, g, own, Held(c) + ([cause] + before), step);
    assert Held(c) + ([cause] + before) + [step] == Held(c) + ([cause] + before + [step]);
  }

  lemma RemoveExplained(p: Policy, s: State, c: ConnId, own: seq<Step>)
    requires Enabled(p, s, Remove(c)) && Explains(p, c, own, s.handlers[c].phase)
    ensures Explains(p, c, own + [Remove(c)], Apply(p, s, Remove(c)).handlers[c].phase)
  {
    var g := s.handlers[c].phase.grant;
    forall cause | Went(p, c, g, own, Held(c) + [cause])
      ensures Went(p, c, g, own + [Remove(c)], Held(c) + [cause, Remove(c)])
    {
      assert [cause] + [] == [cause] && [cause] + [] + [Remove(c)] == [cause, Remove(c)];
      WentOnAfter(p, c, g, own, cause, [], Remove(c));
    }
  }

  lemma UnregisterExplained(p: Policy, s: State, c: ConnId, own: seq<Step>)
    requires Enabled(p, s, Unregister(c)) && Explains(p, c, own, s.handlers[c].phase)
    ensures Explains(p, c, own + [Unregister(c)], Apply(p, s, Unregister(c)).handlers[c].phase)
  {
    WentDownAfter(p, s, c, own);
  }

  lemma OwnStepExplained(p: Policy, s: State, step: Step, own: seq<Step>)
    requires Enabled(p, s, step) && !IsAmbient(step) && !step.Accept?
    requires Explains(p, step.id, own, s.handlers[step.id].phase)
    ensures Explains(p, step.id, own + [step], Apply(p, s, step).handlers[step.id].phase)
  {
    if step.BackendGrants? || step.CheckOpen? {
      AdmissionExplained(p, s, step, own);
    } else if IsHandshake(step) {
      HandshakeExplained(p, s, step, own);
    } else if step.RejectClosed? {
      RejectionExplained(p, s, step, own);
    } else if step.Install? || step.CloseDisplaced? || step.AllDisplacedClosed? {
      SetupExplained(p, s, step, own);
    } else if step.WelcomeSent? || step.WelcomeFailed? {
      WelcomeExplained(p, s, step, own);
    } else {
      match step {
        case Undo(c) => UndoExplained(p, s, c, own);
        case Register(c) => RegisterExplained(p, s, c, own);
        case PeerGone(_) => EndOfHold(p, s, step, own);
        case ShutDown(_) => EndOfHold(p, s, step, own);
        case Remove(c) => RemoveExplained(p, s, c, own);
        case Unregister(c) => UnregisterExplained(p, s, c, own);
      }
    }
  }

  // ------------------------------------------------------------ who closes whom

  /** The step closes the connection: its peer, its own handler that gives up on it,
      a revocation, or the handler of the connection that displaced it. */
  ghost predicate ClosesIt(s: State, step: Step, c: ConnId) {
    || step == PeerCloses(c) || step == StreamTimeout(c) || step == RejectClosed(c)
    || step == ShutDown(c) || step == CloseRevoked(c)
    || (step.CloseDisplaced? && step.id in s.handlers && Displaced(s.handlers[step.id].phase) != []
        && Displaced(s.handlers[step.id].phase)[0] == c)
  }

  lemma QuietClosesExactly(s: State, step: Step, c: ConnId)
    requires IsQuiet(step) && Enabled(AnyBackend, s, step) && step.id in s.handlers
    ensures c in QuietCloses(s, step) <==> ClosesIt(s, step, c)
  {
    if IsHandshake(step) {
    } else {
    }
  }

  lemma AmbientClosesExactly(p: Policy, s: State, step: Step, c: ConnId)
    requires Enabled(p, s, step) && IsAmbient(step)
    ensures c in Apply(p, s, step).closed <==> c in s.closed || ClosesIt(s, step, c)
  {
  }

  /** A connection is closed by such a step and by no other, and stays so until its
      id is reused. */
  lemma ClosedExactly(p: Policy, s: State, step: Step, c: ConnId)
    requires Enabled(p, s, step)
    ensures c in Apply(p, s, step).closed
            <==> (c in s.closed && !(step.Accept? && step.id == c)) || ClosesIt(s, step, c)
  {
    if IsQuiet(step) {
      QuietEffect(p, s, step);
      QuietClosesExactly(s, step, c);
    } else if IsAmbient(step) {
      AmbientClosesExactly(p, s, step, c);
    }
  }

  // ------------------------------------------------------------- along a trace

  /** The endings that leave the connection to its peer. */
  predicate OpenEnding(c: ConnId, own: seq<Step>) {
    own == [StreamFailed(c)] || own == [StreamOpened(c), HelloEof(c)] || (own != [] && own[|own| - 1] == Undo(c))
  }

  /** The event announces the tunnel of grant `g`. */
  predicate Announces(e: Event, g: Grant, peer: string) {
    && e.TunnelUp? && e.client == g.client && e.peer == peer && |e.hostnames| == |g.hosts|
    && forall i :: 0 <= i < |g.hosts| ==> e.hostnames[i] == g.hosts[i].host
  }

  /** What is left of a connection whose handler has ended: the events of its grant
      if it was held, else none; and it is closed unless left to its peer. */
  ghost predicate EndedWell(p: Policy, s: State, c: ConnId, own: seq<Step>)
    requires c in s.handlers
  {
    var h := s.handlers[c];
    h.phase.Done? ==>
      && (c in s.closed || OpenEnding(c, own))
      && (h.events == [] ==> own == [] || own[|own| - 1] != Unregister(c))
      && (h.events != [] ==> exists g :: WentDown(p, c, g, own) && Announces(h.events[0], g, h.peer)
                                         && h.events[1..] == [TunnelDown(g.client, h.peer)])
  }

  ghost predicate Told(p: Policy, s: State, c: ConnId, own: seq<Step>, peer: Option<string>) {
    c in s.handlers ==>
      Explains(p, c, own, s.handlers[c].phase) && peer == Some(s.handlers[c].peer) && EndedWell(p, s, c, own)
  }

  lemma UnregisterTells(p: Policy, s: State, c: ConnId, own: seq<Step>)
    requires Inv(s) && Revocation.EndingIsClosed(s) && Enabled(p, s, Unregister(c))
    requires Explains(p, c, own, s.handlers[c].phase)
    ensures EndedWell(p, Apply(p, s, Unregister(c)), c, own + [Unregister(c)])
  {
    var h, g := s.handlers[c], s.handlers[c].phase.grant;
    UnregisterExplained(p, s, c, own);
    assert HistoryOk(h) && EntryOk(s.tunnels, c, h);
    var after := Apply(p, s, Unregister(c)).handlers[c];
    assert after.events == [UpOf(InfoOf(g, h.peer)), TunnelDown(g.client, h.peer)];
    WentDownAfter(p, s, c, own);
    assert WentDown(p, c, g, own + [Unregister(c)]) && Announces(after.events[0], g, h.peer);
  }

  lemma WentDownAfter(p: Policy, s: State, c: ConnId, own: seq<Step>)
    requires Enabled(p, s, Unregister(c)) && Explains(p, c, own, s.handlers[c].phase)
    ensures WentDown(p, c, s.handlers[c].phase.grant, own + [Unregister(c)])
  {
    var g := s.handlers[c].phase.grant;
    forall cause | Went(p, c, g, own, Held(c) + [cause, Remove(c)])
      ensures Went(p, c, g, own + [Unregister(c)], Held(c) + [cause, Remove(c), Unregister(c)])
    {
      assert [cause] + [Remove(c)] == [cause, Remove(c)];
      assert [cause] + [Remove(c)] + [Unregister(c)] == [cause, Remove(c), Unregister(c)];
      WentOnAfter(p, c, g, own, cause, [Remove(c)], Unregister(c));
    }
  }

  /** The other steps that end a handler: no event, and closed unless left to the peer. */
  lemma EndingTells(p: Policy, s: State, step: Step, own: seq<Step>)
    requires Inv(s) && Enabled(p, s, step) && !IsAmbient(step) && !step.Accept? && !step.Unregister?
    requires Explains(p, step.id, own, s.handlers[step.id].phase)
    requires Apply(p, s, step).handlers[step.id].phase.Done?
    ensures EndedWell(p, Apply(p, s, step), step.id, own + [step])
  {
    assert HistoryOk(s.handlers[step.id]);
    ClosedExactly(p, s, step, step.id);
    if IsHandshake(step) {
    } else if step.RejectClosed? {
    } else {
      assert step.Undo?;
    }
  }

  lemma OwnStepKeepsPeer(p: Policy, s: State, step: Step)
    requires Enabled(p, s, step) && !IsAmbient(step) && !step.Accept?
    ensures Apply(p, s, step).handlers[step.id].peer == s.handlers[step.id].peer
  {
    if IsQuiet(step) {
      QuietEffect(p, s, step);
    }
  }

  lemma OwnStepTells(p: Policy, s: State, step: Step, own: seq<Step>, peer: Option<string>)
    requires Inv(s) && Revocation.EndingIsClosed(s) && Enabled(p, s, step) && !IsAmbient(step) && !step.Accept?
    requires Told(p, s, step.id, own, peer)
    ensures Told(p, Apply(p, s, step), step.id, own + [step], peer)
  {
    OwnStepExplained(p, s, step, own);
    OwnStepKeepsPeer(p, s, step);
    if step.Unregister? {
      UnregisterTells(p, s, step.id, own);
    } else if Apply(p, s, step).handlers[step.id].phase.Done? {
      EndingTells(p, s, step, own);
    }
  }

  lemma OtherStepTells(p: Policy, s: State, step: Step, c: ConnId, own: seq<Step>, peer: Option<string>)
    requires Enabled(p, s, step) && !IsHandlerStep(step, c) && !(step.Accept? && step.id == c)
    requires Told(p, s, c, own, peer)
    ensures Told(p, Apply(p, s, step), c, own, peer)
  {
    ClosedExactly(p, s, step, c);
    if IsAmbient(step) {
      AmbientLeavesHandlers(p, s, step);
    } else {
      OwnStepIsLocal(p, s, step, c);
    }
  }

  lemma AcceptTells(p: Policy, s: State, c: ConnId, peer: string)
    requires Enabled(p, s, Accept(c, peer))
    ensures Told(p, Apply(p, s, Accept(c, peer)), c, [], Some(peer))
  {
  }

  lemma {:induction false} TraceTells(p: Policy, run: seq<State>, steps: seq<Step>, c: ConnId, k: nat)
    requires IsTrace(p, run, steps) && k <= |steps|
    ensures Told(p, run[k], c, Own(steps, c, k), PeerOf(steps, c, k))
    decreases k
  {
    if k > 0 {
      TraceTells(p, run, steps, c, k - 1);
      TraceStepTells(p, run, steps, c, k - 1);
    }
  }

  lemma TraceStepTells(p: Policy, run: seq<State>, steps: seq<Step>, c: ConnId, k: nat)
    requires IsTrace(p, run, steps) && k < |steps|
    requires Told(p, run[k], c, Own(steps, c, k), PeerOf(steps, c, k))
    ensures Told(p, run[k + 1], c, Own(steps, c, k + 1), PeerOf(steps, c, k + 1))
  {
    var s, step, own, peer := run[k], steps[k], Own(steps, c, k), PeerOf(steps, c, k);
    assert Took(p, s, step, run[k + 1]);
    if step.Accept? && step.id == c {
      AcceptTells(p, s, c, step.peer);
    } else if IsHandlerStep(step, c) {
      RunKeeps(p, run, k);
      Revocation.RunKeepsEnding(p, run, k);
      OwnStepTells(p, s, step, own, peer);
    } else {
      OtherStepTells(p, s, step, c, own, peer);
    }
  }

  // ------------------------------------------------------ what the traces promise

  /** In every state of every run each handler is where one of the scripts leads, and
      it has ended exactly if the script is complete. */
  lemma ScriptsAreFollowed(p: Policy, run: seq<State>, steps: seq<Step>, k: nat, c: ConnId)
    requires IsTrace(p, run, steps) && k <= |steps| && c in run[k].handlers
    ensures Explains(p, c, Own(steps, c, k), run[k].handlers[c].phase)
    ensures PeerOf(steps, c, k) == Some(run[k].handlers[c].peer)
  {
    TraceTells(p, run, steps, c, k);
  }

  /** A handler that has ended leaves its connection closed, unless the stream failed,
      the peer ended it before a hello, or the welcome could not be sent; and its
      events are those of its grant if the tunnel was held, none otherwise. */
  lemma EndedHandlersEndWell(p: Policy, run: seq<State>, steps: seq<Step>, k: nat, c: ConnId)
    requires IsTrace(p, run, steps) && k <= |steps| && c in run[k].handlers
    ensures EndedWell(p, run[k], c, Own(steps, c, k))
  {
    TraceTells(p, run, steps, c, k);
  }

  lemma WentStarts(p: Policy, c: ConnId, g: Grant, own: seq<Step>, tail: seq<Step>) returns (t: Token)
    requires Went(p, c, g, own, tail)
    ensures |own| >= 5 && own[1] == HelloRead(c, t) && own[2] == BackendGrants(c, g) && MayGrant(p, t, g)
  {
    var n: nat;
    t, n :| MayGrant(p, t, g) && own == Setup(c, t, g, n) + tail;
  }

  /** The hello with this token and this answer of the backend are what the handler saw. */
  ghost predicate Presented(own: seq<Step>, c: ConnId, t: Token, g: Grant) {
    |own| >= 5 && own[1] == HelloRead(c, t) && own[2] == BackendGrants(c, g)
  }

  lemma RoutedWasGranted(p: Policy, c: ConnId, own: seq<Step>, phase: Phase, g: Grant) returns (t: Token)
    requires Explains(p, c, own, phase) && (RoutedGrant(phase) == Some(g) || RegisteredGrant(phase) == Some(g))
    ensures Presented(own, c, t, g) && MayGrant(p, t, g)
  {
    match phase {
      case Closing(_, _) => t := WentStarts(p, c, g, own, []);
      case Welcoming(_) => t := WentStarts(p, c, g, own, [AllDisplacedClosed(c)]);
      case Undoing(_) => t := WentStarts(p, c, g, own, [AllDisplacedClosed(c), WelcomeFailed(c)]);
      case Registering(_) => t := WentStarts(p, c, g, own, [AllDisplacedClosed(c), WelcomeSent(c)]);
      case Holding(_) => t := WentStarts(p, c, g, own, Held(c));
      case Removing(_) =>
        var tail := if Went(p, c, g, own, Held(c) + [PeerGone(c)]) then Held(c) + [PeerGone(c)] else Held(c) + [ShutDown(c)];
        t := WentStarts(p, c, g, own, tail);
      case Unregistering(_) =>
        var tail := if Went(p, c, g, own, Held(c) + [PeerGone(c), Remove(c)]) then Held(c) + [PeerGone(c), Remove(c)]
                    else Held(c) + [ShutDown(c), Remove(c)];
        t := WentStarts(p, c, g, own, tail);
    }
  }

  /** Every connection under a host presented a token for which the backend granted
      the host to the client of the entry. */
  lemma ListedTunnelsWereGranted(p: Policy, run: seq<State>, steps: seq<Step>, k: nat, h: string, c: ConnId)
    returns (t: Token, g: Grant)
    requires IsTrace(p, run, steps) && k <= |steps| && R.Lists(run[k].view.inner, h, c)
    ensures Presented(Own(steps, c, k), c, t, g) && MayGrant(p, t, g)
    ensures g.client == run[k].view.inner[h].client && h in B.HostSet(g.hosts)
  {
    RunKeeps(p, run, k);
    assert ListedRightly(run[k], h, c);
    g :| RunsWith(run[k], c, g) && g.client == run[k].view.inner[h].client && h in B.HostSet(g.hosts);
    TraceTells(p, run, steps, c, k);
    t := RoutedWasGranted(p, c, Own(steps, c, k), run[k].handlers[c].phase, g);
  }

  /** With a config file: the token in the hello of a connection under a host is that
      of the client that has the host, and the last entry with this token. */
  lemma ListedTunnelsPresentedTheirToken(
    cfg: ServerConfig, run: seq<State>, steps: seq<Step>, k: nat, h: string, c: ConnId)
    returns (t: Token, i: nat)
    requires IsTrace(StaticBackend(cfg), run, steps) && k <= |steps| && R.Lists(run[k].view.inner, h, c)
    ensures |Own(steps, c, k)| >= 2 && Own(steps, c, k)[1] == HelloRead(c, t)
    ensures B.LastWithToken(cfg.clients, t, i) && cfg.clients[i].name == run[k].view.inner[h].client
  {
    var g;
    t, g := ListedTunnelsWereGranted(StaticBackend(cfg), run, steps, k, h, c);
    var j :| B.LastWithToken(cfg.clients, t, j) && g == B.GrantOf(cfg, cfg.clients[j]);
    i := j;
  }

  /** A registered tunnel has the client and the hostnames of its grant, in order, and
      the address it was accepted from. */
  lemma RegisteredAsGranted(p: Policy, run: seq<State>, steps: seq<Step>, k: nat, id: ConnId)
    returns (t: Token, g: Grant)
    requires IsTrace(p, run, steps) && k <= |steps| && id in run[k].tunnels
    ensures Presented(Own(steps, id, k), id, t, g) && MayGrant(p, t, g)
    ensures var info := run[k].tunnels[id];
            && info.client == g.client && Some(info.peer) == PeerOf(steps, id, k) && |info.hostnames| == |g.hosts|
            && (forall i :: 0 <= i < |g.hosts| ==> info.hostnames[i] == g.hosts[i].host)
            && id in run[k].handlers
            && run[k].handlers[id].events == [TunnelUp(info.client, info.peer, info.hostnames)]
  {
    RunKeeps(p, run, k);
    assert EntryOk(run[k].tunnels, id, run[k].handlers[id]) && HistoryOk(run[k].handlers[id]);
    g := RegisteredGrant(run[k].handlers[id].phase).value;
    TraceTells(p, run, steps, id, k);
    t := RoutedWasGranted(p, id, Own(steps, id, k), run[k].handlers[id].phase, g);
  }

  // ------------------------------------------------------------------ refusals

  lemma {:induction false} OwnGrows(steps: seq<Step>, c: ConnId, j: nat, k: nat)
    requires j <= k <= |steps|
    requires forall l :: j <= l < k ==> !(steps[l].Accept? && steps[l].id == c)
    ensures Own(steps, c, j) <= Own(steps, c, k)
    decreases k
  {
    if j < k {
      OwnGrows(steps, c, j, k - 1);
    }
  }

  predicate IsRefusal(step: Step, c: ConnId) {
    step == BackendRefuses(c) || step == HelloRefused(c)
  }

  lemma WentEnds(p: Policy, c: ConnId, g: Grant, own: seq<Step>, tail: seq<Step>)
    requires Went(p, c, g, own, tail) && tail != []
    ensures own != [] && own[|own| - 1] == tail[|tail| - 1]
  {
    var t: Token, n: nat :| MayGrant(p, t, g) && own == Setup(c, t, g, n) + tail;
  }

  lemma WentDownEnds(p: Policy, c: ConnId, g: Grant, own: seq<Step>)
    requires WentDown(p, c, g, own)
    ensures own != [] && own[|own| - 1] == Unregister(c)
  {
    var gone := Held(c) + [PeerGone(c), Remove(c), Unregister(c)];
    var down := Held(c) + [ShutDown(c), Remove(c), Unregister(c)];
    WentEnds(p, c, g, own, if Went(p, c, g, own, gone) then gone else down);
  }

  lemma OnlyUndoneEndsSo(p: Policy, c: ConnId, own: seq<Step>)
    requires Complete(p, c, own)
    ensures own != [] && (own[|own| - 1] == Undo(c) ==> exists g :: Went(p, c, g, own, Undone(c)))
  {
    forall g | WentDown(p, c, g, own) ensures own != [] && own[|own| - 1] == Unregister(c) {
      WentDownEnds(p, c, g, own);
    }
    forall g | Went(p, c, g, own, Undone(c)) ensures own != [] {
      WentEnds(p, c, g, own, Undone(c));
    }
  }

  /** Only a granted connection is undone. */
  lemma UndoneWasGranted(p: Policy, c: ConnId, own: seq<Step>)
    requires Complete(p, c, own) && own != [] && own[|own| - 1] == Undo(c)
    ensures |own| >= 3 && own[1].HelloRead? && own[2].BackendGrants?
  {
    OnlyUndoneEndsSo(p, c, own);
    var g :| Went(p, c, g, own, Undone(c));
    var t := WentStarts(p, c, g, own, Undone(c));
  }

  /** A complete script that begins with a refusal ends with the close. */
  lemma RefusedScriptIsRejected(p: Policy, c: ConnId, own: seq<Step>, o: seq<Step>, t: Token)
    requires Complete(p, c, own) && Refused(c, o, t) && o <= own
    ensures !OpenEnding(c, own)
  {
    assert forall i :: 0 <= i < |o| ==> own[i] == o[i];
    if own[|own| - 1] == Undo(c) {
      UndoneWasGranted(p, c, own);
    }
  }

  lemma EndedState(p: Policy, run: seq<State>, steps: seq<Step>, c: ConnId, k: nat)
    requires IsTrace(p, run, steps) && k <= |steps| && c in run[k].handlers && run[k].handlers[c].phase.Done?
    ensures Complete(p, c, Own(steps, c, k)) && (c in run[k].closed || OpenEnding(c, Own(steps, c, k)))
  {
    TraceTells(p, run, steps, c, k);
  }

  /** A refused connection, by the backend or for its hello, is closed when its
      handler ends, and stays closed until the id is reused. */
  lemma RefusedAreClosed(p: Policy, run: seq<State>, steps: seq<Step>, c: ConnId, j: nat, k: nat)
    requires IsTrace(p, run, steps) && j < k <= |steps| && IsRefusal(steps[j], c)
    requires forall l :: j < l < k ==> !(steps[l].Accept? && steps[l].id == c)
    requires c in run[k].handlers && run[k].handlers[c].phase.Done?
    ensures c in run[k].closed
  {
    var t := RefusedAt(p, run, steps, c, j);
    EndedState(p, run, steps, c, k);
    RefusedEnds(p, steps, c, j + 1, k, t);
  }

  lemma RefusedEnds(p: Policy, steps: seq<Step>, c: ConnId, j: nat, k: nat, t: Token)
    requires j <= k <= |steps| && Refused(c, Own(steps, c, j), t) && Complete(p, c, Own(steps, c, k))
    requires forall l :: j <= l < k ==> !(steps[l].Accept? && steps[l].id == c)
    ensures !OpenEnding(c, Own(steps, c, k))
  {
    OwnGrows(steps, c, j, k);
    RefusedScriptIsRejected(p, c, Own(steps, c, k), Own(steps, c, j), t);
  }

  lemma RefusalRejects(p: Policy, s: State, step: Step, c: ConnId)
    requires Enabled(p, s, step) && IsRefusal(step, c)
    ensures var after := Apply(p, s, step).handlers; c in after && after[c].phase == Rejecting
  {
  }

  lemma RefusedAt(p: Policy, run: seq<State>, steps: seq<Step>, c: ConnId, j: nat) returns (t: Token)
    requires IsTrace(p, run, steps) && j < |steps| && IsRefusal(steps[j], c)
    ensures Refused(c, Own(steps, c, j + 1), t)
  {
    TraceTells(p, run, steps, c, j + 1);
    assert Took(p, run[j], steps[j], run[j + 1]);
    RefusalRejects(p, run[j], steps[j], c);
    t :| Refused(c, Own(steps, c, j + 1), t);
  }

  // ------------------------------------------------ shutdown and provisioning

  lemma CancelExactly(p: Policy, s: State, step: Step)
    requires Enabled(p, s, step)
    ensures Apply(p, s, step).cancelled <==> s.cancelled || step.Cancel?
  {
    if IsQuiet(step) {
      QuietEffect(p, s, step);
    }
  }

  /** The server is shutting down exactly from the request on. */
  lemma {:induction false} CancelledExactly(p: Policy, run: seq<State>, steps: seq<Step>, k: nat)
    requires IsTrace(p, run, steps) && k <= |steps|
    ensures run[k].cancelled <==> Cancel in steps[..k]
    decreases k
  {
    if k > 0 {
      CancelledExactly(p, run, steps, k - 1);
      assert Took(p, run[k - 1], steps[k - 1], run[k - 1 + 1]);
      CancelExactly(p, run[k - 1], steps[k - 1]);
      assert steps[..k] == steps[..k - 1] + [steps[k - 1]];
    }
  }

  lemma StepKeepsTerminated(p: Policy, s: State, step: Step)
    requires Enabled(p, s, step) && !step.ReplaceTerminated?
    ensures Apply(p, s, step).view.terminated == s.view.terminated
  {
    if IsQuiet(step) {
      QuietEffect(p, s, step);
    }
  }

  lemma {:induction false} TerminatedStays(p: Policy, run: seq<State>, steps: seq<Step>, j: nat, k: nat)
    requires IsTrace(p, run, steps) && j <= k <= |steps|
    requires forall l :: j <= l < k ==> !steps[l].ReplaceTerminated?
    ensures run[k].view.terminated == run[j].view.terminated
    decreases k
  {
    if j < k {
      TerminatedStays(p, run, steps, j, k - 1);
      assert Took(p, run[k - 1], steps[k - 1], run[k - 1 + 1]);
      StepKeepsTerminated(p, run[k - 1], steps[k - 1]);
    }
  }

  /** From a provisioning to the next one, whatever happens in between: the server
      terminates TLS for exactly the names provisioned, in every spelling, and for
      the hosts that a terminating wildcard upstream serves. */
  lemma ProvisionedHostsAreTerminated(
    p: Policy, run: seq<State>, steps: seq<Step>, j: nat, k: nat, full: seq<string>, host: string)
    requires IsTrace(p, run, steps) && j < k <= |steps| && steps[j] == ReplaceTerminated(full)
    requires forall l :: j < l < k ==> !steps[l].ReplaceTerminated?
    ensures IsTerminated(run[k].view, host)
            <==> || (exists s :: s in full && Lower(s) == Lower(host))
                 || (exists up :: WildcardServes(run[k].view, host, up) && (up.mode == Terminated || up.mode == TlsOffload))
  {
    assert Took(p, run[j], steps[j], run[j + 1]);
    SetTerminatedExactly(run[j].view, full, Lower(host));
    TerminatedStays(p, run, steps, j + 1, k);
    IsTerminatedExactly(run[k].view, host);
  }
}
