/** The audio bridge's session registry as a protocol (audio_bridge/main.go). Every critical section under the mutex is
    one step. A connect is two steps with the lock free in between; the commands connect, disconnect and select_tg come
    from one goroutine, so none of them starts while a connect is under way. Grace timers, forced expiry, lost
    connections and shutdown may come at any moment. */
module RegistryProtocol {

  type Callsign = string
  type Tg = nat

  /** A live session. id stands for its connection: no two connections ever share one. */
  datatype Session = Session(id: nat, tg: Tg, refCount: int)

  /** A grace goroutine that holds a session, by callsign and identity. */
  datatype Timer = Timer(callsign: Callsign, id: nat)

  datatype Connecting = NoConnect | Dialling(callsign: Callsign, tg: Tg)

  datatype State = State(sessions: map<Callsign, Session>, publisher: map<Tg, Callsign>, timers: multiset<Timer>,
                         connecting: Connecting, closed: set<nat>, lost: set<nat>, nextId: nat)

  datatype Action =
    | Connect(callsign: Callsign, tg: Tg)
    | ConnectFails
    | ConnectSucceeds
    | Disconnect(callsign: Callsign)
    | GraceEnds(timer: Timer)
    | ForceDisconnect(callsign: Callsign)
    | ConnectionLost(callsign: Callsign, id: nat)
    | SelectTg(callsign: Callsign, tg: Tg)
    | StopAll

  const START := State(map[], map[], multiset{}, NoConnect, {}, {}, 0)

  /** Go's lookup: the empty string for a talkgroup without publisher. */
  function PublisherOf(publisher: map<Tg, Callsign>, tg: Tg): Callsign {
    if tg in publisher then publisher[tg] else ""
  }

  predicate CanReplace(sessions: map<Callsign, Session>, callsign: Callsign, tg: Tg, other: Callsign) {
    other in sessions && sessions[other].tg == tg && other != callsign
  }

  /** removePublisher: after is what tgPublisher may be afterwards. Which session is promoted depends on the
      iteration order of the map. */
  ghost predicate PublisherRemoved(sessions: map<Callsign, Session>, before: map<Tg, Callsign>, callsign: Callsign,
                                   tg: Tg, after: map<Tg, Callsign>)
  {
    if PublisherOf(before, tg) != callsign then after == before
    else if tg in after then
      CanReplace(sessions, callsign, tg, after[tg]) && after == before[tg := after[tg]]
    else
      (forall other :: other in sessions ==> !CanReplace(sessions, callsign, tg, other)) && after == before - {tg}
  }

  function Installed(publisher: map<Tg, Callsign>, tg: Tg, callsign: Callsign): map<Tg, Callsign> {
    if tg in publisher then publisher else publisher[tg := callsign]
  }

  /** The session of callsign is closed and taken out. */
  ghost predicate Removed(s: State, callsign: Callsign, t: State) {
    && callsign in s.sessions
    && t == s.(sessions := s.sessions - {callsign}, publisher := t.publisher,
               closed := s.closed + {s.sessions[callsign].id})
    && PublisherRemoved(s.sessions, s.publisher, callsign, s.sessions[callsign].tg, t.publisher)
  }

  // ----- one predicate per critical section -------------------------------------------------

  ghost predicate ConnectStep(s: State, callsign: Callsign, tg: Tg, t: State) {
    && s.connecting.NoConnect? && callsign != ""
    && if callsign in s.sessions && s.sessions[callsign].tg == tg then
         var was := s.sessions[callsign];
         t == s.(sessions := s.sessions[callsign := was.(refCount := was.refCount + 1)])
       else if callsign in s.sessions then
         && t.connecting == Dialling(callsign, tg)
         && Removed(s, callsign, t.(connecting := NoConnect))
       else
         t == s.(connecting := Dialling(callsign, tg))
  }

  ghost predicate ConnectFailsStep(s: State, t: State) {
    s.connecting.Dialling? && t == s.(connecting := NoConnect)
  }

  ghost predicate ConnectSucceedsStep(s: State, t: State) {
    && s.connecting.Dialling?
    && var Dialling(callsign, tg) := s.connecting;
    t == s.(sessions := s.sessions[callsign := Session(s.nextId, tg, 1)],
            publisher := Installed(s.publisher, tg, callsign),
            connecting := NoConnect, nextId := s.nextId + 1)
  }

  ghost predicate DisconnectStep(s: State, callsign: Callsign, t: State) {
    && s.connecting.NoConnect?
    && if callsign !in s.sessions then t == s
       else
         var was := s.sessions[callsign];
         var e := was.(refCount := was.refCount - 1);
         t == s.(sessions := s.sessions[callsign := e],
                 timers := if e.refCount > 0 then s.timers else s.timers + multiset{Timer(callsign, e.id)})
  }

  ghost predicate GraceEndsStep(s: State, timer: Timer, t: State) {
    && timer in s.timers
    && var u := s.(timers := s.timers - multiset{timer});
       var cs := timer.callsign;
       if cs !in s.sessions || s.sessions[cs].id != timer.id || s.sessions[cs].refCount > 0 then t == u
       else Removed(u, cs, t)
  }

  ghost predicate ForceDisconnectStep(s: State, callsign: Callsign, t: State) {
    if callsign in s.sessions then Removed(s, callsign, t) else t == s
  }

  ghost predicate ConnectionLostStep(s: State, callsign: Callsign, id: nat, t: State) {
    if callsign !in s.sessions || s.sessions[callsign].id != id then t == s
    else
      && t == s.(sessions := s.sessions - {callsign}, publisher := t.publisher, lost := s.lost + {id})
      && PublisherRemoved(s.sessions, s.publisher, callsign, s.sessions[callsign].tg, t.publisher)
  }

  ghost predicate SelectTgStep(s: State, callsign: Callsign, tg: Tg, t: State) {
    && s.connecting.NoConnect?
    && if callsign !in s.sessions then t == s
       else
         var was := s.sessions[callsign];
         var moved := s.sessions[callsign := was.(tg := tg)];
         && t == s.(sessions := moved, publisher := t.publisher)
         && exists between ::
              PublisherRemoved(moved, s.publisher, callsign, was.tg, between)
              && t.publisher == Installed(between, tg, callsign)
  }

  function Ids(sessions: map<Callsign, Session>): set<nat> {
    set cs | cs in sessions :: sessions[cs].id
  }

  ghost predicate StopAllStep(s: State, t: State) {
    t == s.(sessions := map[], publisher := map[], closed := s.closed + Ids(s.sessions))
  }

  ghost predicate Next(s: State, a: Action, t: State) {
    match a
    case Connect(callsign, tg) => ConnectStep(s, callsign, tg, t)
    case ConnectFails => ConnectFailsStep(s, t)
    case ConnectSucceeds => ConnectSucceedsStep(s, t)
    case Disconnect(callsign) => DisconnectStep(s, callsign, t)
    case GraceEnds(timer) => GraceEndsStep(s, timer, t)
    case ForceDisconnect(callsign) => ForceDisconnectStep(s, callsign, t)
    case ConnectionLost(callsign, id) => ConnectionLostStep(s, callsign, id, t)
    case SelectTg(callsign, tg) => SelectTgStep(s, callsign, tg, t)
    case StopAll => StopAllStep(s, t)
  }

  // ----- the invariant ----------------------------------------------------------------------

  /** Publishers are live sessions on their own talkgroup, and every talkgroup with a session has one. */
  ghost predicate PublishersMatch(sessions: map<Callsign, Session>, publisher: map<Tg, Callsign>) {
    && (forall tg :: tg in publisher ==> publisher[tg] in sessions && sessions[publisher[tg]].tg == tg)
    && (forall cs :: cs in sessions ==> sessions[cs].tg in publisher)
  }

  /** Every session that nobody uses has a grace timer waiting for it. */
  ghost predicate IdleHaveTimers(sessions: map<Callsign, Session>, timers: multiset<Timer>) {
    forall cs :: cs in sessions && sessions[cs].refCount <= 0 ==> Timer(cs, sessions[cs].id) in timers
  }

  predicate Known(s: State, id: nat) {
    id in Ids(s.sessions) || id in s.closed || id in s.lost
  }

  /** Every connection that was ever established is in exactly one place: live, closed or lost. */
  ghost predicate ConnectionsAccounted(s: State) {
    && (forall id: nat :: id < s.nextId <==> Known(s, id))
    && Ids(s.sessions) !! s.closed && Ids(s.sessions) !! s.lost && s.closed !! s.lost
    && (forall c, d :: c in s.sessions && d in s.sessions && s.sessions[c].id == s.sessions[d].id ==> c == d)
  }

  ghost predicate Inv(s: State) {
    && "" !in s.sessions
    && (s.connecting.Dialling? ==> s.connecting.callsign !in s.sessions && s.connecting.callsign != "")
    && PublishersMatch(s.sessions, s.publisher)
    && IdleHaveTimers(s.sessions, s.timers)
    && ConnectionsAccounted(s)
  }

  // ----- every step keeps it ----------------------------------------------------------------

  lemma RemovalKeepsPublishers(sessions: map<Callsign, Session>, before: map<Tg, Callsign>, callsign: Callsign,
                               after: map<Tg, Callsign>)
    requires PublishersMatch(sessions, before) && callsign in sessions && callsign != ""
    requires PublisherRemoved(sessions, before, callsign, sessions[callsign].tg, after)
    ensures PublishersMatch(sessions - {callsign}, after)
  {
  }

  lemma RemovalKeepsAccounts(s: State, callsign: Callsign, t: State)
    requires ConnectionsAccounted(s) && callsign in s.sessions
    requires t.sessions == s.sessions - {callsign} && t.nextId == s.nextId
    requires (t.closed == s.closed + {s.sessions[callsign].id} && t.lost == s.lost)
          || (t.closed == s.closed && t.lost == s.lost + {s.sessions[callsign].id})
    ensures ConnectionsAccounted(t)
  {
    var id := s.sessions[callsign].id;
    assert Ids(s.sessions) == Ids(t.sessions) + {id} by {
      forall i | i in Ids(s.sessions) && i != id ensures i in Ids(t.sessions) {
        var cs :| cs in s.sessions && s.sessions[cs].id == i;
        assert t.sessions[cs].id == i;
      }
    }
    forall i: nat ensures Known(t, i) <==> Known(s, i) {
    }
  }

  lemma RemovedKeeps(s: State, callsign: Callsign, t: State)
    requires Inv(s) && Removed(s, callsign, t)
    ensures Inv(t)
  {
    hide PublisherRemoved, PublishersMatch, ConnectionsAccounted;
    RemovalKeepsPublishers(s.sessions, s.publisher, callsign, t.publisher);
    RemovalKeepsAccounts(s, callsign, t);
  }

  lemma SameIds(s: State, callsign: Callsign, e: Session, t: State)
    requires ConnectionsAccounted(s) && callsign in s.sessions && e.id == s.sessions[callsign].id
    requires t.sessions == s.sessions[callsign := e] && t.closed == s.closed && t.lost == s.lost && t.nextId == s.nextId
    ensures ConnectionsAccounted(t)
  {
    assert forall cs :: cs in s.sessions ==> t.sessions[cs].id == s.sessions[cs].id;
    assert Ids(t.sessions) == Ids(s.sessions) by {
      forall i | i in Ids(s.sessions) ensures i in Ids(t.sessions) {
        var cs :| cs in s.sessions && s.sessions[cs].id == i;
        assert t.sessions[cs].id == i;
      }
    }
    forall i: nat ensures Known(t, i) <==> Known(s, i) {
    }
  }

  /** An entry that changes neither its connection nor its talkgroup leaves the publishers right. */
  lemma UpdateKeepsPublishers(sessions: map<Callsign, Session>, publisher: map<Tg, Callsign>, callsign: Callsign,
                              e: Session)
    requires PublishersMatch(sessions, publisher) && callsign in sessions && e.tg == sessions[callsign].tg
    ensures PublishersMatch(sessions[callsign := e], publisher)
  {
  }

  lemma ConnectKeeps(s: State, callsign: Callsign, tg: Tg, t: State)
    requires Inv(s) && ConnectStep(s, callsign, tg, t)
    ensures Inv(t)
  {
    hide PublisherRemoved, PublishersMatch, Ids;
    if callsign in s.sessions && s.sessions[callsign].tg == tg {
      SameIds(s, callsign, t.sessions[callsign], t);
      UpdateKeepsPublishers(s.sessions, s.publisher, callsign, t.sessions[callsign]);
    } else if callsign in s.sessions {
      var u := t.(connecting := NoConnect);
      RemovedKeeps(s, callsign, u);
      SameAccounts(u, t);
    } else {
      SameAccounts(s, t);
    }
  }

  lemma InstallationKeepsPublishers(sessions: map<Callsign, Session>, publisher: map<Tg, Callsign>, callsign: Callsign,
                                    e: Session)
    requires PublishersMatch(sessions, publisher) && callsign !in sessions
    ensures PublishersMatch(sessions[callsign := e], Installed(publisher, e.tg, callsign))
  {
  }

  lemma ConnectSucceedsKeeps(s: State, t: State)
    requires Inv(s) && ConnectSucceedsStep(s, t)
    ensures Inv(t)
  {
    hide PublishersMatch, Installed;
    var callsign := s.connecting.callsign;
    InstallationKeepsPublishers(s.sessions, s.publisher, callsign, t.sessions[callsign]);
    assert Ids(t.sessions) == Ids(s.sessions) + {s.nextId} by {
      assert t.sessions[callsign].id == s.nextId;
      forall i | i in Ids(s.sessions) ensures i in Ids(t.sessions) {
        var cs :| cs in s.sessions && s.sessions[cs].id == i;
        assert t.sessions[cs].id == i;
      }
    }
    forall cs | cs in s.sessions ensures s.sessions[cs].id < s.nextId {
      assert Known(s, s.sessions[cs].id);
    }
    assert !Known(s, s.nextId);
    forall i: nat ensures Known(t, i) <==> Known(s, i) || i == s.nextId {
    }
  }

  lemma DisconnectKeeps(s: State, callsign: Callsign, t: State)
    requires Inv(s) && DisconnectStep(s, callsign, t)
    ensures Inv(t)
  {
    hide PublishersMatch, Ids;
    if callsign in s.sessions {
      SameIds(s, callsign, t.sessions[callsign], t);
      UpdateKeepsPublishers(s.sessions, s.publisher, callsign, t.sessions[callsign]);
    }
  }

  lemma GraceEndsKeeps(s: State, timer: Timer, t: State)
    requires Inv(s) && GraceEndsStep(s, timer, t)
    ensures Inv(t)
  {
    hide PublisherRemoved, PublishersMatch, ConnectionsAccounted, Ids;
    var cs := timer.callsign;
    if cs in s.sessions && s.sessions[cs].id == timer.id && s.sessions[cs].refCount <= 0 {
      RemovalKeepsPublishers(s.sessions, s.publisher, cs, t.publisher);
      RemovalKeepsAccounts(s, cs, t);
    } else {
      assert ConnectionsAccounted(t) by { SameAccounts(s, t); }
    }
  }

  lemma SameAccounts(s: State, t: State)
    requires ConnectionsAccounted(s)
    requires t.sessions == s.sessions && t.closed == s.closed && t.lost == s.lost && t.nextId == s.nextId
    ensures ConnectionsAccounted(t)
  {
    forall i: nat ensures Known(t, i) <==> Known(s, i) {
    }
  }

  lemma ConnectionLostKeeps(s: State, callsign: Callsign, id: nat, t: State)
    requires Inv(s) && ConnectionLostStep(s, callsign, id, t)
    ensures Inv(t)
  {
    hide PublisherRemoved, PublishersMatch, ConnectionsAccounted, Ids;
    if callsign in s.sessions && s.sessions[callsign].id == id {
      RemovalKeepsPublishers(s.sessions, s.publisher, callsign, t.publisher);
      RemovalKeepsAccounts(s, callsign, t);
    }
  }

  lemma MoveKeepsPublishers(sessions: map<Callsign, Session>, before: map<Tg, Callsign>, callsign: Callsign, tg: Tg,
                            between: map<Tg, Callsign>)
    requires PublishersMatch(sessions, before) && callsign in sessions && callsign != ""
    requires PublisherRemoved(sessions[callsign := sessions[callsign].(tg := tg)], before, callsign,
                              sessions[callsign].tg, between)
    ensures PublishersMatch(sessions[callsign := sessions[callsign].(tg := tg)], Installed(between, tg, callsign))
  {
    var moved := sessions[callsign := sessions[callsign].(tg := tg)];
    var after := Installed(between, tg, callsign);
    forall x | x in after ensures after[x] in moved && moved[after[x]].tg == x {
    }
    forall cs | cs in moved ensures moved[cs].tg in after {
      if cs != callsign {
        assert moved[cs] == sessions[cs];
        assert moved[cs].tg in before;
        assert CanReplace(moved, callsign, moved[cs].tg, cs);
      }
    }
  }

  lemma SelectTgKeeps(s: State, callsign: Callsign, tg: Tg, t: State)
    requires Inv(s) && SelectTgStep(s, callsign, tg, t)
    ensures Inv(t)
  {
    hide PublisherRemoved, PublishersMatch, Ids, Installed;
    if callsign in s.sessions {
      var was := s.sessions[callsign];
      var between :| PublisherRemoved(s.sessions[callsign := was.(tg := tg)], s.publisher, callsign, was.tg, between)
                     && t.publisher == Installed(between, tg, callsign);
      MoveKeepsPublishers(s.sessions, s.publisher, callsign, tg, between);
      SameIds(s, callsign, was.(tg := tg), t);
    }
  }

  lemma StopAllKeeps(s: State, t: State)
    requires Inv(s) && StopAllStep(s, t)
    ensures Inv(t)
  {
    assert Ids(t.sessions) == {};
    forall i: nat ensures Known(t, i) <==> Known(s, i) {
    }
  }

  /** Whatever runs next, the invariant survives it. */
  lemma StepKeeps(s: State, a: Action, t: State)
    requires Inv(s) && Next(s, a, t)
    ensures Inv(t)
  {
    hide PublisherRemoved, PublishersMatch, ConnectionsAccounted, Ids, Installed, IdleHaveTimers;
    match a
    case Connect(callsign, tg) => ConnectKeeps(s, callsign, tg, t);
    case ConnectFails => SameAccounts(s, t);
    case ConnectSucceeds => ConnectSucceedsKeeps(s, t);
    case Disconnect(callsign) => DisconnectKeeps(s, callsign, t);
    case GraceEnds(timer) => GraceEndsKeeps(s, timer, t);
    case ForceDisconnect(callsign) => if callsign in s.sessions { RemovedKeeps(s, callsign, t); }
    case ConnectionLost(callsign, id) => ConnectionLostKeeps(s, callsign, id, t);
    case SelectTg(callsign, tg) => SelectTgKeeps(s, callsign, tg, t);
    case StopAll => StopAllKeeps(s, t);
  }

  // ----- whole runs -------------------------------------------------------------------------

  /** A run: it starts empty, and actions[i] leads from states[i] to states[i + 1]. */
  ghost predicate IsRun(states: seq<State>, actions: seq<Action>) {
    && |states| == |actions| + 1 && states[0] == START
    && forall i :: 0 <= i < |actions| ==> Next(states[i], actions[i], states[i + 1])
  }

  lemma ShorterRun(states: seq<State>, actions: seq<Action>)
    requires IsRun(states, actions) && |actions| > 0
    ensures IsRun(states[..|actions|], actions[..|actions| - 1])
  {
    hide Next;
  }

  lemma {:induction false} RunsKeep(states: seq<State>, actions: seq<Action>)
    requires IsRun(states, actions)
    ensures Inv(states[|actions|])
    decreases |actions|
  {
    hide Next, Inv;
    var n := |actions|;
    if n == 0 {
      StartIsFine();
    } else {
      ShorterRun(states, actions);
      RunsKeep(states[..n], actions[..n - 1]);
      StepKeeps(states[n - 1], actions[n - 1], states[n - 1 + 1]);
    }
  }

  lemma StartIsFine()
    ensures Inv(START)
  {
    assert Ids(START.sessions) == {};
  }

  // ----- what it means for the listeners ----------------------------------------------------

  /** What the audio callback of a session checks before it publishes a frame. */
  predicate Publishes(s: State, callsign: Callsign)
    requires callsign in s.sessions
  {
    PublisherOf(s.publisher, s.sessions[callsign].tg) == callsign
  }

  predicate PublishesOn(s: State, callsign: Callsign, tg: Tg) {
    callsign in s.sessions && s.sessions[callsign].tg == tg && Publishes(s, callsign)
  }

  /** In every reachable state, each talkgroup somebody listens to has exactly one session that publishes its audio. */
  lemma ExactlyOnePublisher(states: seq<State>, actions: seq<Action>, callsign: Callsign)
    requires IsRun(states, actions)
    requires callsign in states[|actions|].sessions
    ensures var s := states[|actions|];
            var tg := s.sessions[callsign].tg;
            && (exists cs :: PublishesOn(s, cs, tg))
            && (forall c, d :: PublishesOn(s, c, tg) && PublishesOn(s, d, tg) ==> c == d)
  {
    RunsKeep(states, actions);
    var s := states[|actions|];
    var cs := s.publisher[s.sessions[callsign].tg];
    assert PublishesOn(s, cs, s.sessions[callsign].tg);
  }

  /** What an action adds to the number of users of callsign. */
  function Delta(a: Action, callsign: Callsign): int {
    match a
    case Connect(cs, _) => if cs == callsign then 1 else 0
    case Disconnect(cs) => if cs == callsign then -1 else 0
    case _ => 0
  }

  function Balance(actions: seq<Action>, callsign: Callsign): int {
    if actions == [] then 0 else Balance(actions[..|actions| - 1], callsign) + Delta(actions[|actions| - 1], callsign)
  }

  /** A session is either new after a step, or it was there before and its reference count moved with the action. */
  lemma StepCounts(s: State, a: Action, t: State, callsign: Callsign)
    requires Inv(s) && Next(s, a, t) && callsign in t.sessions
    ensures if a.ConnectSucceeds? && s.connecting.callsign == callsign
            then t.sessions[callsign].refCount == 1 && t.sessions[callsign].id == s.nextId
            else callsign in s.sessions && t.sessions[callsign].id == s.sessions[callsign].id
                 && t.sessions[callsign].refCount == s.sessions[callsign].refCount + Delta(a, callsign)
  {
    hide PublisherRemoved, PublishersMatch, ConnectionsAccounted, Ids, Installed, IdleHaveTimers;
  }

  /** actions[k] installed the session that callsign has now, and since then refCount has counted its users. */
  ghost predicate CountedSince(states: seq<State>, actions: seq<Action>, callsign: Callsign, k: nat)
    requires |states| == |actions| + 1 && callsign in states[|actions|].sessions
  {
    var e := states[|actions|].sessions[callsign];
    && k < |actions| && actions[k].ConnectSucceeds?
    && states[k].connecting.Dialling? && states[k].connecting.callsign == callsign && states[k].nextId == e.id
    && e.refCount == 1 + Balance(actions[k + 1..], callsign)
  }

  /** Reference counts are conserved: a live session's count is 1 plus the connects minus the disconnects of its
      callsign since it was installed. */
  lemma {:induction false} RefCountConserved(states: seq<State>, actions: seq<Action>, callsign: Callsign)
    requires IsRun(states, actions) && callsign in states[|actions|].sessions
    ensures exists k: nat :: CountedSince(states, actions, callsign, k)
    decreases |actions|
  {
    hide Next, Inv;
    var n := |actions|;
    if n > 0 {
      ShorterRun(states, actions);
      RunsKeep(states[..n], actions[..n - 1]);
      var s, a, t := states[n - 1], actions[n - 1], states[n - 1 + 1];
      StepCounts(s, a, t, callsign);
      if a.ConnectSucceeds? {
        InstallsByDialling(s, a, t);
      }
      if a.ConnectSucceeds? && s.connecting.callsign == callsign {
        assert CountedSince(states, actions, callsign, n - 1);
      } else {
        RefCountConserved(states[..n], actions[..n - 1], callsign);
        var k: nat :| CountedSince(states[..n], actions[..n - 1], callsign, k);
        assert actions[k + 1..][..n - 1 - (k + 1)] == actions[..n - 1][k + 1..];
        assert CountedSince(states, actions, callsign, k);
      }
    }
  }

  lemma InstallsByDialling(s: State, a: Action, t: State)
    requires a.ConnectSucceeds? && Next(s, a, t)
    ensures ConnectSucceedsStep(s, t)
  {
  }

  /** Nothing leaks: whoever is connected without users has a grace timer of its own, so once the timers have run
      out every session has had more connects than disconnects since it was installed. */
  lemma NoIdleLeak(states: seq<State>, actions: seq<Action>, callsign: Callsign)
    requires IsRun(states, actions)
    requires callsign in states[|actions|].sessions
    requires Timer(callsign, states[|actions|].sessions[callsign].id) !in states[|actions|].timers
    ensures exists k: nat :: CountedSince(states, actions, callsign, k) && Balance(actions[k + 1..], callsign) >= 0
  {
    RunsKeep(states, actions);
    RefCountConserved(states, actions, callsign);
  }

  lemma {:induction false} RunPrefix(states: seq<State>, actions: seq<Action>, i: nat)
    requires IsRun(states, actions) && i <= |actions|
    ensures IsRun(states[..i + 1], actions[..i])
  {
    hide Next;
  }

  /** The disconnect of callsign at actions[j] left the session with this connection without users, and so started the
      timer. */
  ghost predicate StartedAt(states: seq<State>, actions: seq<Action>, timer: Timer, j: nat) {
    && j < |actions| < |states| && actions[j] == Disconnect(timer.callsign)
    && timer.callsign in states[j].sessions
    && states[j].sessions[timer.callsign].id == timer.id && states[j].sessions[timer.callsign].refCount <= 1
  }

  lemma TimersFromDisconnects(s: State, a: Action, t: State, timer: Timer)
    requires Next(s, a, t) && timer in t.timers && timer !in s.timers
    ensures a == Disconnect(timer.callsign) && timer.callsign in s.sessions
    ensures s.sessions[timer.callsign].id == timer.id && s.sessions[timer.callsign].refCount <= 1
  {
    hide PublisherRemoved;
  }

  lemma {:induction false} TimerWasStarted(states: seq<State>, actions: seq<Action>, timer: Timer) returns (j: nat)
    requires IsRun(states, actions) && timer in states[|actions|].timers
    ensures StartedAt(states, actions, timer, j)
    decreases |actions|
  {
    hide Next;
    var n := |actions|;
    assert n > 0;
    if timer in states[n - 1].timers {
      ShorterRun(states, actions);
      j := TimerWasStarted(states[..n], actions[..n - 1], timer);
    } else {
      j := n - 1;
      TimersFromDisconnects(states[j], actions[j], states[j + 1], timer);
    }
  }

  lemma {:induction false} IdsGrow(states: seq<State>, actions: seq<Action>, i: nat, j: nat)
    requires IsRun(states, actions) && i <= j <= |actions|
    ensures states[i].nextId <= states[j].nextId
    decreases j - i
  {
    hide Next;
    if i < j {
      IdsGrow(states, actions, i, j - 1);
      assert Next(states[j - 1], actions[j - 1], states[j - 1 + 1]);
      IdsStepGrow(states[j - 1], actions[j - 1], states[j]);
    }
  }

  lemma IdsStepGrow(s: State, a: Action, t: State)
    requires Next(s, a, t)
    ensures s.nextId <= t.nextId
  {
    hide PublisherRemoved;
  }

  lemma GraceStep(s: State, timer: Timer, t: State, callsign: Callsign)
    requires GraceEndsStep(s, timer, t) && callsign in s.sessions
    ensures timer in s.timers
    ensures callsign !in t.sessions <==>
            timer == Timer(callsign, s.sessions[callsign].id) && s.sessions[callsign].refCount <= 0
    ensures callsign in t.sessions ==> t.sessions[callsign] == s.sessions[callsign]
  {
    hide PublisherRemoved;
  }

  lemma GraceEndsIs(s: State, a: Action, t: State)
    requires a.GraceEnds? && Next(s, a, t)
    ensures GraceEndsStep(s, a.timer, t)
  {
  }

  /** The session that callsign has before actions[i] was installed by actions[k], a later disconnect of it started
      the timer, and since its installation it has had more disconnects than connects beyond the one that made it. */
  ghost predicate RunOut(states: seq<State>, actions: seq<Action>, i: nat, callsign: Callsign, timer: Timer, k: nat,
                         j: nat)
    requires i <= |actions| && |states| == |actions| + 1 && callsign in states[i].sessions
  {
    && k < j < i && timer == Timer(callsign, states[i].sessions[callsign].id)
    && CountedSince(states[..i + 1], actions[..i], callsign, k) && StartedAt(states, actions, timer, j)
    && 1 + Balance(actions[k + 1..i], callsign) <= 0
  }

  lemma StartedAfterInstalled(states: seq<State>, actions: seq<Action>, i: nat, callsign: Callsign, timer: Timer,
                              k: nat, j: nat)
    requires IsRun(states, actions) && i <= |actions| && callsign in states[i].sessions
    requires timer == Timer(callsign, states[i].sessions[callsign].id)
    requires CountedSince(states[..i + 1], actions[..i], callsign, k)
    requires StartedAt(states[..i + 1], actions[..i], timer, j)
    ensures k < j < i
  {
    hide Next, Inv;
    RunPrefix(states, actions, j);
    RunsKeep(states[..j + 1], actions[..j]);
    SessionIsKnown(states[j], callsign);
    if j <= k {
      IdsGrow(states, actions, j, k);
    }
    DisconnectIsNoConnect(actions[k], actions[j]);
  }

  lemma DisconnectIsNoConnect(a: Action, b: Action)
    requires a.ConnectSucceeds? && b.Disconnect?
    ensures a != b
  {
  }

  lemma SessionIsKnown(s: State, callsign: Callsign)
    requires Inv(s) && callsign in s.sessions
    ensures s.sessions[callsign].id < s.nextId
  {
    assert Known(s, s.sessions[callsign].id);
  }

  /** In every run, the end of a grace timer takes a session out if and only if the timer was started by a disconnect of
      that very session and the connects since it was installed do not make up for the disconnects; so a callsign that
      has come back in time, or has a new connection, is safe, and every other session is as it was. */
  lemma GraceTakesOnlyItsOwn(states: seq<State>, actions: seq<Action>, i: nat, callsign: Callsign)
    requires IsRun(states, actions) && i < |actions| && actions[i].GraceEnds? && callsign in states[i].sessions
    ensures callsign !in states[i + 1].sessions <==>
            exists k, j :: RunOut(states, actions, i, callsign, actions[i].timer, k, j)
    ensures callsign in states[i + 1].sessions ==> states[i + 1].sessions[callsign] == states[i].sessions[callsign]
  {
    hide Next, Inv, GraceEndsStep;
    var timer, e := actions[i].timer, states[i].sessions[callsign];
    assert Next(states[i], actions[i], states[i + 1]);
    GraceEndsIs(states[i], actions[i], states[i + 1]);
    GraceStep(states[i], timer, states[i + 1], callsign);
    RunPrefix(states, actions, i);
    RefCountConserved(states[..i + 1], actions[..i], callsign);
    var k: nat :| CountedSince(states[..i + 1], actions[..i], callsign, k);
    assert actions[..i][k + 1..] == actions[k + 1..i];
    if callsign !in states[i + 1].sessions {
      var j := TimerWasStarted(states[..i + 1], actions[..i], timer);
      StartedAfterInstalled(states, actions, i, callsign, timer, k, j);
      assert RunOut(states, actions, i, callsign, timer, k, j);
    }
    if k', j' :| RunOut(states, actions, i, callsign, timer, k', j') {
      assert actions[..i][k' + 1..] == actions[k' + 1..i];
    }
  }

  /** Every connection ever made is live, closed by us or lost, and never two of these. */
  lemma NoConnectionForgotten(states: seq<State>, actions: seq<Action>, id: nat)
    requires IsRun(states, actions)
    requires id < states[|actions|].nextId
    ensures var s := states[|actions|];
            var live := exists cs :: cs in s.sessions && s.sessions[cs].id == id;
            && (live || id in s.closed || id in s.lost)
            && !(live && id in s.closed) && !(live && id in s.lost) && !(id in s.closed && id in s.lost)
  {
    RunsKeep(states, actions);
    var s := states[|actions|];
    assert Known(s, id);
    if cs :| cs in s.sessions && s.sessions[cs].id == id {
      assert id in Ids(s.sessions);
    }
  }
}
