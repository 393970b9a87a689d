/** What the registry's operations are for, said without the protocol's own steps: which session each of them changes
    and how, on which talkgroup a session is after any run, and that a publisher is never replaced while it stays
    (audio_bridge/main.go:176-439). */
module RegistryEffects {
  import opened RegistryProtocol

  // ----- one operation ----------------------------------------------------------------------

  /** The callsign an action is about; shutdown is about all of them. */
  predicate About(s: State, a: Action, callsign: Callsign) {
    match a
    case Connect(cs, _) => cs == callsign
    case ConnectFails => false
    case ConnectSucceeds => s.connecting.Dialling? && s.connecting.callsign == callsign
    case Disconnect(cs) => cs == callsign
    case GraceEnds(timer) => timer.callsign == callsign
    case ForceDisconnect(cs) => cs == callsign
    case ConnectionLost(cs, _) => cs == callsign
    case SelectTg(cs, _) => cs == callsign
    case StopAll => true
  }

  /** The same session, if any. */
  predicate SameSession(s: State, t: State, callsign: Callsign) {
    && (callsign in s.sessions <==> callsign in t.sessions)
    && (callsign in s.sessions ==> s.sessions[callsign] == t.sessions[callsign])
  }

  /** An operation touches no other session than the one it is about. */
  lemma BystandersKeep(s: State, a: Action, t: State, callsign: Callsign)
    requires Next(s, a, t) && !About(s, a, callsign)
    ensures SameSession(s, t, callsign)
  {
    hide PublisherRemoved;
  }

  /** select_tg moves a live session to the talkgroup, with its connection and its users, and does nothing else to any
      session. */
  lemma SelectTgMoves(s: State, callsign: Callsign, tg: Tg, t: State)
    requires Next(s, SelectTg(callsign, tg), t)
    ensures callsign in t.sessions <==> callsign in s.sessions
    ensures callsign in t.sessions ==>
              && t.sessions[callsign].tg == tg
              && t.sessions[callsign].id == s.sessions[callsign].id
              && t.sessions[callsign].refCount == s.sessions[callsign].refCount
    ensures callsign !in s.sessions ==> t == s
    ensures forall other :: other != callsign ==> SameSession(s, t, other)
    ensures t.closed == s.closed && t.lost == s.lost && t.timers == s.timers && t.connecting == s.connecting
  {
    hide PublisherRemoved;
  }

  lemma MovePublishes(sessions: map<Callsign, Session>, before: map<Tg, Callsign>, callsign: Callsign, tg: Tg,
                      between: map<Tg, Callsign>)
    requires PublishersMatch(sessions, before) && callsign in sessions && callsign != ""
    requires PublisherRemoved(sessions[callsign := sessions[callsign].(tg := tg)], before, callsign,
                              sessions[callsign].tg, between)
    ensures PublisherOf(Installed(between, tg, callsign), tg) == callsign <==>
            tg !in before || AloneOn(sessions, before, callsign, tg)
  {
    var moved := sessions[callsign := sessions[callsign].(tg := tg)];
    if sessions[callsign].tg == tg && before[tg] == callsign {
      assert forall other :: CanReplace(moved, callsign, tg, other) <==>
               other in sessions && sessions[other].tg == tg && other != callsign;
    }
  }

  predicate AloneOn(sessions: map<Callsign, Session>, publisher: map<Tg, Callsign>, callsign: Callsign, tg: Tg) {
    && tg in publisher && publisher[tg] == callsign
    && forall other :: other in sessions && sessions[other].tg == tg ==> other == callsign
  }

  /** A moved session publishes its new talkgroup if and only if nobody did, or it did itself and is alone there. */
  lemma SelectTgPublishes(s: State, callsign: Callsign, tg: Tg, t: State)
    requires Inv(s) && Next(s, SelectTg(callsign, tg), t) && callsign in s.sessions
    ensures callsign in t.sessions
    ensures Publishes(t, callsign) <==> tg !in s.publisher || AloneOn(s.sessions, s.publisher, callsign, tg)
  {
    hide IdleHaveTimers, ConnectionsAccounted, PublishersMatch, PublisherRemoved, Installed, AloneOn;
    var was := s.sessions[callsign];
    var between :| PublisherRemoved(s.sessions[callsign := was.(tg := tg)], s.publisher, callsign, was.tg, between)
                   && t.publisher == Installed(between, tg, callsign);
    MovePublishes(s.sessions, s.publisher, callsign, tg, between);
  }

  /** A connect of a session that is live on the talkgroup adds a user to it. Any other ends the session there is,
      closing its connection, and dials. */
  lemma ConnectBegins(s: State, callsign: Callsign, tg: Tg, t: State)
    requires Inv(s) && Next(s, Connect(callsign, tg), t)
    ensures if callsign in s.sessions && s.sessions[callsign].tg == tg
            then
              && t.connecting.NoConnect? && callsign in t.sessions && t.closed == s.closed
              && t.sessions[callsign].tg == tg && t.sessions[callsign].id == s.sessions[callsign].id
              && t.sessions[callsign].refCount == s.sessions[callsign].refCount + 1
            else
              && t.connecting == Dialling(callsign, tg) && callsign !in t.sessions
              && (callsign in s.sessions ==> s.sessions[callsign].id in t.closed)
              && (callsign !in s.sessions ==> t.closed == s.closed)
  {
    hide PublisherRemoved, PublishersMatch, IdleHaveTimers, ConnectionsAccounted;
  }

  /** A connect that succeeds leaves a session on the talkgroup it asked for, with a connection never seen before and
      one user. */
  lemma ConnectEnds(s: State, t: State)
    requires Inv(s) && Next(s, ConnectSucceeds, t)
    ensures s.connecting.Dialling? && t.connecting.NoConnect?
    ensures var Dialling(callsign, tg) := s.connecting;
            && callsign in t.sessions && t.sessions[callsign].tg == tg && t.sessions[callsign].refCount == 1
            && !Known(s, t.sessions[callsign].id)
            && (tg !in s.publisher ==> Publishes(t, callsign))
  {
    assert !Known(s, s.nextId);
  }

  /** A disconnect takes one user off and leaves the session where it is. */
  lemma DisconnectTakesOne(s: State, callsign: Callsign, t: State)
    requires Next(s, Disconnect(callsign), t) && callsign in s.sessions
    ensures callsign in t.sessions && t.publisher == s.publisher
    ensures t.sessions[callsign].tg == s.sessions[callsign].tg && t.sessions[callsign].id == s.sessions[callsign].id
    ensures t.sessions[callsign].refCount == s.sessions[callsign].refCount - 1
  {
  }

  /** A forced disconnect ends the session, whatever its users, and closes its connection. */
  lemma ForceDisconnectEnds(s: State, callsign: Callsign, t: State)
    requires Next(s, ForceDisconnect(callsign), t)
    ensures callsign !in t.sessions
    ensures callsign in s.sessions ==> s.sessions[callsign].id in t.closed
    ensures t.lost == s.lost
  {
    hide PublisherRemoved;
  }

  /** A lost connection ends the session it belongs to and no other, and is not closed again. */
  lemma LossEnds(s: State, callsign: Callsign, id: nat, t: State)
    requires Next(s, ConnectionLost(callsign, id), t)
    ensures callsign in t.sessions ==> SameSession(s, t, callsign) && t.sessions[callsign].id != id
    ensures callsign in s.sessions && s.sessions[callsign].id == id ==> callsign !in t.sessions && id in t.lost
    ensures t.closed == s.closed
  {
    hide PublisherRemoved;
  }

  /** Shutdown ends every session and closes every connection. */
  lemma StopAllEnds(s: State, t: State)
    requires Next(s, StopAll, t)
    ensures t.sessions == map[] && t.publisher == map[]
    ensures forall cs :: cs in s.sessions ==> s.sessions[cs].id in t.closed
  {
    forall cs | cs in s.sessions ensures s.sessions[cs].id in t.closed {
      assert s.sessions[cs].id in Ids(s.sessions);
    }
  }

  // ----- publishing -------------------------------------------------------------------------

  /** cs publishes tg before, and still does. */
  predicate Still(before: map<Tg, Callsign>, after: map<Tg, Callsign>, tg: Tg, cs: Callsign) {
    tg in before && before[tg] == cs ==> tg in after && after[tg] == cs
  }

  lemma RemovalLeavesOthers(sessions: map<Callsign, Session>, before: map<Tg, Callsign>, callsign: Callsign, from: Tg,
                            after: map<Tg, Callsign>, tg: Tg, cs: Callsign)
    requires PublisherRemoved(sessions, before, callsign, from, after) && (cs != callsign || tg != from)
    ensures Still(before, after, tg, cs)
  {
  }

  lemma InstallationLeavesOthers(before: map<Tg, Callsign>, to: Tg, callsign: Callsign, tg: Tg, cs: Callsign)
    ensures Still(before, Installed(before, to, callsign), tg, cs)
  {
  }

  lemma SelectionLeavesOthers(s: State, callsign: Callsign, to: Tg, t: State, tg: Tg, cs: Callsign)
    requires SelectTgStep(s, callsign, to, t)
    requires callsign in s.sessions && cs == callsign ==> s.sessions[callsign].tg != tg
    ensures Still(s.publisher, t.publisher, tg, cs)
  {
    hide PublisherRemoved, Installed;
    if callsign in s.sessions {
      var was := s.sessions[callsign];
      var between :| PublisherRemoved(s.sessions[callsign := was.(tg := to)], s.publisher, callsign, was.tg, between)
                     && t.publisher == Installed(between, to, callsign);
      RemovalLeavesOthers(s.sessions[callsign := was.(tg := to)], s.publisher, callsign, was.tg, between, tg, cs);
      InstallationLeavesOthers(between, to, callsign, tg, cs);
    }
  }

  lemma RemovedLeavesOthers(s: State, callsign: Callsign, t: State, tg: Tg, cs: Callsign)
    requires Removed(s, callsign, t) && cs != callsign
    ensures Still(s.publisher, t.publisher, tg, cs)
  {
    hide PublisherRemoved;
    RemovalLeavesOthers(s.sessions, s.publisher, callsign, s.sessions[callsign].tg, t.publisher, tg, cs);
  }

  /** Nobody takes a talkgroup from its publisher: while that session stays there, whatever anybody does, it goes on
      publishing. Only its own select_tg of the talkgroup it is on can hand it to another. */
  lemma PublisherStays(s: State, a: Action, t: State, tg: Tg)
    requires Inv(s) && Next(s, a, t) && tg in s.publisher && a != SelectTg(s.publisher[tg], tg)
    ensures var cs := s.publisher[tg];
            && cs in s.sessions
            && (cs in t.sessions && t.sessions[cs].id == s.sessions[cs].id && t.sessions[cs].tg == tg ==>
                  tg in t.publisher && t.publisher[tg] == cs)
  {
    var cs := s.publisher[tg];
    assert cs in s.sessions && s.sessions[cs].tg == tg;
    hide IdleHaveTimers, PublishersMatch, ConnectionsAccounted, PublisherRemoved, Installed;
    if cs in t.sessions && t.sessions[cs].id == s.sessions[cs].id && t.sessions[cs].tg == tg {
      match a
      case Connect(callsign, _) =>
        if callsign in s.sessions && t.connecting.Dialling? {
          RemovedLeavesOthers(s, callsign, t.(connecting := NoConnect), tg, cs);
        }
      case ConnectSucceeds =>
        InstallationLeavesOthers(s.publisher, s.connecting.tg, s.connecting.callsign, tg, cs);
      case GraceEnds(timer) =>
        if timer.callsign !in t.sessions && timer.callsign in s.sessions {
          RemovedLeavesOthers(s.(timers := s.timers - multiset{timer}), timer.callsign, t, tg, cs);
        }
      case ForceDisconnect(callsign) =>
        if callsign in s.sessions {
          RemovedLeavesOthers(s, callsign, t, tg, cs);
        }
      case ConnectionLost(callsign, id) =>
        if callsign in s.sessions && s.sessions[callsign].id == id {
          RemovalLeavesOthers(s.sessions, s.publisher, callsign, s.sessions[callsign].tg, t.publisher, tg, cs);
        }
      case SelectTg(callsign, to) =>
        MovesAway(s, callsign, to, t, tg);
      case _ =>
    }
  }

  /** The publisher of tg that selects another talkgroup does not stay. */
  lemma MovesAway(s: State, callsign: Callsign, to: Tg, t: State, tg: Tg)
    requires SelectTgStep(s, callsign, to, t) && tg in s.publisher && (callsign != s.publisher[tg] || to != tg)
    requires s.publisher[tg] in s.sessions && s.sessions[s.publisher[tg]].tg == tg
    ensures var cs := s.publisher[tg];
            cs in t.sessions && t.sessions[cs].tg == tg ==> tg in t.publisher && t.publisher[tg] == cs
  {
    hide PublisherRemoved, Installed;
    var cs := s.publisher[tg];
    if callsign != cs {
      SelectionLeavesOthers(s, callsign, to, t, tg, cs);
    }
  }

  // ----- whole runs -------------------------------------------------------------------------

  /** The talkgroup that a list of actions leaves a session on that began on tg. */
  function Selected(actions: seq<Action>, callsign: Callsign, tg: Tg): Tg {
    if |actions| == 0 then tg
    else
      var a := actions[|actions| - 1];
      if a.SelectTg? && a.callsign == callsign then a.tg else Selected(actions[..|actions| - 1], callsign, tg)
  }

  lemma StepTalkgroup(s: State, a: Action, t: State, callsign: Callsign)
    requires Inv(s) && Next(s, a, t) && callsign in t.sessions
    ensures if a.ConnectSucceeds? && s.connecting.Dialling? && s.connecting.callsign == callsign
            then t.sessions[callsign].tg == s.connecting.tg && t.sessions[callsign].id == s.nextId
            else callsign in s.sessions && t.sessions[callsign].id == s.sessions[callsign].id
                 && t.sessions[callsign].tg
                    == if a.SelectTg? && a.callsign == callsign then a.tg else s.sessions[callsign].tg
  {
    hide PublisherRemoved, PublishersMatch, ConnectionsAccounted, Ids, Installed, IdleHaveTimers;
  }

  lemma {:induction false} DiallingWasAsked(states: seq<State>, actions: seq<Action>) returns (j: nat)
    requires IsRun(states, actions) && states[|actions|].connecting.Dialling?
    ensures var Dialling(callsign, tg) := states[|actions|].connecting;
            && j < |actions| && actions[j] == Connect(callsign, tg)
            && forall i :: j < i < |actions| ==> !actions[i].Connect?
    decreases |actions|
  {
    hide Next;
    var n := |actions|;
    assert n > 0;
    assert Next(states[n - 1], actions[n - 1], states[n - 1 + 1]);
    DiallingStep(states[n - 1], actions[n - 1], states[n]);
    if actions[n - 1].Connect? {
      j := n - 1;
    } else {
      ShorterRun(states, actions);
      j := DiallingWasAsked(states[..n], actions[..n - 1]);
    }
  }

  lemma DiallingStep(s: State, a: Action, t: State)
    requires Next(s, a, t) && t.connecting.Dialling?
    ensures if a.Connect? then a == Connect(t.connecting.callsign, t.connecting.tg) else s.connecting == t.connecting
  {
    hide PublisherRemoved;
  }

  /** actions[j] asked for the connection that actions[k] installed, and from the talkgroup it asked for the selections
      since have led to tg. */
  ghost predicate OnTalkgroup(states: seq<State>, actions: seq<Action>, callsign: Callsign, tg: Tg, j: nat, k: nat)
    requires |states| == |actions| + 1 && callsign in states[|actions|].sessions
  {
    && j < k < |actions| && actions[k].ConnectSucceeds?
    && states[k].nextId == states[|actions|].sessions[callsign].id
    && actions[j].Connect? && actions[j].callsign == callsign
    && (forall i :: j < i < k ==> !actions[i].Connect?)
    && tg == Selected(actions[k + 1..], callsign, actions[j].tg)
  }

  /** In every run, a live session is on the talkgroup that was selected last for its callsign since its connection was
      installed, or, if none was, on the one of the connect that asked for it. */
  lemma {:induction false} OnTheTalkgroupAskedFor(states: seq<State>, actions: seq<Action>, callsign: Callsign)
    requires IsRun(states, actions) && callsign in states[|actions|].sessions
    ensures exists j, k: nat ::
              OnTalkgroup(states, actions, callsign, states[|actions|].sessions[callsign].tg, j, k)
    decreases |actions|
  {
    hide Next, Inv;
    var n := |actions|;
    assert n > 0;
    ShorterRun(states, actions);
    RunsKeep(states[..n], actions[..n - 1]);
    var s, a, t := states[n - 1], actions[n - 1], states[n - 1 + 1];
    assert Next(s, a, t);
    StepTalkgroup(s, a, t, callsign);
    var tg := t.sessions[callsign].tg;
    if a.ConnectSucceeds? && s.connecting.Dialling? && s.connecting.callsign == callsign {
      var j := DiallingWasAsked(states[..n], actions[..n - 1]);
      assert OnTalkgroup(states, actions, callsign, tg, j, n - 1);
    } else {
      OnTheTalkgroupAskedFor(states[..n], actions[..n - 1], callsign);
      var j, k: nat :|
        OnTalkgroup(states[..n], actions[..n - 1], callsign, s.sessions[callsign].tg, j, k);
      assert actions[k + 1..][..n - 1 - (k + 1)] == actions[..n - 1][k + 1..];
      assert OnTalkgroup(states, actions, callsign, tg, j, k);
    }
  }
}
