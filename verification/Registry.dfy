/** The registry itself (audio_bridge/main.go:149-439): one method for each critical section under the mutex. Each
    method is proved to take exactly one step of RegistryProtocol, so what is proved there about runs holds of it. */
module Registry {
  import opened RegistryProtocol

  /** A reflector connection. Two clients are the same object exactly when their ids agree (see Valid). */
  class Client {
    ghost const id: nat

    constructor (ghost id: nat)
      ensures this.id == id
    {
      this.id := id;
    }
  }

  class Entry {
    const client: Client
    const callsign: Callsign
    var tg: Tg
    var refCount: int

    constructor (client: Client, callsign: Callsign, tg: Tg)
      ensures this.client == client && this.callsign == callsign && this.tg == tg && refCount == 1
    {
      this.client := client;
      this.callsign := callsign;
      this.tg := tg;
      refCount := 1;
    }
  }

  /** sessions as values. */
  ghost function View(sessions: map<Callsign, Entry>): map<Callsign, Session>
    reads sessions.Values
  {
    map cs | cs in sessions :: Session(sessions[cs].client.id, sessions[cs].tg, sessions[cs].refCount)
  }

  class Registry {
    var sessions: map<Callsign, Entry>
    var tgPublisher: map<Tg, Callsign>
    // What happens outside the maps: goroutines asleep, the connect under way, connections opened, closed and dropped.
    ghost var timers: multiset<Timer>
    ghost var connecting: Connecting
    ghost var closed: set<nat>
    ghost var lost: set<nat>
    ghost var entries: set<Entry>

    ghost function Abs(): State
      reads this, sessions.Values
    {
      State(View(sessions), tgPublisher, timers, connecting, closed, lost, |entries|)
    }

    ghost predicate Valid()
      reads this, sessions.Values
    {
      && Inv(Abs())
      && Distinct(entries)
      && forall cs :: cs in sessions ==> sessions[cs] in entries && sessions[cs].callsign == cs
    }

    constructor ()
      ensures Valid() && Abs() == START && entries == {}
    {
      sessions, tgPublisher := map[], map[];
      timers, connecting, closed, lost, entries := multiset{}, NoConnect, {}, {}, {};
      new;
      StartIsFine();
    }

    /** What View shows once only the entry of callsign has changed. */
    twostate lemma ViewUpdates(callsign: Callsign)
      requires sessions == old(sessions) && callsign in sessions
      requires forall cs :: cs in sessions ==> sessions[cs].callsign == cs
      requires forall f :: f in sessions.Values && f != sessions[callsign] ==> unchanged(f)
      ensures var e := sessions[callsign];
              View(sessions) == old(View(sessions))[callsign := Session(e.client.id, e.tg, e.refCount)]
    {
      forall cs | cs in sessions && cs != callsign
        ensures View(sessions)[cs] == old(View(sessions))[cs]
      {
        assert sessions[cs].callsign == cs && sessions[cs] in sessions.Values;
      }
    }

    /** The first critical section of connect. dial says whether a connection is now made. */
    method ConnectBegin(callsign: Callsign, tg: Tg) returns (dial: bool)
      requires Valid() && connecting.NoConnect? && callsign != ""
      modifies this, sessions.Values
      ensures Valid() && entries == old(entries)
      ensures Next(old(Abs()), Connect(callsign, tg), Abs())
      ensures dial <==> connecting == Dialling(callsign, tg)
      ensures !dial <==> connecting == NoConnect
    {
      hide Inv, Distinct, PublisherRemoved;
      ghost var s := Abs();
      dial := true;
      if callsign in sessions {
        var was := sessions[callsign];
        if was.tg == tg {
          was.refCount := was.refCount + 1;
          ViewUpdates(callsign);
          StepKeeps(s, Connect(callsign, tg), Abs());
          return false;
        }
        TakeOut(callsign, true);
      }
      connecting := Dialling(callsign, tg);
      assert Abs().(connecting := NoConnect).sessions == Abs().sessions;
      StepKeeps(s, Connect(callsign, tg), Abs());
    }

    /** Close the client if asked, hand its talkgroup on and delete the session: what four of the operations share. */
    method TakeOut(callsign: Callsign, close: bool)
      requires callsign in sessions
      modifies this
      ensures sessions == old(sessions) - {callsign} && entries == old(entries)
      ensures var s, t, id := old(Abs()), Abs(), old(sessions[callsign]).client.id;
              && t == s.(sessions := s.sessions - {callsign}, publisher := t.publisher,
                         closed := if close then s.closed + {id} else s.closed,
                         lost := if close then s.lost else s.lost + {id})
              && PublisherRemoved(s.sessions, s.publisher, callsign, s.sessions[callsign].tg, t.publisher)
    {
      hide Inv, Distinct, PublisherRemoved;
      var e := sessions[callsign];
      if close {
        closed := closed + {e.client.id};
      } else {
        lost := lost + {e.client.id};
      }
      RemovePublisher(callsign, e.tg);
      sessions := sessions - {callsign};
      assert View(sessions) == old(View(sessions)) - {callsign};
    }

    /** removePublisher: the loop over the map visits the sessions in any order and stops at the first that fits. */
    method RemovePublisher(callsign: Callsign, tg: Tg)
      modifies `tgPublisher
      ensures PublisherRemoved(View(sessions), old(tgPublisher), callsign, tg, tgPublisher)
    {
      if (if tg in tgPublisher then tgPublisher[tg] else "") != callsign {
        return;
      }
      tgPublisher := tgPublisher - {tg};
      var rest := sessions.Keys;
      while rest != {}
        invariant rest <= sessions.Keys
        invariant forall cs :: cs in sessions && cs !in rest ==> !CanReplace(View(sessions), callsign, tg, cs)
        invariant tgPublisher == old(tgPublisher) - {tg}
        decreases |rest|
      {
        var cs :| cs in rest;
        rest := rest - {cs};
        if sessions[cs].tg == tg && cs != callsign {
          assert CanReplace(View(sessions), callsign, tg, cs);
          tgPublisher := tgPublisher[tg := cs];
          assert tgPublisher == old(tgPublisher)[tg := cs];
          return;
        }
      }
    }

    /** The dial or the talkgroup selection failed: connect gives up without an entry. */
    method ConnectFailed()
      requires Valid() && connecting.Dialling?
      modifies this
      ensures Valid() && entries == old(entries)
      ensures Next(old(Abs()), ConnectFails, Abs())
    {
      hide Inv;
      ghost var s := Abs();
      connecting := NoConnect;
      StepKeeps(s, ConnectFails, Abs());
    }

    /** The second critical section of connect: the entry e becomes the session of callsign. */
    method ConnectDone(callsign: Callsign, tg: Tg) returns (e: Entry)
      requires Valid() && connecting == Dialling(callsign, tg)
      modifies this
      ensures Valid() && fresh(e) && entries == old(entries) + {e} && sessions == old(sessions)[callsign := e]
      ensures Next(old(Abs()), ConnectSucceeds, Abs())
    {
      hide Inv, Distinct, View, PublisherRemoved, Next, ConnectSucceedsStep, Installed;
      ghost var s := Abs();
      var c := new Client(|entries|);
      e := new Entry(c, callsign, tg);
      DistinctGrows(entries, e);
      sessions := sessions[callsign := e];
      Install(callsign, tg);
      connecting := NoConnect;
      entries := entries + {e};
      ViewInstalls(callsign, e);
      IsSuccess(s, callsign, tg, Abs());
      StepKeeps(s, ConnectSucceeds, Abs());
    }

    /** What View shows once e is the session of callsign. */
    twostate lemma ViewInstalls(callsign: Callsign, new e: Entry)
      requires e !in old(sessions).Values && sessions == old(sessions)[callsign := e]
      requires forall f :: f in old(sessions).Values ==> unchanged(f)
      ensures View(sessions) == old(View(sessions))[callsign := Session(e.client.id, e.tg, e.refCount)]
    {
      forall cs | cs in sessions && cs != callsign
        ensures cs in old(sessions) && View(sessions)[cs] == old(View(sessions))[cs]
      {
        assert sessions[cs] == old(sessions)[cs] && old(sessions)[cs] in old(sessions).Values;
      }
    }

    /** Publisher of tg if there is none yet. */
    method Install(callsign: Callsign, tg: Tg)
      modifies `tgPublisher
      ensures tgPublisher == Installed(old(tgPublisher), tg, callsign)
    {
      if tg !in tgPublisher {
        tgPublisher := tgPublisher[tg := callsign];
      }
    }

    /** grace is the entry a grace goroutine is started for, if one is. */
    method Disconnect(callsign: Callsign) returns (grace: Entry?)
      requires Valid() && connecting.NoConnect?
      modifies this, sessions.Values
      ensures Valid() && entries == old(entries) && sessions == old(sessions)
      ensures Next(old(Abs()), RegistryProtocol.Disconnect(callsign), Abs())
      ensures grace != null <==> callsign in sessions && sessions[callsign].refCount <= 0
      ensures timers == old(timers) + if grace == null then multiset{} else multiset{Timer(callsign, grace.client.id)}
      ensures grace != null ==> grace in entries
    {
      hide Inv, Distinct;
      ghost var s := Abs();
      if callsign !in sessions {
        StepKeeps(s, RegistryProtocol.Disconnect(callsign), Abs());
        return null;
      }
      var e := sessions[callsign];
      e.refCount := e.refCount - 1;
      ViewUpdates(callsign);
      if e.refCount > 0 {
        StepKeeps(s, RegistryProtocol.Disconnect(callsign), Abs());
        return null;
      }
      timers := timers + multiset{Timer(callsign, e.client.id)};
      StepKeeps(s, RegistryProtocol.Disconnect(callsign), Abs());
      return e;
    }

    /** A grace goroutine wakes up with the entry it was started for. */
    method GraceOver(callsign: Callsign, e: Entry)
      requires Valid() && e in entries && Timer(callsign, e.client.id) in timers
      modifies this
      ensures Valid() && entries == old(entries)
      ensures Next(old(Abs()), GraceEnds(Timer(callsign, e.client.id)), Abs())
    {
      hide Inv, Distinct, PublisherRemoved;
      ghost var s := Abs();
      ghost var timer := Timer(callsign, e.client.id);
      SameEntry(callsign, e);
      timers := timers - multiset{timer};
      if callsign in sessions && sessions[callsign] == e && e.refCount <= 0 {
        ghost var u := Abs();
        TakeOut(callsign, true);
        assert Removed(u, callsign, Abs());
      }
      assert GraceEndsStep(s, timer, Abs());
      StepKeeps(s, GraceEnds(timer), Abs());
    }

    method ForceDisconnect(callsign: Callsign)
      requires Valid()
      modifies this
      ensures Valid() && entries == old(entries)
      ensures Next(old(Abs()), RegistryProtocol.ForceDisconnect(callsign), Abs())
    {
      hide Inv, Distinct, PublisherRemoved;
      ghost var s := Abs();
      if callsign in sessions {
        TakeOut(callsign, true);
      }
      StepKeeps(s, RegistryProtocol.ForceDisconnect(callsign), Abs());
    }

    /** cleanup: the reader of client c has ended. made is the entry c was made for. */
    method Cleanup(callsign: Callsign, c: Client, ghost made: Entry)
      requires Valid() && made in entries && made.client == c
      modifies this, sessions.Values
      ensures Valid() && entries == old(entries)
      ensures Next(old(Abs()), ConnectionLost(callsign, c.id), Abs())
    {
      hide Inv, Distinct, PublisherRemoved;
      ghost var s := Abs();
      SameEntry(callsign, made);
      if callsign in sessions && sessions[callsign].client == c {
        sessions[callsign].refCount := 0;
        ViewUpdates(callsign);
        ghost var u := Abs();
        TakeOut(callsign, false);
        TalkgroupsDecide(s.sessions, u.sessions, s.publisher, callsign, s.sessions[callsign].tg, tgPublisher);
      }
      StepKeeps(s, ConnectionLost(callsign, c.id), Abs());
    }

    /** No other entry has the client of e. */
    lemma SameEntry(callsign: Callsign, e: Entry)
      requires Valid() && e in entries
      ensures callsign in sessions ==>
              (sessions[callsign].client == e.client <==> sessions[callsign] == e) &&
              (sessions[callsign].client.id == e.client.id <==> sessions[callsign] == e)
    {
      hide Inv;
    }

    method SelectTG(callsign: Callsign, tg: Tg)
      requires Valid() && connecting.NoConnect?
      modifies this, sessions.Values
      ensures Valid() && entries == old(entries) && sessions == old(sessions)
      ensures Next(old(Abs()), SelectTg(callsign, tg), Abs())
      ensures callsign in sessions ==> sessions[callsign].tg == tg
      ensures forall e :: e in entries && (callsign !in sessions || e != sessions[callsign]) ==> e.tg == old(e.tg)
    {
      hide Inv, Distinct, PublisherRemoved;
      ghost var s := Abs();
      if callsign in sessions {
        var e := sessions[callsign];
        var oldTG := e.tg;
        e.tg := tg;
        ViewUpdates(callsign);
        RemovePublisher(callsign, oldTG);
        ghost var between := tgPublisher;
        Install(callsign, tg);
        assert SelectTgStep(s, callsign, tg, Abs());
      }
      StepKeeps(s, SelectTg(callsign, tg), Abs());
    }

    method CurrentTG(callsign: Callsign) returns (tg: Tg)
      ensures tg == if callsign in sessions then sessions[callsign].tg else 0
    {
      if callsign in sessions {
        return sessions[callsign].tg;
      }
      return 0;
    }

    /** The audio callback's check, made for a frame that arrives on the connection of e. */
    method MayPublish(e: Entry) returns (publish: bool)
      requires Valid()
      ensures e.callsign in sessions && sessions[e.callsign] == e ==> (publish <==> Publishes(Abs(), e.callsign))
      ensures publish <==> PublisherOf(tgPublisher, e.tg) == e.callsign
    {
      var publisher := if e.tg in tgPublisher then tgPublisher[e.tg] else "";
      publish := publisher == e.callsign;
    }

    method CloseAll()
      modifies `closed
      ensures closed == old(closed) + Ids(View(sessions))
    {
      var rest := sessions.Keys;
      while rest != {}
        invariant rest <= sessions.Keys
        invariant closed == old(closed) + set cs | cs in sessions && cs !in rest :: sessions[cs].client.id
        decreases |rest|
      {
        var cs :| cs in rest;
        rest := rest - {cs};
        closed := closed + {sessions[cs].client.id};
      }
      assert forall cs :: cs in sessions ==> View(sessions)[cs].id == sessions[cs].client.id;
    }

    method StopAll()
      requires Valid()
      modifies this
      ensures Valid() && entries == old(entries)
      ensures Next(old(Abs()), RegistryProtocol.StopAll, Abs())
    {
      hide Inv, Ids;
      ghost var s := Abs();
      CloseAll();
      sessions, tgPublisher := map[], map[];
      StepKeeps(s, RegistryProtocol.StopAll, Abs());
    }
  }

  /** Who may be promoted depends on the talkgroups alone. */
  lemma TalkgroupsDecide(a: map<Callsign, Session>, b: map<Callsign, Session>, before: map<Tg, Callsign>,
                         callsign: Callsign, tg: Tg, after: map<Tg, Callsign>)
    requires a.Keys == b.Keys && forall cs :: cs in a ==> a[cs].tg == b[cs].tg
    requires PublisherRemoved(b, before, callsign, tg, after)
    ensures PublisherRemoved(a, before, callsign, tg, after)
  {
    assert forall other :: CanReplace(a, callsign, tg, other) <==> CanReplace(b, callsign, tg, other);
  }

  lemma IsSuccess(s: State, callsign: Callsign, tg: Tg, t: State)
    requires s.connecting == Dialling(callsign, tg)
    requires t == s.(sessions := s.sessions[callsign := Session(s.nextId, tg, 1)],
                     publisher := Installed(s.publisher, tg, callsign), connecting := NoConnect, nextId := s.nextId + 1)
    ensures Next(s, ConnectSucceeds, t)
  {
  }

  lemma DistinctGrows(entries: set<Entry>, e: Entry)
    requires Distinct(entries) && e !in entries && e.client.id == |entries|
    ensures Distinct(entries + {e}) && |entries + {e}| == |entries| + 1
  {
  }

  /** Entries are numbered by their clients. */
  ghost predicate Distinct(entries: set<Entry>) {
    && (forall e, f :: e in entries && f in entries && e.client.id == f.client.id ==> e == f)
    && (forall e :: e in entries ==> e.client.id < |entries|)
  }
}
