/** Which peers the dashboard lists for a talkgroup: longest prefix match over the mesh
    (app/controllers/dashboard_controller.rb:82-152). */
module Routing {

  /** A trunk peer: the prefixes it owns, those it relays, and whether "*" stood among the latter. */
  datatype Peer = Peer(name: string, remote: seq<string>, routable: seq<string>, wildcard: bool)

  datatype Mesh = Mesh(localPrefix: seq<string>, peers: seq<Peer>)

  datatype Kind = DefaultRoute | Owned | Relayed

  datatype Badge =
    | Cluster | Parent(host: string) | Rehomed(long: string) | Local | PeerBadge(name: string, kind: Kind) | NoRoute

  datatype Routes = Routes(badges: seq<Badge>, multiPeer: bool)

  function Claims(p: Peer): seq<string> { p.remote + p.routable }

  function PeerPrefixes(peers: seq<Peer>): seq<string> {
    if |peers| == 0 then [] else PeerPrefixes(peers[..|peers| - 1]) + Claims(peers[|peers| - 1])
  }

  /** Every prefix that anybody in the mesh claims. */
  function AllPrefixes(m: Mesh): seq<string> { m.localPrefix + PeerPrefixes(m.peers) }

  /** best_len: the length of the longest entry that is a prefix of tg, 0 if none is. */
  function BestLen(tg: string, list: seq<string>): nat {
    if |list| == 0 then 0
    else
      var rest, p := BestLen(tg, list[..|list| - 1]), list[|list| - 1];
      if p <= tg && |p| > rest then |p| else rest
  }

  /** out_specificed: a longer prefix than this matches somewhere. */
  predicate OutSpecified(m: Mesh, tg: string, len: nat) {
    exists i :: 0 <= i < |AllPrefixes(m)| && |AllPrefixes(m)[i]| > len && AllPrefixes(m)[i] <= tg
  }

  // ----- the code ---------------------------------------------------------------------------

  method FindOutSpecified(m: Mesh, tg: string, len: nat) returns (found: bool)
    ensures found == OutSpecified(m, tg, len)
  {
    var all := AllPrefixes(m);
    for i := 0 to |all|
      invariant forall k :: 0 <= k < i ==> !(|all[k]| > len && all[k] <= tg)
    {
      if |all[i]| > len && all[i] <= tg {
        return true;
      }
    }
    return false;
  }

  /** What the loop adds for one peer: nothing, or its badge. */
  function BadgeOf(m: Mesh, tg: string, p: Peer): seq<Badge> {
    var len := BestLen(tg, Claims(p));
    if len == 0 && !p.wildcard then []
    else if OutSpecified(m, tg, len) then []
    else if len == 0 then [PeerBadge(p.name, DefaultRoute)]
    else if BestLen(tg, p.remote) == len then [PeerBadge(p.name, Owned)]
    else [PeerBadge(p.name, Relayed)]
  }

  function PeerBadges(m: Mesh, tg: string, peers: seq<Peer>): seq<Badge> {
    if |peers| == 0 then [] else PeerBadges(m, tg, peers[..|peers| - 1]) + BadgeOf(m, tg, peers[|peers| - 1])
  }

  /** routes_for, with the questions about the node as parameters: whether the talkgroup is a cluster one, the parent of
      a satellite, and the long number of a local alias. The strings are numbers written out. */
  method RoutesFor(m: Mesh, tg: string, cluster: bool, parent: string, alias: string) returns (r: Routes)
    ensures cluster ==> r == Routes([Cluster], false)
    ensures !cluster && |parent| > 0 ==> r == Routes([Parent(parent)], false)
    ensures !cluster && |parent| == 0 ==>
              (var routed := if |alias| > 0 then alias else tg;
               var listed := PeerBadges(m, routed, m.peers);
               var badges := (if |alias| > 0 then [Rehomed(alias)] else []) +
                             (if OwnsLocally(m, routed) then [Local] else []) + listed;
               r == Routes(if badges == [] then [NoRoute] else badges, |listed| >= 2))
  {
    hide OutSpecified, BestLen, PeerBadges;
    var badges := [];
    var peerCount := 0;
    if cluster {
      badges := badges + [Cluster];
    } else if |parent| > 0 {
      badges := badges + [Parent(parent)];
    } else {
      var routed := if |alias| > 0 then alias else tg;
      if |alias| > 0 {
        badges := badges + [Rehomed(alias)];
      }
      var localLen := BestLen(routed, m.localPrefix);
      var out := FindOutSpecified(m, routed, localLen);
      if localLen > 0 && !out {
        badges := badges + [Local];
      }
      var listed := RoutePeers(m, routed);
      badges := badges + listed;
      peerCount := |listed|;
      if |badges| == 0 {
        badges := badges + [NoRoute];
      }
    }
    r := Routes(badges, peerCount >= 2);
  }

  /** The loop over the trunks: one badge for each peer that carries the talkgroup. */
  method RoutePeers(m: Mesh, routed: string) returns (listed: seq<Badge>)
    ensures listed == PeerBadges(m, routed, m.peers)
  {
    hide OutSpecified, BestLen;
    listed := [];
    for i := 0 to |m.peers|
      invariant listed == PeerBadges(m, routed, m.peers[..i])
    {
      var p := m.peers[i];
      assert m.peers[..i + 1][..i] == m.peers[..i];
      var linkLen := BestLen(routed, p.remote + p.routable);
      var viaWildcard := false;
      if linkLen == 0 {
        if !p.wildcard {
          continue;
        }
        viaWildcard := true;
      }
      var out := FindOutSpecified(m, routed, linkLen);
      if out {
        continue;
      }
      var owns := linkLen > 0 && BestLen(routed, p.remote) == linkLen;
      if viaWildcard {
        listed := listed + [PeerBadge(p.name, DefaultRoute)];
      } else if owns {
        listed := listed + [PeerBadge(p.name, Owned)];
      } else {
        listed := listed + [PeerBadge(p.name, Relayed)];
      }
    }
    assert m.peers[..|m.peers|] == m.peers;
  }

  predicate OwnsLocally(m: Mesh, tg: string) {
    BestLen(tg, m.localPrefix) > 0 && !OutSpecified(m, tg, BestLen(tg, m.localPrefix))
  }

  // ----- longest prefix match ---------------------------------------------------------------

  /** The longest match anywhere in the mesh. */
  function Best(m: Mesh, tg: string): nat { BestLen(tg, AllPrefixes(m)) }

  predicate Matches(tg: string, list: seq<string>, len: nat) {
    len <= |tg| && tg[..len] in list
  }

  /** BestLen is what its name says: it is matched, if it is not 0, and nothing longer is. */
  lemma {:induction false} BestLenIsBest(tg: string, list: seq<string>)
    ensures var b := BestLen(tg, list);
            (b > 0 ==> Matches(tg, list, b)) && forall len: nat :: Matches(tg, list, len) ==> len <= b
  {
    if |list| > 0 {
      var init, p := list[..|list| - 1], list[|list| - 1];
      BestLenIsBest(tg, init);
      assert list == init + [p];
      forall len: nat | Matches(tg, list, len) ensures len <= BestLen(tg, list) {
        if tg[..len] in init {
          assert Matches(tg, init, len);
        } else {
          assert tg[..len] == p;
        }
      }
      if p <= tg {
        assert tg[..|p|] == p;
      }
    }
  }

  lemma SublistMatches(tg: string, list: seq<string>, all: seq<string>)
    requires forall p :: p in list ==> p in all
    ensures BestLen(tg, list) <= BestLen(tg, all)
  {
    hide BestLen;
    BestLenIsBest(tg, list);
    BestLenIsBest(tg, all);
    var b := BestLen(tg, list);
    if b > 0 {
      assert Matches(tg, all, b);
    }
  }

  lemma {:induction false} ClaimsInMesh(peers: seq<Peer>, i: nat)
    requires i < |peers|
    ensures forall p :: p in Claims(peers[i]) ==> p in PeerPrefixes(peers)
    decreases |peers|
  {
    hide Claims;
    if i < |peers| - 1 {
      ClaimsInMesh(peers[..|peers| - 1], i);
    }
  }

  lemma OutSpecifiedIffShorter(m: Mesh, tg: string, len: nat)
    ensures OutSpecified(m, tg, len) <==> len < Best(m, tg)
  {
    hide BestLen, AllPrefixes;
    var all := AllPrefixes(m);
    BestLenIsBest(tg, all);
    var b := Best(m, tg);
    if len < b {
      var i :| 0 <= i < |all| && all[i] == tg[..b];
      assert |all[i]| > len && all[i] <= tg;
    }
    if OutSpecified(m, tg, len) {
      var i :| 0 <= i < |all| && |all[i]| > len && all[i] <= tg;
      assert tg[..|all[i]|] == all[i];
      assert Matches(tg, all, |all[i]|);
    }
  }

  /** A peer is listed exactly when its best match is the best of the mesh, or nothing in the mesh matches and it has
      the default route. */
  lemma PeerListedIffBest(m: Mesh, tg: string, i: nat)
    requires i < |m.peers|
    ensures var p, best := m.peers[i], Best(m, tg);
            BadgeOf(m, tg, p) != [] <==> (if best > 0 then BestLen(tg, Claims(p)) == best else p.wildcard)
  {
    hide BestLen, OutSpecified;
    var p := m.peers[i];
    OutSpecifiedIffShorter(m, tg, BestLen(tg, Claims(p)));
    ClaimsInMesh(m.peers, i);
    SublistMatches(tg, Claims(p), AllPrefixes(m));
  }

  lemma LocalIffBest(m: Mesh, tg: string)
    ensures OwnsLocally(m, tg) <==> Best(m, tg) > 0 && BestLen(tg, m.localPrefix) == Best(m, tg)
  {
    hide BestLen, OutSpecified;
    OutSpecifiedIffShorter(m, tg, BestLen(tg, m.localPrefix));
    SublistMatches(tg, m.localPrefix, AllPrefixes(m));
  }

  predicate Listed(m: Mesh, tg: string, i: nat)
    requires i < |m.peers|
  {
    BadgeOf(m, tg, m.peers[i]) != []
  }

  lemma {:induction false} PrefixHasClaimant(peers: seq<Peer>, p: string)
    requires p in PeerPrefixes(peers)
    ensures exists i :: 0 <= i < |peers| && p in Claims(peers[i])
    decreases |peers|
  {
    hide Claims;
    var k := |peers| - 1;
    if p !in Claims(peers[k]) {
      PrefixHasClaimant(peers[..k], p);
      var i :| 0 <= i < k && p in Claims(peers[..k][i]);
      assert p in Claims(peers[i]);
    }
  }

  /** A talkgroup that any prefix matches is never shown without a route. */
  lemma MatchedIsRouted(m: Mesh, tg: string)
    requires Best(m, tg) > 0
    ensures OwnsLocally(m, tg) || exists i :: 0 <= i < |m.peers| && Listed(m, tg, i)
  {
    hide BestLen, OwnsLocally, Listed, Claims, PeerPrefixes;
    var b := Best(m, tg);
    BestLenIsBest(tg, AllPrefixes(m));
    LocalIffBest(m, tg);
    if tg[..b] in m.localPrefix {
      BestLenIsBest(tg, m.localPrefix);
      assert Matches(tg, m.localPrefix, b);
      SublistMatches(tg, m.localPrefix, AllPrefixes(m));
    } else {
      PrefixHasClaimant(m.peers, tg[..b]);
      var i :| 0 <= i < |m.peers| && tg[..b] in Claims(m.peers[i]);
      BestLenIsBest(tg, Claims(m.peers[i]));
      assert Matches(tg, Claims(m.peers[i]), b);
      ClaimsInMesh(m.peers, i);
      SublistMatches(tg, Claims(m.peers[i]), AllPrefixes(m));
      ListedBecause(m, tg, i);
    }
  }

  lemma ListedBecause(m: Mesh, tg: string, i: nat)
    requires i < |m.peers|
    ensures Listed(m, tg, i) <==>
            (if Best(m, tg) > 0 then BestLen(tg, Claims(m.peers[i])) == Best(m, tg) else m.peers[i].wildcard)
  {
    hide BestLen, BadgeOf, Claims;
    PeerListedIffBest(m, tg, i);
  }

  /** Peers that tie for a matched talkgroup all claim one and the same prefix. */
  lemma TiedPeersClaimOnePrefix(m: Mesh, tg: string, i: nat, j: nat)
    requires i < |m.peers| && j < |m.peers| && Best(m, tg) > 0 && Listed(m, tg, i) && Listed(m, tg, j)
    ensures Best(m, tg) <= |tg|
    ensures tg[..Best(m, tg)] in Claims(m.peers[i]) && tg[..Best(m, tg)] in Claims(m.peers[j])
  {
    hide BestLen, Listed, Claims;
    ListedBecause(m, tg, i);
    ListedBecause(m, tg, j);
    BestLenIsBest(tg, Claims(m.peers[i]));
    BestLenIsBest(tg, Claims(m.peers[j]));
  }

  /** How many of the peers have a badge. */
  lemma {:induction false} SomeBadge(m: Mesh, tg: string, peers: seq<Peer>)
    ensures |PeerBadges(m, tg, peers)| >= 1 <==> exists i :: 0 <= i < |peers| && BadgeOf(m, tg, peers[i]) != []
    decreases |peers|
  {
    hide BadgeOf;
    if |peers| > 0 {
      var k := |peers| - 1;
      SomeBadge(m, tg, peers[..k]);
      if |PeerBadges(m, tg, peers[..k])| >= 1 {
        var i :| 0 <= i < k && BadgeOf(m, tg, peers[..k][i]) != [];
        assert BadgeOf(m, tg, peers[i]) != [];
      }
    }
  }

  lemma {:induction false} TwoBadges(m: Mesh, tg: string, peers: seq<Peer>)
    ensures |PeerBadges(m, tg, peers)| >= 2 <==>
            exists i, j :: 0 <= i < j < |peers| && BadgeOf(m, tg, peers[i]) != [] && BadgeOf(m, tg, peers[j]) != []
    decreases |peers|
  {
    BadgeIsOne(m, tg, peers);
    hide BadgeOf;
    if |peers| > 0 {
      var k := |peers| - 1;
      TwoBadges(m, tg, peers[..k]);
      SomeBadge(m, tg, peers[..k]);
      if |PeerBadges(m, tg, peers[..k])| >= 2 {
        var i, j :| 0 <= i < j < k && BadgeOf(m, tg, peers[..k][i]) != [] && BadgeOf(m, tg, peers[..k][j]) != [];
        assert BadgeOf(m, tg, peers[i]) != [] && BadgeOf(m, tg, peers[j]) != [];
      } else if |PeerBadges(m, tg, peers[..k])| >= 1 {
        var i :| 0 <= i < k && BadgeOf(m, tg, peers[..k][i]) != [];
        assert BadgeOf(m, tg, peers[i]) != [];
      }
    }
  }

  lemma BadgeIsOne(m: Mesh, tg: string, peers: seq<Peer>)
    ensures forall p :: p in peers ==> |BadgeOf(m, tg, p)| <= 1
  {
  }

  /** multi_peer is raised exactly when two peers are listed. */
  lemma MultiPeerIffTie(m: Mesh, tg: string)
    ensures |PeerBadges(m, tg, m.peers)| >= 2 <==>
            exists i, j :: 0 <= i < j < |m.peers| && Listed(m, tg, i) && Listed(m, tg, j)
  {
    hide BadgeOf;
    TwoBadges(m, tg, m.peers);
    if i, j :| 0 <= i < j < |m.peers| && Listed(m, tg, i) && Listed(m, tg, j) {
      assert BadgeOf(m, tg, m.peers[i]) != [] && BadgeOf(m, tg, m.peers[j]) != [];
    }
    if |PeerBadges(m, tg, m.peers)| >= 2 {
      var i, j :| 0 <= i < j < |m.peers| && BadgeOf(m, tg, m.peers[i]) != [] && BadgeOf(m, tg, m.peers[j]) != [];
      assert Listed(m, tg, i) && Listed(m, tg, j);
    }
  }

  // ----- what the badges say ----------------------------------------------------------------

  /** Somebody in the mesh claims p. */
  predicate ClaimedSomewhere(m: Mesh, p: string) {
    p in m.localPrefix || exists i :: 0 <= i < |m.peers| && (p in m.peers[i].remote || p in m.peers[i].routable)
  }

  lemma {:induction false} InAll(peers: seq<Peer>, p: string)
    ensures p in PeerPrefixes(peers) <==>
            exists i :: 0 <= i < |peers| && (p in peers[i].remote || p in peers[i].routable)
  {
    if |peers| > 0 {
      var k := |peers| - 1;
      InAll(peers[..k], p);
      if p in PeerPrefixes(peers[..k]) {
        var i :| 0 <= i < k && (p in peers[..k][i].remote || p in peers[..k][i].routable);
        assert p in peers[i].remote || p in peers[i].routable;
      }
      if i :| 0 <= i < |peers| && (p in peers[i].remote || p in peers[i].routable) {
        if i < k {
          assert peers[..k][i] == peers[i];
        }
      }
    }
  }

  /** Best is the longest prefix of the talkgroup that anybody claims, and 0 where nobody claims any. */
  lemma BestIsLongestClaim(m: Mesh, tg: string)
    ensures Best(m, tg) <= |tg| && (Best(m, tg) > 0 ==> ClaimedSomewhere(m, tg[..Best(m, tg)]))
    ensures forall len: nat :: len <= |tg| && ClaimedSomewhere(m, tg[..len]) ==> len <= Best(m, tg)
  {
    hide BestLen, PeerPrefixes;
    BestLenIsBest(tg, AllPrefixes(m));
    forall p: string
      ensures p in AllPrefixes(m) <==> ClaimedSomewhere(m, p)
    {
      InAll(m.peers, p);
    }
    forall len: nat | len <= |tg| && ClaimedSomewhere(m, tg[..len])
      ensures len <= Best(m, tg)
    {
      assert Matches(tg, AllPrefixes(m), len);
    }
  }

  /** A peer owns a talkgroup whose best prefix it has as its own, and relays one whose best prefix it only routes;
      where nothing matches, a wildcard makes it the default route. */
  lemma BadgeTells(m: Mesh, tg: string, i: nat)
    requires i < |m.peers| && Best(m, tg) <= |tg|
    ensures var p, best := m.peers[i], Best(m, tg);
            BadgeOf(m, tg, p) ==
            if best == 0 then if p.wildcard then [PeerBadge(p.name, DefaultRoute)] else []
            else if tg[..best] in p.remote then [PeerBadge(p.name, Owned)]
            else if tg[..best] in p.routable then [PeerBadge(p.name, Relayed)]
            else []
  {
    hide BestLen, OutSpecified, AllPrefixes;
    var p, best := m.peers[i], Best(m, tg);
    PeerListedIffBest(m, tg, i);
    ClaimIsMatch(m, tg, i, Claims(p));
    ClaimIsMatch(m, tg, i, p.remote);
    assert best > 0 ==> (tg[..best] in Claims(p) <==> tg[..best] in p.remote || tg[..best] in p.routable);
  }

  /** Claims of a peer match best exactly if they hold the best prefix. */
  lemma ClaimIsMatch(m: Mesh, tg: string, i: nat, list: seq<string>)
    requires i < |m.peers| && (forall p :: p in list ==> p in Claims(m.peers[i])) && Best(m, tg) <= |tg|
    ensures BestLen(tg, list) <= Best(m, tg)
    ensures Best(m, tg) > 0 ==> (BestLen(tg, list) == Best(m, tg) <==> tg[..Best(m, tg)] in list)
  {
    hide BestLen;
    ClaimsInMesh(m.peers, i);
    SublistMatches(tg, list, AllPrefixes(m));
    BestLenIsBest(tg, list);
    if Best(m, tg) > 0 && tg[..Best(m, tg)] in list {
      assert Matches(tg, list, Best(m, tg));
    }
  }

  /** The badges come in the order of the peers. */
  lemma {:induction false} BadgesInOrder(m: Mesh, tg: string, peers: seq<Peer>, more: seq<Peer>)
    ensures PeerBadges(m, tg, peers + more) == PeerBadges(m, tg, peers) + PeerBadges(m, tg, more)
    ensures |peers| == 1 ==> PeerBadges(m, tg, peers) == BadgeOf(m, tg, peers[0])
    decreases |more|
  {
    hide BadgeOf;
    assert |peers| == 1 ==> peers[..0] == [];
    if |more| == 0 {
      assert peers + more == peers;
    } else {
      var k := |more| - 1;
      BadgesInOrder(m, tg, peers, more[..k]);
      assert (peers + more)[..|peers| + k] == peers + more[..k];
    }
  }
}
