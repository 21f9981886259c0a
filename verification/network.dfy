/**
 * Changing the network profile of the running upstream. Going back to the local
 * network pauses every peer first, and only then moves the boundary.
 */
module Network {
  import opened Durable

  datatype Profile = LanOnly | SyncAnywhere

  datatype Peer = Peer(paused: bool, networks: seq<string>)

  type Peers = map<string, Peer>

  const NO_NETWORK: seq<string> := ["0.0.0.0/32", "::/128"]

  /** The networks a remote peer is left with on the local network. */
  ghost function Boundary(allowed: seq<string>): seq<string> {
    if allowed != [] then allowed else ["0.0.0.0/32", "::/128"]
  }

  /** Upstream lets a peer in from this address: a peer without a list may come from anywhere. */
  ghost predicate Admits(within: (string, string) -> bool, networks: seq<string>, address: string) {
    networks == [] || exists i :: 0 <= i < |networks| && within(networks[i], address)
  }

  /** The two networks that stand for none hold one address each, and no peer has either. */
  ghost predicate HostRoutes(within: (string, string) -> bool) {
    forall address :: (within("0.0.0.0/32", address) <==> address == "0.0.0.0") && (within("::/128", address) <==> address == "::")
  }

  /**
   * Without an eligible local network nobody is let in, although an empty list
   * would let everybody in; otherwise exactly the local networks are.
   */
  lemma BoundaryAdmits(within: (string, string) -> bool, allowed: seq<string>, address: string)
    requires HostRoutes(within)
    ensures Admits(within, Boundary(allowed), address) <==>
              || (exists i :: 0 <= i < |allowed| && within(allowed[i], address))
              || (allowed == [] && address in ["0.0.0.0", "::"])
    ensures Admits(within, [], address)
  {
    var networks := Boundary(allowed);
    if allowed == [] {
      assert networks[0] == "0.0.0.0/32" && networks[1] == "::/128";
    }
  }

  ghost predicate AllPaused(peers: Peers, self: string) {
    forall id :: id in peers && id != self ==> peers[id].paused
  }

  /** Upstream at one moment; checked says whether the peers have been seen disconnected in this transition. */
  datatype Moment = Moment(peers: Peers, options: Option<Profile>, checked: bool)

  /** Every peer that began paused is paused in every state from n on. */
  ghost predicate NeverUnpaused(start: Peers, history: seq<Moment>, n: nat) {
    forall k, id :: n <= k < |history| && id in start && start[id].paused ==>
      id in history[k].peers && history[k].peers[id].paused
  }

  // ----------------------------------------- what the transition promises to keep

  /** Something the transition is for has happened: the check, a boundary, or the options. */
  ghost predicate Begun(start: Moment, m: Moment) {
    m.checked || m.options != start.options || !SameNetworks(start.peers, m.peers)
  }

  /** The new boundary and the new options are both there. */
  ghost predicate Applied(m: Moment, self: string, networks: seq<string>) {
    m.options == Some(LanOnly) && Moved(m.peers, self, {}, networks)
  }

  /**
   * From the disconnect check, or from the first change of a boundary or of the
   * options, until boundary and options are both applied, every remote peer is
   * paused.
   */
  ghost predicate PausedUntilApplied(start: Moment, history: seq<Moment>, n: nat, self: string, networks: seq<string>) {
    forall k :: n <= k < |history| && Begun(start, history[k])
                && (forall j :: n <= j < k ==> !Applied(history[j], self, networks)) ==>
      AllPaused(history[k].peers, self)
  }

  /** Nothing changes before the peers have been seen disconnected. */
  ghost predicate CheckedFirst(start: Moment, history: seq<Moment>, n: nat) {
    forall k :: n <= k < |history| && !history[k].checked ==>
      history[k].options == start.options && SameNetworks(start.peers, history[k].peers)
  }

  // --------------------------------------------------------- how it is kept

  /** From n on only pause flags moved. */
  ghost predicate Steady(entry: Moment, history: seq<Moment>, n: nat) {
    forall k :: n <= k < |history| ==>
      history[k].options == entry.options && history[k].checked == entry.checked
      && SameNetworks(entry.peers, history[k].peers)
  }

  /** Every peer but this device is paused, and seen disconnected, in every state from n on. */
  ghost predicate Held(self: string, history: seq<Moment>, n: nat) {
    forall k :: n <= k < |history| ==> history[k].checked && AllPaused(history[k].peers, self)
  }

  /** The peers as they began, but for pauses added and boundaries moved. */
  ghost predicate OnlyMorePaused(start: Peers, peers: Peers, paused: set<string>, self: string) {
    && peers.Keys == start.Keys
    && (forall id :: id in paused ==> id in start && id != self && !start[id].paused)
    && (forall id :: id in start ==> peers[id].paused == (start[id].paused || id in paused))
    && (self in start ==> peers[self] == start[self])
  }

  lemma NeverUnpausedMore(start: Peers, history: seq<Moment>, n: nat, m: Moment)
    requires NeverUnpaused(start, history, n)
    requires forall id :: id in start && start[id].paused ==> id in m.peers && m.peers[id].paused
    ensures NeverUnpaused(start, history + [m], n)
  {
    var more := history + [m];
    forall k, id | n <= k < |more| && id in start && start[id].paused
      ensures id in more[k].peers && more[k].peers[id].paused
    {
      if k < |history| {
        assert more[k] == history[k];
      }
    }
  }

  lemma SteadyMore(entry: Moment, history: seq<Moment>, n: nat, m: Moment)
    requires Steady(entry, history, n)
    requires m.options == entry.options && m.checked == entry.checked && SameNetworks(entry.peers, m.peers)
    ensures Steady(entry, history + [m], n)
  {
  }

  lemma HeldMore(self: string, history: seq<Moment>, n: nat, m: Moment)
    requires Held(self, history, n) && m.checked && AllPaused(m.peers, self)
    ensures Held(self, history + [m], n)
  {
  }

  lemma LastHeld(self: string, history: seq<Moment>)
    requires history != [] && history[|history| - 1].checked && AllPaused(history[|history| - 1].peers, self)
    ensures Held(self, history, |history| - 1)
  {
  }

  lemma StillMoved(before: Peers, after: Peers, self: string, networks: seq<string>)
    requires SameNetworks(before, after)
    ensures Moved(before, self, {}, networks) ==> Moved(after, self, {}, networks)
  {
  }

  lemma NothingYet(start: Peers, entry: Moment, history: seq<Moment>)
    ensures NeverUnpaused(start, history, |history|) && Steady(entry, history, |history|)
  {
  }

  /** Steady before the check, held until it ended, and steady afterwards. */
  lemma CheckCameFirst(start: Moment, history: seq<Moment>, n: nat, checked: nat, held: nat, after: Moment, self: string)
    requires n <= checked <= held <= |history|
    requires !start.checked && Steady(start, history[..checked], n)
    requires Held(self, history[..held], checked) && after.checked && Steady(after, history, held)
    ensures CheckedFirst(start, history, n)
  {
    forall k | n <= k < checked
      ensures history[k].options == start.options && SameNetworks(start.peers, history[k].peers)
    {
      assert history[k] == history[..checked][k];
    }
    forall k | checked <= k < held
      ensures history[k].checked
    {
      assert history[k] == history[..held][k];
    }
  }

  /** More steady moments, after which it is still the same. */
  lemma SteadyFrom(entry: Moment, was: Moment, before: seq<Moment>, after: seq<Moment>, n: nat)
    requires Steady(entry, before, n) && before <= after && Steady(was, after, |before|)
    requires was.options == entry.options && was.checked == entry.checked && SameNetworks(entry.peers, was.peers)
    ensures Steady(entry, after, n)
  {
    forall k | n <= k < |after|
      ensures after[k].options == entry.options && after[k].checked == entry.checked
      ensures SameNetworks(entry.peers, after[k].peers)
    {
      if k < |before| {
        assert after[k] == before[k];
      }
    }
  }

  /** Only the peers and the options of the first moment count. */
  lemma SameStart(a: Moment, b: Moment, self: string, networks: seq<string>)
    requires a.peers == b.peers && a.options == b.options
    ensures forall history, n :: CheckedFirst(b, history, n) ==> CheckedFirst(a, history, n)
    ensures forall history, n :: PausedUntilApplied(b, history, n, self, networks) ==>
              PausedUntilApplied(a, history, n, self, networks)
  {
    hide Applied, AllPaused;
  }

  lemma OnlySteady(start: Moment, history: seq<Moment>, n: nat)
    requires Steady(start, history, n)
    ensures CheckedFirst(start, history, n)
  {
  }

  /** The last moment held is the one at which everything was applied. */
  lemma PausedMeanwhile(start: Moment, history: seq<Moment>, n: nat, checked: nat, held: nat, self: string, networks: seq<string>)
    requires n <= checked < held <= |history|
    requires !start.checked && Steady(start, history[..checked], n)
    requires Held(self, history[..held], checked) && Applied(history[held - 1], self, networks)
    ensures PausedUntilApplied(start, history, n, self, networks)
  {
    hide Applied;
    forall k | n <= k < checked
      ensures !Begun(start, history[k])
    {
      assert history[k] == history[..checked][k];
    }
    forall k | checked <= k < held
      ensures AllPaused(history[k].peers, self)
    {
      assert history[k] == history[..held][k];
    }
  }

  ghost predicate SameNetworks(start: Peers, peers: Peers) {
    peers.Keys == start.Keys && forall id :: id in peers ==> peers[id].networks == start[id].networks
  }

  /** Every remote peer but the rest has this boundary. */
  ghost predicate Moved(peers: Peers, self: string, rest: set<string>, networks: seq<string>) {
    forall id :: id in peers && id != self && id !in rest ==> peers[id].networks == networks
  }

  /** Every remote peer but the rest is paused. */
  ghost predicate PausedBut(peers: Peers, self: string, rest: set<string>) {
    forall id :: id in peers && id != self && id !in rest ==> peers[id].paused
  }

  lemma PauseOne(start: Peers, peers: Peers, paused: set<string>, self: string, id: string, rest: set<string>)
    requires OnlyMorePaused(start, peers, paused, self) && SameNetworks(start, peers)
    requires id in peers && id != self && id in rest
    ensures PausedBut(peers, self, rest) && peers[id].paused ==> PausedBut(peers, self, rest - {id})
    ensures !peers[id].paused ==>
              var after := peers[id := peers[id].(paused := true)];
              && OnlyMorePaused(start, after, paused + {id}, self) && SameNetworks(start, after)
              && (PausedBut(peers, self, rest) ==> PausedBut(after, self, rest - {id}))
  {
  }

  lemma ResumeOne(start: Peers, peers: Peers, paused: set<string>, self: string, id: string)
    requires OnlyMorePaused(start, peers, paused, self) && id in paused
    ensures id in peers
    ensures var after := peers[id := peers[id].(paused := false)];
            && OnlyMorePaused(start, after, paused - {id}, self)
            && SameNetworks(peers, after)
  {
  }

  lemma SameNetworksAgain(a: Peers, b: Peers, c: Peers)
    requires SameNetworks(a, b) && SameNetworks(b, c)
    ensures SameNetworks(a, c)
  {
  }

  lemma MoveOne(start: Peers, peers: Peers, paused: set<string>, self: string, id: string, rest: set<string>, networks: seq<string>)
    requires OnlyMorePaused(start, peers, paused, self) && AllPaused(peers, self) && Moved(peers, self, rest, networks)
    requires id in peers && id != self
    ensures var after := peers[id := peers[id].(networks := networks)];
            && OnlyMorePaused(start, after, paused, self) && AllPaused(after, self) && Moved(after, self, rest - {id}, networks)
  {
  }

  /** In a state the transition may be in, every peer that began paused is paused. */
  lemma StillPaused(start: Peers, peers: Peers, paused: set<string>, self: string)
    requires OnlyMorePaused(start, peers, paused, self)
    ensures forall id :: id in start && start[id].paused ==> id in peers && peers[id].paused
  {
  }

  /** No pause flag changed, and nothing of this device. */
  ghost predicate OnlyMoved(start: Peers, peers: Peers, self: string) {
    && peers.Keys == start.Keys && (forall id :: id in peers ==> peers[id].paused == start[id].paused)
    && (self in peers ==> peers[self] == start[self])
  }

  lemma UnmovedYet(start: Peers, self: string)
    ensures OnlyMoved(start, start, self)
  {
  }

  lemma MoveAny(start: Peers, peers: Peers, self: string, id: string, rest: set<string>, networks: seq<string>)
    requires OnlyMoved(start, peers, self) && Moved(peers, self, rest, networks) && id in peers && id != self
    ensures var after := peers[id := peers[id].(networks := networks)];
            OnlyMoved(start, after, self) && Moved(after, self, rest - {id}, networks)
  {
  }

  lemma AllToMove(peers: Peers, self: string, networks: seq<string>)
    ensures Moved(peers, self, peers.Keys - {self}, networks)
  {
  }

  lemma Nothing(start: Peers, self: string)
    ensures OnlyMorePaused(start, start, {}, self) && SameNetworks(start, start) && PausedBut(start, self, start.Keys - {self})
    ensures forall peers :: PausedBut(peers, self, {}) ==> AllPaused(peers, self)
  {
  }

  class NetworkUpstream {
    var peers: Peers
    var options: Option<Profile>
    /** A run in which every patch is answered. */
    const uncut: bool
    /** Whether the transition under way has seen its peers disconnected. */
    ghost var checked: bool
    /** Every state upstream has been in, the present one last. */
    ghost var history: seq<Moment>

    constructor (peers: Peers, options: Option<Profile>, uncut: bool)
      ensures this.peers == peers && this.options == options && this.uncut == uncut && Logged()
    {
      this.peers, this.options, this.uncut, this.checked, this.history
        := peers, options, uncut, false, [Moment(peers, options, false)];
    }

    ghost function Now(): Moment
      reads this
    {
      Moment(peers, options, checked)
    }

    ghost predicate Logged()
      reads this
    {
      history != [] && history[|history| - 1] == Now()
    }

    /** A patch either takes effect or fails without one; an answered one takes effect. */
    method PatchPaused(id: string, paused: bool, answered: bool) returns (ok: bool)
      requires id in peers
      modifies this
      ensures answered || uncut ==> ok
      ensures peers == if ok then old(peers)[id := old(peers)[id].(paused := paused)] else old(peers)
      ensures options == old(options) && checked == old(checked) && history == old(history) + [Now()]
    {
      ok := *;
      ok := ok || answered || uncut;
      if ok {
        peers := peers[id := peers[id].(paused := paused)];
      }
      history := history + [Now()];
    }

    method PatchNetworks(id: string, networks: seq<string>) returns (ok: bool)
      requires id in peers
      modifies this
      ensures uncut ==> ok
      ensures peers == if ok then old(peers)[id := old(peers)[id].(networks := networks)] else old(peers)
      ensures options == old(options) && checked == old(checked) && history == old(history) + [Now()]
    {
      ok := *;
      ok := ok || uncut;
      if ok {
        peers := peers[id := peers[id].(networks := networks)];
      }
      history := history + [Now()];
    }

    method PatchOptions(profile: Profile) returns (ok: bool)
      modifies this
      ensures uncut ==> ok
      ensures options == if ok then Some(profile) else old(options)
      ensures peers == old(peers) && checked == old(checked) && history == old(history) + [Now()]
    {
      ok := *;
      ok := ok || uncut;
      if ok {
        options := Some(profile);
      }
      history := history + [Now()];
    }

    /** A new transition has seen nothing yet. */
    ghost method Begin()
      modifies this`checked, this`history
      ensures !checked && history == old(history) + [Now()]
    {
      checked := false;
      history := history + [Now()];
    }

    /** Waits for the peers to disconnect; the wait may fail. */
    method AwaitDisconnected(disconnected: bool) returns (ok: bool)
      modifies this`checked, this`history
      ensures ok == disconnected
      ensures checked == (disconnected || old(checked)) && history == old(history) + [Now()]
    {
      ok := disconnected;
      checked := checked || disconnected;
      history := history + [Now()];
    }

    /** Unpauses what the transition paused; goes on past an error and reports it. */
    method Restore(self: string, paused: set<string>, answered: bool, ghost start: Peers, ghost n: nat) returns (ok: bool)
      requires Logged() && n <= |history| && NeverUnpaused(start, history, n) && OnlyMorePaused(start, peers, paused, self)
      modifies this
      ensures Logged() && NeverUnpaused(start, history, n) && old(history) <= history
      ensures Steady(old(Now()), history, |old(history)|)
      ensures answered || uncut ==> ok
      ensures exists left :: left <= paused && OnlyMorePaused(start, peers, left, self)
      ensures ok ==> OnlyMorePaused(start, peers, {}, self)
      ensures options == old(options) && checked == old(checked) && SameNetworks(old(peers), peers)
    {
      hide NeverUnpaused, OnlyMorePaused, SameNetworks, Steady;
      ok := true;
      Nothing(peers, self);
      ghost var entry, from := Now(), |history|;
      NothingYet(start, entry, history);
      var rest := paused;
      ghost var left := paused;
      while rest != {}
        invariant rest <= left <= paused && Logged() && old(history) <= history
        invariant options == old(options) && checked == old(checked) && SameNetworks(entry.peers, peers)
        invariant NeverUnpaused(start, history, n) && OnlyMorePaused(start, peers, left, self)
        invariant Steady(entry, history, from)
        invariant (ok ==> left == rest) && (answered || uncut ==> ok)
        decreases |rest|
      {
        var id :| id in rest;
        rest := rest - {id};
        ghost var before, was := history, peers;
        ResumeOne(start, was, left, self, id);
        var patched := PatchPaused(id, false, answered);
        if patched {
          left := left - {id};
          SameNetworksAgain(entry.peers, was, peers);
        } else {
          ok := false;
        }
        StillPaused(start, peers, left, self);
        NeverUnpausedMore(start, before, n, Now());
        SteadyMore(entry, before, from, Now());
      }
    }

    /** Pauses one remote peer that is not paused yet. */
    method PausePeer(self: string, id: string, paused: set<string>, ghost start: Peers, ghost n: nat,
                     ghost entry: Moment, ghost from: nat) returns (ok: bool)
      requires Logged() && n <= |history| && NeverUnpaused(start, history, n) && OnlyMorePaused(start, peers, paused, self)
      requires id in peers && id != self && !peers[id].paused && SameNetworks(start, peers) && entry.peers == start
      requires Steady(entry, history, from) && options == entry.options && checked == entry.checked
      modifies this
      ensures Logged() && NeverUnpaused(start, history, n) && old(history) <= history
      ensures Steady(entry, history, from) && options == entry.options && checked == entry.checked
      ensures OnlyMorePaused(start, peers, if ok then paused + {id} else paused, self) && SameNetworks(start, peers)
      ensures peers == if ok then old(peers)[id := old(peers)[id].(paused := true)] else old(peers)
      ensures uncut ==> ok
    {
      hide NeverUnpaused, OnlyMorePaused, SameNetworks, Steady, PausedBut;
      ghost var before := history;
      PauseOne(start, peers, paused, self, id, peers.Keys);
      ok := PatchPaused(id, true, false);
      StillPaused(start, peers, if ok then paused + {id} else paused, self);
      NeverUnpausedMore(start, before, n, Now());
      SteadyMore(entry, before, from, Now());
    }

    /** Pauses every remote peer that is not paused yet, remembering which. */
    method PauseRemotes(self: string, ghost start: Peers, ghost n: nat) returns (ok: bool, paused: set<string>)
      requires Logged() && n <= |history| && NeverUnpaused(start, history, n) && peers == start
      modifies this
      ensures Logged() && NeverUnpaused(start, history, n) && old(history) <= history
      ensures Steady(old(Now()), history, |old(history)|)
      ensures OnlyMorePaused(start, peers, paused, self)
      ensures ok ==> AllPaused(peers, self)
      ensures uncut ==> ok
      ensures options == old(options) && checked == old(checked) && SameNetworks(start, peers)
    {
      hide NeverUnpaused, OnlyMorePaused, SameNetworks, PausedBut, AllPaused, Steady;
      ok, paused := true, {};
      Nothing(start, self);
      ghost var entry, from := Now(), |history|;
      NothingYet(start, entry, history);
      var rest := peers.Keys - {self};
      while rest != {}
        invariant rest <= peers.Keys - {self} && Logged() && old(history) <= history
        invariant options == old(options) && checked == old(checked)
        invariant NeverUnpaused(start, history, n) && OnlyMorePaused(start, peers, paused, self)
        invariant PausedBut(peers, self, rest) && SameNetworks(start, peers) && Steady(entry, history, from) && ok
        decreases |rest|
      {
        var id :| id in rest;
        PauseOne(start, peers, paused, self, id, rest);
        rest := rest - {id};
        if !peers[id].paused {
          ok := PausePeer(self, id, paused, start, n, entry, from);
          if !ok {
            return;
          }
          paused := paused + {id};
        }
      }
    }

    /** Moves the boundary of every remote peer, all of them staying paused. */
    method MoveBoundary(self: string, networks: seq<string>, paused: set<string>, ghost start: Peers, ghost n: nat, ghost from: nat)
      returns (ok: bool)
      requires Logged() && n <= |history| && NeverUnpaused(start, history, n) && OnlyMorePaused(start, peers, paused, self)
      requires Held(self, history, from) && checked && AllPaused(peers, self)
      modifies this
      ensures Logged() && NeverUnpaused(start, history, n) && old(history) <= history
      ensures OnlyMorePaused(start, peers, paused, self) && AllPaused(peers, self)
      ensures Held(self, history, from) && checked && options == old(options)
      ensures ok ==> Moved(peers, self, {}, networks)
      ensures uncut ==> ok
    {
      hide NeverUnpaused, Held, OnlyMorePaused, AllPaused, Moved;
      ok := true;
      AllToMove(peers, self, networks);
      var rest := peers.Keys - {self};
      while rest != {}
        invariant rest <= peers.Keys - {self} && Logged() && old(history) <= history && options == old(options)
        invariant NeverUnpaused(start, history, n) && OnlyMorePaused(start, peers, paused, self) && AllPaused(peers, self)
        invariant Held(self, history, from) && checked
        invariant Moved(peers, self, rest, networks) && ok
        decreases |rest|
      {
        var id :| id in rest;
        MoveOne(start, peers, paused, self, id, rest, networks);
        rest := rest - {id};
        ghost var before := history;
        ok := PatchNetworks(id, networks);
        StillPaused(start, peers, paused, self);
        NeverUnpausedMore(start, before, n, Now());
        HeldMore(self, before, from, Now());
        if !ok {
          return;
        }
      }
    }

    /** Gives up before the check: only pause flags have moved. */
    method RestoreUnchecked(self: string, paused: set<string>, answered: bool, ghost start: Peers, ghost entry: Moment, ghost n: nat)
      requires Logged() && n <= |history| && NeverUnpaused(start, history, n) && OnlyMorePaused(start, peers, paused, self)
      requires Steady(entry, history, n) && SameNetworks(entry.peers, peers)
      requires options == entry.options && checked == entry.checked
      modifies this
      ensures Logged() && old(history) <= history && NeverUnpaused(start, history, n)
      ensures CheckedFirst(entry, history, n)
      ensures answered ==> OnlyMorePaused(start, peers, {}, self)
    {
      hide NeverUnpaused, OnlyMorePaused, SameNetworks, Steady, CheckedFirst;
      ghost var was, before := Now(), history;
      var ok := Restore(self, paused, answered, start, n);
      SteadyFrom(entry, was, before, history, n);
      OnlySteady(entry, history, n);
    }

    /** The peers are paused and seen disconnected: boundary, options, and the pause flags last. */
    method ApplyChecked(self: string, networks: seq<string>, paused: set<string>, answered: bool, ghost start: Peers,
                        ghost entry: Moment, ghost n: nat, ghost at: nat)
      returns (ok: bool)
      requires Logged() && n <= at < |history| && NeverUnpaused(start, history, n) && OnlyMorePaused(start, peers, paused, self)
      requires Steady(entry, history[..at], n) && Held(self, history, at) && checked && AllPaused(peers, self)
      requires entry.peers == start && !entry.checked
      modifies this
      ensures Logged() && old(history) <= history && NeverUnpaused(start, history, n)
      ensures CheckedFirst(entry, history, n) && checked
      ensures ok || answered ==> OnlyMorePaused(start, peers, {}, self)
      ensures ok ==> options == Some(LanOnly) && Moved(peers, self, {}, networks)
      ensures ok ==> PausedUntilApplied(entry, history, n, self, networks)
      ensures uncut ==> ok
    {
      hide NeverUnpaused, OnlyMorePaused, SameNetworks, Steady, Held, CheckedFirst, PausedUntilApplied, AllPaused;
      ghost var prefix := history[..at];
      ok := MoveBoundary(self, networks, paused, start, n, at);
      if ok {
        ghost var before := history;
        ok := PatchOptions(LanOnly);
        StillPaused(start, peers, paused, self);
        NeverUnpausedMore(start, before, n, Now());
        HeldMore(self, before, at, Now());
      }
      ghost var held, was, applied := history, Now(), ok;
      var restored := Restore(self, paused, answered, start, n);
      ok := ok && restored;
      StillMoved(was.peers, peers, self, networks);
      assert history[..|held|] == held && history[..at] == prefix;
      CheckCameFirst(entry, history, n, at, |held|, was, self);
      if applied {
        PausedMeanwhile(entry, history, n, at, |held|, self, networks);
      }
    }

    /**
     * Back to the local network. Done, every peer has its own pause flag and the
     * new boundary, and every peer was paused from the disconnect check until
     * boundary and options were applied. Whatever happened, nothing changed before
     * that check, a peer that began paused stayed so, and if the patches that
     * restore the flags are answered, every peer has its own flag back.
     */
    method ApplyLanOnly(self: string, allowed: seq<string>, disconnected: bool, answered: bool) returns (ok: bool)
      requires Logged()
      modifies this
      ensures Logged() && old(history) <= history && NeverUnpaused(old(peers), history, |old(history)|)
      ensures CheckedFirst(old(Now()), history, |old(history)|)
      ensures ok ==>
                && options == Some(LanOnly) && peers.Keys == old(peers).Keys
                && (self in old(peers) ==> peers[self] == old(peers)[self])
                && (forall id :: id in peers && id != self ==> peers[id] == Peer(old(peers)[id].paused, Boundary(allowed)))
                && forall id :: id in peers && id != self ==>
                     peers[id].networks == (if allowed != [] then allowed else ["0.0.0.0/32", "::/128"]) && peers[id].networks != []
      ensures ok ==> checked && PausedUntilApplied(old(Now()), history, |old(history)|, self, Boundary(allowed))
      ensures answered ==>
                peers.Keys == old(peers).Keys && forall id :: id in peers ==> peers[id].paused == old(peers)[id].paused
      ensures uncut ==> (ok <==> disconnected)
    {
      hide NeverUnpaused, Steady, Held, CheckedFirst, PausedUntilApplied, Applied;
      ghost var start, n := peers, |history|;
      NothingYet(start, Now(), history);
      ghost var empty := history;
      Begin();
      ghost var entry := Now();
      SameStart(old(Now()), entry, self, Boundary(allowed));
      Nothing(start, self);
      StillPaused(start, peers, {}, self);
      NeverUnpausedMore(start, empty, n, entry);
      NothingYet(start, entry, empty);
      SteadyMore(entry, empty, n, entry);
      var paused;
      ok, paused := PauseRemotes(self, start, n);
      SteadyFrom(entry, entry, empty + [entry], history, n);
      if !ok {
        RestoreUnchecked(self, paused, answered, start, entry, n);
        return;
      }
      ghost var before := history;
      ok := AwaitDisconnected(disconnected);
      StillPaused(start, peers, paused, self);
      NeverUnpausedMore(start, before, n, Now());
      if !ok {
        SteadyMore(entry, before, n, Now());
        RestoreUnchecked(self, paused, answered, start, entry, n);
        return;
      }
      ghost var at := |before|;
      assert history[..at] == before;
      LastHeld(self, history);
      var networks := if |allowed| == 0 then NO_NETWORK else allowed;
      ok := ApplyChecked(self, networks, paused, answered, start, entry, n, at);
    }

    /** Opening up again: every boundary goes, then the options change; no pause flag is touched. */
    method ApplyAnywhere(self: string) returns (ok: bool)
      requires Logged()
      modifies this
      ensures Logged() && OnlyMoved(old(peers), peers, self)
      ensures ok ==> options == Some(SyncAnywhere) && Moved(peers, self, {}, [])
      ensures uncut ==> ok
    {
      hide OnlyMoved, Moved;
      ghost var start := peers;
      AllToMove(peers, self, []);
      UnmovedYet(start, self);
      var rest := peers.Keys - {self};
      ok := true;
      while rest != {}
        invariant rest <= peers.Keys - {self} && Logged()
        invariant OnlyMoved(start, peers, self) && Moved(peers, self, rest, []) && ok
        decreases |rest|
      {
        var id :| id in rest;
        MoveAny(start, peers, self, id, rest, []);
        rest := rest - {id};
        ok := PatchNetworks(id, []);
        if !ok {
          return;
        }
      }
      ok := PatchOptions(SyncAnywhere);
    }
  }
}
