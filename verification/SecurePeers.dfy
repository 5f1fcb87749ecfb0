/** The far ends of the TLS connections open in the process: a count per
    address, held by each connection for its life. */
module SecurePeers {
  import opened Tally

  type Address = nat

  /** One TLS connection; `id` tells it from every other. */
  datatype Connection = Connection(id: nat, peer: Address)

  ghost function From(open: set<Connection>, peer: Address): set<Connection> {
    set c | c in open && c.peer == peer
  }

  lemma OneMoreFrom(open: set<Connection>, c: Connection)
    requires c !in open
    ensures forall peer :: |From(open + {c}, peer)| == |From(open, peer)| + (if c.peer == peer then 1 else 0)
  {
    forall peer
      ensures |From(open + {c}, peer)| == |From(open, peer)| + (if c.peer == peer then 1 else 0)
    {
      assert From(open + {c}, peer) == From(open, peer) + (if c.peer == peer then {c} else {});
    }
  }

  class SecurePeers {
    var peers: map<Address, nat>
    ghost var open: set<Connection>
    var nextId: nat

    ghost predicate Valid()
      reads this
    {
      && Compact(peers)
      && (forall peer :: Get(peers, peer) == |From(open, peer)|)
      && (forall c | c in open :: c.id < nextId)
    }

    constructor ()
      ensures Valid() && open == {}
    {
      peers, open, nextId := map[], {}, 0;
      new;
      assert forall peer :: From({}, peer) == {};
    }

    method New(peer: Address) returns (c: Connection)
      requires Valid()
      modifies this
      ensures Valid() && c.peer == peer && c !in old(open) && open == old(open) + {c}
    {
      c := Connection(nextId, peer);
      OneMoreFrom(open, c);
      hide From, Compact;
      peers := peers[peer := (if peer in peers then peers[peer] else 0) + 1];
      open, nextId := open + {c}, nextId + 1;
    }

    /** The count given back is never at nothing. */
    method Drop(c: Connection)
      requires Valid() && c in open
      modifies this
      ensures Valid() && open == old(open) - {c}
    {
      assert open - {c} + {c} == open;
      OneMoreFrom(open - {c}, c);
      hide From, Compact;
      assert Get(peers, c.peer) > 0;
      peers := Down(peers, c.peer);
      open := open - {c};
    }

    /** A peer is secure exactly while a TLS connection from it is open. */
    method IsTlsPeer(peer: Address) returns (secure: bool)
      requires Valid()
      ensures secure <==> exists c :: c in open && c.peer == peer
    {
      secure := peer in peers;
      assert Get(peers, peer) == |From(open, peer)|;
      if secure {
        assert From(open, peer) != {};
        ghost var c :| c in From(open, peer);
      } else {
        assert From(open, peer) == {};
        assert forall c | c in open && c.peer == peer :: c in From(open, peer);
      }
    }
  }
}
