/** Repeated discovery with a missing list (lab06.py): a central node
    broadcasts DISCOVERY naming the ids it has not heard from, regular nodes
    answer with HELLO after a random delay, and after every round the central
    node recomputes the missing ids. Sends and timers are recorded in the
    nodes' `sent` and `armed` lists instead of being handed to a simulator. */
module Discovery {
  import opened Wsn

  const NUM_DEVICES: int := 50
  const HELLO_TIMEOUT: real := 0.1
  /** Regular nodes address their HELLO to node 0, the central node. */
  const CENTRAL_ID: int := 0

  /** The custom MAC layer: DISCOVERY and HELLO go up to the node, every
      other type to the default MAC. Neither the node's id or role nor the
      PDU's destination, source or payload takes part. */
  function Dispatch(p: Pdu): Verdict {
    if p.kind == Kind.Discovery || p.kind == Hello then Deliver else DefaultMac
  }

  /** The decision never drops a PDU and depends on its type alone, so two
      PDUs of one type, whatever their destination, source and payload, are
      treated alike on every node. */
  lemma DispatchByTypeOnly(p: Pdu, q: Pdu)
    requires p.kind == q.kind
    ensures Dispatch(p) != Drop
    ensures Dispatch(p) == Dispatch(q)
    ensures Dispatch(p) == Deliver <==> p.kind == Kind.Discovery || p.kind == Hello
  {
  }

  /** The ids in lo .. hi-1 that are not in `discovered`, ascending. */
  function MissingFrom(lo: int, hi: int, discovered: seq<int>): (r: seq<int>)
    ensures forall x :: x in r <==> lo <= x < hi && x !in discovered
    ensures forall a, b :: 0 <= a < b < |r| ==> r[a] < r[b]
    decreases hi - lo
  {
    if lo >= hi then []
    else
      var rest := MissingFrom(lo + 1, hi, discovered);
      assert forall b :: 0 <= b < |rest| ==> rest[b] in rest;
      if lo !in discovered then [lo] + rest else rest
  }

  /** The list comprehension of the end of a round: the ids 1 .. n, ascending,
      that have not been discovered. */
  function MissingIds(n: int, discovered: seq<int>): seq<int> {
    MissingFrom(1, n + 1, discovered)
  }

  /** With nothing discovered the recomputed missing list is the initial
      list lo .. hi-1; in particular MissingIds(n, []) == Range(1, n + 1). */
  lemma {:induction false} NothingDiscoveredMissesAll(lo: int, hi: int)
    ensures MissingFrom(lo, hi, []) == Range(lo, hi)
    decreases hi - lo
  {
    if lo < hi {
      NothingDiscoveredMissesAll(lo + 1, hi);
    }
  }

  /** No id is both discovered and missing, whatever ids were heard from
      (the central node also records HELLOs from ids outside 1 .. n). */
  lemma MissingDisjoint(n: int, discovered: seq<int>)
    ensures Elements(MissingIds(n, discovered)) * Elements(discovered) == {}
  {
  }

  /** The discovered and missing lists partition 1 .. n when every
      discovered id lies in that range. */
  lemma MissingPartition(n: int, discovered: seq<int>)
    requires forall x :: x in discovered ==> 1 <= x <= n
    ensures Elements(MissingIds(n, discovered)) * Elements(discovered) == {}
    ensures Elements(MissingIds(n, discovered)) + Elements(discovered) == Elements(Range(1, n + 1))
  {
    var m := MissingIds(n, discovered);
    var r := Range(1, n + 1);
    MissingDisjoint(n, discovered);
    forall x | x in Elements(r)
      ensures x in Elements(m) + Elements(discovered)
    {
      var k :| 0 <= k < |r| && r[k] == x;
    }
    forall x | x in Elements(m) + Elements(discovered)
      ensures x in Elements(r)
    {
      assert r[x - 1] == x;
    }
  }

  /** Learning more ids never lengthens the missing list. */
  lemma {:induction false} MissingShrinks(lo: int, hi: int, before: seq<int>, after: seq<int>)
    requires forall x :: x in before ==> x in after
    ensures |MissingFrom(lo, hi, after)| <= |MissingFrom(lo, hi, before)|
    decreases hi - lo
  {
    if lo < hi {
      MissingShrinks(lo + 1, hi, before, after);
    }
  }

  /** When the discovered ids are distinct and within 1 .. n, exactly
      n - |discovered| ids are missing. */
  lemma MissingCount(n: int, discovered: seq<int>)
    requires n >= 0
    requires NoDuplicates(discovered)
    requires forall x :: x in discovered ==> 1 <= x <= n
    ensures |MissingIds(n, discovered)| == n - |discovered|
  {
    var m := MissingIds(n, discovered);
    MissingPartition(n, discovered);
    DistinctCount(discovered);
    AscendingDistinct(m);
    DistinctCount(m);
    AscendingDistinct(Range(1, n + 1));
    DistinctCount(Range(1, n + 1));
    assert |Elements(m) + Elements(discovered)| == |Elements(m)| + |Elements(discovered)|;
  }

  predicate Ascending(s: seq<int>) {
    forall a, b :: 0 <= a < b < |s| ==> s[a] < s[b]
  }

  lemma AscendingDistinct(s: seq<int>)
    requires Ascending(s)
    ensures NoDuplicates(s)
  {
  }

  /** A duplicate-free list whose elements all occur in another
      duplicate-free list is no longer than it. */
  lemma DistinctSubsetShorter(s: seq<int>, t: seq<int>)
    requires NoDuplicates(s) && NoDuplicates(t)
    requires forall x :: x in s ==> x in t
    ensures |s| <= |t|
  {
    DistinctCount(s);
    DistinctCount(t);
    assert Elements(t) == Elements(s) + (Elements(t) - Elements(s));
  }

  class CentralNode {
    const id: int
    /** Ids of the nodes heard from, in arrival order. */
    var discoveredIds: seq<int>
    /** Ids listed in the next DISCOVERY broadcast. */
    var missingIds: seq<int>
    /** PDUs handed to the PHY layer, oldest first. */
    var sent: seq<Pdu>

    /** The discovered list has no duplicates; the missing list is an
        ascending list of ids in 1 .. NUM_DEVICES that names every id not yet
        discovered (it may still name ids discovered during the current
        round). */
    ghost predicate Valid()
      reads this
    {
      NoDuplicates(discoveredIds) &&
      Ascending(missingIds) &&
      (forall x :: x in missingIds ==> 1 <= x <= NUM_DEVICES) &&
      (forall x :: 1 <= x <= NUM_DEVICES && x !in discoveredIds ==> x in missingIds)
    }

    constructor (id: int)
      ensures Valid()
      ensures this.id == id && discoveredIds == [] && sent == []
      ensures missingIds == Range(1, NUM_DEVICES + 1)
    {
      this.id := id;
      discoveredIds := [];
      var n := NUM_DEVICES;
      missingIds := Range(1, n + 1);
      sent := [];
      RangeMembers(1, n + 1);
    }

    /** The head of one iteration of the discovery loop: the loop runs on
        only while ids are missing, and each round broadcasts DISCOVERY
        carrying the current missing list. */
    method BeginRound() returns (running: bool)
      modifies this`sent
      ensures running <==> missingIds != []
      ensures sent == old(sent) +
        if running then [Pdu(Kind.Discovery, id, Broadcast, IdList(missingIds))] else []
    {
      running := missingIds != [];
      if running {
        sent := sent + [Pdu(Kind.Discovery, id, Broadcast, IdList(missingIds))];
      }
    }

    /** The end of a round: the missing list becomes the ids 1 .. NUM_DEVICES
        not yet discovered, and is never longer than before. */
    method EndRound()
      requires Valid()
      modifies this`missingIds
      ensures Valid()
      ensures missingIds == MissingIds(NUM_DEVICES, discoveredIds)
      ensures |missingIds| <= |old(missingIds)|
      ensures Elements(missingIds) * Elements(discoveredIds) == {}
    {
      ghost var before := missingIds;
      missingIds := MissingIds(NUM_DEVICES, discoveredIds);
      MissingDisjoint(NUM_DEVICES, discoveredIds);
      AscendingDistinct(before);
      AscendingDistinct(missingIds);
      DistinctSubsetShorter(missingIds, before);
    }

    /** A delivered PDU: a HELLO from a node not yet heard from is recorded at
        the end of the list; anything else changes nothing. */
    method OnReceivePdu(p: Pdu)
      requires Valid()
      modifies this`discoveredIds
      ensures Valid()
      ensures discoveredIds ==
        if p.kind == Hello && p.src !in old(discoveredIds)
        then old(discoveredIds) + [p.src]
        else old(discoveredIds)
    {
      if p.kind == Hello && p.src !in discoveredIds {
        discoveredIds := discoveredIds + [p.src];
      }
    }
  }

  class RegularNode {
    const id: int
    var responded: bool
    /** Timers armed with the simulator, oldest first. */
    var armed: seq<Timer>
    /** PDUs handed to the PHY layer, oldest first. */
    var sent: seq<Pdu>

    constructor (id: int)
      ensures this.id == id && !responded && armed == [] && sent == []
    {
      this.id := id;
      responded := false;
      armed, sent := [], [];
    }

    /** A delivered PDU: a DISCOVERY is answered exactly when the node has
        not answered before or the request lists it as missing (so the first
        DISCOVERY always is); answering marks the node as having responded
        and arms a HELLO after the random `delay`. Any other PDU changes
        nothing, and once set `responded` stays set. The missing list is read
        only when the node has already responded. */
    method OnReceivePdu(p: Pdu, delay: real)
      requires 0.0 <= delay <= HELLO_TIMEOUT
      requires p.kind == Kind.Discovery && responded ==> p.data.IdList?
      modifies this`responded, this`armed
      ensures old(responded) ==> responded
      ensures p.kind == Kind.Discovery && !old(responded) ==>
        responded && armed == old(armed) + [Timer(delay, Action.SendHello)]
      ensures p.kind == Kind.Discovery && old(responded) ==>
        responded && armed == old(armed) +
          if id in p.data.ids then [Timer(delay, Action.SendHello)] else []
      ensures p.kind != Kind.Discovery ==> unchanged(this`responded, this`armed)
    {
      if p.kind == Kind.Discovery {
        if !responded || id in p.data.ids {
          responded := true;
          armed := armed + [Timer(delay, Action.SendHello)];
        }
      }
    }

    /** The HELLO answer, addressed to the central node. */
    method SendHello()
      modifies this`sent
      ensures sent == old(sent) + [Pdu(Hello, id, Node(CENTRAL_ID), Text("HELLO"))]
    {
      sent := sent + [Pdu(Hello, id, Node(CENTRAL_ID), Text("HELLO"))];
    }
  }
}
