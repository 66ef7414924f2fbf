/** Discovery followed by a TDMA schedule (a1.py): the MAC dispatch policy,
    the base station that discovers devices and broadcasts a slot schedule,
    and the devices that answer discovery and then transmit once per frame in
    their slot until the simulation horizon. Sends and timers are recorded in
    the nodes' `sent` and `armed` lists instead of being handed to a
    simulator. */
module Tdma {
  import opened Wsn
  import opened TdmaSchedule

  const HELLO_TIMEOUT: real := 0.01
  const SIM_DURATION: real := 50.0
  /** The base station is node 0: the MAC recognises it by that id. */
  const BASE_STATION_ID: int := 0

  /** The custom MAC layer's decision for a PDU received by node `nodeId`. */
  function Dispatch(p: Pdu, nodeId: int): Verdict {
    if p.kind == BsHello && p.dest == Broadcast then Deliver
    else if p.kind == DevHello && nodeId == BASE_STATION_ID then Deliver
    else if p.kind == Sched && p.dest == Broadcast then Deliver
    else if p.kind == Data then
      if nodeId == BASE_STATION_ID && p.dest == Node(BASE_STATION_ID) then Deliver else DefaultMac
    else Drop
  }

  /** The dispatch table, case by case: discovery requests and schedules are
      delivered only when broadcast, a discovery response only at the base
      station (whatever its destination), data only at the base station when
      addressed to it and to the default MAC otherwise; every other
      combination is dropped. */
  lemma DispatchTable(p: Pdu, nodeId: int)
    ensures Dispatch(p, nodeId) == Deliver <==>
      ((p.kind == BsHello || p.kind == Sched) && p.dest == Broadcast) ||
      (p.kind == DevHello && nodeId == BASE_STATION_ID) ||
      (p.kind == Data && nodeId == BASE_STATION_ID && p.dest == Node(BASE_STATION_ID))
    ensures Dispatch(p, nodeId) == DefaultMac <==>
      p.kind == Data && !(nodeId == BASE_STATION_ID && p.dest == Node(BASE_STATION_ID))
    ensures Dispatch(p, nodeId) == Drop <==>
      ((p.kind == BsHello || p.kind == Sched) && p.dest != Broadcast) ||
      (p.kind == DevHello && nodeId != BASE_STATION_ID) ||
      p.kind.Discovery? || p.kind.Hello? || p.kind.Other?
  {
  }

  /** The decision reads only the type and destination: neither the source
      nor the payload of the PDU is inspected. */
  lemma DispatchIgnoresPayload(p: Pdu, q: Pdu, nodeId: int)
    requires p.kind == q.kind && p.dest == q.dest
    ensures Dispatch(p, nodeId) == Dispatch(q, nodeId)
  {
  }

  class BaseStation {
    const id: int
    /** Device ids in the order their discovery responses arrived. */
    var discoveredDevices: seq<int>
    /** The slot schedule, pairs (device id, slot). */
    var schedule: seq<Assignment>
    /** PDUs handed to the PHY layer, oldest first. */
    var sent: seq<Pdu>

    ghost predicate Valid()
      reads this
    {
      NoDuplicates(discoveredDevices)
    }

    constructor (id: int)
      ensures Valid()
      ensures this.id == id && discoveredDevices == [] && schedule == [] && sent == []
    {
      this.id := id;
      discoveredDevices := [];
      schedule := [];
      sent := [];
    }

    /** Start of discovery (after the initial wait): broadcast BS-HELLO. */
    method StartDiscovery()
      modifies this`sent
      ensures sent == old(sent) + [Pdu(BsHello, id, Broadcast, NoPayload)]
    {
      sent := sent + [Pdu(BsHello, id, Broadcast, NoPayload)];
    }

    /** A delivered PDU: a discovery response from a new device is recorded
        at the end of the list; anything else (a repeat response, data)
        changes nothing. */
    method OnReceivePdu(p: Pdu)
      requires Valid()
      modifies this`discoveredDevices
      ensures Valid()
      ensures discoveredDevices ==
        if p.kind == DevHello && p.src !in old(discoveredDevices)
        then old(discoveredDevices) + [p.src]
        else old(discoveredDevices)
    {
      if p.kind == DevHello && p.src !in discoveredDevices {
        discoveredDevices := discoveredDevices + [p.src];
      }
    }

    /** Appends one entry per discovered device, the i-th with slot i. */
    method CreateSchedule()
      modifies this`schedule
      ensures schedule == old(schedule) + SlotTable(discoveredDevices)
    {
      var i := 0;
      while i < |discoveredDevices|
        invariant 0 <= i <= |discoveredDevices|
        invariant schedule == old(schedule) + SlotTable(discoveredDevices[..i])
      {
        SlotTableSnoc(discoveredDevices, i);
        schedule := schedule + [Assignment(discoveredDevices[i], i)];
        i := i + 1;
      }
      assert discoveredDevices[..i] == discoveredDevices;
    }

    /** End of the discovery window: build the schedule and broadcast it,
        announcing as many devices as the schedule has entries. */
    method EndDiscovery()
      requires Valid()
      modifies this`schedule, this`sent
      ensures Valid()
      ensures schedule == old(schedule) + SlotTable(discoveredDevices)
      ensures sent == old(sent) + [Pdu(Sched, id, Broadcast, SchedulePayload(schedule))]
      ensures old(schedule) == [] ==>
        forall i :: 0 <= i < |discoveredDevices| ==> SlotOf(schedule, discoveredDevices[i]) == Some(i)
      ensures old(schedule) == [] ==>
        forall da, db, receipt :: da in discoveredDevices && db in discoveredDevices && da != db ==>
          SlotsSeparated(schedule, SCHED_START_DELAY, da, db, receipt, SIM_DURATION)
    {
      CreateSchedule();
      sent := sent + [Pdu(Sched, id, Broadcast, SchedulePayload(schedule))];
      if old(schedule) == [] {
        assert schedule == SlotTable(discoveredDevices);
        forall i | 0 <= i < |discoveredDevices|
          ensures SlotOf(schedule, discoveredDevices[i]) == Some(i)
        {
          SlotTableRoundTrip(discoveredDevices, i);
        }
        forall da, db, receipt | da in discoveredDevices && db in discoveredDevices && da != db
          ensures SlotsSeparated(schedule, SCHED_START_DELAY, da, db, receipt, SIM_DURATION)
        {
          SlotsNeverCollide(discoveredDevices, da, db, receipt, SIM_DURATION);
        }
      }
    }
  }

  class Device {
    const id: int
    var slotNumber: Option<int>
    var frameLength: Option<real>
    var startDelay: Option<real>
    /** Timers armed with the simulator, oldest first. */
    var armed: seq<Timer>
    /** PDUs handed to the PHY layer, oldest first. */
    var sent: seq<Pdu>

    constructor (id: int)
      ensures this.id == id
      ensures slotNumber == None && frameLength == None && startDelay == None
      ensures armed == [] && sent == []
    {
      this.id := id;
      slotNumber, frameLength, startDelay := None, None, None;
      armed, sent := [], [];
    }

    /** A delivered PDU: a discovery request arms a response after the
        random `jitter`; a schedule is processed; anything else is ignored. */
    method OnReceivePdu(p: Pdu, jitter: real)
      requires 0.0 <= jitter <= HELLO_TIMEOUT
      requires p.kind == Sched ==> p.data.Schedule?
      modifies this`armed, this`slotNumber, this`frameLength, this`startDelay
      ensures p.kind == BsHello ==>
        armed == old(armed) + [Timer(jitter, Action.SendHello)] &&
        unchanged(this`slotNumber, this`frameLength, this`startDelay)
      ensures p.kind == Sched ==>
        Processed(p.data.devSlots, p.data.numDevices, p.data.startDelay)
      ensures p.kind != BsHello && p.kind != Sched ==>
        unchanged(this`armed, this`slotNumber, this`frameLength, this`startDelay)
    {
      if p.kind == BsHello {
        armed := armed + [Timer(jitter, Action.SendHello)];
      } else if p.kind == Sched {
        ProcessSchedule(p.data.devSlots, p.data.numDevices, p.data.startDelay);
      }
    }

    /** Sends the discovery response to the base station. */
    method SendHello()
      modifies this`sent
      ensures sent == old(sent) + [Pdu(DevHello, id, Node(BASE_STATION_ID), NodeId(id))]
    {
      sent := sent + [Pdu(DevHello, id, Node(BASE_STATION_ID), NodeId(id))];
    }

    /** The state after processing a schedule: start delay and frame length
        are always taken over; the slot is the first entry naming this device
        and then exactly one data timer is armed at its first fire delay;
        without an entry the slot is kept and nothing is armed. */
    twostate predicate Processed(devSlots: seq<Assignment>, numDevices: int, delay: real)
      reads this
    {
      startDelay == Some(delay) &&
      frameLength == Some(FrameLength(numDevices)) &&
      match FirstFireDelay(devSlots, delay, id)
      case Some(d) =>
        slotNumber == SlotOf(devSlots, id) && armed == old(armed) + [Timer(d, Action.SendData)]
      case None =>
        slotNumber == old(slotNumber) && armed == old(armed)
    }

    method ProcessSchedule(devSlots: seq<Assignment>, numDevices: int, delay: real)
      modifies this`armed, this`slotNumber, this`frameLength, this`startDelay
      ensures Processed(devSlots, numDevices, delay)
    {
      startDelay := Some(delay);
      frameLength := Some(FrameLength(numDevices));
      var i := 0;
      while i < |devSlots|
        invariant 0 <= i <= |devSlots|
        invariant forall j :: 0 <= j < i ==> devSlots[j].device != id
        invariant unchanged(this`armed, this`slotNumber)
      {
        if devSlots[i].device == id {
          slotNumber := Some(devSlots[i].slot);
          armed := armed + [Timer(delay + devSlots[i].slot as real * SLOT_DURATION, Action.SendData)];
          return;
        }
        i := i + 1;
      }
    }

    /** One firing of the data timer at time `now`: transmit only before the
        horizon, and re-arm one frame later only if that is still before it. */
    method SendData(now: real)
      requires Sends(now, SIM_DURATION) ==> frameLength.Some?
      modifies this`sent, this`armed
      ensures sent == old(sent) +
        if Sends(now, SIM_DURATION) then [Pdu(Data, id, Node(BASE_STATION_ID), DataFrom(id))] else []
      ensures armed == old(armed) +
        if Sends(now, SIM_DURATION) && Rearms(now, frameLength.value, SIM_DURATION)
        then [Timer(frameLength.value, Action.SendData)] else []
    {
      if now < SIM_DURATION {
        sent := sent + [Pdu(Data, id, Node(BASE_STATION_ID), DataFrom(id))];
        if now + frameLength.value < SIM_DURATION {
          armed := armed + [Timer(frameLength.value, Action.SendData)];
        }
      }
    }

    /** The data timer from its first firing at time `t` on: `SendData` fires,
        and each time it re-arms, the clock advances by the armed timer's
        delay and it fires again. `times` records when each DATA went out:
        exactly the transmit-time chain, so transmissions are one frame
        apart, all strictly before the horizon, and the one after the last
        would not be. */
    method RunDataTimer(t: real) returns (times: seq<real>)
      requires frameLength.Some? && frameLength.value > 0.0
      modifies this`sent, this`armed
      ensures times == TransmitTimes(t, frameLength.value, SIM_DURATION)
      ensures FrameSpaced(times, t, frameLength.value, SIM_DURATION)
      ensures sent == old(sent) + seq(|times|, _ => Pdu(Data, id, Node(BASE_STATION_ID), DataFrom(id)))
      ensures |armed| == |old(armed)| + (if times == [] then 0 else |times| - 1)
      ensures forall k :: |old(armed)| <= k < |armed| ==> armed[k] == Timer(frameLength.value, Action.SendData)
    {
      var f := frameLength.value;
      var now := t;
      var firing := true;
      times := [];
      while firing
        invariant frameLength == Some(f)
        invariant firing ==> times + TransmitTimes(now, f, SIM_DURATION) == TransmitTimes(t, f, SIM_DURATION)
        invariant !firing ==> times == TransmitTimes(t, f, SIM_DURATION)
        invariant firing && times != [] ==> now == times[|times| - 1] + f
        invariant sent == old(sent) + seq(|times|, _ => Pdu(Data, id, Node(BASE_STATION_ID), DataFrom(id)))
        invariant |armed| == |old(armed)| + (if times == [] || (firing && now < SIM_DURATION) then |times| else |times| - 1)
        invariant forall k :: |old(armed)| <= k < |armed| ==> armed[k] == Timer(f, Action.SendData)
        decreases if firing then (if now < SIM_DURATION then ((SIM_DURATION - now) / f).Floor + 2 else 1) else 0
      {
        var s0, a0 := |sent|, |armed|;
        SendData(now);
        if |sent| > s0 {
          times := times + [now];
        }
        if |armed| > a0 {
          DivStep(SIM_DURATION - now, f);
          now := now + armed[a0].delay;
        } else {
          firing := false;
        }
      }
      TransmitTimesFrameSpaced(t, f, SIM_DURATION);
    }
  }

  /** The schedule broadcast after discovering devices 2, 1 and 3 in that
      order. */
  const THREE_DEVICE_SCHED: Pdu :=
    Pdu(Sched, BASE_STATION_ID, Broadcast,
        Schedule(3, [Assignment(2, 0), Assignment(1, 1), Assignment(3, 2)], SCHED_START_DELAY))

  /** The device side of discovery: devices 1, 2 and 3 each receive the
      base station's BS-HELLO and arm their response after a jitter; the
      responses fire in the order 2, 1, 3, each a DEV-HELLO to the base
      station carrying the sender's id, which its MAC delivers. */
  method ThreeDeviceResponses(hello: Pdu) returns (responses: seq<Pdu>)
    requires hello == Pdu(BsHello, BASE_STATION_ID, Broadcast, NoPayload)
    ensures responses == [Pdu(DevHello, 2, Node(BASE_STATION_ID), NodeId(2)),
                          Pdu(DevHello, 1, Node(BASE_STATION_ID), NodeId(1)),
                          Pdu(DevHello, 3, Node(BASE_STATION_ID), NodeId(3))]
    ensures forall r :: r in responses ==> Dispatch(r, BASE_STATION_ID) == Deliver
  {
    var d1 := new Device(1);
    var d2 := new Device(2);
    var d3 := new Device(3);
    assert Dispatch(hello, 1) == Deliver && Dispatch(hello, 2) == Deliver && Dispatch(hello, 3) == Deliver;
    d1.OnReceivePdu(hello, 0.004);
    d2.OnReceivePdu(hello, 0.001);
    d3.OnReceivePdu(hello, 0.009);
    assert d2.armed == [Timer(0.001, Action.SendHello)];
    d2.SendHello();
    assert d1.armed == [Timer(0.004, Action.SendHello)];
    d1.SendHello();
    assert d3.armed == [Timer(0.009, Action.SendHello)];
    d3.SendHello();
    responses := [d2.sent[0], d1.sent[0], d3.sent[0]];
  }

  /** Discovery with three devices in range of the base station whose
      responses arrive in the order 2, 1, 3, followed by a repeated response
      from device 2: the base station lists the devices once each, in
      arrival order, and broadcasts a schedule giving them slots 0, 1 and 2
      in that order within a frame of three slots. */
  method ThreeDeviceDiscovery() returns (discovered: seq<int>, sched: Pdu)
    ensures discovered == [2, 1, 3]
    ensures sched == THREE_DEVICE_SCHED
  {
    var bs := new BaseStation(BASE_STATION_ID);
    bs.StartDiscovery();
    var responses := ThreeDeviceResponses(bs.sent[0]);
    bs.OnReceivePdu(responses[0]);
    bs.OnReceivePdu(responses[1]);
    bs.OnReceivePdu(responses[2]);
    bs.OnReceivePdu(responses[0]);
    discovered := bs.discoveredDevices;
    assert discovered == [2, 1, 3];
    var table := SlotTable([2, 1, 3]);
    assert table == [Assignment(2, 0), Assignment(1, 1), Assignment(3, 2)];
    bs.EndDiscovery();
    assert bs.schedule == table;
    sched := bs.sent[1];
  }

  /** The schedule for arrival order 2, 1, 3, looked up by each device. */
  lemma ThreeDeviceTable()
    ensures THREE_DEVICE_SCHED.data.devSlots == SlotTable([2, 1, 3])
    ensures FirstFireDelay(SlotTable([2, 1, 3]), SCHED_START_DELAY, 1) == Some(0.6)
    ensures FirstFireDelay(SlotTable([2, 1, 3]), SCHED_START_DELAY, 2) == Some(0.5)
    ensures FirstFireDelay(SlotTable([2, 1, 3]), SCHED_START_DELAY, 3) == Some(0.7)
    ensures FirstFireDelay(SlotTable([2, 1, 3]), SCHED_START_DELAY, 4) == None
  {
    SlotTableRoundTrip([2, 1, 3], 0);
    SlotTableRoundTrip([2, 1, 3], 1);
    SlotTableRoundTrip([2, 1, 3], 2);
    SlotTableUnlisted([2, 1, 3], 4);
  }

  /** Receipt of that schedule: devices 1, 2 and 3 take slots 1, 0 and 2,
      each arms its first data transmission at the start delay plus its slot
      times the slot duration, and a fourth device that did not answer gets
      no slot and arms nothing. */
  method ThreeDeviceSchedule() returns (slots: seq<Option<int>>, firstFires: seq<Timer>, late: seq<Timer>)
    ensures slots == [Some(1), Some(0), Some(2)]
    ensures firstFires == [Timer(0.6, Action.SendData), Timer(0.5, Action.SendData), Timer(0.7, Action.SendData)]
    ensures late == []
  {
    var sched := THREE_DEVICE_SCHED;
    ThreeDeviceTable();
    var d1 := new Device(1);
    d1.OnReceivePdu(sched, 0.0);
    var s1, a1 := d1.slotNumber, d1.armed;
    var d2 := new Device(2);
    d2.OnReceivePdu(sched, 0.0);
    var s2, a2 := d2.slotNumber, d2.armed;
    var d3 := new Device(3);
    d3.OnReceivePdu(sched, 0.0);
    var s3, a3 := d3.slotNumber, d3.armed;
    var d4 := new Device(4);
    d4.OnReceivePdu(sched, 0.0);
    slots := [s1, s2, s3];
    firstFires := a1 + a2 + a3;
    late := d4.armed;
  }
}
