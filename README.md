# Wireless sensor network discovery and TDMA scheduling, modelled in Dafny

This project models the protocol logic of two simulation scripts for a small
wireless sensor network:

- `a1.py`: discovery followed by a TDMA schedule. A base station (node 0)
  broadcasts BS-HELLO. Devices answer with DEV-HELLO after a random jitter,
  and the base station lists them in arrival order. At the end of the
  discovery window it builds a slot table (the i-th discovered device gets
  slot i) and broadcasts it in a SCHED PDU. Each device finds its slot and
  arms its first DATA transmission at `start_delay + slot * SLOT_DURATION`.
  It then re-arms every frame (`num_devices * SLOT_DURATION`) until the
  simulation horizon. A custom MAC layer decides which PDUs reach the node.
- `lab06.py`: repeated discovery. A central node broadcasts DISCOVERY listing
  the ids it is still missing. A regular node answers with HELLO when it has
  not answered before or is listed. After each round the central node
  recomputes the missing ids as "1 .. NUM_DEVICES minus the discovered ids".
  Its MAC layer passes DISCOVERY and HELLO to the node.

Files:

- `wsn.dfy` (module `Wsn`): the PDU (type tag, source, destination,
  payload), MAC verdicts, recorded timers and `Range`.
- `tdma_schedule.dfy` (module `TdmaSchedule`): the pure part of a1.py. It
  holds the slot table, the lookup, the first-fire delay, the transmit-time
  chain, and the lemmas about them.
- `tdma.dfy` (module `Tdma`): a1.py's MAC dispatch and the `BaseStation`
  and `Device` classes. It also has a three-device scenario.
- `discovery.dfy` (module `Discovery`): lab06.py's MAC dispatch, the
  missing-id recomputation, and the `CentralNode` and `RegularNode` classes.

Modelling choices:

- Each node is a class whose handler methods update its fields.
- Effects that went to the simulator are recorded in the node's own lists:
  - `sent`: PDUs handed to the PHY layer.
  - `armed`: timers (`Timer(delay, action)`) handed to delayed execution.
- Time is an exact `real`, and the horizon is a parameter of the
  transmit-time chain.
- The random jitter or reply delay is an input bounded by `requires`.
- Python's `None` fields are `Option` values.
- The PDU type string is the datatype `Kind`. `Other(tag)` stands for every
  tag the protocols do not use, and its tag type excludes the six protocol
  tags.

Some behaviour of the code that a reader might not expect, which the model
keeps:

- BS-HELLO and SCHED are delivered only when their destination is
  `'broadcast'`. Otherwise they are dropped.
- An a1.py device answers every BS-HELLO it receives. It has no `responded`
  flag.
- The central node does not remove ids from its missing list as HELLOs
  arrive. It recomputes the whole list once per round, and both lists are
  ordered lists.
- a1.py broadcasts BS-HELLO once and never retries. lab06.py's discovery
  loop has no retry cap.

## Model

| member | source | states |
|---|---|---|
| `Tdma.DispatchTable` | a1.py:20-30 | The custom MAC's decision is total. BS-HELLO and SCHED are delivered iff the destination is broadcast. DEV-HELLO is delivered iff the receiver is node 0, whatever its destination. DATA is delivered iff the receiver is node 0 and the destination is 0, and goes to the default MAC otherwise. Every other combination is dropped. |
| `Tdma.DispatchIgnoresPayload` | a1.py:20-30 | Two PDUs with the same type and destination get the same decision: source and payload are never inspected. |
| `Tdma.BaseStation.constructor` | a1.py:33-40 | The base station starts with an empty discovered list, an empty schedule and nothing sent. |
| `Tdma.BaseStation.StartDiscovery` | a1.py:47-50 | Exactly one BS-HELLO, addressed to broadcast, is sent. |
| `Tdma.BaseStation.OnReceivePdu` | a1.py:76-82 | A DEV-HELLO from an id not yet listed is appended at the end. A repeat DEV-HELLO, DATA or any other PDU leaves the list unchanged. The list never holds a duplicate (`Valid`). |
| `Tdma.BaseStation.CreateSchedule` | a1.py:71-74 | The loop appends `SlotTable(discoveredDevices)`, entry i being (i-th discovered id, i), to the existing schedule. |
| `Tdma.BaseStation.EndDiscovery` | a1.py:56-66 | Builds the schedule, then sends one SCHED broadcast whose `num_devices` is the schedule's length, whose `dev_slots` is the schedule itself and whose start delay is 0.5. When the schedule started empty, the i-th discovered device finds slot i in the broadcast schedule. Any two distinct discovered devices both hold a slot, and their transmit times up to the 50 s horizon never coincide (`SlotsSeparated`). |
| `Tdma.Device.constructor` | a1.py:85-93 | Slot, frame length and start delay start unset; nothing is armed or sent. |
| `Tdma.Device.OnReceivePdu` | a1.py:103-111 | A BS-HELLO arms exactly one DEV-HELLO timer after the given jitter (bounded by 0.01) and changes nothing else. A SCHED is processed as in `ProcessSchedule`. Every other type changes nothing. |
| `Tdma.Device.SendHello` | a1.py:113-117 | Sends one DEV-HELLO addressed to node 0, carrying the device's id. |
| `Tdma.Device.ProcessSchedule` | a1.py:119-135 | Always sets the start delay and frame length `num_devices * 0.1`. If an entry names the device, the slot becomes that of the first such entry and exactly one DATA timer is armed at `start_delay + slot * 0.1`. Otherwise the slot is unchanged and nothing is armed. |
| `Tdma.Device.SendData` | a1.py:137-146 | Sends DATA to node 0 iff `now < 50`. Re-arms one frame later iff also `now + frame < 50`. |
| `Tdma.Device.RunDataTimer` | a1.py:137-146 | Fires `SendData` from time t, then fires it again after each armed timer's delay. DATA goes out exactly at the transmit-time chain: the k-th at `t + k * frame`, all strictly before 50 s, and the next one would not be (`FrameSpaced`). One DATA PDU to node 0 is sent per transmission. One re-arm timer of one frame is armed per transmission but the last. |
| `Tdma.ThreeDeviceResponses` | a1.py:103-117 | Devices 1, 2 and 3 each receive the base station's BS-HELLO, arm a response and send it. The responses, in firing order 2, 1, 3, are DEV-HELLOs to node 0 carrying the sender's id, and the MAC delivers each to the base station. |
| `Tdma.ThreeDeviceDiscovery` | a1.py:42-82 | With answers arriving from devices 2, 1, 3 and then 2 again, the base station lists [2, 1, 3]. It broadcasts a schedule of 3 devices with slots (2,0), (1,1), (3,2) and start delay 0.5. |
| `Tdma.ThreeDeviceTable` | a1.py:126-135 | In that schedule devices 1, 2 and 3 first fire after 0.6, 0.5 and 0.7 seconds. Device 4 has no entry. |
| `Tdma.ThreeDeviceSchedule` | a1.py:119-135 | On receiving that schedule, devices 1, 2 and 3 take slots 1, 0 and 2 and each arms exactly one DATA timer at 0.6, 0.5 and 0.7. Unlisted device 4 arms nothing. |
| `TdmaSchedule.SlotTableSlots` | a1.py:71-74 | The schedule lists the discovered ids in arrival order. Its slot numbers are exactly 0, 1, .., n-1, so no two entries share a slot. |
| `TdmaSchedule.SlotTableDevicesDistinct` | a1.py:73-79 | A duplicate-free discovered list gives every device at most one schedule entry. |
| `TdmaSchedule.SlotTableSnoc` | a1.py:73-74 | One loop step of the schedule builder appends exactly the entry (discovered[k], k). |
| `TdmaSchedule.FirstIndexOf` | a1.py:126-128 | Returns the position of the first entry naming the device, or the schedule's length when none does. No earlier entry names it. |
| `TdmaSchedule.SlotTableRoundTrip` | a1.py:126-128 | Round trip of builder and consumer: for a duplicate-free discovered list, the i-th discovered device finds slot i in the schedule built from it. |
| `TdmaSchedule.SlotTableUnlisted` | a1.py:133-135 | A device that was not discovered finds no slot in the schedule. |
| `TdmaSchedule.TransmitTimesFrameSpaced` | a1.py:137-146 | The chain of transmit times satisfies `FrameSpaced`: consecutive times are one frame apart from the first firing, and the chain stops at the last time before the horizon. |
| `TdmaSchedule.TransmitTimesClosedForm` | a1.py:137-146 | The k-th transmission of a chain first fired at t is at `t + k * frame`. Every transmission lies strictly before the horizon, and the next one would not. |
| `TdmaSchedule.TransmitTimesDisjoint` | a1.py:144-146 | Two chains with the same frame length whose first times differ by a nonzero amount smaller than a frame never transmit at the same instant. |
| `TdmaSchedule.SlotsNeverCollide` | a1.py:121-146 | TDMA separation: two different devices of one schedule, receiving it at the same time, both get a slot, and their transmit times never coincide (`SlotsSeparated`). |
| `Wsn.KindRoundTrip` | a1.py:20-26 | The type-string abstraction is a bijection. Each string maps to one kind and back, and each kind to one string and back. So comparing kinds is comparing the type strings the code compares. |
| `Wsn.Range` | lab06.py:18 | `range(lo, hi)`: hi - lo entries (none if hi <= lo), the k-th being lo + k. |
| `Discovery.DispatchByTypeOnly` | lab06.py:92-96 | The lab06 MAC never drops. It delivers DISCOVERY and HELLO and forwards every other type to the default MAC. Destination, source, payload and the node's role play no part. |
| `Discovery.MissingFrom` | lab06.py:35 | The recomputed missing list contains exactly the ids in the range that are not discovered, in strictly ascending order. |
| `Discovery.NothingDiscoveredMissesAll` | lab06.py:17-18 | The initial missing list `range(1, N+1)` equals the recomputed list for an empty discovered list. |
| `Discovery.MissingDisjoint` | lab06.py:35 | No id is both missing and discovered, whatever ids were heard from. |
| `Discovery.MissingPartition` | lab06.py:35 | When discovered ids lie in 1..N, the missing and discovered ids are disjoint and together make up 1..N. |
| `Discovery.MissingShrinks` | lab06.py:35 | Learning more ids never lengthens the recomputed missing list. |
| `Discovery.MissingCount` | lab06.py:35 | With distinct discovered ids in 1..N, exactly N - (number discovered) ids are missing. |
| `Discovery.CentralNode.constructor` | lab06.py:12-18 | The central node starts with no discovered ids and the missing list 1..50. Its invariant holds (`Valid`). |
| `Discovery.CentralNode.BeginRound` | lab06.py:22-29 | The loop continues iff ids are missing. Each round sends exactly one DISCOVERY broadcast carrying the current missing list. |
| `Discovery.CentralNode.EndRound` | lab06.py:32-35 | The missing list becomes exactly the undiscovered ids of 1..50, ascending. It is never longer than the list before the round, shares no id with the discovered list, and the invariant is kept. |
| `Discovery.CentralNode.OnReceivePdu` | lab06.py:43-47 | A HELLO from an id not yet discovered is appended at the end. A duplicate HELLO or any other PDU changes nothing. The invariant is kept, so every undiscovered id stays in the missing list. |
| `Discovery.RegularNode.constructor` | lab06.py:49-56 | A regular node starts not having responded, with nothing armed or sent. |
| `Discovery.RegularNode.OnReceivePdu` | lab06.py:66-76 | A DISCOVERY is answered iff the node has not responded or is listed, so the first DISCOVERY always is. Answering sets `responded` and arms one HELLO after the given delay (bounded by 0.1). `responded` is never reset, and any other PDU changes nothing. |
| `Discovery.RegularNode.SendHello` | lab06.py:78-82 | Sends one HELLO addressed to node 0. |

## Left out

- The simulation engine (`wsn_simpy`) is not part of this model. It covers
  timeouts, delayed execution, PHY sending, range and collision handling,
  and the `phy.stat` counters. Sends and armed timers are recorded in the
  nodes' `sent` and `armed` lists instead, and a timer firing is modelled by
  calling the method it names.
- The waits in the `run` generators are left out: the 5 s initial wait, the
  discovery window, the retry interval and the final wait. The waiting is
  the engine's, so their durations do not appear in the model. `StartDiscovery`,
  `EndDiscovery`, `BeginRound` and `EndRound` model the steps between the
  waits.
- The idle `while True` loops of `Device.run` and `RegularNode.run` are
  simulator plumbing.
- Module-level setup and reporting are left out: random placement, node
  creation, `sim.run()`, statistics printing, `TX_RANGE`, and a1.py's
  `NUM_DEVICES`, which only setup uses.
- Logging is left out.
- `random.uniform` is replaced by a jitter or delay parameter bounded by the
  same interval.
- Floating-point rounding of 0.1 is not modelled: times are exact reals.
- The PDU size (always 20) only matters to the PHY layer.
- lab01.py and lab03.py are demo drivers with no protocol decisions.
- lab06.py's `received_discovery` field is never read or changed after
  initialisation.
- Termination of lab06.py's discovery loop is not modelled. The code has no
  retry cap, and convergence depends on message delivery, so one round step
  is modelled instead.
- `Tdma.Device.OnReceivePdu` requires a SCHED PDU to carry a schedule
  payload. In Python a malformed payload raises, and only the base station
  sends SCHED.
- `Tdma.Device.SendData` requires the frame length to be set when it fires
  before the horizon. Python would raise on `None`, and the timer is only
  armed after a schedule sets it.
- `Tdma.Device.RunDataTimer` requires a positive frame length. A device
  only arms the data timer when it holds a slot, so the schedule has at
  least one entry. With a zero frame the Python timer would re-fire at the
  same instant forever.
- `Discovery.RegularNode.OnReceivePdu` requires a DISCOVERY payload to be an
  id list when the node has already responded, which is the only time the
  list is read.
- `TdmaSchedule.SlotsNeverCollide` assumes every device receives the
  schedule at the same instant. Delivery timing is the PHY layer's.
- `TdmaSchedule.SlotsNeverCollide` also does not model the transmission
  duration of a PDU within a slot.
