/** Types shared by the two protocol variants: the protocol data unit (PDU) as
    the simulator carries it, the decisions a MAC layer can take on it, and the
    effects a node's handler leaves behind (PDUs handed to the PHY layer and
    timers armed with the simulator). */
module Wsn {

  datatype Option<T> = None | Some(value: T)

  /** The six type strings the two protocols use. */
  const KNOWN_TAGS: set<string> := {"BS-HELLO", "DEV-HELLO", "SCHED", "DATA", "DISCOVERY", "HELLO"}

  /** Any other type string. */
  type OtherTag = s: string | s !in KNOWN_TAGS witness ""

  /** The type tag of a PDU. The simulator carries it as a string; the six
      tags used by the two protocols have their own constructors and `Other`
      stands for every other tag string. */
  datatype Kind =
    | BsHello     // 'BS-HELLO': base-station discovery request (TDMA variant)
    | DevHello    // 'DEV-HELLO': device discovery response (TDMA variant)
    | Sched       // 'SCHED': slot schedule broadcast
    | Data        // 'DATA': periodic sensor data
    | Discovery   // 'DISCOVERY': discovery request listing missing ids (repeated variant)
    | Hello       // 'HELLO': discovery response (repeated variant)
    | Other(tag: OtherTag)

  /** The type string a PDU of this kind carries. */
  function TagOf(k: Kind): string {
    match k
    case BsHello => "BS-HELLO"
    case DevHello => "DEV-HELLO"
    case Sched => "SCHED"
    case Data => "DATA"
    case Discovery => "DISCOVERY"
    case Hello => "HELLO"
    case Other(tag) => tag
  }

  /** The kind a type string denotes. */
  function KindOf(tag: string): Kind {
    if tag == "BS-HELLO" then BsHello
    else if tag == "DEV-HELLO" then DevHello
    else if tag == "SCHED" then Sched
    else if tag == "DATA" then Data
    else if tag == "DISCOVERY" then Discovery
    else if tag == "HELLO" then Hello
    else Other(tag)
  }

  /** Every type string has exactly one kind and back: comparing kinds is
      comparing the strings the code compares. */
  lemma KindRoundTrip(tag: string, k: Kind)
    ensures TagOf(KindOf(tag)) == tag
    ensures KindOf(TagOf(k)) == k
  {
  }

  /** Destination field: the string 'broadcast' or a node id. */
  datatype Dest = Broadcast | Node(id: int)

  /** One schedule entry, the pair (device id, slot number). */
  datatype Assignment = Assignment(device: int, slot: int)

  /** The payload (`data`) of a PDU, one shape per protocol use. */
  datatype Payload =
    | NoPayload                         // BS-HELLO carries no data
    | NodeId(id: int)                   // DEV-HELLO carries the sender's id
    | Text(text: string)                // HELLO carries the string "HELLO"
    | DataFrom(src: int)                // DATA carries "Data from <src>"
    | IdList(ids: seq<int>)             // DISCOVERY carries the missing ids
    | Schedule(numDevices: int, devSlots: seq<Assignment>, startDelay: real)

  /** A PDU; the PHY-level size (always 20) is not part of the model. */
  datatype Pdu = Pdu(kind: Kind, src: int, dest: Dest, data: Payload)

  /** What a MAC layer does with a received PDU: hand it to the node, fall
      back to the default MAC behaviour, or drop it silently. */
  datatype Verdict = Deliver | DefaultMac | Drop

  /** The callbacks a node arms with the simulator's delayed execution. */
  datatype Action = SendHello | SendData

  /** A one-shot timer: run `action` after `delay` seconds from now. */
  datatype Timer = Timer(delay: real, action: Action)

  predicate NoDuplicates(s: seq<int>) {
    forall i, j :: 0 <= i < j < |s| ==> s[i] != s[j]
  }

  /** The ascending list lo, lo+1, .., hi-1 (Python's range(lo, hi)). */
  function Range(lo: int, hi: int): (r: seq<int>)
    ensures |r| == if lo <= hi then hi - lo else 0
    ensures forall k :: 0 <= k < |r| ==> r[k] == lo + k
    decreases hi - lo
  {
    if lo < hi then [lo] + Range(lo + 1, hi) else []
  }

  lemma RangeMembers(lo: int, hi: int)
    ensures forall x :: x in Range(lo, hi) <==> lo <= x < hi
  {
    var r := Range(lo, hi);
    forall x | lo <= x < hi
      ensures x in r
    {
      assert r[x - lo] == x;
    }
  }

  /** The elements of a sequence as a set. */
  function Elements(s: seq<int>): set<int> {
    set x | x in s
  }

  /** A duplicate-free list has as many distinct elements as entries. */
  lemma {:induction false} DistinctCount(s: seq<int>)
    requires NoDuplicates(s)
    ensures |Elements(s)| == |s|
  {
    if s != [] {
      DistinctCount(s[1..]);
      assert Elements(s) == Elements(s[1..]) + {s[0]};
      assert s[0] !in Elements(s[1..]);
    }
  }
}
