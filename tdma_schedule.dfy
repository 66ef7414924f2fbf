/** The pure part of the TDMA variant: the slot table the base station builds
    from its discovered devices, the lookup a device performs in it, and the
    chain of transmit times a device's self-re-arming sender produces. */
module TdmaSchedule {
  import opened Wsn

  const SLOT_DURATION: real := 0.1
  const SCHED_START_DELAY: real := 0.5

  /** The schedule built from the discovered ids in arrival order: entry i
      pairs the i-th discovered id with slot i. */
  function SlotTable(discovered: seq<int>): seq<Assignment> {
    seq(|discovered|, i requires 0 <= i < |discovered| => Assignment(discovered[i], i))
  }

  /** The device ids of a schedule, in entry order. */
  function Devices(slots: seq<Assignment>): seq<int> {
    seq(|slots|, i requires 0 <= i < |slots| => slots[i].device)
  }

  /** The slot numbers of a schedule, in entry order. */
  function Slots(slots: seq<Assignment>): seq<int> {
    seq(|slots|, i requires 0 <= i < |slots| => slots[i].slot)
  }

  /** The schedule lists the discovered ids in arrival order, and its slot
      numbers are exactly 0, 1, .., n-1, so no two entries share a slot. */
  lemma SlotTableSlots(discovered: seq<int>)
    ensures Devices(SlotTable(discovered)) == discovered
    ensures Slots(SlotTable(discovered)) == Range(0, |discovered|)
    ensures forall i, j :: 0 <= i < j < |SlotTable(discovered)| ==>
      SlotTable(discovered)[i].slot != SlotTable(discovered)[j].slot
  {
    var n := |discovered|;
    assert |Range(0, n)| == n;
  }

  /** A duplicate-free discovered list gives every device at most one entry. */
  lemma SlotTableDevicesDistinct(discovered: seq<int>)
    requires NoDuplicates(discovered)
    ensures forall i, j :: 0 <= i < j < |SlotTable(discovered)| ==>
      SlotTable(discovered)[i].device != SlotTable(discovered)[j].device
  {
  }

  /** Appending one discovered id appends its entry: the step the base
      station's loop takes. */
  lemma SlotTableSnoc(discovered: seq<int>, k: nat)
    requires k < |discovered|
    ensures SlotTable(discovered[..k + 1]) == SlotTable(discovered[..k]) + [Assignment(discovered[k], k)]
  {
  }

  /** The position of the first entry naming `id`, or |slots| when none does. */
  function FirstIndexOf(slots: seq<Assignment>, id: int): (k: nat)
    ensures k <= |slots|
    ensures forall j :: 0 <= j < k ==> slots[j].device != id
    ensures k < |slots| ==> slots[k].device == id
  {
    if slots == [] then 0
    else if slots[0].device == id then 0
    else 1 + FirstIndexOf(slots[1..], id)
  }

  /** The slot a device takes from a schedule: that of the first entry
      naming it, if any. */
  function SlotOf(slots: seq<Assignment>, id: int): Option<int> {
    var k := FirstIndexOf(slots, id);
    if k < |slots| then Some(slots[k].slot) else None
  }

  /** Building a schedule and looking a device up in it round-trips: the
      i-th discovered device finds slot i. */
  lemma SlotTableRoundTrip(discovered: seq<int>, i: int)
    requires NoDuplicates(discovered)
    requires 0 <= i < |discovered|
    ensures SlotOf(SlotTable(discovered), discovered[i]) == Some(i)
  {
    var t := SlotTable(discovered);
    var k := FirstIndexOf(t, discovered[i]);
    assert t[i].device == discovered[i];
    assert k < |t| && discovered[k] == discovered[i];
  }

  /** A device that was not discovered finds no slot in the schedule. */
  lemma SlotTableUnlisted(discovered: seq<int>, id: int)
    requires id !in discovered
    ensures SlotOf(SlotTable(discovered), id) == None
  {
  }

  /** The payload of the schedule broadcast. */
  function SchedulePayload(schedule: seq<Assignment>): Payload {
    Schedule(|schedule|, schedule, SCHED_START_DELAY)
  }

  /** Frame length announced by a schedule with `numDevices` entries. */
  function FrameLength(numDevices: int): real {
    numDevices as real * SLOT_DURATION
  }

  /** Delay, from receipt of the schedule, until a device's first
      transmission; None when the schedule has no entry for it. */
  function FirstFireDelay(slots: seq<Assignment>, startDelay: real, id: int): Option<real> {
    match SlotOf(slots, id)
    case Some(slot) => Some(startDelay + slot as real * SLOT_DURATION)
    case None => None
  }

  /** The sender transmits at time `now` only before the horizon. */
  predicate Sends(now: real, horizon: real) {
    now < horizon
  }

  /** After transmitting, the sender re-arms only if the next transmission
      would still fall before the horizon. */
  predicate Rearms(now: real, frame: real, horizon: real) {
    now < horizon && now + frame < horizon
  }

  /** The times at which a sender first fired at `t` transmits, following
      the step: transmit if `Sends`, fire again `frame` later if `Rearms`. */
  function TransmitTimes(t: real, frame: real, horizon: real): seq<real>
    requires frame > 0.0
    decreases if t < horizon then ((horizon - t) / frame).Floor + 1 else 0
  {
    if !Sends(t, horizon) then []
    else if Rearms(t, frame, horizon) then
      DivStep(horizon - t, frame);
      [t] + TransmitTimes(t + frame, frame, horizon)
    else [t]
  }

  /** One frame less of remaining time is one frame less of quotient. */
  lemma DivStep(x: real, f: real)
    requires f > 0.0
    ensures (x - f) / f == x / f - 1.0
  {
    calc {
      (x - f) / f;
      x / f - f / f;
      x / f - 1.0;
    }
  }

  /** Closed form of the transmit chain: the k-th transmission is at
      t + k * frame, all of them lie strictly before the horizon, and the
      next one would not. */
  lemma {:induction false} TransmitTimesClosedForm(t: real, frame: real, horizon: real)
    requires frame > 0.0
    ensures forall k :: 0 <= k < |TransmitTimes(t, frame, horizon)| ==>
      TransmitTimes(t, frame, horizon)[k] == t + k as real * frame
    ensures forall x :: x in TransmitTimes(t, frame, horizon) ==> x < horizon
    ensures t + |TransmitTimes(t, frame, horizon)| as real * frame >= horizon
    decreases if t < horizon then ((horizon - t) / frame).Floor + 1 else 0
  {
    var r := TransmitTimes(t, frame, horizon);
    if Rearms(t, frame, horizon) {
      DivStep(horizon - t, frame);
      TransmitTimesClosedForm(t + frame, frame, horizon);
      var r' := TransmitTimes(t + frame, frame, horizon);
      assert r == [t] + r';
      forall k | 0 < k < |r|
        ensures r[k] == t + k as real * frame
      {
        assert r[k] == r'[k - 1] == t + frame + (k - 1) as real * frame;
      }
      assert t + frame + |r'| as real * frame == t + |r| as real * frame;
    }
  }

  /** The shape of a transmit chain first fired at `t`: the k-th time is
      t + k * frame, every time lies strictly before the horizon, and the
      time after the last would not. */
  predicate FrameSpaced(times: seq<real>, t: real, frame: real, horizon: real) {
    (forall k :: 0 <= k < |times| ==> times[k] == t + k as real * frame) &&
    (forall k :: 0 <= k < |times| ==> times[k] < horizon) &&
    t + |times| as real * frame >= horizon
  }

  lemma TransmitTimesFrameSpaced(t: real, frame: real, horizon: real)
    requires frame > 0.0
    ensures FrameSpaced(TransmitTimes(t, frame, horizon), t, frame, horizon)
  {
    var r := TransmitTimes(t, frame, horizon);
    TransmitTimesClosedForm(t, frame, horizon);
    forall k | 0 <= k < |r|
      ensures r[k] < horizon
    {
      assert r[k] in r;
    }
  }

  /** No time occurs in both lists. */
  predicate NeverTogether(s: seq<real>, u: seq<real>) {
    forall i, j :: 0 <= i < |s| && 0 <= j < |u| ==> s[i] != u[j]
  }

  /** Two senders sharing a frame length whose first transmissions differ by
      less than a frame (and not at all modulo it) never transmit at the
      same time. */
  lemma TransmitTimesDisjoint(a: real, b: real, frame: real, horizon: real)
    requires frame > 0.0
    requires a != b && a - b < frame && b - a < frame
    ensures NeverTogether(TransmitTimes(a, frame, horizon), TransmitTimes(b, frame, horizon))
  {
    TransmitTimesClosedForm(a, frame, horizon);
    TransmitTimesClosedForm(b, frame, horizon);
    var ra, rb := TransmitTimes(a, frame, horizon), TransmitTimes(b, frame, horizon);
    forall i, j | 0 <= i < |ra| && 0 <= j < |rb|
      ensures ra[i] != rb[j]
    {
      FrameMultiplesApart(i, j, frame, a - b);
    }
  }

  /** i * frame and j * frame differ by zero or by at least one frame. */
  lemma FrameMultiplesApart(i: int, j: int, frame: real, d: real)
    requires frame > 0.0
    requires d != 0.0 && d < frame && -d < frame
    ensures d + i as real * frame != j as real * frame
  {
    if i < j {
      assert j as real * frame - i as real * frame == (j - i) as real * frame;
      MulAtLeastOne((j - i) as real, frame);
    } else if j < i {
      assert i as real * frame - j as real * frame == (i - j) as real * frame;
      MulAtLeastOne((i - j) as real, frame);
    }
  }

  lemma MulAtLeastOne(m: real, f: real)
    requires m >= 1.0 && f > 0.0
    ensures m * f >= f
  {
    assert m * f - f == (m - 1.0) * f;
  }

  /** Devices `da` and `db` both hold a slot of `slots`, and when both take
      the schedule in at time `receipt`, their data transmissions up to the
      horizon never fall on the same instant. */
  predicate SlotsSeparated(slots: seq<Assignment>, startDelay: real, da: int, db: int, receipt: real, horizon: real) {
    FirstFireDelay(slots, startDelay, da).Some? &&
    FirstFireDelay(slots, startDelay, db).Some? &&
    FrameLength(|slots|) > 0.0 &&
    NeverTogether(TransmitTimes(receipt + FirstFireDelay(slots, startDelay, da).value, FrameLength(|slots|), horizon),
                  TransmitTimes(receipt + FirstFireDelay(slots, startDelay, db).value, FrameLength(|slots|), horizon))
  }

  /** TDMA separation: devices holding two different slots of one schedule,
      started from the same receipt time, never transmit at the same time. */
  lemma SlotsNeverCollide(discovered: seq<int>, da: int, db: int, receipt: real, horizon: real)
    requires NoDuplicates(discovered)
    requires da in discovered && db in discovered && da != db
    ensures SlotsSeparated(SlotTable(discovered), SCHED_START_DELAY, da, db, receipt, horizon)
  {
    var t := SlotTable(discovered);
    var i :| 0 <= i < |discovered| && discovered[i] == da;
    var j :| 0 <= j < |discovered| && discovered[j] == db;
    SlotTableRoundTrip(discovered, i);
    SlotTableRoundTrip(discovered, j);
    var frame := FrameLength(|t|);
    var a := receipt + SCHED_START_DELAY + i as real * SLOT_DURATION;
    var b := receipt + SCHED_START_DELAY + j as real * SLOT_DURATION;
    assert FirstFireDelay(t, SCHED_START_DELAY, da) == Some(SCHED_START_DELAY + i as real * SLOT_DURATION);
    assert FirstFireDelay(t, SCHED_START_DELAY, db) == Some(SCHED_START_DELAY + j as real * SLOT_DURATION);
    TransmitTimesDisjoint(a, b, frame, horizon);
  }
}
