/** One bucket of the routing table: `k` active and `k` backup slots for nodes sharing a prefix with us. */
module DhtBucket {
  import opened Options
  import opened DhtKeys

  /** A signed node description; `signed` is the verdict on its signature. */
  datatype DhtNode = DhtNode(key: Key, version: int, signed: bool, addr: nat)

  datatype Remote = Remote(node: DhtNode, missed: nat, lastPing: real, readyFrom: real, failedFrom: real) {
    predicate Ready() { readyFrom > 0.0 }
  }

  type Slot = Option<Remote>

  const PING_TIMEOUT := 60.0
  const MAX_MISSED_PINGS := 3

  // ----- remote nodes -----

  function NewRemote(n: DhtNode, now: real): Remote {
    Remote(n, 0, 0.0, 0.0, now)
  }

  /** `update_value`: a newer description is taken if its signature is good. */
  function UpdateValue(r: Remote, n: DhtNode): Remote
    requires n.key == r.node.key
  {
    if n.version <= r.node.version || !n.signed then r else r.(node := n)
  }

  /** `receive_ping`: a bad signature on a newer description drops the ping. */
  function PingReceived(r: Remote, n: DhtNode, now: real): Remote
    requires n.key == r.node.key
  {
    if n.version > r.node.version && !n.signed then r
    else UpdateValue(r, n).(missed := 0, readyFrom := if r.readyFrom == 0.0 then now else r.readyFrom)
  }

  /** `send_ping`: too many unanswered pings end readiness. */
  function PingSent(r: Remote, now: real): Remote {
    if r.missed + 1 > MAX_MISSED_PINGS && r.Ready()
    then r.(missed := r.missed + 1, readyFrom := 0.0, failedFrom := now, lastPing := now)
    else r.(missed := r.missed + 1, lastPing := now)
  }

  // ----- slots -----

  predicate Holds(s: Slot, key: Key) {
    s.Some? && s.value.node.key == key
  }

  /** A backup that may be overwritten. */
  predicate Stale(s: Slot, now: real) {
    s.Some? && s.value.readyFrom == 0.0 && s.value.failedFrom + 60.0 < now
  }

  ghost function KeysIn(slots: seq<Slot>): set<Key> {
    set i | 0 <= i < |slots| && slots[i].Some? :: slots[i].value.node.key
  }

  ghost predicate Distinct(slots: seq<Slot>) {
    forall i, j :: 0 <= i < j < |slots| && slots[i].Some? && slots[j].Some? ==>
      slots[i].value.node.key != slots[j].value.node.key
  }

  ghost predicate Apart(a: seq<Slot>, b: seq<Slot>) {
    forall i, j {:trigger a[i], b[j]} :: 0 <= i < |a| && 0 <= j < |b| && a[i].Some? && b[j].Some? ==>
      a[i].value.node.key != b[j].value.node.key
  }

  ghost predicate AllIn(self: Key, bit: nat, slots: seq<Slot>) {
    forall i :: 0 <= i < |slots| && slots[i].Some? ==> InBucket(self, bit, slots[i].value.node.key)
  }

  ghost predicate AllReady(slots: seq<Slot>) {
    forall i :: 0 <= i < |slots| && slots[i].Some? ==> slots[i].value.Ready()
  }

  /** Keys are unique, share exactly `bit` leading bits with `self`, and active nodes are ready. */
  ghost predicate Good(self: Key, bit: nat, active: seq<Slot>, backup: seq<Slot>) {
    && Distinct(active) && Distinct(backup) && Apart(active, backup)
    && AllIn(self, bit, active) && AllIn(self, bit, backup) && AllReady(active)
  }

  function Free(slots: seq<Slot>): nat {
    if slots == [] then 0 else Free(slots[..|slots| - 1]) + if slots[|slots| - 1].None? then 1 else 0
  }

  lemma {:induction false} FreeUpdate(slots: seq<Slot>, i: nat, s: Slot)
    requires i < |slots|
    ensures Free(slots[i := s]) + (if slots[i].None? then 1 else 0) == Free(slots) + (if s.None? then 1 else 0)
  {
    var n := |slots| - 1;
    if i < n {
      assert slots[i := s][..n] == slots[..n][i := s];
      FreeUpdate(slots[..n], i, s);
    } else {
      assert slots[i := s][..n] == slots[..n];
    }
  }

  lemma {:induction false} FreeSlot(slots: seq<Slot>) returns (i: nat)
    requires Free(slots) > 0
    ensures i < |slots| && slots[i].None?
  {
    var n := |slots| - 1;
    if slots[n].None? {
      i := n;
    } else {
      i := FreeSlot(slots[..n]);
    }
  }

  lemma {:induction false} NoFreeSlot(slots: seq<Slot>, i: nat)
    requires i < |slots| && slots[i].None?
    ensures Free(slots) > 0
  {
    var n := |slots| - 1;
    if i < n {
      NoFreeSlot(slots[..n], i);
    }
  }

  // ----- what one slot may become -----

  lemma ReplaceActive(self: Key, bit: nat, active: seq<Slot>, backup: seq<Slot>, i: nat, r: Remote)
    requires Good(self, bit, active, backup) && i < |active| && Holds(active[i], r.node.key) && r.Ready()
    ensures Good(self, bit, active[i := Some(r)], backup)
  {}

  lemma ReplaceBackup(self: Key, bit: nat, active: seq<Slot>, backup: seq<Slot>, i: nat, r: Remote)
    requires Good(self, bit, active, backup) && i < |backup| && Holds(backup[i], r.node.key)
    ensures Good(self, bit, active, backup[i := Some(r)])
  {}

  lemma FreshBackup(self: Key, bit: nat, active: seq<Slot>, backup: seq<Slot>, i: nat, r: Remote)
    requires Good(self, bit, active, backup) && i < |backup| && InBucket(self, bit, r.node.key)
    requires forall j :: 0 <= j < |active| ==> !Holds(active[j], r.node.key)
    requires forall j :: 0 <= j < |backup| ==> !Holds(backup[j], r.node.key)
    ensures Good(self, bit, active, backup[i := Some(r)])
  {}

  lemma Promoted(self: Key, bit: nat, active: seq<Slot>, backup: seq<Slot>, i: nat, j: nat)
    requires Good(self, bit, active, backup) && i < |backup| && j < |active|
    requires active[j].None? && backup[i].Some? && backup[i].value.Ready()
    ensures Good(self, bit, active[j := backup[i]], backup[i := None])
  {}

  lemma Emptied(self: Key, bit: nat, active: seq<Slot>, backup: seq<Slot>, i: nat)
    requires i < |active| && active[i].Some?
    requires Distinct(active) && Distinct(backup) && Apart(active, backup)
    requires AllIn(self, bit, active) && AllIn(self, bit, backup) && AllReady(active[i := None])
    ensures Good(self, bit, active[i := None], backup)
    ensures forall j :: 0 <= j < |active| && j != i ==> !Holds(active[j], active[i].value.node.key)
    ensures forall j :: 0 <= j < |backup| ==> !Holds(backup[j], active[i].value.node.key)
    ensures InBucket(self, bit, active[i].value.node.key)
  {
    assert forall j :: 0 <= j < |backup| && backup[j].Some? ==> active[i].value.node.key != backup[j].value.node.key;
  }

  lemma HeldKey(a: seq<Slot>, b: seq<Slot>, i: nat)
    requires i < |a| && a[i].Some? && (Apart(a, b) || Apart(b, a))
    ensures a[i].value.node.key in KeysIn(a) && a[i].value.node.key !in KeysIn(b)
  {}

  lemma NotHeld(slots: seq<Slot>, key: Key)
    ensures key in KeysIn(slots) <==> exists j :: 0 <= j < |slots| && Holds(slots[j], key)
  {}

  /** Overwriting a slot exchanges its key. */
  lemma KeysUpdate(slots: seq<Slot>, i: nat, s: Slot)
    requires i < |slots| && Distinct(slots)
    ensures KeysIn(slots[i := s]) ==
            KeysIn(slots) - (if slots[i].Some? then {slots[i].value.node.key} else {})
                          + (if s.Some? then {s.value.node.key} else {})
  {
    var new' := slots[i := s];
    forall key
      ensures key in KeysIn(new') <==>
                (key in KeysIn(slots) && !Holds(slots[i], key)) || Holds(s, key)
    {
      NotHeld(slots, key);
      NotHeld(new', key);
      if j :| 0 <= j < |slots| && Holds(slots[j], key) && j != i {
        assert Holds(new'[j], key);
      }
      if Holds(s, key) {
        assert Holds(new'[i], key);
      }
      if j :| 0 <= j < |new'| && Holds(new'[j], key) && j != i {
        assert Holds(slots[j], key);
      }
    }
  }

  /** The newer of two descriptions, a newer one counting only if its signature is good. */
  ghost predicate Newest(before: DhtNode, n: DhtNode, after: DhtNode) {
    after == if n.version > before.version && n.signed then n else before
  }

  /** Node `after` is node `before` with the newest description and nothing else changed. */
  ghost predicate Described(before: Remote, after: Remote, n: DhtNode) {
    Newest(before.node, n, after.node) && after == before.(node := after.node)
  }

  /** An answer is good unless it is newer than what is known and badly signed. */
  ghost predicate GoodAnswer(r: Remote, n: DhtNode) {
    n.version > r.node.version ==> n.signed
  }

  /**
    A good answer clears the missed pings, brings the newest description and starts readiness unless the
    node is ready already; a bad one changes nothing.
  */
  ghost predicate TookPing(before: Remote, after: Remote, n: DhtNode, now: real) {
    if GoodAnswer(before, n) then
      && after.missed == 0 && Newest(before.node, n, after.node)
      && after.readyFrom == (if before.readyFrom == 0.0 then now else before.readyFrom)
      && after.lastPing == before.lastPing && after.failedFrom == before.failedFrom
    else after == before
  }

  /** The node with the key of `n` took over `n`'s description, everything else is the same. */
  ghost predicate Updated(before: seq<Slot>, after: seq<Slot>, n: DhtNode) {
    exists i, r :: 0 <= i < |before| && Holds(before[i], n.key) && Described(before[i].value, r, n) && after == before[i := Some(r)]
  }

  /** The node with the key of `n` took the ping, everything else is the same. */
  ghost predicate Answered(before: seq<Slot>, after: seq<Slot>, n: DhtNode, now: real) {
    exists i, r :: 0 <= i < |before| && Holds(before[i], n.key) && TookPing(before[i].value, r, n, now) && after == before[i := Some(r)]
  }

  /** The backup node with the key of `n` took the ping, is ready now and moved to a free active slot. */
  ghost predicate Entered(active: seq<Slot>, active': seq<Slot>, backup: seq<Slot>, backup': seq<Slot>, n: DhtNode, now: real) {
    exists i, j, r :: 0 <= i < |backup| && 0 <= j < |active| && Holds(backup[i], n.key) && active[j].None? &&
                      TookPing(backup[i].value, r, n, now) && r.Ready() &&
                      backup' == backup[i := None] && active' == active[j := Some(r)]
  }

  /** `s` took a free slot, or a stale one where no slot was free; everything else is the same. */
  ghost predicate MovedIn(before: seq<Slot>, after: seq<Slot>, s: Slot, now: real) {
    exists i :: 0 <= i < |before| && after == before[i := s] &&
                if before[i].None? then true else Free(before) == 0 && Stale(before[i], now)
  }

  ghost predicate HasRoom(slots: seq<Slot>, now: real) {
    exists i :: 0 <= i < |slots| && (slots[i].None? || Stale(slots[i], now))
  }

  /** `n` entered a free or stale slot, everything else is the same. */
  ghost predicate PlacedIn(before: seq<Slot>, after: seq<Slot>, n: DhtNode, now: real) {
    exists i :: 0 <= i < |before| && (before[i].None? || Stale(before[i], now)) &&
                after == before[i := Some(Remote(n, 0, 0.0, 0.0, now))]
  }

  /**
    The outcome of `add_full_node`: a known node is updated in place; a new one with a good signature enters
    a free or stale backup slot if there is one, a free one first; nothing else changes.
  */
  ghost predicate Added(active: seq<Slot>, backup: seq<Slot>, active': seq<Slot>, backup': seq<Slot>, n: DhtNode, now: real) {
    && (n.key in KeysIn(active) ==> backup' == backup && Updated(active, active', n))
    && (n.key in KeysIn(backup) ==> active' == active && Updated(backup, backup', n))
    && (n.key !in KeysIn(active) + KeysIn(backup) ==>
          active' == active && if n.signed && HasRoom(backup, now) then PlacedIn(backup, backup', n, now) else backup' == backup)
    && (n.key !in KeysIn(active) + KeysIn(backup) && n.signed && Free(backup) > 0 ==>
          KeysIn(backup') == KeysIn(backup) + {n.key})
  }

  /** The outcome of `receive_ping`: the node takes it, a backup that is ready now moves up; no key comes or goes. */
  ghost predicate PingTaken(active: seq<Slot>, backup: seq<Slot>, active': seq<Slot>, backup': seq<Slot>, n: DhtNode, now: real) {
    && KeysIn(active') + KeysIn(backup') == KeysIn(active) + KeysIn(backup) && KeysIn(active) <= KeysIn(active')
    && (n.key in KeysIn(active) ==> backup' == backup && Answered(active, active', n, now))
    && (n.key in KeysIn(backup) ==>
          if active' == active then Answered(backup, backup', n, now) else Entered(active, active', backup, backup', n, now))
    && (forall i :: 0 <= i < |backup| && Holds(backup[i], n.key) ==>
          var r := backup[i].value;
          (n.key in KeysIn(active') <==>
             Free(active) > 0 && (r.Ready() || (r.readyFrom == 0.0 && now > 0.0 && GoodAnswer(r, n)))))
    && (n.key !in KeysIn(active) + KeysIn(backup) ==> active' == active && backup' == backup)
  }

  /**
    The outcome of an answer `n` to a ping of `key`.  The CHECK holds exactly when the node is unknown or
    the answer describes it; a known node takes the ping, otherwise nothing changes.
  */
  ghost predicate PingOutcome(active: seq<Slot>, backup: seq<Slot>, active': seq<Slot>, backup': seq<Slot>,
                              key: Key, n: DhtNode, now: real, ok: bool)
  {
    var known := key in KeysIn(active) + KeysIn(backup);
    && (ok <==> !known || n.key == key)
    && if ok && known then PingTaken(active, backup, active', backup', n, now) else active' == active && backup' == backup
  }

  /**
    The outcome of `check`: no node appears, none is lost as long as the backup has free slots, an active
    node stays as long as it is ready after its ping, ready backups are not lost, and no ready backup is left waiting while an active slot is free.
  */
  ghost predicate Checked(active: seq<Slot>, backup: seq<Slot>, active': seq<Slot>, backup': seq<Slot>, now: real) {
    && |active'| == |active| && |backup'| == |backup|
    && KeysIn(active') + KeysIn(backup') <= KeysIn(active) + KeysIn(backup)
    && (Lapsing(active, now) <= Free(backup) ==> KeysIn(active') + KeysIn(backup') == KeysIn(active) + KeysIn(backup))
    && (forall j :: 0 <= j < |active| && active[j].Some? && !Lapsed(active[j], now) ==>
          active'[j].Some? && PingedOnce(active[j].value, active'[j].value, now))
    && (forall j :: 0 <= j < |backup| && backup[j].Some? && backup[j].value.Ready() ==>
          backup[j].value.node.key in KeysIn(active') + KeysIn(backup'))
    && (Free(active') > 0 ==> forall j :: 0 <= j < |backup'| && backup'[j].Some? ==> !backup'[j].value.Ready())
  }

  /** What a ping makes of a slot: silence for too long ends readiness. */
  function Pinged(s: Slot, now: real): Slot {
    if s.Some? && now - s.value.lastPing > PING_TIMEOUT then Some(PingSent(s.value, now)) else s
  }

  /** The node is pinged again although three pings in a row went unanswered. */
  ghost predicate Lapses(r: Remote, now: real) {
    now - r.lastPing > 60.0 && r.missed >= 3
  }

  ghost predicate Lapsed(s: Slot, now: real) {
    s.Some? && Lapses(s.value, now)
  }

  /** A node that was not pinged for a minute is pinged; readiness ends with the fourth ping without an answer. */
  ghost predicate PingedOnce(before: Remote, after: Remote, now: real) {
    if now - before.lastPing > 60.0 then
      && after.node == before.node && after.missed == before.missed + 1 && after.lastPing == now
      && (if before.missed >= 3 && before.readyFrom > 0.0 then after.readyFrom == 0.0 && after.failedFrom == now
          else after.readyFrom == before.readyFrom && after.failedFrom == before.failedFrom)
    else after == before
  }

  lemma PingedMeans(r: Remote, now: real)
    ensures Pinged(Some(r), now).Some? && PingedOnce(r, Pinged(Some(r), now).value, now)
    ensures r.Ready() ==> (Pinged(Some(r), now).value.Ready() <==> !Lapses(r, now))
    ensures r.Ready() && Lapses(r, now) ==> Pinged(Some(r), now).value.readyFrom == 0.0
  {}

  /** The nodes among `slots` that lose readiness when they are checked. */
  ghost function Lapsing(slots: seq<Slot>, now: real): nat {
    if slots == [] then 0
    else
      var s := slots[|slots| - 1];
      Lapsing(slots[..|slots| - 1], now) + if Lapsed(s, now) then 1 else 0
  }

  lemma PingReceivedMeans(r: Remote, n: DhtNode, now: real)
    requires n.key == r.node.key
    ensures var s := PingReceived(r, n, now);
            && TookPing(r, s, n, now) && s.node.key == r.node.key && (r.Ready() ==> s.Ready())
            && (s.Ready() <==> r.Ready() || (r.readyFrom == 0.0 && now > 0.0 && GoodAnswer(r, n)))
  {}

  /** An active node takes the ping. */
  lemma TakenInPlace(self: Key, bit: nat, active: seq<Slot>, backup: seq<Slot>, i: nat, n: DhtNode, now: real)
    requires Good(self, bit, active, backup) && i < |active| && Holds(active[i], n.key)
    ensures var active' := active[i := Some(PingReceived(active[i].value, n, now))];
            Good(self, bit, active', backup) && PingTaken(active, backup, active', backup, n, now) && n.key in KeysIn(active)
  {
    hide TookPing, PingReceived, GoodAnswer;
    var r := PingReceived(active[i].value, n, now);
    PingReceivedMeans(active[i].value, n, now);
    HeldKey(active, backup, i);
    NotHeld(backup, n.key);
    ReplaceActive(self, bit, active, backup, i, r);
    KeysUpdate(active, i, Some(r));
    assert Answered(active, active[i := Some(r)], n, now);
    hide Good, KeysIn;
  }

  /** A backup node takes the ping where it is. */
  lemma TakenInBackup(self: Key, bit: nat, active: seq<Slot>, backup: seq<Slot>, i: nat, n: DhtNode, now: real)
    requires Good(self, bit, active, backup) && i < |backup| && Holds(backup[i], n.key)
    ensures var r := PingReceived(backup[i].value, n, now);
            && Good(self, bit, active, backup[i := Some(r)]) && n.key in KeysIn(backup)
            && (!r.Ready() || Free(active) == 0 ==> PingTaken(active, backup, active, backup[i := Some(r)], n, now))
  {
    hide TookPing, PingReceived, GoodAnswer;
    var r := PingReceived(backup[i].value, n, now);
    PingReceivedMeans(backup[i].value, n, now);
    HeldKey(backup, active, i);
    OneHolder(backup, i, n.key);
    ReplaceBackup(self, bit, active, backup, i, r);
    KeysUpdate(backup, i, Some(r));
    assert Answered(backup, backup[i := Some(r)], n, now);
    hide Good, KeysIn;
  }

  /** A backup node takes the ping and moves up. */
  lemma TakenUp(self: Key, bit: nat, active: seq<Slot>, backup: seq<Slot>, i: nat, j: nat, n: DhtNode, now: real)
    requires Good(self, bit, active, backup) && i < |backup| && Holds(backup[i], n.key) && j < |active| && active[j].None?
    requires PingReceived(backup[i].value, n, now).Ready()
    ensures PingTaken(active, backup, active[j := Some(PingReceived(backup[i].value, n, now))], backup[i := None], n, now)
  {
    hide TookPing, PingReceived, GoodAnswer;
    var r := PingReceived(backup[i].value, n, now);
    PingReceivedMeans(backup[i].value, n, now);
    HeldKey(backup, active, i);
    OneHolder(backup, i, n.key);
    NoFreeSlot(active, j);
    KeysUpdate(active, j, Some(r));
    KeysUpdate(backup, i, None);
    assert active[j := Some(r)] != active by { assert active[j := Some(r)][j] != active[j]; }
    assert Entered(active, active[j := Some(r)], backup, backup[i := None], n, now);
    hide Good, KeysIn;
  }

  lemma OneHolder(slots: seq<Slot>, i: nat, key: Key)
    requires Distinct(slots) && i < |slots| && Holds(slots[i], key)
    ensures forall j :: 0 <= j < |slots| && Holds(slots[j], key) ==> j == i
  {}

  /** The pings sent at `times`, with no answer in between. */
  function Pings(r: Remote, times: seq<real>): Remote {
    if times == [] then r else PingSent(Pings(r, times[..|times| - 1]), times[|times| - 1])
  }

  /**
    A node that has just answered stays ready through three unanswered pings and not through a fourth, and
    may be overwritten a minute after that.
  */
  lemma {:induction false} SilentNode(r: Remote, n: DhtNode, start: real, times: seq<real>, now: real)
    requires n.key == r.node.key && GoodAnswer(r, n) && r.readyFrom >= 0.0 && start > 0.0
    ensures var s := Pings(PingReceived(r, n, start), times);
            && s.missed == |times| && (s.Ready() <==> |times| <= 3)
            && (|times| > 3 ==> s.readyFrom == 0.0 && (Stale(Some(s), now) <==> now > times[3] + 60.0))
            && (|times| <= 3 ==> !Stale(Some(s), now))
  {
    if times != [] {
      SilentNode(r, n, start, times[..|times| - 1], now);
    }
  }

  class Bucket {
    const self: Key
    const bit: nat
    var active: seq<Slot>
    var backup: seq<Slot>

    ghost predicate Valid()
      reads this
    {
      Good(self, bit, active, backup)
    }

    constructor (self: Key, bit: nat, k: nat)
      ensures Valid() && this.self == self && this.bit == bit
      ensures active == backup == seq(k, _ => None)
    {
      this.self, this.bit := self, bit;
      active := seq(k, _ => None);
      backup := seq(k, _ => None);
    }

    /** The first slot that holds `key`, or the number of slots. */
    static method FindKey(slots: seq<Slot>, key: Key) returns (i: nat)
      ensures i <= |slots| && (i < |slots| ==> Holds(slots[i], key)) && forall j :: 0 <= j < i ==> !Holds(slots[j], key)
    {
      i := 0;
      while i < |slots| && !Holds(slots[i], key)
        invariant i <= |slots| && forall j :: 0 <= j < i ==> !Holds(slots[j], key)
      {
        i := i + 1;
      }
    }

    static method FindFree(slots: seq<Slot>) returns (i: nat)
      ensures i <= |slots| && (i < |slots| ==> slots[i].None?) && forall j :: 0 <= j < i ==> slots[j].Some?
    {
      i := 0;
      while i < |slots| && slots[i].Some?
        invariant i <= |slots| && forall j :: 0 <= j < i ==> slots[j].Some?
      {
        i := i + 1;
      }
    }

    static method FindStale(slots: seq<Slot>, now: real) returns (i: nat)
      ensures i <= |slots| && (i < |slots| ==> Stale(slots[i], now)) && forall j :: 0 <= j < i ==> !Stale(slots[j], now)
    {
      i := 0;
      while i < |slots| && !Stale(slots[i], now)
        invariant i <= |slots| && forall j :: 0 <= j < i ==> !Stale(slots[j], now)
      {
        i := i + 1;
      }
    }

    /** Where a node goes in the backup: the first free slot, else the first stale one, else nowhere. */
    static method Place(slots: seq<Slot>, now: real) returns (i: nat)
      ensures i <= |slots|
      ensures i < |slots| ==> slots[i].None? || (Stale(slots[i], now) && forall j :: 0 <= j < |slots| ==> slots[j].Some?)
      ensures i == |slots| ==> forall j :: 0 <= j < |slots| ==> slots[j].Some? && !Stale(slots[j], now)
      ensures forall j :: 0 <= j < i ==> slots[j].Some? && (i < |slots| && Stale(slots[i], now) ==> !Stale(slots[j], now))
    {
      i := FindFree(slots);
      if i == |slots| {
        i := FindStale(slots, now);
      }
    }

    /** A known node is updated in place; a new one with a good signature goes to the backup if it fits. */
    method AddFullNode(n: DhtNode, now: real)
      requires Valid() && InBucket(self, bit, n.key)
      modifies this
      ensures Valid() && |active| == |old(active)| && |backup| == |old(backup)|
      ensures Added(old(active), old(backup), active, backup, n, now)
    {
      var i := FindKey(active, n.key);
      if i < |active| {
        HeldKey(active, backup, i);
        ReplaceActive(self, bit, active, backup, i, UpdateValue(active[i].value, n));
        active := active[i := Some(UpdateValue(active[i].value, n))];
        return;
      }
      NotHeld(active, n.key);
      i := FindKey(backup, n.key);
      if i < |backup| {
        HeldKey(backup, active, i);
        ReplaceBackup(self, bit, active, backup, i, UpdateValue(backup[i].value, n));
        backup := backup[i := Some(UpdateValue(backup[i].value, n))];
        return;
      }
      NotHeld(backup, n.key);
      if !n.signed {
        return;
      }
      i := Place(backup, now);
      if i < |backup| {
        FreshBackup(self, bit, active, backup, i, NewRemote(n, now));
        backup := backup[i := Some(NewRemote(n, now))];
      } else if Free(backup) > 0 {
        ghost var j := FreeSlot(backup);
      }
      if Free(old(backup)) > 0 {
        ghost var j := FreeSlot(old(backup));
        KeysUpdate(old(backup), i, Some(NewRemote(n, now)));
      }
    }

    /**
      The answer `n` to a ping of `key`; a backup node that became ready moves to a free active slot.  If
      the node is known and the answer describes another one, the CHECK in `update_value` fails.
    */
    method ReceivePing(key: Key, n: DhtNode, now: real) returns (ok: bool)
      requires Valid() && InBucket(self, bit, key)
      modifies this
      ensures Valid() && |active| == |old(active)| && |backup| == |old(backup)|
      ensures PingOutcome(old(active), old(backup), active, backup, key, n, now, ok)
    {
      hide TookPing, PingReceived, UpdateValue, GoodAnswer, PingTaken, Good;
      NotHeld(active, key);
      NotHeld(backup, key);
      var i := FindKey(active, key);
      if i < |active| {
        if n.key != key {
          return false;
        }
        TakenInPlace(self, bit, active, backup, i, n, now);
        active := active[i := Some(PingReceived(active[i].value, n, now))];
        return true;
      }
      i := FindKey(backup, key);
      if i < |backup| {
        if n.key != key {
          return false;
        }
        var r := PingReceived(backup[i].value, n, now);
        TakenInBackup(self, bit, active, backup, i, n, now);
        backup := backup[i := Some(r)];
        if r.Ready() {
          Promote(i);
          if Free(old(active)) > 0 {
            ghost var j :| 0 <= j < |active| && old(active)[j].None? && active == old(active)[j := Some(r)];
            TakenUp(self, bit, old(active), old(backup), i, j, n, now);
            assert backup == old(backup)[i := None];
          }
        }
      }
      return true;
    }

    /** Moves a ready backup node to the first free active slot, if there is one. */
    method Promote(i: nat)
      requires Valid() && i < |backup| && backup[i].Some? && backup[i].value.Ready()
      modifies this
      ensures Valid() && |active| == |old(active)| && |backup| == |old(backup)|
      ensures KeysIn(active) + KeysIn(backup) == KeysIn(old(active)) + KeysIn(old(backup))
      ensures Free(old(active)) == 0 ==> active == old(active) && backup == old(backup)
      ensures Free(old(active)) > 0 ==> backup == old(backup)[i := None] && Free(active) == Free(old(active)) - 1
      ensures Free(old(active)) > 0 ==>
                exists j :: 0 <= j < |active| && old(active)[j].None? && active == old(active)[j := old(backup)[i]]
    {
      var j := FindFree(active);
      if j < |active| {
        NoFreeSlot(active, j);
        FreeUpdate(active, j, backup[i]);
        Promoted(self, bit, active, backup, i, j);
        KeysUpdate(active, j, backup[i]);
        KeysUpdate(backup, i, None);
        active := active[j := backup[i]];
        backup := backup[i := None];
      } else if Free(active) > 0 {
        ghost var f := FreeSlot(active);
      }
    }
  
    /** Takes a node that lost readiness out of the active slots; it is kept as a backup if there is room. */
    method Demote(i: nat, now: real)
      requires i < |active| && active[i].Some? && Distinct(active) && Distinct(backup) && Apart(active, backup)
      requires AllIn(self, bit, active) && AllIn(self, bit, backup) && AllReady(active[i := None])
      modifies this
      ensures Valid() && active == old(active)[i := None] && |backup| == |old(backup)|
      ensures KeysIn(active) + KeysIn(backup) <= KeysIn(old(active)) + KeysIn(old(backup))
      ensures if HasRoom(old(backup), now) then MovedIn(old(backup), backup, old(active)[i], now) else backup == old(backup)
      ensures Free(old(backup)) > 0 ==> KeysIn(active) + KeysIn(backup) == KeysIn(old(active)) + KeysIn(old(backup))
      ensures Free(backup) + 1 >= Free(old(backup))
    {
      Emptied(self, bit, active, backup, i);
      KeysUpdate(active, i, None);
      HeldKey(active, backup, i);
      var j := Place(backup, now);
      if j < |backup| {
        KeysUpdate(backup, j, active[i]);
        FreshBackup(self, bit, active[i := None], backup, j, active[i].value);
        FreeUpdate(backup, j, active[i]);
        if backup[j].None? {
          NoFreeSlot(backup, j);
        } else if Free(backup) > 0 {
          ghost var f := FreeSlot(backup);
        }
        backup := backup[j := active[i]];
      }
      else if Free(backup) > 0 {
        ghost var f := FreeSlot(backup);
      }
      active := active[i := None];
    }

    /** The first half of `check`: ping silent active nodes and demote those that lost readiness. */
    method CheckActive(now: real) returns (space: nat)
      requires Valid()
      modifies this
      ensures Valid() && |active| == |old(active)| && |backup| == |old(backup)|
      ensures space == Free(active)
      ensures KeysIn(active) + KeysIn(backup) <= KeysIn(old(active)) + KeysIn(old(backup))
      ensures forall j :: 0 <= j < |active| ==>
                if old(active)[j].Some? && !Lapsed(old(active)[j], now)
                then active[j].Some? && PingedOnce(old(active)[j].value, active[j].value, now) else active[j].None?
      ensures Lapsing(old(active), now) <= Free(old(backup)) ==>
                KeysIn(active) + KeysIn(backup) == KeysIn(old(active)) + KeysIn(old(backup))
      ensures forall j :: 0 <= j < |backup| && old(backup)[j].Some? && old(backup)[j].value.Ready() ==> backup[j] == old(backup)[j]
    {
      space := 0;
      for i := 0 to |active|
        invariant Valid() && |active| == |old(active)| && |backup| == |old(backup)|
        invariant space == Free(active[..i])
        invariant KeysIn(active) + KeysIn(backup) <= KeysIn(old(active)) + KeysIn(old(backup))
        invariant forall j :: i <= j < |active| ==> active[j] == old(active)[j]
        invariant forall j :: 0 <= j < i ==>
                    if old(active)[j].Some? && !Lapsed(old(active)[j], now)
                    then active[j].Some? && PingedOnce(old(active)[j].value, active[j].value, now) else active[j].None?
        invariant Free(backup) + Lapsing(old(active[..i]), now) >= Free(old(backup))
        invariant Lapsing(old(active[..i]), now) <= Free(old(backup)) ==>
                    KeysIn(active) + KeysIn(backup) == KeysIn(old(active)) + KeysIn(old(backup))
        invariant forall j :: 0 <= j < |backup| && old(backup)[j].Some? && old(backup)[j].value.Ready() ==>
                    backup[j] == old(backup)[j]
      {
        assert old(active[..i + 1])[..i] == old(active[..i]);
        CheckSlot(i, now);
        assert active[..i + 1][..i] == active[..i];
        if active[i].None? {
          space := space + 1;
        }
      }
      assert active[..|active|] == active && old(active[..|active|]) == old(active);
    }

    method CheckSlot(i: nat, now: real)
      requires Valid() && i < |active|
      modifies this
      ensures Valid() && |backup| == |old(backup)|
      ensures |active| == |old(active)| && active == old(active)[i := active[i]]
      ensures if old(active)[i].Some? && !Lapsed(old(active)[i], now)
              then backup == old(backup) && active[i].Some? && PingedOnce(old(active)[i].value, active[i].value, now)
              else active[i].None?
      ensures if Lapsed(old(active)[i], now) && HasRoom(old(backup), now)
              then exists r :: PingedOnce(old(active)[i].value, r, now) && MovedIn(old(backup), backup, Some(r), now)
              else backup == old(backup)
      ensures KeysIn(active) + KeysIn(backup) <= KeysIn(old(active)) + KeysIn(old(backup))
      ensures Free(backup) + (if Lapsed(old(active)[i], now) then 1 else 0) >= Free(old(backup))
      ensures Free(old(backup)) > 0 || !Lapsed(old(active)[i], now) ==>
                KeysIn(active) + KeysIn(backup) == KeysIn(old(active)) + KeysIn(old(backup))
      ensures forall j :: 0 <= j < |backup| && old(backup)[j].Some? && old(backup)[j].value.Ready() ==> backup[j] == old(backup)[j]
    {
      if active[i].Some? && now - active[i].value.lastPing > PING_TIMEOUT {
        var r := PingSent(active[i].value, now);
        KeysUpdate(active, i, Some(r));
        assert active[i := Some(r)][i := None] == active[i := None];
        active := active[i := Some(r)];
        if r.readyFrom == 0.0 {
          Demote(i, now);
        }
      } else {
        assert active[i := active[i]] == active;
      }
    }

    /** One round of the second half of `check`. */
    method CheckBackup(i: nat, space: nat, now: real) returns (left: nat)
      requires Valid() && i < |backup| && space == Free(active)
      modifies this
      ensures Valid() && |active| == |old(active)| && |backup| == |old(backup)| && left == Free(active) <= space
      ensures KeysIn(active) + KeysIn(backup) == KeysIn(old(active)) + KeysIn(old(backup))
      ensures forall j :: 0 <= j < |active| && old(active)[j].Some? ==> active[j] == old(active)[j]
      ensures forall j :: 0 <= j < |backup| && j != i ==> backup[j] == old(backup)[j]
      ensures left > 0 && backup[i].Some? ==> !backup[i].value.Ready()
      ensures old(backup)[i].None? ==> active == old(active) && backup == old(backup)
      ensures old(backup)[i].Some? ==>
                exists r :: PingedOnce(old(backup)[i].value, r, now) &&
                            if r.Ready() && space > 0
                            then backup[i].None? && exists j :: 0 <= j < |active| && old(active)[j].None? && active == old(active)[j := Some(r)]
                            else active == old(active) && backup[i] == Some(r)
    {
      left := space;
      if backup[i].Some? {
        PingedMeans(backup[i].value, now);
      }
      if backup[i].Some? && now - backup[i].value.lastPing > PING_TIMEOUT {
        ReplaceBackup(self, bit, active, backup, i, PingSent(backup[i].value, now));
        KeysUpdate(backup, i, Some(PingSent(backup[i].value, now)));
        backup := backup[i := Some(PingSent(backup[i].value, now))];
      }
      if backup[i].Some? && space > 0 && backup[i].value.Ready() {
        Promote(i);
        left := space - 1;
      }
    }

    /** `check`: active slots first, then backups. */
    method Check(now: real)
      requires Valid()
      modifies this
      ensures Valid() && Checked(old(active), old(backup), active, backup, now)
    {
      var space := CheckActive(now);
      ghost var active1, backup1 := active, backup;
      for i := 0 to |backup|
        invariant Valid() && |active| == |active1| && |backup| == |backup1|
        invariant space == Free(active)
        invariant KeysIn(active) + KeysIn(backup) == KeysIn(active1) + KeysIn(backup1)
        invariant forall j :: 0 <= j < |active| && active1[j].Some? ==> active[j] == active1[j]
        invariant space > 0 ==> forall j :: 0 <= j < i && backup[j].Some? ==> !backup[j].value.Ready()
      {
        space := CheckBackup(i, space, now);
      }
      forall j | 0 <= j < |backup1| && backup1[j].Some? ensures backup1[j].value.node.key in KeysIn(active) + KeysIn(backup) {
        NotHeld(backup1, backup1[j].value.node.key);
        assert Holds(backup1[j], backup1[j].value.node.key);
      }
    }
  }
}
