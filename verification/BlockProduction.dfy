/** Block production: inverting the leader schedule, choosing the slot window, and
    merging the window's slots with the list of confirmed blocks. */
module BlockProduction {
  import opened Prelude
  import opened Tally

  // ----------------------------------------------------------------------
  // Inverting the leader schedule

  /** One leader with the slots it leads.  A schedule is a map in the source; here it
      is the list of its entries in the order in which it happens to be iterated. */
  datatype Duty = Duty(leader: string, slots: seq<nat>)

  const UNKNOWN := "?"

  /** The leader written last for a slot. */
  function LastLeader(schedule: seq<Duty>, slot: nat): Option<string> {
    if schedule == [] then None
    else
      var last := schedule[|schedule| - 1];
      if slot in last.slots then Some(last.leader) else LastLeader(schedule[..|schedule| - 1], slot)
  }

  function NameOf(leader: Option<string>): string { if leader.Some? then leader.value else UNKNOWN }

  /** The schedule up to an entry, and the first `j` slots of that entry. */
  ghost function Upto(schedule: seq<Duty>, k: nat, j: nat): seq<Duty>
    requires k < |schedule| && j <= |schedule[k].slots|
  {
    schedule[..k] + [Duty(schedule[k].leader, schedule[k].slots[..j])]
  }

  lemma {:induction false} UptoBegins(schedule: seq<Duty>, k: nat, slot: nat)
    requires k < |schedule|
    ensures LastLeader(Upto(schedule, k, 0), slot) == LastLeader(schedule[..k], slot)
    ensures LastLeader(Upto(schedule, k, |schedule[k].slots|), slot) == LastLeader(schedule[..k + 1], slot)
  {
    var slots := schedule[k].slots;
    assert slots[..|slots|] == slots;
    assert Upto(schedule, k, 0)[..k] == schedule[..k];
    assert Upto(schedule, k, |schedule[k].slots|) == schedule[..k + 1];
  }

  lemma {:induction false} UptoStep(schedule: seq<Duty>, k: nat, j: nat, slot: nat)
    requires k < |schedule| && j < |schedule[k].slots|
    ensures LastLeader(Upto(schedule, k, j + 1), slot) ==
              if slot == schedule[k].slots[j] then Some(schedule[k].leader) else LastLeader(Upto(schedule, k, j), slot)
  {
    var slots := schedule[k].slots;
    assert slots[..j + 1] == slots[..j] + [slots[j]];
    assert Upto(schedule, k, j + 1)[..k] == schedule[..k] == Upto(schedule, k, j)[..k];
  }

  /** The list names a leader for every slot below its length, `?` where there is none,
      and is no longer than the last scheduled slot demands. */
  ghost predicate Inverts(leaders: seq<string>, schedule: seq<Duty>) {
    && (forall i :: 0 <= i < |leaders| ==> leaders[i] == NameOf(LastLeader(schedule, i)))
    && (forall i :: |leaders| <= i ==> LastLeader(schedule, i).None?)
    && (leaders != [] ==> LastLeader(schedule, |leaders| - 1).Some?)
  }

  lemma {:induction false} EntryBegins(leaders: seq<string>, schedule: seq<Duty>, k: nat)
    requires k < |schedule| && Inverts(leaders, schedule[..k])
    ensures Inverts(leaders, Upto(schedule, k, 0))
  {
    var now := Upto(schedule, k, 0);
    forall i: nat ensures LastLeader(now, i) == LastLeader(schedule[..k], i) {
      UptoBegins(schedule, k, i);
    }
  }

  lemma {:induction false} Enter(before: seq<string>, after: seq<string>, schedule: seq<Duty>, k: nat, j: nat)
    requires k < |schedule| && j < |schedule[k].slots| && Inverts(before, Upto(schedule, k, j))
    requires
      var slot := schedule[k].slots[j];
      && |after| == Max(|before|, slot + 1)
      && forall i :: 0 <= i < |after| ==>
           after[i] == if i == slot then schedule[k].leader else if i < |before| then before[i] else UNKNOWN
    ensures Inverts(after, Upto(schedule, k, j + 1))
  {
    var earlier, now := Upto(schedule, k, j), Upto(schedule, k, j + 1);
    forall i | 0 <= i < |after| ensures after[i] == NameOf(LastLeader(now, i)) {
      UptoStep(schedule, k, j, i);
      assert i < |before| ==> before[i] == NameOf(LastLeader(earlier, i));
    }
    forall i | |after| <= i ensures LastLeader(now, i).None? {
      UptoStep(schedule, k, j, i);
    }
    UptoStep(schedule, k, j, |after| - 1);
  }

  /** The growing form: the list is resized as later slots turn up. */
  method InvertGrowing(schedule: seq<Duty>) returns (leaders: seq<string>)
    ensures Inverts(leaders, schedule)
  {
    leaders := [];
    for k := 0 to |schedule|
      invariant Inverts(leaders, schedule[..k])
    {
      var duty := schedule[k];
      EntryBegins(leaders, schedule, k);
      for j := 0 to |duty.slots|
        invariant Inverts(leaders, Upto(schedule, k, j))
      {
        var slot := duty.slots[j];
        ghost var before := leaders;
        if slot >= |leaders| {
          leaders := leaders + seq(slot + 1 - |leaders|, _ => UNKNOWN);
        }
        leaders := leaders[slot := duty.leader];
        Enter(before, leaders, schedule, k, j);
      }
      assert duty.slots[..|duty.slots|] == duty.slots;
      assert Upto(schedule, k, |duty.slots|) == schedule[..k + 1];
    }
    assert schedule[..|schedule|] == schedule;
  }

  /** The windowed form: only slots of the window are entered. */
  method InvertWindow(schedule: seq<Duty>, start: nat, end: nat) returns (leaders: seq<string>)
    requires start <= end
    ensures |leaders| == end - start + 1
    ensures forall i :: 0 <= i < |leaders| ==> leaders[i] == NameOf(LastLeader(schedule, start + i))
  {
    leaders := seq(end - start + 1, _ => UNKNOWN);
    for k := 0 to |schedule|
      invariant |leaders| == end - start + 1
      invariant forall i :: 0 <= i < |leaders| ==> leaders[i] == NameOf(LastLeader(schedule[..k], start + i))
    {
      var duty := schedule[k];
      forall slot: nat { UptoBegins(schedule, k, slot); }
      for j := 0 to |duty.slots|
        invariant |leaders| == end - start + 1
        invariant forall i :: 0 <= i < |leaders| ==> leaders[i] == NameOf(LastLeader(Upto(schedule, k, j), start + i))
      {
        var slot := duty.slots[j];
        forall other: nat { UptoStep(schedule, k, j, other); }
        if start <= slot <= end {
          leaders := leaders[slot - start := duty.leader];
        }
      }
    }
    assert schedule[..|schedule|] == schedule;
  }

  ghost predicate Disjoint(schedule: seq<Duty>) {
    forall a, b, slot :: 0 <= a < b < |schedule| && slot in schedule[a].slots ==> slot !in schedule[b].slots
  }

  /** With disjoint slot lists the leader of a slot is the one whose list holds it. */
  lemma {:induction false} LeaderOfSlot(schedule: seq<Duty>, slot: nat, leader: string)
    requires Disjoint(schedule)
    ensures LastLeader(schedule, slot) == Some(leader) <==>
              exists d :: d in schedule && slot in d.slots && d.leader == leader
  {
    if schedule != [] {
      var front, last := schedule[..|schedule| - 1], schedule[|schedule| - 1];
      LeaderOfSlot(front, slot, leader);
      assert last in schedule;
      assert forall d :: d in schedule <==> d in front || d == last;
      if slot in last.slots {
        assert forall d :: d in front ==> slot !in d.slots;
      }
    }
  }

  /** So the inversion does not depend on the order in which the map is iterated. */
  lemma {:induction false} IterationOrderIrrelevant(a: seq<Duty>, b: seq<Duty>, slot: nat)
    requires Disjoint(a) && Disjoint(b) && forall d :: d in a <==> d in b
    ensures LastLeader(a, slot) == LastLeader(b, slot)
  {
    if LastLeader(a, slot).Some? {
      LeaderOfSlot(a, slot, LastLeader(a, slot).value);
      LeaderOfSlot(b, slot, LastLeader(a, slot).value);
    } else if LastLeader(b, slot).Some? {
      LeaderOfSlot(a, slot, LastLeader(b, slot).value);
      LeaderOfSlot(b, slot, LastLeader(b, slot).value);
    }
  }

  // ----------------------------------------------------------------------
  // The slot window

  datatype Epochs = Epochs(first: nat -> nat, last: nat -> nat)

  ghost predicate Monotone(epochs: Epochs) {
    forall e: nat :: epochs.first(e) <= epochs.last(e) < epochs.first(e + 1)
  }

  lemma {:induction false} FirstGrows(epochs: Epochs, a: nat, b: nat)
    requires Monotone(epochs) && a <= b
    ensures epochs.first(a) <= epochs.first(b)
    decreases b - a
  {
    if a < b {
      FirstGrows(epochs, a + 1, b);
      assert epochs.first(a) <= epochs.last(a) < epochs.first(a + 1);
    }
  }

  datatype Window = Window(first: nat, start: nat, end: nat)

  /** The window before the ledger is consulted; `None` for an epoch in the future. */
  function ChooseWindow(epochs: Epochs, currentEpoch: nat, currentSlot: nat, epoch: Option<nat>, limit: Option<nat>)
    : Option<Window>
  {
    var chosen := if epoch.Some? then epoch.value else currentEpoch;
    if currentEpoch < chosen then None
    else
      var first := epochs.first(chosen);
      var end: nat := Min(currentSlot, epochs.last(chosen));
      var start: nat := if limit.Some? then Max(SatSub(end, limit.value), first) else first;
      Some(Window(first, start, end))
  }

  /** The slow path starts no earlier than the ledger; `None` if it starts too late. */
  function SlowWindow(window: Window, minimumLedgerSlot: nat): Option<Window> {
    if window.end < minimumLedgerSlot then None
    else Some(window.(start := Max(window.start, minimumLedgerSlot)))
  }

  function TotalSlots(window: Window): nat {
    SatSub(SatSub(window.end, window.first), SatSub(window.start, window.first)) + 1
  }

  /** Both paths keep first <= start <= end, so that no subtraction saturates and the
      window has end - start + 1 slots; a limit of n leaves at most n + 1 of them. */
  lemma {:induction false} WindowIsOrdered(epochs: Epochs, currentEpoch: nat, currentSlot: nat, epoch: Option<nat>,
                                           limit: Option<nat>, minimumLedgerSlot: nat)
    requires Monotone(epochs) && epochs.first(currentEpoch) <= currentSlot <= epochs.last(currentEpoch)
    requires ChooseWindow(epochs, currentEpoch, currentSlot, epoch, limit).Some?
    ensures
      var w := ChooseWindow(epochs, currentEpoch, currentSlot, epoch, limit).value;
      var slow := SlowWindow(w, minimumLedgerSlot);
      && w.first <= w.start <= w.end && TotalSlots(w) == w.end - w.start + 1
      && (limit.Some? ==> TotalSlots(w) == Min(limit.value + 1, w.end - w.first + 1))
      && (slow.Some? <==> minimumLedgerSlot <= w.end)
      && (slow.Some? ==>
            && w.first <= slow.value.start <= slow.value.end == w.end
            && TotalSlots(slow.value) == w.end - slow.value.start + 1)
  {
    var chosen := if epoch.Some? then epoch.value else currentEpoch;
    FirstGrows(epochs, chosen, currentEpoch);
    assert epochs.first(chosen) <= epochs.last(chosen);
  }

  /** The slots a report is asked for: those of the epoch that have come, with a limit of
      n only those within n of the last of them. */
  ghost predicate Asked(epochs: Epochs, epoch: nat, currentSlot: nat, limit: Option<nat>, slot: nat) {
    && Come(epochs, epoch, currentSlot, slot)
    && (limit.Some? ==> forall other: nat :: Come(epochs, epoch, currentSlot, other) ==> other <= slot + limit.value)
  }

  ghost predicate Come(epochs: Epochs, epoch: nat, currentSlot: nat, slot: nat) {
    epochs.first(epoch) <= slot <= epochs.last(epoch) && slot <= currentSlot
  }

  /** The window holds exactly the slots asked for, of the asked epoch or else the current
      one; a future epoch has none.  The slow window holds those the ledger has. */
  lemma {:induction false} WindowHolds(epochs: Epochs, currentEpoch: nat, currentSlot: nat, epoch: Option<nat>,
                                       limit: Option<nat>, minimumLedgerSlot: nat, slot: nat)
    requires Monotone(epochs) && epochs.first(currentEpoch) <= currentSlot <= epochs.last(currentEpoch)
    ensures
      var asked := if epoch.Some? then epoch.value else currentEpoch;
      var w := ChooseWindow(epochs, currentEpoch, currentSlot, epoch, limit);
      && (w.None? <==> currentEpoch < asked)
      && (w.Some? ==>
            && w.value.first == epochs.first(asked)
            && (w.value.start <= slot <= w.value.end <==> Asked(epochs, asked, currentSlot, limit, slot))
            && var slow := SlowWindow(w.value, minimumLedgerSlot);
               && (slow.Some? ==> slow.value.first == epochs.first(asked))
               && (slow.Some? && slow.value.start <= slot <= slow.value.end <==>
                     Asked(epochs, asked, currentSlot, limit, slot) && minimumLedgerSlot <= slot))
  {
    var asked := if epoch.Some? then epoch.value else currentEpoch;
    var w := ChooseWindow(epochs, currentEpoch, currentSlot, epoch, limit);
    if w.Some? {
      FirstGrows(epochs, asked, currentEpoch);
      assert epochs.first(asked) <= epochs.last(asked);
      assert Come(epochs, asked, currentSlot, w.value.end);
      assert forall other: nat :: Come(epochs, asked, currentSlot, other) ==> other <= w.value.end;
    }
  }

  /** The slots asked for that the ledger has. */
  ghost function AskedFrom(epochs: Epochs, epoch: nat, currentSlot: nat, limit: Option<nat>, minimum: nat): set<nat> {
    set slot: nat | slot <= currentSlot && Asked(epochs, epoch, currentSlot, limit, slot) && minimum <= slot
  }

  /** `n` slots from `start` on. */
  ghost function Slots(start: nat, n: nat): (slots: set<nat>)
    ensures forall slot :: slot in slots <==> start <= slot < start + n
    ensures |slots| == n
  {
    if n == 0 then {} else Slots(start, n - 1) + {start + n - 1}
  }

  // ----------------------------------------------------------------------
  // Confirmed blocks

  ghost predicate Sorted(slots: seq<nat>) {
    forall i, j :: 0 <= i < j < |slots| ==> slots[i] <= slots[j]
  }

  ghost predicate StrictlyWithin(slots: seq<nat>, start: nat, end: nat) {
    && (forall i, j :: 0 <= i < j < |slots| ==> slots[i] < slots[j])
    && (forall i :: 0 <= i < |slots| ==> start <= slots[i] <= end)
  }

  /** The fast path: the slots of the window that the slot history has. */
  method ConfirmedFromHistory(found: nat -> bool, start: nat, end: nat) returns (confirmed: seq<nat>)
    requires start <= end
    ensures StrictlyWithin(confirmed, start, end)
    ensures forall slot :: start <= slot <= end ==> (slot in confirmed <==> found(slot))
    ensures |confirmed| <= end - start + 1
  {
    confirmed := [];
    for slot := start to end + 1
      invariant forall i, j :: 0 <= i < j < |confirmed| ==> confirmed[i] < confirmed[j]
      invariant forall i :: 0 <= i < |confirmed| ==> start <= confirmed[i] < slot
      invariant forall s :: start <= s < slot ==> (s in confirmed <==> found(s))
      invariant |confirmed| <= slot - start
    {
      if found(slot) {
        confirmed := confirmed + [slot];
      }
    }
  }

  // ----------------------------------------------------------------------
  // The merge

  datatype SlotStatus = SlotStatus(slot: nat, leader: string, skipped: bool)

  /** Every slot of the window, as one slot of its leader. */
  function SlotEntries(leaders: seq<string>): (entries: seq<Entry<string>>)
    ensures |entries| == |leaders|
  {
    seq(|leaders|, i requires 0 <= i < |leaders| => Entry(leaders[i], 1))
  }

  /** Every slot of the window, weighing 1 if it has no confirmed block. */
  function SkipEntries(leaders: seq<string>, start: nat, confirmed: seq<nat>): (entries: seq<Entry<string>>)
    ensures |entries| == |leaders|
  {
    seq(|leaders|, i requires 0 <= i < |leaders| => Entry(leaders[i], if start + i in confirmed then 0 else 1))
  }

  /** The confirmed blocks whose slot the leader leads. */
  function BlocksLed(leaders: seq<string>, start: nat, confirmed: seq<nat>, leader: string): nat {
    if confirmed == [] then 0
    else
      var slot := confirmed[|confirmed| - 1];
      BlocksLed(leaders, start, confirmed[..|confirmed| - 1], leader)
      + (if start <= slot < start + |leaders| && leaders[slot - start] == leader then 1 else 0)
  }

  function Count(m: map<string, u64>, leader: string): u64 { if leader in m then m[leader] else 0 }

  ghost predicate Tallies(m: map<string, u64>, leaders: seq<string>, entries: seq<Entry<string>>) {
    && (forall leader :: leader in m <==> leader in leaders)
    && (forall leader :: Count(m, leader) == WeightOf(entries, leader))
  }

  lemma {:induction false} TallyNext(m: map<string, u64>, leaders: seq<string>, entries: seq<Entry<string>>, i: nat,
                                     count: u64)
    requires i < |leaders| == |entries| && Tallies(m, leaders[..i], entries[..i])
    requires entries[i].key == leaders[i] && count == Count(m, leaders[i]) + entries[i].weight
    ensures Tallies(m[leaders[i] := count], leaders[..i + 1], entries[..i + 1])
  {
    assert leaders[..i + 1] == leaders[..i] + [leaders[i]];
    assert entries[..i + 1][..i] == entries[..i];
    var m', entries' := m[leaders[i] := count], entries[..i + 1];
    forall leader ensures Count(m', leader) == WeightOf(entries', leader) {
      assert Count(m, leader) == WeightOf(entries[..i], leader);
    }
  }

  /** A leader has at most as many slots, and skips, as have been visited. */
  lemma {:induction false} WeightBelowLength(leaders: seq<string>, start: nat, confirmed: seq<nat>, i: nat,
                                             leader: string)
    requires i <= |leaders|
    ensures WeightOf(SlotEntries(leaders)[..i], leader) <= i
    ensures WeightOf(SkipEntries(leaders, start, confirmed)[..i], leader) <= i
  {
    if i != 0 {
      WeightBelowLength(leaders, start, confirmed, i - 1, leader);
      assert SlotEntries(leaders)[..i][..i - 1] == SlotEntries(leaders)[..i - 1];
      assert SkipEntries(leaders, start, confirmed)[..i][..i - 1] == SkipEntries(leaders, start, confirmed)[..i - 1];
    }
  }

  ghost predicate Statuses(status: seq<SlotStatus>, leaders: seq<string>, start: nat, confirmed: seq<nat>) {
    && |status| <= |leaders|
    && forall i :: 0 <= i < |status| ==> status[i] == SlotStatus(start + i, leaders[i], start + i !in confirmed)
  }

  ghost predicate AllBelow(slots: seq<nat>, index: nat, slot: nat) {
    index <= |slots| && forall j :: 0 <= j < index ==> slots[j] < slot
  }

  // What the merge sees of a list of slots in any order

  /** The slots that are larger than all before them. */
  function Records(slots: seq<nat>): seq<nat> {
    if slots == [] then []
    else
      var front, last := Records(slots[..|slots| - 1]), slots[|slots| - 1];
      if front == [] || front[|front| - 1] < last then front + [last] else front
  }

  ghost predicate IsRecord(slots: seq<nat>, slot: nat) {
    exists i :: 0 <= i < |slots| && slots[i] == slot && AllBelow(slots, i, slot)
  }

  lemma {:induction false} RecordsIncrease(slots: seq<nat>)
    ensures forall i, j :: 0 <= i < j < |Records(slots)| ==> Records(slots)[i] < Records(slots)[j]
    ensures slots != [] ==> Records(slots) != []
    ensures forall i :: 0 <= i < |slots| ==> slots[i] <= Records(slots)[|Records(slots)| - 1]
  {
    if slots != [] {
      RecordsIncrease(slots[..|slots| - 1]);
    }
  }

  lemma {:induction false} RecordOfMore(slots: seq<nat>, slot: nat)
    requires slots != []
    ensures
      var front, last := slots[..|slots| - 1], slots[|slots| - 1];
      IsRecord(slots, slot) <==> IsRecord(front, slot) || (slot == last && AllBelow(front, |front|, last))
  {
    var n := |slots| - 1;
    var front := slots[..n];
    if IsRecord(front, slot) {
      var i :| 0 <= i < n && front[i] == slot && AllBelow(front, i, slot);
      assert slots[i] == slot && AllBelow(slots, i, slot);
    } else if slot == slots[n] && AllBelow(front, n, slots[n]) {
      assert AllBelow(slots, n, slot);
    }
    if IsRecord(slots, slot) {
      var i :| 0 <= i < |slots| && slots[i] == slot && AllBelow(slots, i, slot);
      assert i < n ==> front[i] == slot && AllBelow(front, i, slot);
    }
  }

  lemma {:induction false} RecordsAre(slots: seq<nat>, slot: nat)
    ensures slot in Records(slots) <==> IsRecord(slots, slot)
  {
    if slots != [] {
      var front, last := slots[..|slots| - 1], slots[|slots| - 1];
      RecordsAre(front, slot);
      RecordOfMore(slots, slot);
      RecordsIncrease(front);
      var seen := Records(front);
      assert AllBelow(front, |front|, last) <==> seen == [] || seen[|seen| - 1] < last by {
        if Records(front) != [] {
          RecordsOccur(front);
        }
      }
    }
  }

  lemma {:induction false} RecordsOccur(slots: seq<nat>)
    ensures forall i :: 0 <= i < |Records(slots)| ==> Records(slots)[i] in slots
  {
    if slots != [] {
      var n := |slots| - 1;
      RecordsOccur(slots[..n]);
      assert slots == slots[..n] + [slots[n]];
    }
  }

  /** A confirmed slot is missed exactly if a larger one comes before it wherever it
      occurs; in a sorted list none is. */
  lemma {:induction false} MissedExactly(slots: seq<nat>, slot: nat)
    requires slot in slots
    ensures slot !in Records(slots) <==> exists j :: 0 <= j < |slots| && slot < slots[j] && slot !in slots[..j]
    ensures Sorted(slots) ==> slot in Records(slots)
  {
    RecordsAre(slots, slot);
    var i := FirstAt(slots, slot);
    if IsRecord(slots, slot) {
      var r :| 0 <= r < |slots| && slots[r] == slot && AllBelow(slots, r, slot);
      assert forall j :: r < j <= |slots| ==> slots[..j][r] == slot;
    } else {
      var j :| 0 <= j < i && slot <= slots[j];
      assert slot !in slots[..j];
    }
  }

  lemma {:induction false} FirstAt(slots: seq<nat>, slot: nat) returns (i: nat)
    requires slot in slots
    ensures i < |slots| && slots[i] == slot && slot !in slots[..i]
  {
    if slots[0] == slot {
      i := 0;
    } else {
      var j := FirstAt(slots[1..], slot);
      i := j + 1;
      assert slots[..i] == [slots[0]] + slots[1..][..j];
    }
  }

  /** For example, behind slot 5 slot 3 is missed. */
  lemma {:induction false} UnsortedMisses()
    ensures 3 in [5, 3] && 3 !in Records([5, 3])
  {
    assert [5, 3][0] == 5 && 3 !in [5, 3][..0];
    assert 3 in [5, 3] by { assert [5, 3][1] == 3; }
    MissedExactly([5, 3], 3);
  }

  /** A strictly increasing list is all records. */
  lemma {:induction false} AllRecords(slots: seq<nat>)
    requires forall i, j :: 0 <= i < j < |slots| ==> slots[i] < slots[j]
    ensures Records(slots) == slots
  {
    if slots != [] {
      AllRecords(slots[..|slots| - 1]);
    }
  }

  /** The two-index merge.  For any list of confirmed slots, in any order, a slot of the
      window is skipped exactly when it is not a record of the list, and the counters
      count it so. */
  method MergeSlots(leaders: seq<string>, start: nat, confirmed: seq<nat>)
    returns (status: seq<SlotStatus>, slotCount: map<string, u64>, skippedSlots: map<string, u64>)
    requires start + |leaders| <= U64_MAX
    ensures |status| == |leaders| && Statuses(status, leaders, start, Records(confirmed))
    ensures Tallies(slotCount, leaders, SlotEntries(leaders))
    ensures Tallies(skippedSlots, leaders, SkipEntries(leaders, start, Records(confirmed)))
  {
    status, slotCount, skippedSlots := [], map[], map[];
    var confirmedIndex := 0;
    ghost var seen := Records(confirmed);
    ghost var slots, skips := SlotEntries(leaders), SkipEntries(leaders, start, seen);
    for i := 0 to |leaders|
      invariant |status| == i && Statuses(status, leaders, start, seen)
      invariant AllBelow(confirmed, confirmedIndex, start + i)
      invariant Tallies(slotCount, leaders[..i], slots[..i])
      invariant Tallies(skippedSlots, leaders[..i], skips[..i])
    {
      var leader := leaders[i];
      var slot: nat := SatAdd(start, i);
      SlotTally(slotCount, leaders, start, seen, i);
      slotCount := slotCount[leader := SatAdd(Count(slotCount, leader), 1)];
      var skipped := Count(skippedSlots, leader);
      var found;
      confirmedIndex, found := Advance(confirmed, confirmedIndex, slot);
      SkipTally(skippedSlots, leaders, start, seen, i);
      if !found {
        skipped := SatAdd(skipped, 1);
      }
      StatusNext(status, leaders, start, seen);
      status := status + [SlotStatus(slot, leader, !found)];
      skippedSlots := skippedSlots[leader := skipped];
    }
    assert leaders[..|leaders|] == leaders && slots[..|leaders|] == slots && skips[..|leaders|] == skips;
  }

  lemma {:induction false} SlotTally(m: map<string, u64>, leaders: seq<string>, start: nat, seen: seq<nat>, i: nat)
    requires i < |leaders| <= U64_MAX && Tallies(m, leaders[..i], SlotEntries(leaders)[..i])
    ensures Tallies(m[leaders[i] := SatAdd(Count(m, leaders[i]), 1)], leaders[..i + 1], SlotEntries(leaders)[..i + 1])
  {
    WeightBelowLength(leaders, start, seen, i, leaders[i]);
    TallyNext(m, leaders, SlotEntries(leaders), i, SatAdd(Count(m, leaders[i]), 1));
  }

  lemma {:induction false} SkipTally(m: map<string, u64>, leaders: seq<string>, start: nat, seen: seq<nat>, i: nat)
    requires i < |leaders| <= U64_MAX && Tallies(m, leaders[..i], SkipEntries(leaders, start, seen)[..i])
    ensures
      var before := Count(m, leaders[i]);
      var count := if start + i in seen then before else SatAdd(before, 1);
      Tallies(m[leaders[i] := count], leaders[..i + 1], SkipEntries(leaders, start, seen)[..i + 1])
  {
    WeightBelowLength(leaders, start, seen, i, leaders[i]);
    var before := Count(m, leaders[i]);
    var count := if start + i in seen then before else SatAdd(before, 1);
    TallyNext(m, leaders, SkipEntries(leaders, start, seen), i, count);
  }

  lemma {:induction false} StatusNext(status: seq<SlotStatus>, leaders: seq<string>, start: nat, seen: seq<nat>)
    requires Statuses(status, leaders, start, seen) && |status| < |leaders|
    ensures
      var i := |status|;
      Statuses(status + [SlotStatus(start + i, leaders[i], start + i !in seen)], leaders, start, seen)
  {
  }

  /** The inner loop: earlier blocks are passed over, and the next is in the slot or not. */
  method Advance(confirmed: seq<nat>, from: nat, slot: nat) returns (index: nat, found: bool)
    requires AllBelow(confirmed, from, slot)
    ensures AllBelow(confirmed, index, slot) && (found <==> slot in Records(confirmed))
  {
    index := from;
    while index < |confirmed| && confirmed[index] < slot
      invariant AllBelow(confirmed, index, slot)
    {
      index := index + 1;
    }
    found := index < |confirmed| && confirmed[index] == slot;
    FoundAtIndex(confirmed, index, slot);
  }

  lemma {:induction false} FoundAtIndex(confirmed: seq<nat>, index: nat, slot: nat)
    requires AllBelow(confirmed, index, slot)
    requires index < |confirmed| ==> slot <= confirmed[index]
    ensures slot in Records(confirmed) <==> index < |confirmed| && confirmed[index] == slot
  {
    RecordsAre(confirmed, slot);
    if IsRecord(confirmed, slot) {
      var i :| 0 <= i < |confirmed| && confirmed[i] == slot && AllBelow(confirmed, i, slot);
      assert i == index;
    }
  }

  /** There are never more confirmed blocks than slots in the window. */
  lemma {:induction false} NoMoreBlocksThanSlots(confirmed: seq<nat>, start: nat, end: nat)
    requires StrictlyWithin(confirmed, start, end)
    ensures confirmed != [] ==> |confirmed| <= end - start + 1
  {
    if 2 <= |confirmed| {
      var m := |confirmed| - 1;
      assert confirmed[m - 1] < confirmed[m];
      NoMoreBlocksThanSlots(confirmed[..m], start, confirmed[m] - 1);
    } else if |confirmed| == 1 {
      assert start <= confirmed[0] <= end;
    }
  }

  /** The confirmed slots before the last slot of the window. */
  ghost function Before(confirmed: seq<nat>, slot: nat): seq<nat> {
    if slot in confirmed && confirmed[|confirmed| - 1] == slot then confirmed[..|confirmed| - 1] else confirmed
  }

  lemma {:induction false} BeforeKeeps(confirmed: seq<nat>, last: nat, slot: nat)
    requires slot < last
    ensures slot in confirmed <==> slot in Before(confirmed, last)
  {
    if slot in confirmed {
      var j :| 0 <= j < |confirmed| && confirmed[j] == slot;
      assert Before(confirmed, last)[j] == slot;
    }
  }

  lemma {:induction false} BeforeLast(leaders: seq<string>, start: nat, confirmed: seq<nat>)
    requires leaders != [] && StrictlyWithin(confirmed, start, start + |leaders| - 1)
    ensures
      var n := |leaders| - 1;
      var before := Before(confirmed, start + n);
      && (n == 0 ==> before == []) && (n != 0 ==> StrictlyWithin(before, start, start + n - 1))
      && (start + n in confirmed <==> |before| + 1 == |confirmed|)
      && (start + n !in confirmed <==> before == confirmed)
      && (forall slot :: start <= slot < start + n ==> (slot in confirmed <==> slot in before))
  {
    var n := |leaders| - 1;
    NoMoreBlocksThanSlots(confirmed, start, start + n);
    if start + n in confirmed {
      var j :| 0 <= j < |confirmed| && confirmed[j] == start + n;
      assert confirmed[|confirmed| - 1] <= start + n;
    }
    forall slot | start <= slot < start + n
      ensures slot in confirmed <==> slot in Before(confirmed, start + n)
    {
      BeforeKeeps(confirmed, start + n, slot);
    }
  }

  /** All slots but the last of the window, and what the last one adds. */
  lemma {:induction false} FrontEntries(leaders: seq<string>, start: nat, confirmed: seq<nat>)
    requires leaders != [] && StrictlyWithin(confirmed, start, start + |leaders| - 1)
    ensures
      var n := |leaders| - 1;
      var before := Before(confirmed, start + n);
      && SlotEntries(leaders)[..n] == SlotEntries(leaders[..n])
      && SkipEntries(leaders, start, confirmed)[..n] == SkipEntries(leaders[..n], start, before)
  {
    BeforeLast(leaders, start, confirmed);
  }

  /** Slots led, slots skipped and blocks produced balance in all. */
  lemma {:induction false} SkipsComplement(leaders: seq<string>, start: nat, confirmed: seq<nat>)
    requires if leaders == [] then confirmed == [] else StrictlyWithin(confirmed, start, start + |leaders| - 1)
    ensures Total(SlotEntries(leaders)) == |leaders|
    ensures Total(SkipEntries(leaders, start, confirmed)) + |confirmed| == |leaders|
    decreases |leaders|
  {
    if leaders != [] {
      BeforeLast(leaders, start, confirmed);
      LastTotals(leaders, start, confirmed);
      SkipsComplement(leaders[..|leaders| - 1], start, Before(confirmed, start + |leaders| - 1));
    }
  }

  lemma {:induction false} LastTotals(leaders: seq<string>, start: nat, confirmed: seq<nat>)
    requires leaders != [] && StrictlyWithin(confirmed, start, start + |leaders| - 1)
    ensures
      var n := |leaders| - 1;
      && Total(SlotEntries(leaders)) == Total(SlotEntries(leaders[..n])) + 1
      && Total(SkipEntries(leaders, start, confirmed)) ==
           Total(SkipEntries(leaders[..n], start, Before(confirmed, start + n)))
           + (if start + n in confirmed then 0 else 1)
  {
    FrontEntries(leaders, start, confirmed);
  }

  lemma {:induction false} EarlierBlocks(leaders: seq<string>, start: nat, confirmed: seq<nat>, leader: string, n: nat)
    requires n <= |leaders| && forall i :: 0 <= i < |confirmed| ==> start <= confirmed[i] < start + n
    ensures BlocksLed(leaders[..n], start, confirmed, leader) == BlocksLed(leaders, start, confirmed, leader)
  {
    if confirmed != [] {
      EarlierBlocks(leaders, start, confirmed[..|confirmed| - 1], leader, n);
    }
  }

  lemma {:induction false} LastSlot(leaders: seq<string>, start: nat, confirmed: seq<nat>, leader: string)
    requires leaders != [] && StrictlyWithin(confirmed, start, start + |leaders| - 1)
    ensures
      var n := |leaders| - 1;
      var before := Before(confirmed, start + n);
      && WeightOf(SlotEntries(leaders), leader) ==
           WeightOf(SlotEntries(leaders[..n]), leader) + (if leaders[n] == leader then 1 else 0)
      && WeightOf(SkipEntries(leaders, start, confirmed), leader) ==
           WeightOf(SkipEntries(leaders[..n], start, before), leader)
           + (if leaders[n] == leader && start + n !in confirmed then 1 else 0)
  {
    FrontEntries(leaders, start, confirmed);
  }

  lemma {:induction false} LastBlock(leaders: seq<string>, start: nat, confirmed: seq<nat>, leader: string)
    requires leaders != [] && StrictlyWithin(confirmed, start, start + |leaders| - 1)
    ensures
      var n := |leaders| - 1;
      BlocksLed(leaders, start, confirmed, leader) ==
        BlocksLed(leaders[..n], start, Before(confirmed, start + n), leader)
        + (if leaders[n] == leader && start + n in confirmed then 1 else 0)
  {
    var n := |leaders| - 1;
    BeforeLast(leaders, start, confirmed);
    EarlierBlocks(leaders, start, Before(confirmed, start + n), leader, n);
  }

  /** Slots led, slots skipped and blocks produced balance for each leader. */
  lemma {:induction false} SlotsBalance(leaders: seq<string>, start: nat, confirmed: seq<nat>, leader: string)
    requires if leaders == [] then confirmed == [] else StrictlyWithin(confirmed, start, start + |leaders| - 1)
    ensures WeightOf(SlotEntries(leaders), leader) ==
              WeightOf(SkipEntries(leaders, start, confirmed), leader) + BlocksLed(leaders, start, confirmed, leader)
    decreases |leaders|
  {
    if leaders != [] {
      BeforeLast(leaders, start, confirmed);
      LastSlot(leaders, start, confirmed, leader);
      LastBlock(leaders, start, confirmed, leader);
      SlotsBalance(leaders[..|leaders| - 1], start, Before(confirmed, start + |leaders| - 1), leader);
    }
  }

  ghost function Counts(m: map<string, u64>): map<string, nat> { map leader | leader in m :: m[leader] }

  lemma {:induction false} TalliesAddUp(m: map<string, u64>, leaders: seq<string>, entries: seq<Entry<string>>)
    requires Tallies(m, leaders, entries) && |entries| == |leaders|
    requires forall i :: 0 <= i < |leaders| ==> entries[i].key == leaders[i]
    ensures Sum(Counts(m)) == Total(entries)
  {
    assert forall leader :: leader in m ==> Count(m, leader) == WeightOf(entries, leader);
    assert Counts(m) == WeightMap(m.Keys, entries);
    forall e | e in entries ensures e.key in m {
      var i :| 0 <= i < |entries| && entries[i] == e;
      assert leaders[i] in leaders;
    }
    GroupsConserve(m.Keys, entries);
  }

  /** The report adds up: slots to the size of the window, skips to the slots without a
      block, and each leader's produced count to the confirmed blocks in its slots. */
  lemma {:induction false} ReportAddsUp(leaders: seq<string>, start: nat, confirmed: seq<nat>,
                     slotCount: map<string, u64>, skippedSlots: map<string, u64>, leader: string)
    requires leaders != [] && StrictlyWithin(confirmed, start, start + |leaders| - 1)
    requires Tallies(slotCount, leaders, SlotEntries(leaders))
    requires Tallies(skippedSlots, leaders, SkipEntries(leaders, start, confirmed))
    ensures Sum(Counts(slotCount)) == |leaders|
    ensures Sum(Counts(skippedSlots)) == |leaders| - |confirmed|
    ensures SatSub(Count(slotCount, leader), Count(skippedSlots, leader)) ==
              BlocksLed(leaders, start, confirmed, leader)
  {
    SlotsBalance(leaders, start, confirmed, leader);
    SkipsComplement(leaders, start, confirmed);
    TalliesAddUp(slotCount, leaders, SlotEntries(leaders));
    TalliesAddUp(skippedSlots, leaders, SkipEntries(leaders, start, confirmed));
    assert Count(slotCount, leader) == WeightOf(SlotEntries(leaders), leader);
    assert Count(skippedSlots, leader) == WeightOf(SkipEntries(leaders, start, confirmed), leader);
  }

  // ----------------------------------------------------------------------
  // The whole report

  datatype Report = Report(
    window: Window,
    confirmed: seq<nat>,
    blocksProduced: nat,
    slotsSkipped: nat,
    status: seq<SlotStatus>,
    slotCount: map<string, u64>,
    skippedSlots: map<string, u64>)

  /** What the cluster knows: the slot history with the range it covers, the first slot
      of the ledger, and what the ledger answers for the blocks of the window. */
  datatype Cluster = Cluster(oldest: nat, newest: nat, found: nat -> bool, minimumLedgerSlot: nat, blocks: seq<nat>)

  predicate FastPath(w: Window, cluster: Cluster) { cluster.oldest <= w.start && w.end <= cluster.newest }

  /** The leader of an absolute slot; schedules count from the first slot of the epoch. */
  function LeaderAt(schedule: seq<Duty>, first: nat, slot: nat): string
    requires first <= slot
  {
    NameOf(LastLeader(schedule, slot - first))
  }

  /** Line by line: every slot of the window once, with its leader, skipped exactly if
      the merge does not see a block in it. */
  ghost predicate LinesRight(r: Report, schedule: seq<Duty>) {
    && r.window.first <= r.window.start <= r.window.end
    && |r.status| == r.window.end - r.window.start + 1
    && forall slot :: r.window.start <= slot <= r.window.end ==>
         r.status[slot - r.window.start] ==
           SlotStatus(slot, LeaderAt(schedule, r.window.first, slot), slot !in Records(r.confirmed))
  }

  ghost function WindowLeaders(r: Report): seq<string> {
    seq(|r.status|, i requires 0 <= i < |r.status| => r.status[i].leader)
  }

  /** In sum: the slot counts make up the window, the skip counts the slots without a
      block, and each leader's difference is the number of confirmed slots it leads. */
  ghost predicate SumsRight(r: Report) {
    && r.blocksProduced == |r.confirmed| && r.slotsSkipped == |r.status| - |r.confirmed|
    && Sum(Counts(r.slotCount)) == |r.status| && Sum(Counts(r.skippedSlots)) == r.slotsSkipped
    && forall leader ::
         SatSub(Count(r.slotCount, leader), Count(r.skippedSlots, leader)) ==
           BlocksLed(WindowLeaders(r), r.window.start, r.confirmed, leader)
  }

  ghost predicate WindowIs(w: Window, slots: set<nat>) {
    forall slot: nat :: w.start <= slot <= w.end <==> slot in slots
  }

  /** The report for the asked epoch or else the current one: `None` for an epoch in the
      future, a window before the ledger, or more blocks than slots.  Its window is exactly
      the slots asked for, on the slow path those of them that the ledger has.  The lines
      are right whatever the ledger answered, and the sums whenever it answered with
      increasing slots of the window, as the slot history always does. */
  method ShowBlockProduction(epochs: Epochs, currentEpoch: nat, currentSlot: nat, epoch: Option<nat>,
                             limit: Option<nat>, cluster: Cluster, schedule: seq<Duty>) returns (r: Option<Report>)
    requires Monotone(epochs) && epochs.first(currentEpoch) <= currentSlot <= epochs.last(currentEpoch)
    requires currentSlot < U64_MAX
    ensures
      var asked := if epoch.Some? then epoch.value else currentEpoch;
      var slots := AskedFrom(epochs, asked, currentSlot, limit, 0);
      var ledger := AskedFrom(epochs, asked, currentSlot, limit, cluster.minimumLedgerSlot);
      if currentEpoch < asked then r.None?
      else if forall slot :: slot in slots ==> cluster.oldest <= slot <= cluster.newest then
        && r.Some? && r.value.window.first == epochs.first(asked) && WindowIs(r.value.window, slots)
        && SumsRight(r.value)
        && forall slot :: slot in slots ==> (slot in Records(r.value.confirmed) <==> cluster.found(slot))
      else
        && (r.Some? <==> ledger != {} && |cluster.blocks| <= |ledger|)
        && (r.Some? ==>
              && r.value.window.first == epochs.first(asked) && WindowIs(r.value.window, ledger)
              && r.value.confirmed == cluster.blocks)
    ensures r.Some? ==> LinesRight(r.value, schedule)
    ensures r.Some? && StrictlyWithin(r.value.confirmed, r.value.window.start, r.value.window.end) ==>
              SumsRight(r.value)
  {
    var chosen := ChooseWindow(epochs, currentEpoch, currentSlot, epoch, limit);
    WindowsAre(epochs, currentEpoch, currentSlot, epoch, limit, cluster);
    if chosen.None? { return None; }
    WindowIsOrdered(epochs, currentEpoch, currentSlot, epoch, limit, cluster.minimumLedgerSlot);
    var w, confirmed := chosen.value, cluster.blocks;
    if FastPath(w, cluster) {
      confirmed := ConfirmedFromHistory(cluster.found, w.start, w.end);
      AllRecords(confirmed);
    } else {
      var slow := SlowWindow(w, cluster.minimumLedgerSlot);
      if slow.None? { return None; }
      w := slow.value;
    }
    if TotalSlots(w) < |confirmed| { return None; }
    var report := ReportWindow(w, confirmed, schedule);
    r := Some(report);
  }

  lemma {:induction false} FastIsAsked(w: Window, slots: set<nat>, cluster: Cluster)
    requires w.start <= w.end && WindowIs(w, slots)
    ensures FastPath(w, cluster) <==> forall slot :: slot in slots ==> cluster.oldest <= slot <= cluster.newest
  {
    assert w.start in slots && w.end in slots;
  }

  lemma {:induction false} WindowCount(w: Window, slots: set<nat>)
    requires w.first <= w.start <= w.end && WindowIs(w, slots)
    ensures slots != {} && TotalSlots(w) == |slots|
  {
    assert w.start in slots;
    assert slots == Slots(w.start, w.end - w.start + 1);
  }

  /** The chosen and the slow window against the sets of slots asked for. */
  lemma {:induction false} WindowsAre(epochs: Epochs, currentEpoch: nat, currentSlot: nat, epoch: Option<nat>,
                                      limit: Option<nat>, cluster: Cluster)
    requires Monotone(epochs) && epochs.first(currentEpoch) <= currentSlot <= epochs.last(currentEpoch)
    ensures
      var asked := if epoch.Some? then epoch.value else currentEpoch;
      var slots := AskedFrom(epochs, asked, currentSlot, limit, 0);
      var ledger := AskedFrom(epochs, asked, currentSlot, limit, cluster.minimumLedgerSlot);
      var w := ChooseWindow(epochs, currentEpoch, currentSlot, epoch, limit);
      && (w.None? <==> currentEpoch < asked)
      && (w.Some? ==>
            && w.value.first == epochs.first(asked) && WindowIs(w.value, slots)
            && (FastPath(w.value, cluster) <==>
                  forall slot :: slot in slots ==> cluster.oldest <= slot <= cluster.newest)
            && var slow := SlowWindow(w.value, cluster.minimumLedgerSlot);
               && (slow.Some? <==> ledger != {})
               && (slow.Some? ==>
                     && slow.value.first == epochs.first(asked) && WindowIs(slow.value, ledger)
                     && TotalSlots(slow.value) == |ledger|))
  {
    var asked := if epoch.Some? then epoch.value else currentEpoch;
    var minimum := cluster.minimumLedgerSlot;
    var slots := AskedFrom(epochs, asked, currentSlot, limit, 0);
    var ledger := AskedFrom(epochs, asked, currentSlot, limit, minimum);
    WindowHolds(epochs, currentEpoch, currentSlot, epoch, limit, minimum, 0);
    if currentEpoch >= asked {
      var w := ChooseWindow(epochs, currentEpoch, currentSlot, epoch, limit).value;
      var slow := SlowWindow(w, minimum);
      WindowIsOrdered(epochs, currentEpoch, currentSlot, epoch, limit, minimum);
      forall slot: nat
        ensures w.start <= slot <= w.end <==> slot in slots
        ensures slot in ledger <==> slow.Some? && slow.value.start <= slot <= slow.value.end
      {
        WindowHolds(epochs, currentEpoch, currentSlot, epoch, limit, minimum, slot);
      }
      FastIsAsked(w, slots, cluster);
      if slow.Some? {
        WindowCount(slow.value, ledger);
      }
    }
  }

  method ReportWindow(w: Window, confirmed: seq<nat>, schedule: seq<Duty>) returns (r: Report)
    requires w.first <= w.start <= w.end < U64_MAX
    ensures r.window == w && r.confirmed == confirmed && LinesRight(r, schedule)
    ensures StrictlyWithin(confirmed, w.start, w.end) ==> SumsRight(r)
  {
    var startIndex, endIndex := SatSub(w.start, w.first), SatSub(w.end, w.first);
    var leaders := InvertWindow(schedule, startIndex, endIndex);
    var status, slotCount, skippedSlots := MergeSlots(leaders, w.start, confirmed);
    r := Report(w, confirmed, |confirmed|, SatSub(TotalSlots(w), |confirmed|), status, slotCount, skippedSlots);
    LinesAreRight(r, leaders, schedule);
    if StrictlyWithin(confirmed, w.start, w.end) {
      SumsAreRight(r, leaders);
    }
  }

  lemma {:induction false} LinesAreRight(r: Report, leaders: seq<string>, schedule: seq<Duty>)
    requires r.window.first <= r.window.start && r.window.end + 1 == r.window.start + |leaders| && leaders != []
    requires |r.status| == |leaders| && Statuses(r.status, leaders, r.window.start, Records(r.confirmed))
    requires forall i :: 0 <= i < |leaders| ==>
               leaders[i] == NameOf(LastLeader(schedule, r.window.start - r.window.first + i))
    ensures LinesRight(r, schedule)
  {
    var start, seen := r.window.start, Records(r.confirmed);
    forall slot | start <= slot <= r.window.end
      ensures r.status[slot - start] == SlotStatus(slot, LeaderAt(schedule, r.window.first, slot), slot !in seen)
    {
      var i := slot - start;
      assert leaders[i] == NameOf(LastLeader(schedule, start - r.window.first + i));
    }
  }

  lemma {:induction false} SumsAreRight(r: Report, leaders: seq<string>)
    requires leaders != [] && |r.status| == |leaders|
    requires Statuses(r.status, leaders, r.window.start, Records(r.confirmed))
    requires r.window.first <= r.window.start && r.window.end + 1 == r.window.start + |leaders|
    requires StrictlyWithin(r.confirmed, r.window.start, r.window.end)
    requires Tallies(r.slotCount, leaders, SlotEntries(leaders))
    requires Tallies(r.skippedSlots, leaders, SkipEntries(leaders, r.window.start, Records(r.confirmed)))
    requires r.blocksProduced == |r.confirmed| && r.slotsSkipped == SatSub(TotalSlots(r.window), |r.confirmed|)
    ensures SumsRight(r)
  {
    var start := r.window.start;
    var confirmed, slotCount, skippedSlots := r.confirmed, r.slotCount, r.skippedSlots;
    AllRecords(confirmed);
    assert WindowLeaders(r) == leaders;
    forall leader
      ensures SatSub(Count(slotCount, leader), Count(skippedSlots, leader)) ==
                BlocksLed(leaders, start, confirmed, leader)
    {
      ReportAddsUp(leaders, start, confirmed, slotCount, skippedSlots, leader);
    }
    assert Sum(Counts(slotCount)) == |leaders| && Sum(Counts(skippedSlots)) == |leaders| - |confirmed| by {
      ReportAddsUp(leaders, start, confirmed, slotCount, skippedSlots, "");
    }
    NoMoreBlocksThanSlots(confirmed, start, r.window.end);
  }
}
