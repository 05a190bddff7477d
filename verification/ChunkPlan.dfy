/** Planning the writes of a program upload: the program is cut into chunks and
    only the chunks that differ from the buffer are written.  Writes land in any
    order, some of them never, some of them more than once. */
module ChunkPlan {
  import opened Prelude

  datatype Write = Write(offset: u32, bytes: seq<byte>)

  function End(w: Write): nat { w.offset + |w.bytes| }

  predicate Covers(w: Write, k: nat) { w.offset <= k < End(w) }

  /** The chunk that starts at `offset`; the last one may be short. */
  function Chunk(program: seq<byte>, size: nat, offset: nat): seq<byte>
    requires offset <= |program|
  {
    program[offset..Min(offset + size, |program|)]
  }

  /** The write of a chunk; its offset is cast to 32 bits. */
  function ChunkWrite(program: seq<byte>, size: nat, offset: nat): Write
    requires offset <= |program|
  {
    Write(AsU32(offset), Chunk(program, size, offset))
  }

  /** Some byte of the chunk is not in the buffer yet. */
  predicate Differs(program: seq<byte>, buffer: seq<byte>, size: nat, offset: nat)
    requires offset <= |program| <= |buffer|
  {
    exists k :: offset <= k < offset + size && k < |program| && program[k] != buffer[k]
  }

  /** The comparison of slices decides that. */
  lemma {:induction false} SlicesDiffer(program: seq<byte>, buffer: seq<byte>, size: nat, offset: nat)
    requires offset <= |program| <= |buffer|
    ensures
      var chunk := Chunk(program, size, offset);
      chunk != buffer[offset..offset + |chunk|] <==> Differs(program, buffer, size, offset)
  {
    var chunk := Chunk(program, size, offset);
    var there := buffer[offset..offset + |chunk|];
    if Differs(program, buffer, size, offset) {
      var k :| offset <= k < offset + size && k < |program| && program[k] != buffer[k];
      assert chunk[k - offset] != there[k - offset];
    } else {
      assert forall i :: 0 <= i < |chunk| ==> chunk[i] == program[offset + i] && there[i] == buffer[offset + i];
    }
  }

  /** What is planned for one chunk. */
  function PlanChunk(program: seq<byte>, buffer: seq<byte>, size: nat, offset: nat): seq<Write>
    requires offset <= |program| <= |buffer|
  {
    if Differs(program, buffer, size, offset) then [ChunkWrite(program, size, offset)] else []
  }

  function PlanFrom(program: seq<byte>, buffer: seq<byte>, size: nat, offset: nat): seq<Write>
    requires 0 < size && |program| <= |buffer|
    decreases |program| - offset
  {
    if |program| <= offset then []
    else PlanChunk(program, buffer, size, offset) + PlanFrom(program, buffer, size, offset + size)
  }

  /** `None` where the planner panics: a zero chunk size, or a program that does
      not fit the buffer it is compared with. */
  function Plan(program: seq<byte>, buffer: seq<byte>, size: nat): Option<seq<Write>> {
    if size == 0 || |buffer| < |program| then None else Some(PlanFrom(program, buffer, size, 0))
  }

  /** The planner's loop over the chunks; `start` is where the chunk iterator stands. */
  method PlanWrites(program: seq<byte>, buffer: seq<byte>, size: u64) returns (plan: Option<seq<Write>>)
    requires |program| <= U64_MAX
    ensures plan == Plan(program, buffer, size)
  {
    if size == 0 { return None; }
    var writes: seq<Write> := [];
    var i: nat, start: nat := 0, 0;
    while start < |program|
      invariant start == Times(i, size)
      invariant PlannedSoFar(program, buffer, size, start, writes)
      decreases |program| - start
    {
      var offset := ChunkOffset(i, size, start);
      var next := PlanOne(program, buffer, size, offset, writes);
      if next.None? { return None; }
      writes := next.value;
      i, start := i + 1, offset + size;
    }
    AllPlanned(program, buffer, size, start, writes);
    plan := Some(writes);
  }

  /** The body of the loop: a chunk past the end of the buffer panics, a differing
      chunk is pushed. */
  method PlanOne(program: seq<byte>, buffer: seq<byte>, size: nat, offset: nat, writes: seq<Write>)
    returns (r: Option<seq<Write>>)
    requires 0 < size && offset < |program| && PlannedSoFar(program, buffer, size, offset, writes)
    ensures r.None? ==> |buffer| < |program|
    ensures r.Some? ==> PlannedSoFar(program, buffer, size, offset + size, r.value)
  {
    var chunk := Chunk(program, size, offset);
    if |buffer| < offset + |chunk| { return None; }
    var next := writes;
    if chunk != buffer[offset..offset + |chunk|] {
      next := next + [Write(AsU32(offset), chunk)];
    }
    PlanUnfolds(program, buffer, size, offset, writes, next);
    r := Some(next);
  }

  /** The offset is the saturating product of chunk number and chunk size; inside
      the program it is where the chunk starts. */
  method ChunkOffset(i: nat, size: u64, ghost start: nat) returns (offset: nat)
    requires 0 < size && start == Times(i, size) && start <= U64_MAX
    ensures offset == start && Times(i + 1, size) == offset + size
  {
    TimesIsProduct(i, size);
    offset := SatMul(i, size);
  }

  ghost predicate PlannedSoFar(program: seq<byte>, buffer: seq<byte>, size: nat, start: nat, writes: seq<Write>)
    requires 0 < size
  {
    && Min(start, |program|) <= |buffer|
    && (|program| <= |buffer| ==>
          writes + PlanFrom(program, buffer, size, start) == PlanFrom(program, buffer, size, 0))
  }

  lemma {:induction false} PlanUnfolds(program: seq<byte>, buffer: seq<byte>, size: nat, offset: nat,
                                       before: seq<Write>, writes: seq<Write>)
    requires 0 < size && offset < |program| && PlannedSoFar(program, buffer, size, offset, before)
    requires
      var chunk := Chunk(program, size, offset);
      && offset + |chunk| <= |buffer|
      && writes ==
           before + if chunk != buffer[offset..offset + |chunk|] then [ChunkWrite(program, size, offset)] else []
    ensures PlannedSoFar(program, buffer, size, offset + size, writes)
  {
    if |program| <= |buffer| {
      assert writes == before + PlanChunk(program, buffer, size, offset) by {
        SlicesDiffer(program, buffer, size, offset);
      }
      OneChunkFurther(program, buffer, size, offset, before);
    }
  }

  lemma {:induction false} OneChunkFurther(program: seq<byte>, buffer: seq<byte>, size: nat, offset: nat,
                                           before: seq<Write>)
    requires 0 < size && offset < |program| <= |buffer|
    ensures (before + PlanChunk(program, buffer, size, offset)) + PlanFrom(program, buffer, size, offset + size) ==
              before + PlanFrom(program, buffer, size, offset)
  {
    var head, rest := PlanChunk(program, buffer, size, offset), PlanFrom(program, buffer, size, offset + size);
    PlanStep(program, buffer, size, offset);
    assert (before + head) + rest == before + (head + rest);
  }

  lemma {:induction false} AllPlanned(program: seq<byte>, buffer: seq<byte>, size: nat, start: nat, writes: seq<Write>)
    requires 0 < size && |program| <= start && PlannedSoFar(program, buffer, size, start, writes)
    ensures Plan(program, buffer, size) == Some(writes)
  {
    assert writes + [] == writes;
  }

  /** `i` chunks, without a product. */
  ghost function Times(i: nat, size: nat): nat { if i == 0 then 0 else Times(i - 1, size) + size }

  lemma {:induction false} TimesIsProduct(i: nat, size: nat)
    ensures Times(i, size) == i * size
    ensures 0 < size ==> i <= Times(i, size)
  {
    if i != 0 {
      TimesIsProduct(i - 1, size);
      assert i * size == (i - 1) * size + size;
    }
  }

  // ----------------------------------------------------------------------
  // Landing writes

  /** What an accepted write does to the program bytes of a buffer; a write past
      the end is refused and changes nothing. */
  function Land(buffer: seq<byte>, w: Write): (r: seq<byte>)
    ensures |r| == |buffer|
  {
    if End(w) <= |buffer| then buffer[..w.offset] + w.bytes + buffer[End(w)..] else buffer
  }

  function LandAll(buffer: seq<byte>, log: seq<Write>): (r: seq<byte>)
    ensures |r| == |buffer|
    decreases |log|
  {
    if log == [] then buffer else LandAll(Land(buffer, log[0]), log[1..])
  }

  /** A write of the program's own bytes at their own place. */
  ghost predicate Faithful(program: seq<byte>, w: Write) {
    End(w) <= |program| && w.bytes == program[w.offset..End(w)]
  }

  ghost predicate AllFaithful(program: seq<byte>, log: seq<Write>) {
    forall w :: w in log ==> Faithful(program, w)
  }

  ghost predicate Covered(log: seq<Write>, k: nat) {
    exists w :: w in log && Covers(w, k)
  }

  /** A write that cannot spoil the program in a buffer of the given length: it is
      refused, or where it overlaps the program it has the program's own bytes. */
  ghost predicate Agrees(program: seq<byte>, length: nat, w: Write) {
    End(w) <= length ==>
      forall k :: w.offset <= k < End(w) && k < |program| ==> w.bytes[k - w.offset] == program[k]
  }

  ghost predicate AllAgree(program: seq<byte>, length: nat, log: seq<Write>) {
    forall w :: w in log ==> Agrees(program, length, w)
  }

  /** Some write that the buffer accepts covers the byte. */
  ghost predicate Reached(log: seq<Write>, length: nat, k: nat) {
    exists w :: w in log && End(w) <= length && Covers(w, k)
  }

  /** One landing, byte by byte. */
  lemma {:induction false} LandedByte(buffer: seq<byte>, w: Write, k: nat)
    requires k < |buffer|
    ensures Land(buffer, w)[k] ==
              if End(w) <= |buffer| && Covers(w, k) then w.bytes[k - w.offset] else buffer[k]
  {
  }

  /** Whatever agreeing writes land, in whatever order and however often: a byte that
      no accepted write covers stays, one that is covered is the program's. */
  lemma {:induction false} AgreedBytes(program: seq<byte>, buffer: seq<byte>, log: seq<Write>, k: nat)
    requires AllAgree(program, |buffer|, log) && k < |buffer|
    ensures !Reached(log, |buffer|, k) ==> LandAll(buffer, log)[k] == buffer[k]
    ensures Reached(log, |buffer|, k) && k < |program| ==> LandAll(buffer, log)[k] == program[k]
    decreases |log|
  {
    if log != [] {
      var next := Land(buffer, log[0]);
      LandedByte(buffer, log[0], k);
      AgreedBytes(program, next, log[1..], k);
      assert log[0] in log && Agrees(program, |buffer|, log[0]);
      ReachedSplits(log, |buffer|, k);
    }
  }

  lemma {:induction false} ReachedSplits(log: seq<Write>, length: nat, k: nat)
    requires log != []
    ensures Reached(log, length, k) <==>
              (End(log[0]) <= length && Covers(log[0], k)) || Reached(log[1..], length, k)
  {
    assert log[0] in log;
    assert forall w :: w in log <==> w == log[0] || w in log[1..];
  }

  /** Whatever faithful writes land, in whatever order and however often, the
      buffer is decided byte by byte by whether some write covered it. */
  lemma {:induction false} LandedBytes(program: seq<byte>, buffer: seq<byte>, log: seq<Write>, k: nat)
    requires |program| <= |buffer| && AllFaithful(program, log) && k < |buffer|
    ensures Covered(log, k) ==> k < |program|
    ensures LandAll(buffer, log)[k] == if Covered(log, k) then program[k] else buffer[k]
  {
    FaithfulAgree(program, |buffer|, log);
    AgreedBytes(program, buffer, log, k);
    assert forall w :: w in log ==> End(w) <= |program|;
    if Covered(log, k) {
      var w :| w in log && Covers(w, k);
      assert End(w) <= |buffer|;
    }
  }

  lemma {:induction false} FaithfulAgree(program: seq<byte>, length: nat, log: seq<Write>)
    requires AllFaithful(program, log)
    ensures AllAgree(program, length, log)
  {
    forall w | w in log ensures Agrees(program, length, w) {
      assert Faithful(program, w);
    }
  }

  lemma {:induction false} LandLast(buffer: seq<byte>, log: seq<Write>, w: Write)
    ensures LandAll(buffer, log + [w]) == Land(LandAll(buffer, log), w)
    decreases |log|
  {
    if log == [] {
      assert log + [w] == [w];
      assert [w][1..] == [];
    } else {
      assert (log + [w])[1..] == log[1..] + [w];
      LandLast(Land(buffer, log[0]), log[1..], w);
    }
  }

  /** Two logs that land the same writes leave the same buffer. */
  lemma {:induction false} OrderIndependent(program: seq<byte>, buffer: seq<byte>, log1: seq<Write>, log2: seq<Write>)
    requires |program| <= |buffer| && AllFaithful(program, log1)
    requires forall w :: w in log1 <==> w in log2
    ensures LandAll(buffer, log1) == LandAll(buffer, log2)
  {
    forall k | 0 <= k < |buffer| ensures LandAll(buffer, log1)[k] == LandAll(buffer, log2)[k] {
      LandedBytes(program, buffer, log1, k);
      LandedBytes(program, buffer, log2, k);
      assert Covered(log1, k) <==> Covered(log2, k);
    }
  }

  // ----------------------------------------------------------------------
  // What the plan holds

  /** A multiple of the chunk size. */
  ghost predicate Aligned(offset: nat, size: nat)
    requires 0 < size
  {
    offset == 0 || (size <= offset && Aligned(offset - size, size))
  }

  lemma {:induction false} AlignedApart(a: nat, b: nat, size: nat)
    requires 0 < size && Aligned(a, size) && Aligned(b, size) && a < b
    ensures a + size <= b
  {
    if a != 0 {
      AlignedApart(a - size, b - size, size);
    }
  }

  /** A write is planned for the first chunk or for the chunks behind it. */
  lemma {:induction false} PlanSplits(program: seq<byte>, buffer: seq<byte>, size: nat, offset: nat, w: Write)
    requires 0 < size && |program| <= |buffer| && offset < |program|
    ensures w in PlanFrom(program, buffer, size, offset) <==>
              || (Differs(program, buffer, size, offset) && w == ChunkWrite(program, size, offset))
              || w in PlanFrom(program, buffer, size, offset + size)
  {
  }

  /** The write of a differing chunk at or behind `from`. */
  ghost predicate IsPlanned(program: seq<byte>, buffer: seq<byte>, size: nat, from: nat, w: Write)
    requires 0 < size && |program| <= |buffer|
  {
    && from <= w.offset < |program| && Aligned(w.offset, size)
    && w == ChunkWrite(program, size, w.offset) && Differs(program, buffer, size, w.offset)
  }

  lemma {:induction false} IsPlannedSplits(program: seq<byte>, buffer: seq<byte>, size: nat, offset: nat, w: Write)
    requires 0 < size && |program| <= |buffer| && |program| <= U32_MAX + 1
    requires Aligned(offset, size) && offset < |program|
    ensures IsPlanned(program, buffer, size, offset, w) <==>
              || (Differs(program, buffer, size, offset) && w == ChunkWrite(program, size, offset))
              || IsPlanned(program, buffer, size, offset + size, w)
  {
    assert ChunkWrite(program, size, offset).offset == offset;
    if offset < w.offset && Aligned(w.offset, size) {
      AlignedApart(offset, w.offset, size);
    }
  }

  /** The plan holds exactly the differing chunks, each at its place. */
  lemma {:induction false} PlanHolds(program: seq<byte>, buffer: seq<byte>, size: nat, offset: nat, w: Write)
    requires 0 < size && |program| <= |buffer| && |program| <= U32_MAX + 1 && Aligned(offset, size)
    ensures w in PlanFrom(program, buffer, size, offset) <==> IsPlanned(program, buffer, size, offset, w)
    decreases |program| - offset
  {
    if offset < |program| {
      var here := Differs(program, buffer, size, offset) && w == ChunkWrite(program, size, offset);
      calc <==> {
        w in PlanFrom(program, buffer, size, offset);
        { PlanSplits(program, buffer, size, offset, w); }
        here || w in PlanFrom(program, buffer, size, offset + size);
        { PlanHolds(program, buffer, size, offset + size, w); }
        here || IsPlanned(program, buffer, size, offset + size, w);
        { IsPlannedSplits(program, buffer, size, offset, w); }
        IsPlanned(program, buffer, size, offset, w);
      }
    }
  }

  ghost predicate Increasing(writes: seq<Write>) {
    forall i, j :: 0 <= i < j < |writes| ==> writes[i].offset < writes[j].offset
  }

  lemma {:induction false} IncreasingOnto(head: seq<Write>, rest: seq<Write>, offset: nat)
    requires Increasing(rest) && |head| <= 1 && (head != [] ==> head[0].offset == offset)
    requires forall w :: w in rest ==> offset < w.offset
    ensures Increasing(head + rest)
  {
    var plan := head + rest;
    forall i, j | 0 <= i < j < |plan| ensures plan[i].offset < plan[j].offset {
      assert plan[j] == rest[j - |head|] && plan[j] in rest;
      if |head| <= i {
        assert plan[i] == rest[i - |head|];
      }
    }
  }

  /** The offsets increase, so no two planned writes are alike. */
  lemma {:induction false} PlanIncreases(program: seq<byte>, buffer: seq<byte>, size: nat, offset: nat)
    requires 0 < size && |program| <= |buffer| && |program| <= U32_MAX + 1 && Aligned(offset, size)
    ensures Increasing(PlanFrom(program, buffer, size, offset))
    decreases |program| - offset
  {
    if offset < |program| {
      PlanIncreases(program, buffer, size, offset + size);
      var head, rest := PlanChunk(program, buffer, size, offset), PlanFrom(program, buffer, size, offset + size);
      forall w | w in rest ensures offset < w.offset {
        PlanHolds(program, buffer, size, offset + size, w);
      }
      IncreasingOnto(head, rest, offset);
      PlanStep(program, buffer, size, offset);
    }
  }

  lemma {:induction false} PlanFaithful(program: seq<byte>, buffer: seq<byte>, size: nat)
    requires 0 < size && |program| <= |buffer| && |program| <= U32_MAX + 1
    ensures AllFaithful(program, PlanFrom(program, buffer, size, 0))
  {
    var plan := PlanFrom(program, buffer, size, 0);
    forall w | w in plan ensures Faithful(program, w) {
      PlannedFaithful(program, buffer, size, w);
    }
  }

  lemma {:induction false} PlannedFaithful(program: seq<byte>, buffer: seq<byte>, size: nat, w: Write)
    requires 0 < size && |program| <= |buffer| && |program| <= U32_MAX + 1
    requires w in PlanFrom(program, buffer, size, 0)
    ensures Faithful(program, w)
  {
    assert IsPlanned(program, buffer, size, 0, w) by { PlanHolds(program, buffer, size, 0, w); }
    ChunkWriteFaithful(program, size, w.offset);
  }

  lemma {:induction false} ChunkWriteFaithful(program: seq<byte>, size: nat, offset: nat)
    requires offset <= |program| && offset <= U32_MAX
    ensures Faithful(program, ChunkWrite(program, size, offset))
  {
  }

  /** Every byte that is still wrong is covered by a planned write. */
  lemma {:induction false} PlanCovers(program: seq<byte>, buffer: seq<byte>, size: nat, offset: nat, k: nat)
    requires 0 < size && |program| <= |buffer| && |program| <= U32_MAX + 1
    requires offset <= k < |program| && buffer[k] != program[k]
    ensures Covered(PlanFrom(program, buffer, size, offset), k)
    decreases |program| - offset
  {
    if k < offset + size {
      assert Differs(program, buffer, size, offset);
      PlanSplits(program, buffer, size, offset, ChunkWrite(program, size, offset));
      assert Covers(ChunkWrite(program, size, offset), k);
    } else {
      PlanCovers(program, buffer, size, offset + size, k);
      var w :| w in PlanFrom(program, buffer, size, offset + size) && Covers(w, k);
      PlanSplits(program, buffer, size, offset, w);
    }
  }

  /** No plan is left exactly when the buffer already starts with the program. */
  lemma {:induction false} NothingPlanned(program: seq<byte>, buffer: seq<byte>, size: nat)
    requires 0 < size && |program| <= |buffer| && |program| <= U32_MAX + 1
    ensures PlanFrom(program, buffer, size, 0) == [] <==> buffer[..|program|] == program
  {
    var plan := PlanFrom(program, buffer, size, 0);
    if plan == [] {
      forall k | 0 <= k < |program| ensures buffer[k] == program[k] {
        if buffer[k] != program[k] {
          PlanCovers(program, buffer, size, 0, k);
        }
      }
    } else {
      PlanHolds(program, buffer, size, 0, plan[0]);
      var k :| 0 <= k < |program| && program[k] != buffer[k];
      assert buffer[..|program|][k] != program[k];
    }
  }

  /** Once every planned write has landed, among any other faithful writes, the
      buffer starts with the program and is unchanged behind it. */
  lemma {:induction false} PlanCompletes(program: seq<byte>, buffer: seq<byte>, size: nat, log: seq<Write>)
    requires 0 < size && |program| <= |buffer| && |program| <= U32_MAX + 1
    requires AllFaithful(program, log)
    requires forall w :: w in PlanFrom(program, buffer, size, 0) ==> w in log
    ensures LandAll(buffer, log) == program + buffer[|program|..]
  {
    var r := LandAll(buffer, log);
    forall k | 0 <= k < |r| ensures r[k] == (program + buffer[|program|..])[k] {
      LandedBytes(program, buffer, log, k);
      if k < |program| && buffer[k] != program[k] {
        PlanCovers(program, buffer, size, 0, k);
      }
    }
  }

  /** Faithful writes never touch what lies behind the program. */
  lemma {:induction false} TailKept(program: seq<byte>, buffer: seq<byte>, log: seq<Write>)
    requires |program| <= |buffer| && AllFaithful(program, log)
    ensures LandAll(buffer, log)[|program|..] == buffer[|program|..]
  {
    forall k | |program| <= k < |buffer| ensures LandAll(buffer, log)[k] == buffer[k] {
      LandedBytes(program, buffer, log, k);
    }
  }

  // ----------------------------------------------------------------------
  // Crash and resume

  ghost predicate AllIn(log: seq<Write>, plan: seq<Write>) {
    forall w :: w in log ==> w in plan
  }

  function Without(plan: seq<Write>, log: seq<Write>): seq<Write> {
    if plan == [] then []
    else (if plan[0] in log then [] else [plan[0]]) + Without(plan[1..], log)
  }

  lemma {:induction false} WithoutConcat(a: seq<Write>, b: seq<Write>, log: seq<Write>)
    ensures Without(a + b, log) == Without(a, log) + Without(b, log)
  {
    if a == [] {
      assert a + b == b;
    } else {
      assert (a + b)[1..] == a[1..] + b;
      WithoutConcat(a[1..], b, log);
    }
  }

  lemma {:induction false} OwnWrite(program: seq<byte>, buffer: seq<byte>, size: nat, offset: nat, k: nat, w: Write)
    requires 0 < size && |program| <= |buffer| && |program| <= U32_MAX + 1
    requires Aligned(offset, size) && offset <= k < offset + size && k < |program|
    requires IsPlanned(program, buffer, size, 0, w) && Covers(w, k)
    ensures w == ChunkWrite(program, size, offset)
  {
    if w.offset < offset {
      AlignedApart(w.offset, offset, size);
    } else if offset < w.offset {
      AlignedApart(offset, w.offset, size);
    }
  }

  /** Planned writes that cover a byte of a chunk are that chunk's write. */
  lemma {:induction false} CoveredByOwnWrite(program: seq<byte>, buffer: seq<byte>, size: nat, log: seq<Write>,
                                             offset: nat, k: nat)
    requires 0 < size && |program| <= |buffer| && |program| <= U32_MAX + 1
    requires Aligned(offset, size) && offset <= k < offset + size && k < |program|
    requires AllIn(log, PlanFrom(program, buffer, size, 0))
    ensures Covered(log, k) <==> ChunkWrite(program, size, offset) in log
  {
    if Covered(log, k) {
      var w :| w in log && Covers(w, k);
      PlanHolds(program, buffer, size, 0, w);
      OwnWrite(program, buffer, size, offset, k, w);
    } else {
      assert Covers(ChunkWrite(program, size, offset), k);
    }
  }

  lemma {:induction false} ByteAfter(program: seq<byte>, buffer: seq<byte>, size: nat, log: seq<Write>, offset: nat,
                                     k: nat)
    requires 0 < size && |program| <= |buffer| && |program| <= U32_MAX + 1
    requires Aligned(offset, size) && offset <= k < offset + size && k < |program|
    requires AllIn(log, PlanFrom(program, buffer, size, 0))
    ensures LandAll(buffer, log)[k] == if ChunkWrite(program, size, offset) in log then program[k] else buffer[k]
  {
    PlanFaithful(program, buffer, size);
    LandedBytes(program, buffer, log, k);
    CoveredByOwnWrite(program, buffer, size, log, offset, k);
  }

  /** A chunk that was written is right, one that was not is as it was; so it is
      planned exactly when it was and its write is missing. */
  lemma {:induction false} ChunkReplanned(program: seq<byte>, buffer: seq<byte>, after: seq<byte>, size: nat,
                                          log: seq<Write>, offset: nat)
    requires offset < |program| <= |buffer| == |after|
    requires forall k :: offset <= k < offset + size && k < |program| ==>
               after[k] == if ChunkWrite(program, size, offset) in log then program[k] else buffer[k]
    ensures PlanChunk(program, after, size, offset) == Without(PlanChunk(program, buffer, size, offset), log)
  {
    var end := offset + |Chunk(program, size, offset)|;
    if ChunkWrite(program, size, offset) in log {
      assert after[offset..end] == program[offset..end];
    } else {
      assert after[offset..end] == buffer[offset..end];
    }
  }

  /** In every chunk, the buffer then needs what it needed less what is in the log. */
  lemma {:induction false} ChunkAdvances(program: seq<byte>, buffer: seq<byte>, size: nat, log: seq<Write>, offset: nat)
    requires 0 < size && |program| <= |buffer| && |program| <= U32_MAX + 1
    requires Aligned(offset, size) && offset < |program|
    requires AllIn(log, PlanFrom(program, buffer, size, 0))
    ensures PlanChunk(program, LandAll(buffer, log), size, offset) ==
              Without(PlanChunk(program, buffer, size, offset), log)
  {
    var after := LandAll(buffer, log);
    forall k | offset <= k < offset + size && k < |program|
      ensures after[k] == if ChunkWrite(program, size, offset) in log then program[k] else buffer[k]
    {
      ByteAfter(program, buffer, size, log, offset, k);
    }
    ChunkReplanned(program, buffer, after, size, log, offset);
  }

  lemma {:induction false} PlanStep(program: seq<byte>, buffer: seq<byte>, size: nat, offset: nat)
    requires 0 < size && offset < |program| <= |buffer|
    ensures PlanFrom(program, buffer, size, offset) ==
              PlanChunk(program, buffer, size, offset) + PlanFrom(program, buffer, size, offset + size)
  {
  }

  lemma {:induction false} ReplanStep(program: seq<byte>, buffer: seq<byte>, after: seq<byte>, size: nat,
                                      log: seq<Write>, offset: nat)
    requires 0 < size && offset < |program| <= |buffer| == |after|
    requires PlanChunk(program, after, size, offset) == Without(PlanChunk(program, buffer, size, offset), log)
    requires PlanFrom(program, after, size, offset + size) ==
               Without(PlanFrom(program, buffer, size, offset + size), log)
    ensures PlanFrom(program, after, size, offset) == Without(PlanFrom(program, buffer, size, offset), log)
  {
    PlanStep(program, buffer, size, offset);
    PlanStep(program, after, size, offset);
    WithoutConcat(PlanChunk(program, buffer, size, offset), PlanFrom(program, buffer, size, offset + size), log);
  }

  lemma {:induction false} ReplanFrom(program: seq<byte>, buffer: seq<byte>, size: nat, log: seq<Write>, offset: nat)
    requires 0 < size && |program| <= |buffer| && |program| <= U32_MAX + 1 && Aligned(offset, size)
    requires AllIn(log, PlanFrom(program, buffer, size, 0))
    ensures PlanFrom(program, LandAll(buffer, log), size, offset) ==
              Without(PlanFrom(program, buffer, size, offset), log)
    decreases |program| - offset
  {
    if offset < |program| {
      ReplanFrom(program, buffer, size, log, offset + size);
      ChunkAdvances(program, buffer, size, log, offset);
      ReplanStep(program, buffer, LandAll(buffer, log), size, log, offset);
    }
  }

  /** Planning again with the same chunk size after some planned writes landed
      plans exactly the writes that did not. */
  lemma {:induction false} ReplanIsRemainder(program: seq<byte>, buffer: seq<byte>, size: nat, log: seq<Write>)
    requires |program| <= U32_MAX + 1
    requires Plan(program, buffer, size).Some?
    requires AllIn(log, Plan(program, buffer, size).value)
    ensures Plan(program, LandAll(buffer, log), size) == Some(Without(Plan(program, buffer, size).value, log))
  {
    ReplanFrom(program, buffer, size, log, 0);
  }

  /** One attempt at the upload: it plans with its own chunk size against the
      buffer it finds, and some writes land before it ends or crashes. */
  datatype Session = Session(size: nat, landed: seq<Write>)

  /** Each session's writes are its own planned ones or late arrivals from the
      plans of earlier sessions (`known`). */
  ghost predicate ValidSessions(program: seq<byte>, buffer: seq<byte>, known: set<Write>, sessions: seq<Session>)
    decreases |sessions|
  {
    sessions == [] ||
    var plan := Plan(program, buffer, sessions[0].size);
    && plan.Some?
    && (forall w :: w in sessions[0].landed ==> w in plan.value || w in known)
    && ValidSessions(program, LandAll(buffer, sessions[0].landed),
                     known + (set w | w in plan.value), sessions[1..])
  }

  ghost function AfterSessions(buffer: seq<byte>, sessions: seq<Session>): (r: seq<byte>)
    ensures |r| == |buffer|
    decreases |sessions|
  {
    if sessions == [] then buffer
    else AfterSessions(LandAll(buffer, sessions[0].landed), sessions[1..])
  }

  lemma {:induction false} SessionsKeep(program: seq<byte>, buffer: seq<byte>, known: set<Write>,
                                        sessions: seq<Session>, last: nat, log: seq<Write>)
    requires |program| <= |buffer| && |program| <= U32_MAX + 1
    requires forall w :: w in known ==> Faithful(program, w)
    requires ValidSessions(program, buffer, known, sessions + [Session(last, log)])
    ensures
      var found := AfterSessions(buffer, sessions);
      && found[|program|..] == buffer[|program|..]
      && Plan(program, found, last).Some?
      && AllFaithful(program, log)
    decreases |sessions|
  {
    var all := sessions + [Session(last, log)];
    var plan := Plan(program, buffer, all[0].size).value;
    PlanFaithful(program, buffer, all[0].size);
    assert forall w :: w in all[0].landed ==> w in plan || w in known;
    if sessions != [] {
      var next := LandAll(buffer, sessions[0].landed);
      TailKept(program, buffer, sessions[0].landed);
      assert all[1..] == sessions[1..] + [Session(last, log)];
      SessionsKeep(program, next, known + (set w | w in plan), sessions[1..], last, log);
    }
  }

  /** However many attempts crash on the way, with whatever chunk sizes and with
      whatever earlier writes arriving late, the first attempt whose planned
      writes all land leaves the program in the buffer, the bytes behind it as
      they were at the very start, and nothing more to write. */
  lemma {:induction false} ResumeConverges(program: seq<byte>, buffer: seq<byte>, sessions: seq<Session>, last: nat,
                                           log: seq<Write>)
    requires |program| <= |buffer| && |program| <= U32_MAX + 1
    requires ValidSessions(program, buffer, {}, sessions + [Session(last, log)])
    requires
      var plan := Plan(program, AfterSessions(buffer, sessions), last);
      plan.Some? ==> forall w :: w in plan.value ==> w in log
    ensures
      var end := LandAll(AfterSessions(buffer, sessions), log);
      && end == program + buffer[|program|..]
      && forall size :: 0 < size ==> Plan(program, end, size) == Some([])
  {
    SessionsKeep(program, buffer, {}, sessions, last, log);
    var found := AfterSessions(buffer, sessions);
    PlanCompletes(program, found, last, log);
    var end := LandAll(found, log);
    forall size | 0 < size ensures Plan(program, end, size) == Some([]) {
      NothingPlanned(program, end, size);
    }
  }
}
