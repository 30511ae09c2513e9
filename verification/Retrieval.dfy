/** Bounded reads of one blob (runGitChunk and ReadSource, internal/repository),
    the registry that records them (internal/copilot/registry.go) and the tool that
    joins the two (internal/coordinator/tools.go). A process's output is a stream
    read from front to back. */
module Retrieval {
  import opened Domain
  import opened Validation

  type Byte = x: int | 0 <= x < 256

  datatype Chunk = Chunk(data: seq<Byte>, offset: int, next: int, complete: bool, total: int)

  // ----- The output of a process -----

  class ByteStream {
    const bytes: seq<Byte>
    var position: nat

    ghost predicate Valid()
      reads this
    {
      position <= |bytes|
    }

    constructor (bytes: seq<Byte>)
      ensures Valid() && this.bytes == bytes && position == 0
    {
      this.bytes := bytes;
      position := 0;
    }

    // Discards `n` bytes, or what is left.
    method Skip(n: nat) returns (copied: nat)
      requires Valid()
      modifies this`position
      ensures Valid() && position == old(position) + copied
      ensures copied == if n <= |bytes| - old(position) then n else |bytes| - old(position)
    {
      copied := if n <= |bytes| - position then n else |bytes| - position;
      position := position + copied;
    }

    method ReadUpTo(n: nat) returns (data: seq<Byte>)
      requires Valid()
      modifies this`position
      ensures Valid() && position == old(position) + |data|
      ensures data == bytes[old(position)..old(position) + |data|]
      ensures |data| == if n <= |bytes| - old(position) then n else |bytes| - old(position)
    {
      var size := if n <= |bytes| - position then n else |bytes| - position;
      data := bytes[position..position + size];
      position := position + size;
    }
  }

  /** What a bounded read of `blob` returns. Reading past the end reports where the end is. */
  function ChunkAt(blob: seq<Byte>, offset: int, limit: int): Result<Chunk> {
    if offset < 0 || limit < 1 then Err
    else if offset > |blob| then Ok(Chunk([], |blob|, 0, true, |blob|))
    else if |blob| - offset > limit then Ok(Chunk(blob[offset..offset + limit], offset, offset + limit, false, 0))
    else Ok(Chunk(blob[offset..], offset, 0, true, |blob|))
  }

  lemma FrontOfSlice(bytes: seq<Byte>, offset: nat, n: nat, k: nat)
    requires k <= n && offset + n <= |bytes|
    ensures bytes[offset..offset + n][..k] == bytes[offset..offset + k]
  {
  }

  /** What can be read is returned, and the size of the output exactly when its end was reached. */
  method RunGitChunk(stdout: ByteStream, offset: int, limit: int) returns (r: Result<Chunk>)
    requires stdout.Valid() && stdout.position == 0
    modifies stdout
    ensures r == ChunkAt(stdout.bytes, offset, limit)
    ensures r.Ok? <==> offset >= 0 && limit >= 1
    ensures r.Ok? ==>
      var c, size := r.value, |stdout.bytes|;
      && c.offset == (if offset <= size then offset else size)
      && 0 <= c.offset + |c.data| <= size && c.data == stdout.bytes[c.offset..c.offset + |c.data|]
      && |c.data| == (if size - c.offset <= limit then size - c.offset else limit)
      && (c.complete <==> c.offset + |c.data| == size)
      && c.total == (if c.complete then size else 0)
      && c.next == (if c.complete then 0 else c.offset + |c.data|)
  {
    if offset < 0 || limit < 1 { return Err; }
    if offset > 0 {
      var copied := stdout.Skip(offset);
      if copied < offset { return Ok(Chunk([], copied, 0, true, copied)); }
    }
    assert stdout.position == offset;
    var data := stdout.ReadUpTo(limit + 1);
    assert data == stdout.bytes[offset..offset + |data|];
    if |data| > limit {
      FrontOfSlice(stdout.bytes, offset, |data|, limit);
      return Ok(Chunk(data[..limit], offset, offset + limit, false, 0));
    }
    assert data == stdout.bytes[offset..];
    return Ok(Chunk(data, offset, 0, true, offset + |data|));
  }

  // The blob's size is known, so every chunk of a source read carries it.
  function SourceChunk(blob: seq<Byte>, offset: int, limit: int): Result<Chunk> {
    var r := ChunkAt(blob, offset, limit);
    if r.Err? then Err else Ok(r.value.(total := |blob|, complete := r.value.next == 0))
  }

  /** Every chunk carries the size of the blob and is complete exactly when nothing
      follows, which is when it reaches the end. */
  method ReadSource(blob: seq<Byte>, offset: int, limit: int) returns (r: Result<Chunk>)
    ensures r == SourceChunk(blob, offset, limit)
    ensures r.Ok? <==> offset >= 0 && limit >= 1
    ensures r.Ok? ==>
      var c := r.value;
      && c.total == |blob| && 0 <= c.offset <= offset && c.offset + |c.data| <= |blob| && |c.data| <= limit
      && c.data == blob[c.offset..c.offset + |c.data|]
      && (c.offset < offset ==> c.offset == |blob|)
      && (c.complete <==> c.next == 0) && (c.complete <==> c.offset + |c.data| == |blob|)
      && (!c.complete ==> c.next == c.offset + |c.data| && |c.data| == limit)
  {
    var stdout := new ByteStream(blob);
    var chunk := RunGitChunk(stdout, offset, limit);
    if chunk.Err? { return Err; }
    return Ok(chunk.value.(total := |blob|, complete := chunk.value.next == 0));
  }

  // ----- The registry -----

  datatype Registration = Registration(assignment: Assignment, offsets: map<UnitId, int>)

  function Expected(r: Registration, unit: UnitId): int {
    if unit in r.offsets then r.offsets[unit] else 0
  }

  predicate RecordOk(r: Registration, unit: UnitId, offset: int, next: int, complete: bool) {
    unit in r.assignment.requirements && offset == Expected(r, unit) && (complete || next > offset)
  }

  function Recorded(r: Registration, unit: UnitId, next: int, complete: bool): Registration
    requires unit in r.assignment.requirements
  {
    if complete then
      Registration(
        r.assignment.(requirements :=
          r.assignment.requirements[unit := r.assignment.requirements[unit].(retrieved := true)]),
        r.offsets - {unit})
    else r.(offsets := r.offsets[unit := next])
  }

  /** The boundary shared by the repository tools and the validator. */
  class AssignmentRegistry {
    var assignment: Assignment
    var retrievalOffsets: map<UnitId, int>

    constructor (assignment: Assignment)
      ensures State() == Registration(assignment, map[])
    {
      this.assignment := assignment;
      retrievalOffsets := map[];
    }

    function State(): Registration
      reads this
    {
      Registration(assignment, retrievalOffsets)
    }

    method RegisterSource(id: SourceId, source: SourceRef) returns (ok: bool)
      modifies this`assignment
      ensures ok <==>
        id != "" && (id in old(assignment).sources ==> old(assignment).sources[id] == source)
      ensures assignment ==
        if ok then old(assignment).(sources := old(assignment).sources[id := source]) else old(assignment)
    {
      if id == "" { return false; }
      if id in assignment.sources {
        ok := assignment.sources[id] == source;
        assert ok ==> assignment.sources[id := source] == assignment.sources;
        return;
      }
      assignment := assignment.(sources := assignment.sources[id := source]);
      ok := true;
    }

    method RecordUnitRetrieval(unit: UnitId, offset: int, next: int, complete: bool) returns (ok: bool)
      modifies this
      ensures ok <==> RecordOk(old(State()), unit, offset, next, complete)
      ensures ok <==>
        && unit in old(assignment).requirements && (complete || next > offset)
        && offset == (if unit in old(retrievalOffsets) then old(retrievalOffsets)[unit] else 0)
      ensures State() == if ok then Recorded(old(State()), unit, next, complete) else old(State())
    {
      if unit !in assignment.requirements { return false; }
      var requirement := assignment.requirements[unit];
      var expected := if unit in retrievalOffsets then retrievalOffsets[unit] else 0;
      if offset != expected { return false; }
      if complete {
        requirement := requirement.(retrieved := true);
        assignment := assignment.(requirements := assignment.requirements[unit := requirement]);
        retrievalOffsets := retrievalOffsets - {unit};
        return true;
      }
      if next <= offset { return false; }
      retrievalOffsets := retrievalOffsets[unit := next];
      ok := true;
    }

    // The repository_read tool for one unit: read, register what was returned, record.
    method ReadUnit(blob: seq<Byte>, unit: UnitId, offset: int, limit: int, id: SourceId, source: SourceRef)
      returns (r: Result<Chunk>)
      modifies this
      ensures r.Ok? ==> r == SourceChunk(blob, offset, limit)
      ensures State() ==
        var chunk := SourceChunk(blob, offset, limit);
        var registered := id != "" && (id in old(assignment).sources ==> old(assignment).sources[id] == source);
        if chunk.Err? || !registered then old(State())
        else AfterRead(
          old(State()).(assignment := old(assignment).(sources := old(assignment).sources[id := source])),
          unit, chunk.value)
    {
      r := ReadSource(blob, offset, limit);
      if r.Err? { return; }
      var ok := RegisterSource(id, source);
      if !ok { return Err; }
      if unit != "" {
        ok := RecordUnitRetrieval(unit, r.value.offset, r.value.next, r.value.complete);
        if !ok { return Err; }
      }
    }
  }

  function AfterRead(r: Registration, unit: UnitId, chunk: Chunk): Registration {
    if unit != "" && RecordOk(r, unit, chunk.offset, chunk.next, chunk.complete)
    then Recorded(r, unit, chunk.next, chunk.complete) else r
  }

  // ----- Any sequence of tool calls -----

  datatype Read = Read(unit: UnitId, offset: int, limit: int)

  /** The registry after any reads of the units' blobs, in any order and with any
      offsets and limits. */
  function AfterReads(start: Registration, blobs: map<UnitId, seq<Byte>>, asked: seq<Read>): Registration {
    if |asked| == 0 then start
    else
      var before, read := AfterReads(start, blobs, asked[..|asked| - 1]), asked[|asked| - 1];
      if read.unit !in blobs then before
      else
        var chunk := SourceChunk(blobs[read.unit], read.offset, read.limit);
        if chunk.Err? then before else AfterRead(before, read.unit, chunk.value)
  }

  /** The bytes of a unit that accepted reads have returned since the last time its
      retrieval started at offset zero. */
  function Retrieved(start: Registration, blobs: map<UnitId, seq<Byte>>, asked: seq<Read>, unit: UnitId): seq<Byte> {
    if |asked| == 0 then []
    else
      var front, read := asked[..|asked| - 1], asked[|asked| - 1];
      var so := Retrieved(start, blobs, front, unit);
      if read.unit != unit || unit == "" || unit !in blobs then so
      else
        var chunk := SourceChunk(blobs[unit], read.offset, read.limit);
        var r := AfterReads(start, blobs, front);
        if chunk.Err? || !RecordOk(r, unit, chunk.value.offset, chunk.value.next, chunk.value.complete) then so
        else (if chunk.value.offset == 0 then [] else so) + chunk.value.data
  }

  /** A recorded read says what it read: the unit is retrieved and expected from the start again, or
      its next offset lies behind the one it was expected at; nothing is said of any other unit. */
  lemma RecordedMeans(r: Registration, unit: UnitId, offset: int, next: int, complete: bool)
    requires RecordOk(r, unit, offset, next, complete)
    ensures var after := Recorded(r, unit, next, complete);
      && Expected(after, unit) == (if complete then 0 else next) && (complete || next > Expected(r, unit))
      && after.assignment.requirements.Keys == r.assignment.requirements.Keys
      && after.assignment.requirements[unit] ==
           r.assignment.requirements[unit].(retrieved := complete || r.assignment.requirements[unit].retrieved)
      && (forall u :: u != unit ==> Expected(after, u) == Expected(r, u))
      && (forall u :: u in r.assignment.requirements && u != unit ==>
            after.assignment.requirements[u] == r.assignment.requirements[u])
      && after.assignment.(requirements := map[]) == r.assignment.(requirements := map[])
  {
    if !complete { assert unit !in r.offsets || r.offsets[unit] < next; }
  }

  predicate NothingRetrieved(r: Registration) {
    r.offsets == map[] && forall u :: u in r.assignment.requirements ==> !r.assignment.requirements[u].retrieved
  }

  // A chunk that continues a prefix of the blob extends the prefix.
  lemma ChunkExtends(blob: seq<Byte>, offset: int, limit: int)
    requires SourceChunk(blob, offset, limit).Ok?
    ensures var c := SourceChunk(blob, offset, limit).value;
      && 0 <= c.offset <= |blob|
      && (c.complete ==> blob[..c.offset] + c.data == blob)
      && (!c.complete ==> c.offset < c.next < |blob| && blob[..c.offset] + c.data == blob[..c.next])
  {
    var c := SourceChunk(blob, offset, limit).value;
    if c.complete { assert blob[..c.offset] + c.data == blob; }
    else { assert blob[..c.offset] + c.data == blob[..c.next]; }
  }

  /** Whatever the model asks for: the expected offset of a unit is always a position
      inside its blob up to which every byte has been returned, in order. */
  lemma {:induction false} OffsetsAreHonest(start: Registration, blobs: map<UnitId, seq<Byte>>, asked: seq<Read>,
                                            unit: UnitId)
    requires NothingRetrieved(start) && unit in blobs && unit in start.assignment.requirements && unit != ""
    ensures var r := AfterReads(start, blobs, asked);
      && unit in r.assignment.requirements
      && (unit in r.offsets ==>
            && 0 < r.offsets[unit] < |blobs[unit]|
            && Retrieved(start, blobs, asked, unit) == blobs[unit][..r.offsets[unit]])
  {
    if |asked| > 0 {
      var front, read := asked[..|asked| - 1], asked[|asked| - 1];
      OffsetsAreHonest(start, blobs, front, unit);
      if read.unit in blobs {
        var chunk := SourceChunk(blobs[read.unit], read.offset, read.limit);
        if chunk.Ok? { ChunkExtends(blobs[read.unit], read.offset, read.limit); }
      }
    }
  }

  // The last read completed the unit.
  predicate Completes(start: Registration, blobs: map<UnitId, seq<Byte>>, asked: seq<Read>, unit: UnitId)
    requires unit in blobs
  {
    && |asked| > 0 && asked[|asked| - 1].unit == unit
    && var read := asked[|asked| - 1];
       var chunk := SourceChunk(blobs[unit], read.offset, read.limit);
       var r := AfterReads(start, blobs, asked[..|asked| - 1]);
       chunk.Ok? && chunk.value.complete && RecordOk(r, unit, chunk.value.offset, chunk.value.next, true)
  }

  /** Completing a unit means that its whole blob has been returned, in order. */
  lemma CompletionReturnsAll(start: Registration, blobs: map<UnitId, seq<Byte>>, asked: seq<Read>, unit: UnitId)
    requires NothingRetrieved(start) && unit in blobs && unit in start.assignment.requirements && unit != ""
    requires Completes(start, blobs, asked, unit)
    ensures Retrieved(start, blobs, asked, unit) == blobs[unit]
  {
    var front, read := asked[..|asked| - 1], asked[|asked| - 1];
    OffsetsAreHonest(start, blobs, front, unit);
    ChunkExtends(blobs[unit], read.offset, read.limit);
  }

  /** A unit counts as retrieved exactly from the first read that completes it on. */
  lemma {:induction false} RetrievedOnceCompleted(start: Registration, blobs: map<UnitId, seq<Byte>>, asked: seq<Read>,
                                                  unit: UnitId)
    requires NothingRetrieved(start) && unit in blobs && unit in start.assignment.requirements && unit != ""
    ensures unit in AfterReads(start, blobs, asked).assignment.requirements
    ensures AfterReads(start, blobs, asked).assignment.requirements[unit].retrieved <==>
      exists k :: 0 <= k <= |asked| && Completes(start, blobs, asked[..k], unit)
  {
    hide SourceChunk;
    if |asked| > 0 {
      var front := asked[..|asked| - 1];
      RetrievedOnceCompleted(start, blobs, front, unit);
      assert forall k :: 0 <= k <= |front| ==> front[..k] == asked[..k];
      assert asked[..|asked|] == asked;
      var before, after := AfterReads(start, blobs, front), AfterReads(start, blobs, asked);
      assert after.assignment.requirements[unit].retrieved <==>
        before.assignment.requirements[unit].retrieved || Completes(start, blobs, asked, unit);
    }
  }

  /** A unit with a requirement can be reported covered only after reads, whatever else
      was asked for, have returned its whole blob in order. */
  lemma {:induction false} CoveredWasRead(start: Registration, blobs: map<UnitId, seq<Byte>>, asked: seq<Read>,
                                          sub: Submission, u: UnitId)
    requires NothingRetrieved(start) && u in blobs && u in start.assignment.requirements && u != ""
    requires ValidSubmission(sub, AfterReads(start, blobs, asked).assignment) && ReportsCovered(sub.coverage, u)
    ensures exists k :: 0 <= k <= |asked| && Retrieved(start, blobs, asked[..k], u) == blobs[u]
  {
    hide SourceChunk;
    RetrievedOnceCompleted(start, blobs, asked, u);
    var a := AfterReads(start, blobs, asked).assignment;
    assert RequirementMet(u, a.requirements[u], sub.coverage, a.units);
    var k :| 0 <= k <= |asked| && Completes(start, blobs, asked[..k], u);
    CompletionReturnsAll(start, blobs, asked[..k], u);
  }

  // ----- Following the continuations -----

  function ReadsNeeded(size: nat, limit: nat): nat
    requires limit >= 1
  {
    if size == 0 then 1 else (size + limit - 1) / limit
  }

  /** Reading a blob by following `next` from zero: the chunks join to exactly the
      blob in the fewest reads, every read is accepted, and the unit becomes
      retrieved at the last one. */
  method FollowContinuations(registry: AssignmentRegistry, blob: seq<Byte>, unit: UnitId, limit: int)
    returns (data: seq<Byte>, count: nat)
    requires limit >= 1
    requires unit in registry.assignment.requirements && unit !in registry.retrievalOffsets
    modifies registry
    ensures data == blob && count == ReadsNeeded(|blob|, limit)
    ensures registry.assignment == old(registry.assignment).(requirements :=
      old(registry.assignment).requirements[unit := old(registry.assignment).requirements[unit].(retrieved := true)])
    ensures registry.retrievalOffsets == old(registry.retrievalOffsets)
  {
    data, count := [], 0;
    var offset := 0;
    var complete := false;
    while !complete
      invariant 0 <= offset <= |blob| && (!complete ==> data == blob[..offset] && offset == count * limit)
      invariant !complete ==> (offset == 0 || offset < |blob|)
      invariant !complete ==> registry.assignment == old(registry.assignment)
      invariant !complete ==> Expected(registry.State(), unit) == offset
      invariant !complete ==> registry.retrievalOffsets - {unit} == old(registry.retrievalOffsets)
      invariant complete ==> data == blob && count == ReadsNeeded(|blob|, limit)
      invariant complete ==> registry.assignment == old(registry.assignment).(requirements :=
        old(registry.assignment).requirements[unit := old(registry.assignment).requirements[unit].(retrieved := true)])
      invariant complete ==> registry.retrievalOffsets == old(registry.retrievalOffsets)
      decreases |blob| - offset, !complete
    {
      var chunk := ReadSource(blob, offset, limit);
      ChunkExtends(blob, offset, limit);
      var c := chunk.value;
      var accepted := registry.RecordUnitRetrieval(unit, c.offset, c.next, c.complete);
      data := data + c.data;
      if c.complete { LastRead(|blob|, limit, count); }
      count := count + 1;
      offset := if c.complete then offset else c.next;
      complete := c.complete;
    }
  }

  lemma LastRead(size: nat, limit: nat, count: nat)
    requires limit >= 1 && count * limit <= size <= count * limit + limit
    requires count > 0 ==> count * limit < size
    ensures count + 1 == ReadsNeeded(size, limit)
  {
    if size > 0 {
      var q, r := (size + limit - 1) / limit, (size + limit - 1) % limit;
      assert q * limit + r == size + limit - 1;
      if q < count + 1 { MultiplyMore(q, count, limit); }
      if q > count + 1 { MultiplyMore(count + 2, q, limit); }
    }
  }

  lemma MultiplyMore(a: int, b: int, limit: nat)
    requires a <= b
    ensures a * limit <= b * limit
  {
  }

  // ----- What a registry makes of an assignment -----

  /** Reads and registrations only ever add: units and findings stay, retrieval is
      never taken back and no source is dropped or changed. */
  predicate Grew(a: Assignment, b: Assignment) {
    && b.units == a.units && b.findings == a.findings
    && b.requirements.Keys == a.requirements.Keys
    && (forall u :: u in a.requirements ==>
          && b.requirements[u].enclosing == a.requirements[u].enclosing
          && (a.requirements[u].retrieved ==> b.requirements[u].retrieved))
    && (forall id :: id in a.sources ==> id in b.sources && b.sources[id] == a.sources[id])
  }

  datatype ToolCall =
    | Register(id: SourceId, source: SourceRef)
    | RecordRead(unit: UnitId, offset: int, next: int, complete: bool)

  method ServeCalls(registry: AssignmentRegistry, calls: seq<ToolCall>)
    modifies registry
    ensures Grew(old(registry.assignment), registry.assignment)
  {
    for i := 0 to |calls|
      invariant Grew(old(registry.assignment), registry.assignment)
    {
      match calls[i] {
        case Register(id, source) => var ok := registry.RegisterSource(id, source);
        case RecordRead(unit, offset, next, complete) =>
          var ok := registry.RecordUnitRetrieval(unit, offset, next, complete);
      }
    }
  }

  /** A submission valid against one snapshot of the registry stays valid against
      every later one. */
  lemma GrowingKeepsValid(sub: Submission, a: Assignment, b: Assignment)
    requires Grew(a, b) && ValidSubmission(sub, a)
    ensures ValidSubmission(sub, b)
  {
    forall t | t in sub.transitions ensures ValidTransition(t, sub.reassessments, b) {
      assert ValidTransition(t, sub.reassessments, a);
      var r := FindReassessment(sub.reassessments, t.finding);
      forall id | id in t.refs ensures SupportsTransition(id, t, b.findings[t.finding], r, b.sources) {
        assert SupportsTransition(id, t, a.findings[t.finding], r, a.sources);
      }
    }
    forall r | r in sub.reassessments ensures ValidReassessment(r, b) {
      assert ValidReassessment(r, a);
    }
    forall u | u in b.requirements ensures RequirementMet(u, b.requirements[u], sub.coverage, b.units) {
      assert RequirementMet(u, a.requirements[u], sub.coverage, a.units);
    }
  }
}
