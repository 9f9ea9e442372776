/** The journal store as one process uses it: `initialize` and `read` as methods
    that work on the filesystem, with every system call allowed to fail. */
module JournalStore {
  import opened Wrappers
  import opened JsonDiff
  import opened JournalProtocol

  type Disk = map<string, Directory>

  /** Where an attempt to initialize is cut short by an error, and whether the
      clean-up afterwards can still remove the temporary file. */
  datatype Fault = Fault(point: FaultPoint, unlinks: bool)

  datatype FaultPoint =
    | Nowhere
    | AtCreation
    | AtWriting(written: nat)
    | AtSync
    | AtRename
    | AtDirectorySync

  datatype ReadError = Incomplete | Unreadable | NotAnObject | Stale(member: string)

  datatype InitializeError = NotAdmitted | AlreadyInitialized | WriteFailed

  function Min(a: nat, b: nat): nat { if a < b then a else b }

  /** What an attempt leaves in the directory it made. */
  function Left(payload: Bytes, fault: Fault): Directory {
    match fault.point
    case Nowhere => Directory(None, Some(payload))
    case AtDirectorySync => Directory(None, Some(payload))
    case AtCreation => Directory(None, None)
    case AtWriting(n) => if fault.unlinks then Directory(None, None) else Directory(Some(payload[..Min(n, |payload|)]), None)
    case AtSync => if fault.unlinks then Directory(None, None) else Directory(Some(payload), None)
    case AtRename => if fault.unlinks then Directory(None, None) else Directory(Some(payload), None)
  }

  function After(c: Codec, disk: Disk, s: Scope, j: Journal, fault: Fault): Disk {
    if !Admitted(c, s, j) || c.key(s) in disk then disk
    else disk[c.key(s) := Left(c.encode(j).value, fault)]
  }

  function Verdict(c: Codec, disk: Disk, s: Scope, j: Journal, fault: Fault): Result<(), InitializeError> {
    if !Admitted(c, s, j) then Err(NotAdmitted)
    else if c.key(s) in disk then Err(AlreadyInitialized)
    else if fault.point == Nowhere then Ok(())
    else Err(WriteFailed)
  }

  /** The first scope member that a journal contradicts. */
  function StaleMember(j: Journal, s: Scope): Option<string> {
    if !("run_id" in j && j["run_id"] == JStr(s.runId)) then Some("run_id")
    else if !("vector_id" in j && j["vector_id"] == JStr(s.vectorId)) then Some("vector_id")
    else if !("boundary_id" in j && j["boundary_id"] == JStr(s.boundaryId)) then Some("boundary_id")
    else None
  }

  function Readable(c: Codec, disk: Disk, s: Scope): Result<Journal, ReadError> {
    if c.key(s) !in disk then Err(Incomplete)
    else
      var dir := disk[c.key(s)];
      if dir.temporary.Some? || dir.final.None? then Err(Incomplete)
      else match c.decode(dir.final.value)
           case None => Err(Unreadable)
           case Some(JObj(j)) =>
             if !ValidValue(JObj(j)) then Err(Unreadable)
             else (match StaleMember(j, s) case Some(name) => Err(Stale(name)) case None => Ok(j))
           case Some(_) => Err(NotAnObject)
  }

  class Store {
    const codec: Codec
    var disk: Disk

    constructor (codec: Codec, disk: Disk)
      ensures this.codec == codec && this.disk == disk
    {
      this.codec := codec;
      this.disk := disk;
    }

    method Put(key: string, dir: Directory)
      modifies this
      ensures disk == old(disk)[key := dir]
    {
      disk := disk[key := dir];
    }

    method Initialize(s: Scope, j: Journal, fault: Fault) returns (r: Result<(), InitializeError>)
      modifies this
      ensures disk == After(codec, old(disk), s, j, fault)
      ensures r == Verdict(codec, old(disk), s, j, fault)
    {
      if !Names(j, s) || !ValidValue(JObj(j)) {
        return Err(NotAdmitted);
      }
      var encoded := codec.encode(j);
      if encoded.None? {
        return Err(NotAdmitted);
      }
      var payload := encoded.value;
      var key := codec.key(s);
      if key in disk {
        return Err(AlreadyInitialized);
      }
      Put(key, Directory(None, None));
      var written := Write(key, payload, fault);
      if !written {
        // the exception handler: the temporary file may already be gone
        if fault.unlinks {
          Put(key, disk[key].(temporary := None));
        }
        return Err(WriteFailed);
      }
      return Ok(());
    }

    /** Creation, writing, flushing, renaming and the directory flush, up to the
        first that fails. */
    method Write(key: string, payload: Bytes, fault: Fault) returns (completed: bool)
      requires key in disk && disk[key] == Directory(None, None)
      modifies this
      ensures completed <==> fault.point == Nowhere
      ensures disk == old(disk)[key := Left(payload, fault.(unlinks := false))]
    {
      if fault.point == AtCreation {
        return false;
      }
      Put(key, Directory(Some([]), None));
      if fault.point.AtWriting? {
        Put(key, Directory(Some(payload[..Min(fault.point.written, |payload|)]), None));
        return false;
      }
      Put(key, Directory(Some(payload), None));
      if fault.point == AtSync || fault.point == AtRename {
        return false;
      }
      Put(key, Directory(None, Some(payload)));
      return fault.point != AtDirectorySync;
    }

    method Read(s: Scope) returns (r: Result<Journal, ReadError>)
      ensures r == Readable(codec, disk, s)
    {
      var key := codec.key(s);
      if key !in disk || disk[key].temporary.Some? || disk[key].final.None? {
        return Err(Incomplete);
      }
      var value := codec.decode(disk[key].final.value);
      match value {
        case Some(JObj(j)) =>
          if !ValidValue(JObj(j)) {
            return Err(Unreadable);
          }
          var stale := StaleMember(j, s);
          if stale.Some? {
            return Err(Stale(stale.value));
          }
          return Ok(j);
        case None => return Err(Unreadable);
        case Some(_) => return Err(NotAnObject);
      }
    }
  }

  // ----- what the two promise together -----

  predicate Fresh(c: Codec, disk: Disk, s: Scope) { c.key(s) !in disk }

  /** After an admitted attempt on a fresh scope, the journal reads back exactly
      when the rename happened: that includes the attempt that reported failure
      because flushing the directory failed. */
  lemma ReadableExactlyIfRenamed(c: Codec, disk: Disk, s: Scope, j: Journal, fault: Fault)
    requires Lawful(c) && Admitted(c, s, j) && Fresh(c, disk, s)
    ensures Readable(c, After(c, disk, s, j, fault), s).Ok? <==> fault.point == Nowhere || fault.point == AtDirectorySync
    ensures var r := Readable(c, After(c, disk, s, j, fault), s);
            r == (if fault.point == Nowhere || fault.point == AtDirectorySync then Ok(j) else Err(Incomplete))
  {}

  /** Nobody reads another scope's journal, also not under a shared key. */
  lemma ReadNamesItsScope(c: Codec, disk: Disk, s: Scope, t: Scope, j: Journal, fault: Fault)
    requires Lawful(c) && Admitted(c, s, j) && Fresh(c, disk, s)
    requires s != t && c.key(s) == c.key(t)
    ensures Readable(c, After(c, disk, s, j, fault), t).Err?
  {
    var left := Left(c.encode(j).value, fault);
    if left.final.Some? {
      assert c.decode(left.final.value) == Some(JObj(j));
      if StaleMember(j, t).None? {
        NamesDetermineScope(j, s, t);
      }
    }
  }

  // ----- the method takes the protocol's steps -----

  /** The steps of the protocol that an attempt with this fault takes. */
  function Steps(payload: Bytes, fault: Fault): seq<WriterStep> {
    var write := if payload == [] then [] else [WriteUpTo(|payload|)];
    match fault.point
    case Nowhere => [MakeDirectory, CreateTemporary] + write + [Sync, Rename, SyncDirectory]
    case AtCreation => [MakeDirectory, FailStep, Unlink(fault.unlinks)]
    case AtWriting(n) =>
      var part := Min(n, |payload|);
      [MakeDirectory, CreateTemporary] + (if part == 0 then [] else [WriteUpTo(part)]) + [FailStep, Unlink(fault.unlinks)]
    case AtSync => [MakeDirectory, CreateTemporary] + write + [FailStep, Unlink(fault.unlinks)]
    case AtRename => [MakeDirectory, CreateTemporary] + write + [Sync, FailStep, Unlink(fault.unlinks)]
    case AtDirectorySync => [MakeDirectory, CreateTemporary] + write + [Sync, Rename, FailStep, Unlink(fault.unlinks)]
  }

  /** Where a lone writer is after these steps: its directory, if there is one,
      and its program counter.  None if some step is not its next one. */
  function Walk(c: Codec, w: Writer, dir: Option<Directory>, steps: seq<WriterStep>): Option<(Option<Directory>, WriterPc)>
    decreases |steps|
  {
    if steps == [] then Some((dir, w.pc))
    else
      match WriterNext(c, w, steps[0], dir.Some?, if dir.Some? then dir.value else Directory(None, None))
      case None => None
      case Some((d, pc)) => Walk(c, w.(pc := pc), if d.Some? then d else dir, steps[1..])
  }

  function EndOf(fault: Fault): WriterPc { if fault.point == Nowhere then Succeeded else Failed }

  /** One step of a walk. */
  lemma WalkStep(c: Codec, w: Writer, dir: Option<Directory>, step: WriterStep, rest: seq<WriterStep>)
    ensures Walk(c, w, dir, [step] + rest) ==
            (match WriterNext(c, w, step, dir.Some?, if dir.Some? then dir.value else Directory(None, None))
             case None => None
             case Some((d, pc)) => Walk(c, w.(pc := pc), if d.Some? then d else dir, rest))
  {
    assert ([step] + rest)[1..] == rest;
  }

  lemma CreationFails(c: Codec, s: Scope, j: Journal, unlinks: bool)
    requires Admitted(c, s, j)
    ensures Walk(c, Writer(s, j, Idle), None, [MakeDirectory, FailStep, Unlink(unlinks)])
         == Some((Some(Directory(None, None)), Failed))
  {
    var w := Writer(s, j, Idle);
    WalkStep(c, w, None, MakeDirectory, [FailStep, Unlink(unlinks)]);
    assert [MakeDirectory] + [FailStep, Unlink(unlinks)] == [MakeDirectory, FailStep, Unlink(unlinks)];
    Fails(c, w.(pc := MadeDirectory), Directory(None, None), unlinks);
  }

  /** How many bytes an attempt writes. */
  function WrittenBy(payload: Bytes, fault: Fault): nat {
    if fault.point.AtWriting? then Min(fault.point.written, |payload|) else |payload|
  }

  lemma WritesFrom(c: Codec, w: Writer, payload: Bytes, part: nat, tail: seq<WriterStep>)
    requires payload == Payload(c, w) && w.pc == Writing(0) && part <= |payload|
    ensures Walk(c, w, Some(Directory(Some([]), None)), (if part == 0 then [] else [WriteUpTo(part)]) + tail)
         == Walk(c, w.(pc := Writing(part)), Some(Directory(Some(payload[..part]), None)), tail)
  {
    if part == 0 {
      assert payload[..0] == [] && [] + tail == tail;
    } else {
      WalkStep(c, w, Some(Directory(Some([]), None)), WriteUpTo(part), tail);
    }
  }

  lemma StartsWriting(c: Codec, s: Scope, j: Journal, rest: seq<WriterStep>)
    requires Admitted(c, s, j)
    ensures Walk(c, Writer(s, j, Idle), None, [MakeDirectory, CreateTemporary] + rest)
         == Walk(c, Writer(s, j, Writing(0)), Some(Directory(Some([]), None)), rest)
  {
    var w := Writer(s, j, Idle);
    WalkStep(c, w, None, MakeDirectory, [CreateTemporary] + rest);
    assert [MakeDirectory] + ([CreateTemporary] + rest) == [MakeDirectory, CreateTemporary] + rest;
    WalkStep(c, w.(pc := MadeDirectory), Some(Directory(None, None)), CreateTemporary, rest);
  }

  /** The steps after writing. */
  function Ending(fault: Fault): seq<WriterStep> {
    match fault.point
    case Nowhere => [Sync, Rename, SyncDirectory]
    case AtRename => [Sync, FailStep, Unlink(fault.unlinks)]
    case AtDirectorySync => [Sync, Rename, FailStep, Unlink(fault.unlinks)]
    case _ => [FailStep, Unlink(fault.unlinks)]
  }

  lemma StepsForm(payload: Bytes, fault: Fault)
    requires fault.point != AtCreation
    ensures var part := WrittenBy(payload, fault);
            Steps(payload, fault)
            == [MakeDirectory, CreateTemporary] + ((if part == 0 then [] else [WriteUpTo(part)]) + Ending(fault))
  {}

  /** The sequential `Initialize` is a path of the protocol: taking the steps of
      an attempt leaves the directory `Left` describes, and reports what
      `Initialize` reports. */
  lemma InitializeFollowsTheProtocol(c: Codec, s: Scope, j: Journal, fault: Fault)
    requires Admitted(c, s, j)
    ensures var payload := c.encode(j).value;
            Walk(c, Writer(s, j, Idle), None, Steps(payload, fault)) == Some((Some(Left(payload, fault)), EndOf(fault)))
  {
    var payload := c.encode(j).value;
    if fault.point == AtCreation {
      CreationFails(c, s, j, fault.unlinks);
    } else {
      var part := WrittenBy(payload, fault);
      StepsForm(payload, fault);
      StartsWriting(c, s, j, (if part == 0 then [] else [WriteUpTo(part)]) + Ending(fault));
      WritesFrom(c, Writer(s, j, Writing(0)), payload, part, Ending(fault));
      AfterWriting(c, Writer(s, j, Writing(part)), payload, fault, Ending(fault));
    }
  }

  lemma Fails(c: Codec, w: Writer, dir: Directory, unlinks: bool)
    requires w.pc == MadeDirectory || w.pc.Writing? || w.pc == Synced || w.pc == Renamed
    ensures Walk(c, w, Some(dir), [FailStep, Unlink(unlinks)])
         == Some((Some(if unlinks then dir.(temporary := None) else dir), Failed))
  {
    WalkStep(c, w, Some(dir), FailStep, [Unlink(unlinks)]);
    assert [FailStep] + [Unlink(unlinks)] == [FailStep, Unlink(unlinks)];
    WalkStep(c, w.(pc := Cleanup), Some(dir), Unlink(unlinks), []);
    assert [Unlink(unlinks)] + [] == [Unlink(unlinks)];
  }

  lemma AfterWriting(c: Codec, w: Writer, payload: Bytes, fault: Fault, tail: seq<WriterStep>)
    requires payload == Payload(c, w) && fault.point != AtCreation
    requires w.pc == Writing(WrittenBy(payload, fault)) && tail == Ending(fault)
    ensures Walk(c, w, Some(Directory(Some(payload[..w.pc.written]), None)), tail) == Some((Some(Left(payload, fault)), EndOf(fault)))
  {
    assert payload[..|payload|] == payload;
    var dir := Directory(Some(payload[..w.pc.written]), None);
    if fault.point.AtWriting? || fault.point == AtSync {
      Fails(c, w, dir, fault.unlinks);
    } else {
      assert tail == [Sync] + tail[1..];
      WalkStep(c, w, Some(dir), Sync, tail[1..]);
      var synced := w.(pc := Synced);
      if fault.point == AtRename {
        Fails(c, synced, dir, fault.unlinks);
      } else {
        assert tail[1..] == [Rename] + tail[2..];
        WalkStep(c, synced, Some(dir), Rename, tail[2..]);
        var renamed := w.(pc := Renamed);
        var done := Directory(None, Some(payload));
        if fault.point == AtDirectorySync {
          Fails(c, renamed, done, fault.unlinks);
        } else {
          assert tail[2..] == [SyncDirectory] + [];
          WalkStep(c, renamed, Some(done), SyncDirectory, []);
        }
      }
    }
  }

  /** What initializing reports, and what it leaves: nothing changes unless the
      journal is admitted and the key is new; then the directory is what the
      protocol's walk leaves, and only its success is reported as one. */
  lemma InitializeMeans(c: Codec, disk: Disk, s: Scope, j: Journal, fault: Fault)
    ensures var untouched, r := Admitted(c, s, j) && c.key(s) !in disk, Verdict(c, disk, s, j, fault);
            && (r == Ok(()) <==> untouched && fault.point == Nowhere)
            && (r == Err(NotAdmitted) <==> !Admitted(c, s, j))
            && (r == Err(AlreadyInitialized) <==> Admitted(c, s, j) && c.key(s) in disk)
            && (r == Err(WriteFailed) <==> untouched && fault.point != Nowhere)
    ensures var untouched, after := Admitted(c, s, j) && c.key(s) !in disk, After(c, disk, s, j, fault);
            && (!untouched ==> after == disk)
            && (untouched ==> after.Keys == disk.Keys + {c.key(s)} && forall key :: key in disk ==> after[key] == disk[key])
    ensures Admitted(c, s, j) && c.key(s) !in disk ==>
              Walk(c, Writer(s, j, Idle), None, Steps(c.encode(j).value, fault))
              == Some((Some(After(c, disk, s, j, fault)[c.key(s)]),
                       if Verdict(c, disk, s, j, fault).Ok? then Succeeded else Failed))
  {
    if Admitted(c, s, j) {
      InitializeFollowsTheProtocol(c, s, j, fault);
    }
  }

  // ----- reading alone -----

  function WalkReader(c: Codec, r: Reader, dir: Option<Directory>, steps: seq<ReaderStep>): Option<ReaderPc>
    decreases |steps|
  {
    if steps == [] then Some(r.pc)
    else
      match ReaderNext(c, r, steps[0], dir.Some?, if dir.Some? then dir.value else Directory(None, None))
      case None => None
      case Some(pc) => WalkReader(c, r.(pc := pc), dir, steps[1..])
  }

  lemma WalkReaderStep(c: Codec, r: Reader, dir: Option<Directory>, step: ReaderStep, rest: seq<ReaderStep>)
    ensures WalkReader(c, r, dir, [step] + rest) ==
            (match ReaderNext(c, r, step, dir.Some?, if dir.Some? then dir.value else Directory(None, None))
             case None => None
             case Some(pc) => WalkReader(c, r.(pc := pc), dir, rest))
  {
    assert ([step] + rest)[0] == step && ([step] + rest)[1..] == rest;
  }

  /** The steps of a reader that nobody disturbs. */
  function ReadSteps(dir: Directory): seq<ReaderStep> {
    [Begin] + ([ListTemporary] + ([ListFinal] + ([EndListing] + ProbeSteps(dir))))
  }

  function ProbeSteps(dir: Directory): seq<ReaderStep> {
    [LookTemporary] + if dir.temporary.Some? then []
    else [LookFinal] + if dir.final.None? then [] else [Open] + Content(dir.final.value)
  }

  function Content(bytes: Bytes): seq<ReaderStep> {
    if bytes == [] then [EndOfFile] + [] else [ReadMore(|bytes|)] + ([EndOfFile] + [])
  }

  function ReadEnd(r: Result<Journal, ReadError>): ReaderPc {
    match r
    case Ok(j) => Got(j)
    case Err(Incomplete) => Absent
    case Err(_) => Corrupt
  }

  lemma ContentIsRead(c: Codec, s: Scope, dir: Directory, late: bool)
    requires dir.final.Some?
    ensures WalkReader(c, Reader(s, Reading([]), late), Some(dir), Content(dir.final.value))
         == Some(match Parse(c, s, dir.final.value) case Some(j) => Got(j) case None => Corrupt)
  {
    var bytes := dir.final.value;
    if bytes == [] {
      WalkReaderStep(c, Reader(s, Reading([]), late), Some(dir), EndOfFile, []);
    } else {
      assert [] + bytes[0..|bytes|] == bytes;
      WalkReaderStep(c, Reader(s, Reading([]), late), Some(dir), ReadMore(|bytes|), [EndOfFile] + []);
      WalkReaderStep(c, Reader(s, Reading(bytes), late), Some(dir), EndOfFile, []);
    }
  }

  /** The steps up to the second look for the temporary file. */
  lemma ListingIsRead(c: Codec, s: Scope, dir: Directory, late: bool, rest: seq<ReaderStep>)
    ensures WalkReader(c, Reader(s, Start, late), Some(dir),
                       [Begin] + ([ListTemporary] + ([ListFinal] + ([EndListing] + rest))))
         == WalkReader(c, Reader(s, ProbeTemporary(dir.temporary.None? && dir.final.Some?), late), Some(dir), rest)
  {
    var t, f := dir.temporary.Some?, dir.final.Some?;
    WalkReaderStep(c, Reader(s, Start, late), Some(dir), Begin, [ListTemporary] + ([ListFinal] + ([EndListing] + rest)));
    WalkReaderStep(c, Reader(s, Listing(None, None), late), Some(dir), ListTemporary, [ListFinal] + ([EndListing] + rest));
    WalkReaderStep(c, Reader(s, Listing(Some(t), None), late), Some(dir), ListFinal, [EndListing] + rest);
    WalkReaderStep(c, Reader(s, Listing(Some(t), Some(f)), late), Some(dir), EndListing, rest);
  }

  /** And those from there on. */
  lemma ProbingIsRead(c: Codec, s: Scope, dir: Directory, late: bool)
    ensures WalkReader(c, Reader(s, ProbeTemporary(dir.temporary.None? && dir.final.Some?), late), Some(dir), ProbeSteps(dir))
         == Some(if dir.temporary.Some? || dir.final.None? then Absent
                 else match Parse(c, s, dir.final.value) case Some(j) => Got(j) case None => Corrupt)
  {
    var t, f := dir.temporary.Some?, dir.final.Some?;
    var after := if f then [Open] + Content(dir.final.value) else [];
    WalkReaderStep(c, Reader(s, ProbeTemporary(!t && f), late), Some(dir), LookTemporary, if t then [] else [LookFinal] + after);
    if !t {
      WalkReaderStep(c, Reader(s, ProbeFinal(f), late), Some(dir), LookFinal, after);
      if f {
        WalkReaderStep(c, Reader(s, Opening, late), Some(dir), Open, Content(dir.final.value));
        ContentIsRead(c, s, dir, late);
      }
    }
  }

  /** Reading a directory that nobody touches is a path of the protocol: it ends
      with the journal, or absent where the store reports it incomplete, or corrupt
      where the store reports that it is unreadable or another's. */
  lemma ReadFollowsTheProtocol(c: Codec, disk: Disk, s: Scope, late: bool)
    requires c.key(s) in disk
    ensures WalkReader(c, Reader(s, Start, late), Some(disk[c.key(s)]), ReadSteps(disk[c.key(s)]))
         == Some(ReadEnd(Readable(c, disk, s)))
  {
    var dir := disk[c.key(s)];
    ListingIsRead(c, s, dir, late, ProbeSteps(dir));
    ProbingIsRead(c, s, dir, late);
    if dir.temporary.None? && dir.final.Some? {
      ParsedIsReadable(c, disk, s);
    }
  }

  lemma ParsedIsReadable(c: Codec, disk: Disk, s: Scope)
    requires c.key(s) in disk && disk[c.key(s)].final.Some? && disk[c.key(s)].temporary.None?
    ensures ReadEnd(Readable(c, disk, s))
         == match Parse(c, s, disk[c.key(s)].final.value) case Some(j) => Got(j) case None => Corrupt
  {}

  /** Why a read fails, in this order: no complete journal, content that is not a
      valid object, or the first name that is another's. */
  lemma ReadableMeans(c: Codec, disk: Disk, s: Scope)
    ensures var r := Readable(c, disk, s);
            var complete := c.key(s) in disk && disk[c.key(s)].temporary.None? && disk[c.key(s)].final.Some?;
            && (r == Err(Incomplete) <==> !complete)
            && (complete ==>
                  var content := c.decode(disk[c.key(s)].final.value);
                  && (r == Err(NotAnObject) <==> content.Some? && !content.value.JObj?)
                  && (r == Err(Unreadable) <==> content.None? || (content.value.JObj? && !ValidValue(content.value)))
                  && (forall j :: r == Ok(j) <==> content == Some(JObj(j)) && ValidValue(JObj(j)) && Names(j, s)))
    ensures forall name :: Readable(c, disk, s) == Err(Stale(name)) ==> name in {"run_id", "vector_id", "boundary_id"}
  {}
}
