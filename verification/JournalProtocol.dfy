/** The authoritative journal as a protocol: several initializers and readers
    take filesystem steps in any order, any of them may stop for ever, and any
    step may fail.  One directory per storage key holds at most two entries,
    "journal.json.tmp" and "journal.json". */
module JournalProtocol {
  import opened Collections
  import opened Wrappers
  import opened Text
  import opened JsonDiff
  import opened JsonPatch

  type Bytes = seq<bv8>

  datatype Scope = Scope(runId: string, vectorId: string, boundaryId: string)

  type Journal = map<string, Json>

  /** Hashing a scope and writing and reading JSON.  Nothing is known about
      `key`: two scopes may share one. */
  datatype Codec = Codec(key: Scope -> string, encode: Journal -> Option<Bytes>, decode: Bytes -> Option<Json>)

  /** `_validate_value` */
  predicate ValidValue(j: Json) {
    match j
    case JInt(i) => -SAFE_INTEGER <= i <= SAFE_INTEGER
    case JFloat(_) => false
    case JArr(items) => forall i :: 0 <= i < |items| ==> ValidValue(items[i])
    case JObj(members) => forall k :: k in members ==> ValidValue(members[k])
    case _ => true
  }

  /** A value that a journal may hold by itself. */
  predicate Storable(j: Json) { !j.JFloat? && (j.JInt? ==> -9007199254740991 <= j.i <= 9007199254740991) }

  ghost predicate AllStorable(j: Json) {
    forall tokens :: ValueAt(j, tokens).Some? ==> Storable(ValueAt(j, tokens).value)
  }

  lemma {:induction false} ValidBelow(j: Json, tokens: seq<string>)
    requires ValidValue(j) && ValueAt(j, tokens).Some?
    ensures Storable(ValueAt(j, tokens).value)
    decreases |tokens|
  {
    if tokens != [] {
      ValidBelow(Child(j, tokens[0]).value, tokens[1..]);
    }
  }

  lemma OneFurther(j: Json, token: string, child: Json, tokens: seq<string>)
    requires Child(j, token) == Ok(child)
    ensures ValueAt(j, [token] + tokens) == ValueAt(child, tokens)
  {
    assert ([token] + tokens)[1..] == tokens;
  }

  lemma {:induction false} StorableEverywhere(j: Json)
    requires AllStorable(j)
    ensures ValidValue(j)
    decreases j
  {
    assert ValueAt(j, []) == Some(j) && Storable(ValueAt(j, []).value);
    match j
    case JArr(items) =>
      forall i | 0 <= i < |items|
        ensures ValidValue(items[i])
      {
        ArrayIndexIsNumeral(Decimal(i), |items|, false, i);
        forall tokens | ValueAt(items[i], tokens).Some?
          ensures Storable(ValueAt(items[i], tokens).value)
        {
          OneFurther(j, Decimal(i), items[i], tokens);
        }
        StorableEverywhere(items[i]);
      }
    case JObj(members) =>
      forall k | k in members
        ensures ValidValue(members[k])
      {
        forall tokens | ValueAt(members[k], tokens).Some?
          ensures Storable(ValueAt(members[k], tokens).value)
        {
          OneFurther(j, k, members[k], tokens);
        }
        StorableEverywhere(members[k]);
      }
    case _ =>
  }

  /** A journal may hold a document exactly if no value anywhere in it is a
      floating-point number or an integer that binary64 does not hold exactly. */
  lemma ValidMeansStorable(j: Json)
    ensures ValidValue(j) <==> AllStorable(j)
  {
    if ValidValue(j) {
      forall tokens | ValueAt(j, tokens).Some?
        ensures Storable(ValueAt(j, tokens).value)
      {
        ValidBelow(j, tokens);
      }
    }
    if AllStorable(j) {
      StorableEverywhere(j);
    }
  }

  /** Reading back what was written gives the same value. */
  ghost predicate Lawful(c: Codec) {
    forall j :: c.encode(j).Some? && ValidValue(JObj(j)) ==> c.decode(c.encode(j).value) == Some(JObj(j))
  }

  predicate Names(j: Journal, s: Scope) {
    && "run_id" in j && j["run_id"] == JStr(s.runId)
    && "vector_id" in j && j["vector_id"] == JStr(s.vectorId)
    && "boundary_id" in j && j["boundary_id"] == JStr(s.boundaryId)
  }

  /** The checks `initialize` makes before it touches the filesystem. */
  predicate Admitted(c: Codec, s: Scope, j: Journal) {
    Names(j, s) && ValidValue(JObj(j)) && c.encode(j).Some?
  }

  /** What `read` accepts as the content for a scope. */
  function Parse(c: Codec, s: Scope, content: Bytes): Option<Journal> {
    match c.decode(content)
    case Some(JObj(j)) => if ValidValue(JObj(j)) && Names(j, s) then Some(j) else None
    case _ => None
  }

  lemma NamesDetermineScope(j: Journal, s: Scope, t: Scope)
    requires Names(j, s) && Names(j, t)
    ensures s == t
  {}

  // ----- states -----

  datatype Directory = Directory(temporary: Option<Bytes>, final: Option<Bytes>)

  /** Where an initializer is.  `Cleanup` is the exception handler. */
  datatype WriterPc =
    | Idle
    | Rejected
    | Refused
    | MadeDirectory
    | Writing(written: nat)
    | Synced
    | Renamed
    | Cleanup
    | Failed
    | Succeeded

  datatype Writer = Writer(scope: Scope, journal: Journal, pc: WriterPc)

  /** Where a reader is.  The directory listing is not atomic: the two names are
      looked up one after the other, in either order. */
  datatype ReaderPc =
    | Start
    | Listing(sawTemporary: Option<bool>, sawFinal: Option<bool>)
    | ProbeTemporary(onlyFinal: bool)
    | ProbeFinal(onlyFinal: bool)
    | Opening
    | Reading(sofar: Bytes)
    | Got(journal: Journal)
    | Absent
    | Corrupt
    | IoError

  /** `late` records that the journal was complete when the reader started. */
  datatype Reader = Reader(scope: Scope, pc: ReaderPc, late: bool)

  /** `owner` is history: which initializer made the directory of a key. */
  datatype State = State(disk: map<string, Directory>, writers: map<nat, Writer>, readers: map<nat, Reader>,
                         owner: map<string, nat>)

  predicate Initial(s: State) {
    && s.disk == map[] && s.owner == map[]
    && (forall w :: w in s.writers ==> s.writers[w].pc == Idle)
    && forall r :: r in s.readers ==> s.readers[r].pc == Start && !s.readers[r].late
  }

  // ----- steps of an initializer -----

  datatype WriterStep =
    | Check
    | MakeDirectory
    | CreateTemporary
    | WriteUpTo(n: nat)
    | Sync
    | Rename
    | SyncDirectory
    | FailStep
    | Unlink(works: bool)

  function Payload(c: Codec, w: Writer): Bytes {
    match c.encode(w.journal) case Some(p) => p case None => []
  }

  /** The directory and program counter after one step; None if the step is not
      the writer's next one. */
  function WriterNext(c: Codec, w: Writer, step: WriterStep, exists': bool, dir: Directory): Option<(Option<Directory>, WriterPc)> {
    match (w.pc, step)
    case (Idle, Check) =>
      if Admitted(c, w.scope, w.journal) then None else Some((None, Rejected))
    case (Idle, MakeDirectory) =>
      if !Admitted(c, w.scope, w.journal) then None
      else if exists' then Some((None, Refused))
      else Some((Some(Directory(None, None)), MadeDirectory))
    case (MadeDirectory, CreateTemporary) =>
      // exclusive creation
      if dir.temporary.Some? then Some((None, Cleanup)) else Some((Some(dir.(temporary := Some([]))), Writing(0)))
    case (Writing(k), WriteUpTo(n)) =>
      if k < n <= |Payload(c, w)| then Some((Some(dir.(temporary := Some(Payload(c, w)[..n]))), Writing(n))) else None
    case (Writing(k), Sync) =>
      if k == |Payload(c, w)| then Some((None, Synced)) else None
    case (Synced, Rename) =>
      if dir.temporary.None? then Some((None, Cleanup)) else Some((Some(Directory(None, dir.temporary)), Renamed))
    case (Renamed, SyncDirectory) => Some((None, Succeeded))
    case (MadeDirectory, FailStep) => Some((None, Cleanup))
    case (Writing(_), FailStep) => Some((None, Cleanup))
    case (Synced, FailStep) => Some((None, Cleanup))
    case (Renamed, FailStep) => Some((None, Cleanup))
    case (Cleanup, Unlink(works)) => Some((if works then Some(dir.(temporary := None)) else None, Failed))
    case _ => None
  }

  /** What a writer finds at its key. */
  function DirectoryAt(s: State, key: string): Directory {
    if key in s.disk then s.disk[key] else Directory(None, None)
  }

  predicate WriterMoves(c: Codec, s: State, s': State, id: nat, step: WriterStep) {
    id in s.writers &&
    var w := s.writers[id];
    var key := c.key(w.scope);
    match WriterNext(c, w, step, key in s.disk, DirectoryAt(s, key))
    case None => false
    case Some((dir, pc)) =>
      && s'.writers == s.writers[id := w.(pc := pc)]
      && s'.readers == s.readers
      && s'.disk == (if dir.Some? then s.disk[key := dir.value] else s.disk)
      && s'.owner == (if pc == MadeDirectory then s.owner[key := id] else s.owner)
  }

  // ----- steps of a reader -----

  datatype ReaderStep =
    | Begin
    | ListTemporary
    | ListFinal
    | EndListing
    | LookTemporary
    | LookFinal
    | Open
    | ReadMore(n: nat)
    | EndOfFile
    | FailRead

  function ReaderNext(c: Codec, r: Reader, step: ReaderStep, exists': bool, dir: Directory): Option<ReaderPc> {
    match (r.pc, step)
    case (Start, Begin) => Some(if exists' then Listing(None, None) else Absent)
    case (Listing(t, f), ListTemporary) => if t.Some? then None else Some(Listing(Some(dir.temporary.Some?), f))
    case (Listing(t, f), ListFinal) => if f.Some? then None else Some(Listing(t, Some(dir.final.Some?)))
    case (Listing(Some(t), Some(f)), EndListing) => Some(ProbeTemporary(!t && f))
    case (ProbeTemporary(only), LookTemporary) => Some(if dir.temporary.Some? then Absent else ProbeFinal(only))
    case (ProbeFinal(only), LookFinal) => Some(if dir.final.None? || !only then Absent else Opening)
    case (Opening, Open) => Some(if dir.final.None? then Corrupt else Reading([]))
    case (Reading(sofar), ReadMore(n)) =>
      // the file is read in pieces, each as the file is at that moment
      if dir.final.Some? && |sofar| < n <= |dir.final.value| then Some(Reading(sofar + dir.final.value[|sofar|..n])) else None
    case (Reading(sofar), EndOfFile) =>
      if dir.final.Some? && |sofar| < |dir.final.value| then None
      else Some(match Parse(c, r.scope, sofar) case Some(j) => Got(j) case None => Corrupt)
    case (Got(_), _) => None
    case (Absent, _) => None
    case (Corrupt, _) => None
    case (IoError, _) => None
    case (_, FailRead) => Some(IoError)
    case _ => None
  }

  predicate ReaderMoves(c: Codec, s: State, s': State, id: nat, step: ReaderStep) {
    id in s.readers &&
    var r := s.readers[id];
    var key := c.key(r.scope);
    var dir := DirectoryAt(s, key);
    match ReaderNext(c, r, step, key in s.disk, dir)
    case None => false
    case Some(pc) =>
      && s'.readers == s.readers[id := r.(pc := pc, late := r.late || (step == Begin && dir.final.Some?))]
      && s'.writers == s.writers && s'.disk == s.disk && s'.owner == s.owner
  }

  ghost predicate Next(c: Codec, s: State, s': State) {
    || (exists id, step :: WriterMoves(c, s, s', id, step))
    || (exists id, step :: ReaderMoves(c, s, s', id, step))
  }

  /** A run: any interleaving; a process that has crashed takes no more steps. */
  ghost predicate Run(c: Codec, states: seq<State>) {
    && |states| > 0 && Initial(states[0])
    && forall i, j :: 0 <= i && j == i + 1 < |states| ==> Next(c, states[i], states[j])
  }

  // ----- the invariant -----

  predicate Begun(pc: WriterPc) { pc != Idle && pc != Rejected && pc != Refused }

  predicate IsPrefix(a: Bytes, b: Bytes) { |a| <= |b| && b[..|a|] == a }

  /** What the directory of a key looks like, by where its owner is. */
  predicate DirectoryFits(c: Codec, w: Writer, dir: Directory) {
    var p := Payload(c, w);
    && (dir.final.Some? ==> dir.final.value == p && dir.temporary.None?)
    && (dir.temporary.Some? ==> IsPrefix(dir.temporary.value, p))
    && match w.pc
       case MadeDirectory => dir == Directory(None, None)
       case Writing(n) => n <= |p| && dir == Directory(Some(p[..n]), None)
       case Synced => dir == Directory(Some(p), None)
       case Renamed => dir == Directory(None, Some(p))
       case Succeeded => dir == Directory(None, Some(p))
       case _ => true
  }

  predicate OwnerFits(c: Codec, s: State, key: string) {
    && key in s.disk && key in s.owner && s.owner[key] in s.writers
    && var w := s.writers[s.owner[key]];
    c.key(w.scope) == key && Begun(w.pc) && Admitted(c, w.scope, w.journal) && DirectoryFits(c, w, s.disk[key])
  }

  /** A writer that got past mkdir owns the directory. */
  predicate WriterFits(c: Codec, s: State, id: nat)
    requires id in s.writers
  {
    var key := c.key(s.writers[id].scope);
    Begun(s.writers[id].pc) ==> key in s.owner && s.owner[key] == id
  }

  /** A reader that has opened the file sees the whole payload's prefix; one
      that started after completion meets nothing unexpected. */
  predicate ReaderFits(c: Codec, s: State, id: nat)
    requires id in s.readers
  {
    var r := s.readers[id];
    var dir := DirectoryAt(s, c.key(r.scope));
    && (r.late ==> dir.final.Some?)
    && (match r.pc
        case Reading(sofar) => dir.final.Some? && IsPrefix(sofar, dir.final.value)
        case Got(j) => dir.final.Some? && Parse(c, r.scope, dir.final.value) == Some(j)
        case Listing(t, f) => r.late ==> t != Some(true) && f != Some(false)
        case ProbeTemporary(only) => r.late ==> only
        case ProbeFinal(only) => r.late ==> only
        case Opening => dir.final.Some?
        case Absent => !r.late
        case Corrupt => dir.final.Some? && Parse(c, r.scope, dir.final.value).None?
        case _ => true)
  }

  ghost predicate Inv(c: Codec, s: State) {
    && s.owner.Keys == s.disk.Keys
    && (forall key {:trigger OwnerFits(c, s, key)} :: key in s.disk ==> OwnerFits(c, s, key))
    && (forall id {:trigger WriterFits(c, s, id)} :: id in s.writers ==> WriterFits(c, s, id))
    && forall id {:trigger ReaderFits(c, s, id)} :: id in s.readers ==> ReaderFits(c, s, id)
  }

  lemma InitialInv(c: Codec, s: State)
    requires Initial(s)
    ensures Inv(c, s)
  {}

  // ----- a writer's step keeps it -----

  lemma OwnDirectoryFits(c: Codec, w: Writer, step: WriterStep, dir: Directory)
    requires Begun(w.pc) && DirectoryFits(c, w, dir)
    requires WriterNext(c, w, step, true, dir).Some?
    ensures var (d, pc) := WriterNext(c, w, step, true, dir).value;
            Begun(pc) && pc != MadeDirectory
            && DirectoryFits(c, w.(pc := pc), if d.Some? then d.value else dir)
  {
    var p := Payload(c, w);
    assert p[..0] == [] && p[..|p|] == p;
  }

  /** The mover owns its directory, or has just made it, or touches nothing. */
  lemma WriterKeepsOwnKey(c: Codec, s: State, s': State, id: nat, step: WriterStep)
    requires Inv(c, s) && WriterMoves(c, s, s', id, step)
    ensures var key := c.key(s.writers[id].scope);
            key in s'.disk ==> OwnerFits(c, s', key)
  {
    var w := s.writers[id];
    var key := c.key(w.scope);
    assert WriterFits(c, s, id);
    if key in s.disk {
      assert OwnerFits(c, s, key);
      if Begun(w.pc) {
        OwnDirectoryFits(c, w, step, s.disk[key]);
      }
    }
  }

  lemma WriterKeepsOwners(c: Codec, s: State, s': State, id: nat, step: WriterStep, key: string)
    requires Inv(c, s) && WriterMoves(c, s, s', id, step) && key in s'.disk
    ensures OwnerFits(c, s', key)
  {
    if key == c.key(s.writers[id].scope) {
      WriterKeepsOwnKey(c, s, s', id, step);
    } else {
      assert OwnerFits(c, s, key);
    }
  }

  lemma WriterKeepsWriters(c: Codec, s: State, s': State, id: nat, step: WriterStep, other: nat)
    requires Inv(c, s) && WriterMoves(c, s, s', id, step) && other in s'.writers
    ensures WriterFits(c, s', other)
  {
    assert WriterFits(c, s, id) && WriterFits(c, s, other);
  }

  /** A completed journal is never touched again. */
  lemma WriterKeepsFinal(c: Codec, s: State, s': State, id: nat, step: WriterStep, key: string)
    requires Inv(c, s) && WriterMoves(c, s, s', id, step)
    requires DirectoryAt(s, key).final.Some?
    ensures DirectoryAt(s', key) == DirectoryAt(s, key)
  {
    assert WriterFits(c, s, id);
    assert OwnerFits(c, s, key);
  }

  lemma WriterKeepsReaders(c: Codec, s: State, s': State, id: nat, step: WriterStep, reader: nat)
    requires Inv(c, s) && WriterMoves(c, s, s', id, step) && reader in s'.readers
    ensures ReaderFits(c, s', reader)
  {
    assert ReaderFits(c, s, reader);
    var key := c.key(s.readers[reader].scope);
    if DirectoryAt(s, key).final.Some? {
      WriterKeepsFinal(c, s, s', id, step, key);
    }
  }

  lemma WriterKeepsInv(c: Codec, s: State, s': State, id: nat, step: WriterStep)
    requires Inv(c, s) && WriterMoves(c, s, s', id, step)
    ensures Inv(c, s')
  {
    forall key | key in s'.disk
      ensures OwnerFits(c, s', key)
    {
      WriterKeepsOwners(c, s, s', id, step, key);
    }
    forall other | other in s'.writers
      ensures WriterFits(c, s', other)
    {
      WriterKeepsWriters(c, s, s', id, step, other);
    }
    forall reader | reader in s'.readers
      ensures ReaderFits(c, s', reader)
    {
      WriterKeepsReaders(c, s, s', id, step, reader);
    }
    assert WriterFits(c, s, id);
    assert s'.owner.Keys == s'.disk.Keys;
  }

  // ----- a reader's step keeps it -----

  lemma ReaderKeepsItself(c: Codec, s: State, s': State, id: nat, step: ReaderStep)
    requires Inv(c, s) && ReaderMoves(c, s, s', id, step)
    ensures ReaderFits(c, s', id)
  {
    var r := s.readers[id];
    var key := c.key(r.scope);
    assert ReaderFits(c, s, id);
    if key in s.disk {
      assert OwnerFits(c, s, key);
    }
    if r.pc.Reading? {
      var content := s.disk[key].final.value;
      assert step == EndOfFile ==> |r.pc.sofar| == |content| && content[..|content|] == content;
    }
  }

  lemma ReaderKeepsOthers(c: Codec, s: State, s': State, id: nat, step: ReaderStep)
    requires Inv(c, s) && ReaderMoves(c, s, s', id, step)
    ensures forall key :: key in s'.disk ==> OwnerFits(c, s', key)
    ensures forall other :: other in s'.writers ==> WriterFits(c, s', other)
    ensures forall other :: other in s'.readers && other != id ==> ReaderFits(c, s', other)
  {
    forall key | key in s'.disk
      ensures OwnerFits(c, s', key)
    {
      assert OwnerFits(c, s, key);
    }
    forall other | other in s'.writers
      ensures WriterFits(c, s', other)
    {
      assert WriterFits(c, s, other);
    }
    forall other | other in s'.readers && other != id
      ensures ReaderFits(c, s', other)
    {
      assert ReaderFits(c, s, other);
    }
  }

  lemma ReaderKeepsInv(c: Codec, s: State, s': State, id: nat, step: ReaderStep)
    requires Inv(c, s) && ReaderMoves(c, s, s', id, step)
    ensures Inv(c, s')
  {
    ReaderKeepsOthers(c, s, s', id, step);
    ReaderKeepsItself(c, s, s', id, step);
  }

  lemma NextKeepsInv(c: Codec, s: State, s': State)
    requires Inv(c, s) && Next(c, s, s')
    ensures Inv(c, s')
  {
    if id, step :| WriterMoves(c, s, s', id, step) {
      WriterKeepsInv(c, s, s', id, step);
    } else {
      var id, step :| ReaderMoves(c, s, s', id, step);
      ReaderKeepsInv(c, s, s', id, step);
    }
  }

  lemma {:induction false} RunInv(c: Codec, states: seq<State>, i: nat)
    requires Run(c, states) && i < |states|
    ensures Inv(c, states[i])
  {
    if i == 0 {
      InitialInv(c, states[0]);
    } else {
      RunInv(c, states, i - 1);
      NextKeepsInv(c, states[i - 1], states[i]);
    }
  }

  // ----- what every run guarantees -----

  predicate OwnerStays(s: State, s': State, key: string) {
    key in s.owner ==> (key in s'.owner && s'.owner[key] == s.owner[key])
  }

  predicate WriterStays(s: State, s': State, id: nat) {
    id in s.writers ==>
      (id in s'.writers && s'.writers[id].scope == s.writers[id].scope && s'.writers[id].journal == s.writers[id].journal)
  }

  predicate ReaderStays(s: State, s': State, id: nat) {
    id in s.readers ==>
      (id in s'.readers && s'.readers[id].scope == s.readers[id].scope
       && (s.readers[id].pc.Got? ==> s'.readers[id].pc == s.readers[id].pc))
  }

  predicate FinalStays(s: State, s': State, key: string) {
    DirectoryAt(s, key).final.Some? ==> DirectoryAt(s', key) == DirectoryAt(s, key)
  }

  /** Ownership, scopes, journals and completed content are settled for good. */
  ghost predicate Settled(s: State, s': State) {
    && (forall key :: OwnerStays(s, s', key))
    && (forall id :: WriterStays(s, s', id))
    && (forall id :: ReaderStays(s, s', id))
    && forall key :: FinalStays(s, s', key)
  }

  lemma SettledReflexive(s: State)
    ensures Settled(s, s)
  {}

  lemma SettledTransitive(s: State, s': State, s'': State)
    requires Settled(s, s') && Settled(s', s'')
    ensures Settled(s, s'')
  {
    forall key
      ensures OwnerStays(s, s'', key) && FinalStays(s, s'', key)
    {
      assert OwnerStays(s, s', key) && OwnerStays(s', s'', key);
      assert FinalStays(s, s', key) && FinalStays(s', s'', key);
    }
    forall id
      ensures WriterStays(s, s'', id) && ReaderStays(s, s'', id)
    {
      assert WriterStays(s, s', id) && WriterStays(s', s'', id);
      assert ReaderStays(s, s', id) && ReaderStays(s', s'', id);
    }
  }

  lemma NextSettles(c: Codec, s: State, s': State)
    requires Inv(c, s) && Next(c, s, s')
    ensures Settled(s, s')
  {
    if id, step :| WriterMoves(c, s, s', id, step) {
      WriterSettles(c, s, s', id, step);
    } else {
      var id, step :| ReaderMoves(c, s, s', id, step);
    }
  }

  lemma WriterSettles(c: Codec, s: State, s': State, id: nat, step: WriterStep)
    requires Inv(c, s) && WriterMoves(c, s, s', id, step)
    ensures Settled(s, s')
  {
    assert WriterFits(c, s, id);
    var made := c.key(s.writers[id].scope);
    if made in s.disk {
      assert OwnerFits(c, s, made);
    }
    forall key
      ensures FinalStays(s, s', key)
    {
      if DirectoryAt(s, key).final.Some? {
        WriterKeepsFinal(c, s, s', id, step, key);
      }
    }
  }

  lemma StepSettles(c: Codec, states: seq<State>, j: nat)
    requires Run(c, states) && 0 < j < |states|
    ensures Settled(states[j - 1], states[j])
  {
    RunInv(c, states, j - 1);
    NextSettles(c, states[j - 1], states[j]);
  }

  lemma {:induction false} RunSettles(c: Codec, states: seq<State>, i: nat, j: nat)
    requires Run(c, states) && i <= j < |states|
    ensures Settled(states[i], states[j])
    decreases j
  {
    if i == j {
      SettledReflexive(states[i]);
    } else {
      RunSettles(c, states, i, j - 1);
      StepSettles(c, states, j);
      SettledTransitive(states[i], states[j - 1], states[j]);
    }
  }

  /** At most one initializer of a storage key, hence of a scope, gets past
      mkdir, so at most one succeeds. */
  lemma AtMostOneInitializer(c: Codec, states: seq<State>, i: nat, j: nat, v: nat, w: nat)
    requires Run(c, states) && i <= j < |states|
    requires v in states[i].writers && w in states[j].writers
    requires Begun(states[i].writers[v].pc) && Begun(states[j].writers[w].pc)
    requires c.key(states[i].writers[v].scope) == c.key(states[j].writers[w].scope)
    ensures v == w
  {
    RunInv(c, states, i);
    RunInv(c, states, j);
    RunSettles(c, states, i, j);
    assert WriterFits(c, states[i], v) && WriterFits(c, states[j], w);
    assert WriterStays(states[i], states[j], v);
    assert OwnerStays(states[i], states[j], c.key(states[i].writers[v].scope));
  }

  /** A successful read returns the whole journal of the initializer that won
      the mkdir, and that initializer's scope is the reader's own, also when
      other scopes share the storage key. */
  lemma ReadIsTheWinners(c: Codec, states: seq<State>, i: nat, r: nat)
    requires Lawful(c) && Run(c, states) && i < |states|
    requires r in states[i].readers && states[i].readers[r].pc.Got?
    ensures var s := states[i];
            var key := c.key(s.readers[r].scope);
            key in s.owner && s.owner[key] in s.writers
            && s.writers[s.owner[key]].scope == s.readers[r].scope
            && s.writers[s.owner[key]].journal == s.readers[r].pc.journal
  {
    var s := states[i];
    RunInv(c, states, i);
    assert ReaderFits(c, s, r);
    var key := c.key(s.readers[r].scope);
    assert OwnerFits(c, s, key);
    var w := s.writers[s.owner[key]];
    assert c.decode(Payload(c, w)) == Some(JObj(w.journal));
    NamesDetermineScope(w.journal, w.scope, s.readers[r].scope);
  }

  /** Any two successful reads of a scope, whenever they happen, agree. */
  lemma ReadsAgree(c: Codec, states: seq<State>, i: nat, j: nat, q: nat, r: nat)
    requires Lawful(c) && Run(c, states) && i <= j < |states|
    requires q in states[i].readers && states[i].readers[q].pc.Got?
    requires r in states[j].readers && states[j].readers[r].pc.Got?
    requires states[i].readers[q].scope == states[j].readers[r].scope
    ensures states[i].readers[q].pc.journal == states[j].readers[r].pc.journal
  {
    ReadIsTheWinners(c, states, i, q);
    ReadIsTheWinners(c, states, j, r);
    RunSettles(c, states, i, j);
    var key := c.key(states[i].readers[q].scope);
    assert OwnerStays(states[i], states[j], key) && WriterStays(states[i], states[j], states[i].owner[key]);
  }

  /** The journal of a scope is complete: the initializer that made its
      directory has renamed, whatever it has reported or still will. */
  predicate Complete(c: Codec, s: State, scope: Scope) {
    var key := c.key(scope);
    && DirectoryAt(s, key).final.Some?
    && key in s.owner && s.owner[key] in s.writers && s.writers[s.owner[key]].scope == scope
  }

  /** A reader that starts when the journal of its scope is complete ends with
      that journal, unless its own reads fail: also when the initializer then
      failed, or stopped for ever. */
  lemma LateReadersSucceed(c: Codec, states: seq<State>, i: nat, j: nat, r: nat)
    requires Lawful(c) && Run(c, states) && i <= j < |states|
    requires r in states[i].readers && states[i].readers[r].pc == Start && Complete(c, states[i], states[i].readers[r].scope)
    ensures r in states[j].readers && states[j].readers[r].scope == states[i].readers[r].scope
    ensures states[j].readers[r].pc != Absent && states[j].readers[r].pc != Corrupt
    ensures var owner := states[i].owner[c.key(states[i].readers[r].scope)];
            states[j].readers[r].pc.Got? ==> states[j].readers[r].pc.journal == states[i].writers[owner].journal
  {
    RunInv(c, states, i);
    RunInv(c, states, j);
    RunSettles(c, states, i, j);
    var key := c.key(states[i].readers[r].scope);
    var w := states[i].owner[key];
    assert OwnerFits(c, states[i], key);
    LateFlag(c, states, i, j, r);
    assert OwnerStays(states[i], states[j], key) && WriterStays(states[i], states[j], w);
    assert ReaderStays(states[i], states[j], r) && FinalStays(states[i], states[j], key);
    assert ReaderFits(c, states[j], r) && OwnerFits(c, states[j], key);
    var owner := states[j].writers[w];
    assert c.decode(Payload(c, owner)) == Some(JObj(owner.journal));
    if states[j].readers[r].pc.Got? {
      ReadIsTheWinners(c, states, j, r);
    }
  }

  /** What is complete stays so. */
  lemma CompleteStays(c: Codec, states: seq<State>, i: nat, j: nat, scope: Scope)
    requires Run(c, states) && i <= j < |states| && Complete(c, states[i], scope)
    ensures Complete(c, states[j], scope)
  {
    RunSettles(c, states, i, j);
    var key := c.key(scope);
    assert FinalStays(states[i], states[j], key) && OwnerStays(states[i], states[j], key);
    assert WriterStays(states[i], states[j], states[i].owner[key]);
  }

  /** The journal is complete from the rename on, whatever becomes of the
      initializer: success, a failed last flush, or a crash. */
  lemma CompleteOnceRenamed(c: Codec, states: seq<State>, i: nat, j: nat, w: nat)
    requires Run(c, states) && i <= j < |states| && w in states[i].writers
    requires states[i].writers[w].pc == Renamed || states[i].writers[w].pc == Succeeded
    ensures Complete(c, states[j], states[i].writers[w].scope)
  {
    RunInv(c, states, i);
    assert WriterFits(c, states[i], w) && OwnerFits(c, states[i], c.key(states[i].writers[w].scope));
    CompleteStays(c, states, i, j, states[i].writers[w].scope);
  }

  /** No reader, whenever it starts, meets a torn journal of its own scope: what
      does not parse belongs to another scope that shares the key. */
  lemma CorruptIsForeign(c: Codec, states: seq<State>, i: nat, r: nat)
    requires Lawful(c) && Run(c, states) && i < |states|
    requires r in states[i].readers && states[i].readers[r].pc == Corrupt
    ensures var s := states[i];
            var key := c.key(s.readers[r].scope);
            && key in s.owner && s.owner[key] in s.writers
            && s.writers[s.owner[key]].scope != s.readers[r].scope
            && DirectoryAt(s, key).final == Some(Payload(c, s.writers[s.owner[key]]))
  {
    var s := states[i];
    RunInv(c, states, i);
    assert ReaderFits(c, s, r);
    assert OwnerFits(c, s, c.key(s.readers[r].scope));
    var w := s.writers[s.owner[c.key(s.readers[r].scope)]];
    assert c.decode(Payload(c, w)) == Some(JObj(w.journal));
  }

  /** And once any reader of the scope has got it. */
  lemma CompleteOnceRead(c: Codec, states: seq<State>, i: nat, q: nat)
    requires Lawful(c) && Run(c, states) && i < |states|
    requires q in states[i].readers && states[i].readers[q].pc.Got?
    ensures Complete(c, states[i], states[i].readers[q].scope)
  {
    RunInv(c, states, i);
    ReadIsTheWinners(c, states, i, q);
    assert ReaderFits(c, states[i], q);
  }

  predicate Flagged(r: Reader) { r.pc == Start || r.pc == IoError || r.late }

  lemma LateStep(c: Codec, s: State, s': State, r: nat)
    requires Next(c, s, s')
    requires r in s.readers && Flagged(s.readers[r])
    requires DirectoryAt(s, c.key(s.readers[r].scope)).final.Some?
    ensures r in s'.readers && Flagged(s'.readers[r])
  {
    if id, step :| ReaderMoves(c, s, s', id, step) && !(exists w, t :: WriterMoves(c, s, s', w, t)) {
    }
  }

  lemma {:induction false} LateFlag(c: Codec, states: seq<State>, i: nat, j: nat, r: nat)
    requires Run(c, states) && i <= j < |states|
    requires r in states[i].readers && states[i].readers[r].pc == Start
    requires DirectoryAt(states[i], c.key(states[i].readers[r].scope)).final.Some?
    ensures r in states[j].readers && Flagged(states[j].readers[r])
    decreases j
  {
    if i < j {
      LateFlag(c, states, i, j - 1, r);
      RunSettles(c, states, i, j - 1);
      assert ReaderStays(states[i], states[j - 1], r);
      assert FinalStays(states[i], states[j - 1], c.key(states[i].readers[r].scope));
      LateStep(c, states[j - 1], states[j], r);
    }
  }

  /** A key whose directory exists is never initialized again, by anyone: an
      attempt can only be refused. */
  lemma NeverTwice(c: Codec, states: seq<State>, i: nat, j: nat, w: nat)
    requires Run(c, states) && i <= j < |states| && w in states[i].writers
    requires states[i].writers[w].pc == Idle && c.key(states[i].writers[w].scope) in states[i].disk
    ensures w in states[j].writers && !Begun(states[j].writers[w].pc)
  {
    RunInv(c, states, i);
    RunInv(c, states, j);
    RunSettles(c, states, i, j);
    var key := c.key(states[i].writers[w].scope);
    assert OwnerFits(c, states[i], key);
    assert states[i].owner[key] != w;
    assert WriterStays(states[i], states[j], w) && OwnerStays(states[i], states[j], key);
    assert WriterFits(c, states[j], w);
  }

  // ----- what an initializer's end means -----

  /** An initializer is rejected only for its journal and refused only because the
      key's directory exists. */
  predicate EndFits(c: Codec, s: State, id: nat)
    requires id in s.writers
  {
    var w := s.writers[id];
    && (w.pc == Rejected ==> !Admitted(c, w.scope, w.journal))
    && (w.pc == Refused ==> Admitted(c, w.scope, w.journal) && c.key(w.scope) in s.disk)
  }

  lemma EndStep(c: Codec, s: State, s': State, id: nat)
    requires Next(c, s, s') && id in s'.writers
    requires id in s.writers ==> EndFits(c, s, id)
    ensures EndFits(c, s', id)
  {
    WritersStay(c, s, s');
    if w, step :| WriterMoves(c, s, s', w, step) {
      EndWriterStep(c, s, s', w, step, id);
    } else {
      var r, step :| ReaderMoves(c, s, s', r, step);
    }
  }

  lemma EndWriterStep(c: Codec, s: State, s': State, w: nat, step: WriterStep, id: nat)
    requires WriterMoves(c, s, s', w, step) && id in s.writers && EndFits(c, s, id)
    ensures EndFits(c, s', id)
  {
    assert s.disk.Keys <= s'.disk.Keys;
  }

  lemma WritersStay(c: Codec, s: State, s': State)
    requires Next(c, s, s')
    ensures s'.writers.Keys == s.writers.Keys
  {
    if w, step :| WriterMoves(c, s, s', w, step) {
    } else {
      var r, step :| ReaderMoves(c, s, s', r, step);
    }
  }

  lemma RunStep(c: Codec, states: seq<State>, i: nat)
    requires Run(c, states) && 0 < i < |states|
    ensures Next(c, states[i - 1], states[i])
  {}

  lemma {:induction false} EndsAreHonest(c: Codec, states: seq<State>, i: nat, id: nat)
    requires Run(c, states) && i < |states| && id in states[i].writers
    ensures EndFits(c, states[i], id)
  {
    if i > 0 {
      RunStep(c, states, i);
      if id in states[i - 1].writers {
        EndsAreHonest(c, states, i - 1, id);
      }
      EndStep(c, states[i - 1], states[i], id);
    }
  }

  /** No initializer is ever stuck: until it has ended, it has a step of its own
      that it can take, besides failing. */
  lemma NeverStuck(c: Codec, states: seq<State>, i: nat, id: nat)
    requires Run(c, states) && i < |states| && id in states[i].writers
    requires states[i].writers[id].pc !in {Rejected, Refused, Failed, Succeeded}
    ensures var s := states[i];
            var w := s.writers[id];
            var key := c.key(w.scope);
            exists step :: step != FailStep && WriterNext(c, w, step, key in s.disk, DirectoryAt(s, key)).Some?
  {
    RunInv(c, states, i);
    var s := states[i];
    var w := s.writers[id];
    var key := c.key(w.scope);
    assert WriterFits(c, s, id);
    if Begun(w.pc) {
      assert OwnerFits(c, s, key);
    }
    var step := match w.pc
      case Idle => if Admitted(c, w.scope, w.journal) then MakeDirectory else Check
      case MadeDirectory => CreateTemporary
      case Writing(k) => if k == |Payload(c, w)| then Sync else WriteUpTo(|Payload(c, w)|)
      case Synced => Rename
      case Renamed => SyncDirectory
      case _ => Unlink(true);
    assert step != FailStep && WriterNext(c, w, step, key in s.disk, DirectoryAt(s, key)).Some?;
  }
}
