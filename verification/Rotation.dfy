/** Log rotation with a process crash allowed between any two file operations.

The writer thread rotates the live log away while a single worker turns staged
files into archives; startup first finishes whatever an earlier process left.
Archive retention is on (keep is not zero). */
module Rotation {
  import opened Wrappers

  // One accepted write; the n-th accepted write is item n.
  type Item = int
  type Log = seq<Item>

  /** A staged file is named by its time and a counter that restarts with the process. */
  datatype PendingName = PendingName(millis: int, seqNo: nat)

  type FreshName = nat

  // Archive names in the order that pruning sorts them.
  type ArchiveName = nat

  /** SHA-256 of a log, taken as injective, or a text that is no log's digest. */
  datatype Digest = DigestOf(log: Log) | OtherDigest(text: nat)

  /** What a marker file parses to: anything torn or malformed, or a pair. */
  datatype Marker = Torn | Names(target: ArchiveName, digest: Digest)

  datatype Zip = Zip(entry: Log, complete: bool)

  datatype Disk = Disk(
    live: Option<Log>,
    pending: map<PendingName, Log>,
    spares: set<FreshName>,
    markers: map<PendingName, Marker>,
    archives: map<ArchiveName, Zip>)

  /** Where archivePendingFile, and the removals after it, stand for one file. */
  datatype Job =
    | Between
    | Inspect(p: PendingName)
    | DropMarker(p: PendingName)
    | Choose(p: PendingName)
    | TruncateMarker(p: PendingName, target: ArchiveName, digest: Digest)
    | FillMarker(p: PendingName, target: ArchiveName, digest: Digest)
    | Create(p: PendingName, target: ArchiveName)
    | Copy(p: PendingName, target: ArchiveName, data: Log)
    | RemovePending(p: PendingName)
    | RemoveMarker(p: PendingName)

  /** The startup recovery or the worker, whichever is running. */
  datatype Scan = Idle | Cleaning | Busy(todo: set<PendingName>, job: Job) | Pruning(drop: set<ArchiveName>)

  datatype Phase =
    | Down
    | Recovering
    | Opening
    | StartCreate(target: ArchiveName)
    | StartCopy(target: ArchiveName)
    | Truncating
    | StartPrune
    | Running

  /** Where a rotation stands; the writer lock is held from FreshMade on. */
  datatype Writer =
    | Ready
    | FreshMade(f: FreshName)
    | Closed(f: FreshName)
    | Staged(f: FreshName, p: PendingName)
    | RollBack(f: FreshName, p: PendingName)
    | Reopen(f: FreshName)
    | Dead

  /** accepted and pruned are history: how many writes were accepted, and which of
      them were in an archive that pruning removed. */
  datatype State = State(
    disk: Disk, phase: Phase, scan: Scan, writer: Writer, open: bool, nextSeq: nat, pruneRequested: bool,
    keep: int, accepted: nat, pruned: set<Item>)

  datatype Action =
    | Crash
    | Boot
    | CleanFresh(f: FreshName)
    | CleanMarker(p: PendingName)
    | ReadDirectory
    | Pick(p: PendingName)
    | JobStep(free: ArchiveName, extra: Log)
    | JobFails(cleanup: bool)
    | ScanEnds(drop: set<ArchiveName>)
    | PruneOne(a: ArchiveName)
    | PruneEnds
    | OpenLive(free: ArchiveName)
    | CreateStartArchive
    | CopyStartArchive
    | TruncateLive(drop: set<ArchiveName>)
    | Wake
    | Write
    | MakeFresh(f: FreshName)
    | CloseLive
    | Stage(millis: int)
    | StageFails
    | PublishFresh
    | PublishFails
    | PutBack(ok: bool)
    | ReopenLive(ok: bool)

  // ----- The archive job -----

  /** Reading the marker, the pending file and the target; None is an error. */
  function Examine(d: Disk, p: PendingName): Option<Job> {
    if p !in d.markers then Some(Choose(p))
    else if d.markers[p].Torn? then Some(DropMarker(p))
    else if p !in d.pending then None
    else
      var m := d.markers[p];
      if m.digest != DigestOf(d.pending[p]) then Some(DropMarker(p))
      else if m.target !in d.archives then Some(Create(p, m.target))
      else if d.archives[m.target].complete && DigestOf(d.archives[m.target].entry) == m.digest then Some(RemovePending(p))
      else Some(DropMarker(p))
  }

  /** One file operation of the job; None is an error that ends the scan.  `free`
      is the name nextArchivePath finds; `extra` is what a file that was renamed
      back to the live log may have gained while it was being copied. */
  function Advance(d: Disk, job: Job, free: ArchiveName, extra: Log): Option<(Disk, Job)> {
    match job
    case Between => None
    case Inspect(p) => if Examine(d, p).Some? then Some((d, Examine(d, p).value)) else None
    case DropMarker(p) => if p in d.markers then Some((d.(markers := d.markers - {p}), Choose(p))) else None
    case Choose(p) =>
      if p in d.pending && free !in d.archives then Some((d, TruncateMarker(p, free, DigestOf(d.pending[p])))) else None
    case TruncateMarker(p, target, digest) => Some((d.(markers := d.markers[p := Torn]), FillMarker(p, target, digest)))
    case FillMarker(p, target, digest) => Some((d.(markers := d.markers[p := Names(target, digest)]), Create(p, target)))
    case Create(p, target) =>
      if p !in d.pending then None
      else if d.pending[p] == [] then Some((d, RemovePending(p)))
      else if target in d.archives then None
      else Some((d.(archives := d.archives[target := Zip([], false)]), Copy(p, target, d.pending[p])))
    case Copy(p, target, data) =>
      var entry := if p in d.pending then data else data + extra;
      Some((d.(archives := d.archives[target := Zip(entry, true)]), RemovePending(p)))
    case RemovePending(p) => if p in d.pending then Some((d.(pending := d.pending - {p}), RemoveMarker(p))) else None
    case RemoveMarker(p) => Some((d.(markers := d.markers - {p}), Between))
  }

  /** keep newest archives stay; a negative keep drops nothing. */
  ghost predicate Oldest(names: set<ArchiveName>, keep: int, drop: set<ArchiveName>) {
    && drop <= names
    && (keep < 0 || |names| <= keep ==> drop == {})
    && (0 <= keep < |names| ==> |names - drop| == keep)
    && (forall a, b | a in drop && b in names - drop :: a < b)
  }

  // ----- Steps -----

  predicate Scanning(s: State) {
    s.scan.Busy? && (s.phase == Recovering || s.phase == Running)
  }

  predicate Writing(s: State) {
    s.phase == Running && s.disk.live.Some?
  }

  ghost predicate CanAct(s: State, a: Action) {
    match a
    case Crash => true
    case Boot => s.phase == Down
    case CleanFresh(f) => s.phase == Recovering && s.scan == Cleaning && f in s.disk.spares
    case CleanMarker(p) => s.scan == Cleaning && p in s.disk.markers && p !in s.disk.pending
    case ReadDirectory => s.scan == Cleaning
    case Pick(p) => Scanning(s) && s.scan.job == Between && p in s.scan.todo
    case JobStep(free, extra) => Scanning(s) && Advance(s.disk, s.scan.job, free, extra).Some?
    case JobFails(cleanup) => Scanning(s)
    case ScanEnds(drop) =>
      && Scanning(s) && s.scan.todo == {} && s.scan.job == Between
      && Oldest(s.disk.archives.Keys, s.keep, drop)
    case PruneOne(a) => s.scan.Pruning? && a in s.scan.drop
    case PruneEnds => s.scan.Pruning? && (s.phase == StartPrune ==> s.scan.drop == {})
    case OpenLive(free) => s.phase == Opening && free !in s.disk.archives
    case CreateStartArchive => s.phase.StartCreate? && s.phase.target !in s.disk.archives
    case CopyStartArchive => s.phase.StartCopy? && s.disk.live.Some?
    case TruncateLive(drop) => s.phase == Truncating && Oldest(s.disk.archives.Keys, s.keep, drop)
    case Wake => s.phase == Running && s.scan == Idle
    case Write => Writing(s) && s.writer == Ready && s.open
    case MakeFresh(f) => s.phase == Running && s.writer == Ready && s.open && f !in s.disk.spares
    case CloseLive => s.phase == Running && s.writer.FreshMade?
    case Stage(millis) => Writing(s) && s.writer.Closed?
    case StageFails => s.phase == Running && s.writer.Closed?
    case PublishFresh => s.phase == Running && s.writer.Staged?
    case PublishFails => s.phase == Running && s.writer.Staged?
    case PutBack(ok) => s.phase == Running && s.writer.RollBack? && (ok ==> s.writer.p in s.disk.pending)
    case ReopenLive(ok) => s.phase == Running && s.writer.Reopen?
  }

  function Halt(s: State): State {
    s.(phase := Down, scan := Idle, writer := Ready, open := false, nextSeq := 0, pruneRequested := false)
  }

  /** An error ends a worker scan, and stops a starting process. */
  function FailJob(s: State, cleanup: bool): State
    requires Scanning(s)
  {
    var d := if cleanup && s.scan.job.Copy? then s.disk.(archives := s.disk.archives - {s.scan.job.target}) else s.disk;
    if s.phase == Recovering then Halt(s.(disk := d)) else s.(disk := d, scan := Idle)
  }

  function EndScan(s: State, drop: set<ArchiveName>): State {
    if s.phase == Recovering then s.(phase := Opening, scan := Idle)
    else s.(scan := if s.pruneRequested then Pruning(drop) else Idle, pruneRequested := false)
  }

  function RemoveArchive(s: State, a: ArchiveName): State
    requires s.scan.Pruning?
  {
    var lost := if a in s.disk.archives && s.disk.archives[a].complete then set i | i in s.disk.archives[a].entry else {};
    s.(disk := s.disk.(archives := s.disk.archives - {a}), scan := Pruning(s.scan.drop - {a}), pruned := s.pruned + lost)
  }

  /** Startup opens the live log and archives what an earlier process left in it. */
  function OpenAndCheck(s: State, free: ArchiveName): State {
    var live := if s.disk.live.Some? then s.disk.live.value else [];
    s.(disk := s.disk.(live := Some(live)), open := true, phase := if live == [] then Truncating else StartCreate(free))
  }

  /** Rename onto the pending name replaces whatever had that name. */
  function StageLive(s: State, millis: int): State
    requires s.disk.live.Some? && s.writer.Closed?
  {
    var p := PendingName(millis, s.nextSeq);
    s.(disk := s.disk.(live := None, pending := s.disk.pending[p := s.disk.live.value]),
       writer := Staged(s.writer.f, p), nextSeq := s.nextSeq + 1)
  }

  ghost function Act(s: State, a: Action): State
    requires CanAct(s, a)
  {
    var d := s.disk;
    match a
    case Crash => Halt(s)
    case Boot => s.(phase := Recovering, scan := Cleaning)
    case CleanFresh(f) => s.(disk := d.(spares := d.spares - {f}))
    case CleanMarker(p) => s.(disk := d.(markers := d.markers - {p}))
    case ReadDirectory => s.(scan := Busy(d.pending.Keys, Between))
    case Pick(p) => s.(scan := Busy(s.scan.todo - {p}, Inspect(p)))
    case JobStep(free, extra) =>
      var (d', job) := Advance(d, s.scan.job, free, extra).value;
      s.(disk := d', scan := Busy(s.scan.todo, job))
    case JobFails(cleanup) => FailJob(s, cleanup)
    case ScanEnds(drop) => EndScan(s, drop)
    case PruneOne(a) => RemoveArchive(s, a)
    case PruneEnds => s.(scan := Idle, phase := if s.phase == StartPrune then Running else s.phase)
    case OpenLive(free) => OpenAndCheck(s, free)
    case CreateStartArchive =>
      s.(disk := d.(archives := d.archives[s.phase.target := Zip([], false)]), phase := StartCopy(s.phase.target))
    case CopyStartArchive =>
      s.(disk := d.(archives := d.archives[s.phase.target := Zip(d.live.value, true)]), phase := Truncating)
    case TruncateLive(drop) => s.(disk := d.(live := Some([])), phase := StartPrune, scan := Pruning(drop))
    case Wake => s.(scan := Cleaning)
    case Write => s.(disk := d.(live := Some(d.live.value + [s.accepted])), accepted := s.accepted + 1)
    case MakeFresh(f) => s.(disk := d.(spares := d.spares + {f}), writer := FreshMade(f))
    case CloseLive => s.(open := false, writer := Closed(s.writer.f))
    case Stage(millis) => StageLive(s, millis)
    case StageFails => s.(writer := Reopen(s.writer.f))
    case PublishFresh =>
      s.(disk := d.(live := Some([]), spares := d.spares - {s.writer.f}), writer := Ready, open := true, pruneRequested := true)
    case PublishFails => s.(writer := RollBack(s.writer.f, s.writer.p))
    case PutBack(ok) =>
      var d' := if ok then d.(live := Some(d.pending[s.writer.p]), pending := d.pending - {s.writer.p}) else d;
      s.(disk := d', writer := Reopen(s.writer.f))
    case ReopenLive(ok) =>
      if ok then
        var live := if d.live.Some? then d.live.value else [];
        s.(disk := d.(live := Some(live), spares := d.spares - {s.writer.f}), writer := Ready, open := true)
      else s.(disk := d.(spares := d.spares - {s.writer.f}), writer := Dead)
  }

  // ----- What every step keeps -----

  ghost predicate InLive(d: Disk, i: Item) {
    d.live.Some? && i in d.live.value
  }

  ghost predicate InPending(d: Disk, i: Item) {
    exists p :: p in d.pending && i in d.pending[p]
  }

  ghost predicate InArchive(d: Disk, i: Item) {
    exists a :: a in d.archives && d.archives[a].complete && i in d.archives[a].entry
  }

  ghost predicate Stored(d: Disk, i: Item) {
    InLive(d, i) || InPending(d, i) || InArchive(d, i)
  }

  /** Every accepted write is on disk or was in an archive that pruning removed. */
  ghost predicate Kept(s: State) {
    forall i | 0 <= i < s.accepted :: Stored(s.disk, i) || i in s.pruned
  }

  /** A complete archive holds exactly the log, unless the log is empty. */
  ghost predicate Archived(archives: map<ArchiveName, Zip>, log: Log) {
    log == [] || exists a :: a in archives && archives[a].complete && archives[a].entry == log
  }

  ghost predicate JobFits(d: Disk, job: Job) {
    match job
    case Copy(p, target, data) => target in d.archives && !d.archives[target].complete && (p in d.pending ==> d.pending[p] == data)
    case RemovePending(p) => p in d.pending ==> Archived(d.archives, d.pending[p])
    case _ => true
  }

  ghost predicate PhaseFits(s: State) {
    match s.phase
    case StartCopy(target) => target in s.disk.archives && !s.disk.archives[target].complete && s.disk.live.Some?
    case Truncating => s.disk.live.Some? && Archived(s.disk.archives, s.disk.live.value)
    case _ => true
  }

  /** No staged file of an earlier process survives recovery, so a name is never
      used for two staged files at once. */
  ghost predicate NamesFit(s: State) {
    match s.phase
    case Down => true
    case Recovering =>
      && (s.scan == Cleaning || s.scan.Busy?)
      && (s.scan.Busy? ==> forall p | p in s.disk.pending :: p in s.scan.todo || OnJob(s.scan.job, p))
    case Running =>
      && (forall p | p in s.disk.pending :: p.seqNo < s.nextSeq)
      && (s.scan.Busy? ==> forall p | p in s.scan.todo || OnJob(s.scan.job, p) :: p.seqNo < s.nextSeq)
    case _ => s.disk.pending == map[]
  }

  // The job still has p to remove.
  ghost predicate OnJob(job: Job, p: PendingName) {
    !job.Between? && !job.RemoveMarker? && job.p == p
  }

  ghost predicate WriterFits(s: State) {
    && (s.phase != Running ==> s.writer == Ready)
    && (s.phase.Down? || s.phase.Recovering? || s.phase.Opening? ==> !s.open)
    && (s.open ==> s.disk.live.Some? && (s.writer.Ready? || s.writer.FreshMade?))
    && (s.writer.Staged? || s.writer.RollBack? ==> s.disk.live.None?)
    && (s.writer.FreshMade? || s.writer.Closed? ==> s.disk.live.Some?)
    && (s.writer == Ready && s.phase != Running && s.phase != Down && s.phase != Recovering && s.phase != Opening ==> s.disk.live.Some?)
  }

  ghost predicate ScanFits(s: State) {
    && (s.scan.Busy? ==> JobFits(s.disk, s.scan.job) && (s.phase == Recovering || s.phase == Running))
    && (s.scan == Cleaning ==> s.phase == Recovering || s.phase == Running)
    && (s.phase.Down? || s.phase.Opening? || s.phase.StartCreate? || s.phase.StartCopy? || s.phase.Truncating? ==> s.scan == Idle)
  }

  ghost predicate Inv(s: State) {
    Kept(s) && ScanFits(s) && PhaseFits(s) && NamesFit(s) && WriterFits(s)
  }

  /** Any directory at all, before the first start. */
  ghost predicate Init(s: State) {
    s.phase == Down && s.scan == Idle && s.writer == Ready && !s.open && s.keep != 0 && s.accepted == 0
  }

  lemma InitInv(s: State)
    requires Init(s)
    ensures Inv(s)
  {}

  // ----- The archive job -----

  /** The job declares a pending file finished only when a complete archive holds
      it or it is empty, whatever its marker says and whatever archives exist. */
  lemma JobSucceedsOnlyIfArchived(d: Disk, job: Job, free: ArchiveName, extra: Log)
    requires JobFits(d, job) && Advance(d, job, free, extra).Some?
    ensures
      var (d', job') := Advance(d, job, free, extra).value;
      && JobFits(d', job')
      && (job'.RemovePending? && job'.p in d'.pending ==> Archived(d'.archives, d'.pending[job'.p]))
  {
    var (d', job') := Advance(d, job, free, extra).value;
    match job
    case Inspect(p) =>
      if job'.RemovePending? {
        assert d.pending[p] == d.archives[d.markers[p].target].entry;
      }
    case Copy(p, target, data) =>
      if p in d'.pending { assert d'.archives[target].entry == data; }
    case _ =>
  }

  /** A removed pending file is still stored: an archive has it whole. */
  lemma JobKeeps(d: Disk, job: Job, free: ArchiveName, extra: Log, i: Item)
    requires JobFits(d, job) && Advance(d, job, free, extra).Some? && Stored(d, i)
    ensures Stored(Advance(d, job, free, extra).value.0, i)
  {
    var d' := Advance(d, job, free, extra).value.0;
    if InPending(d, i) {
      var q :| q in d.pending && i in d.pending[q];
      if q in d'.pending {
        assert d'.pending[q] == d.pending[q];
      } else {
        var a :| a in d.archives && d.archives[a].complete && d.archives[a].entry == d.pending[q];
        assert i in d.archives[a].entry;
      }
    }
    if InArchive(d, i) {
      var a :| a in d.archives && d.archives[a].complete && i in d.archives[a].entry;
      assert a in d'.archives && d'.archives[a] == d.archives[a];
    }
  }

  lemma JobStepInv(s: State, free: ArchiveName, extra: Log)
    requires Inv(s) && CanAct(s, JobStep(free, extra))
    ensures Inv(Act(s, JobStep(free, extra)))
  {
    var s' := Act(s, JobStep(free, extra));
    JobSucceedsOnlyIfArchived(s.disk, s.scan.job, free, extra);
    forall i | 0 <= i < s'.accepted ensures Stored(s'.disk, i) || i in s'.pruned {
      if Stored(s.disk, i) { JobKeeps(s.disk, s.scan.job, free, extra, i); }
    }
    assert s'.disk.live == s.disk.live;
    hide JobFits, Kept, Stored, Archived;
  }

  lemma JobFailsInv(s: State, cleanup: bool)
    requires Inv(s) && CanAct(s, JobFails(cleanup))
    ensures Inv(Act(s, JobFails(cleanup)))
  {
    var s' := Act(s, JobFails(cleanup));
    forall i | 0 <= i < s'.accepted ensures Stored(s'.disk, i) || i in s'.pruned {
      if InArchive(s.disk, i) {
        var a :| a in s.disk.archives && s.disk.archives[a].complete && i in s.disk.archives[a].entry;
        assert a in s'.disk.archives;
      }
    }
  }

  // ----- Scans and pruning -----

  lemma ScanInv(s: State, a: Action)
    requires Inv(s) && CanAct(s, a)
    requires a.Crash? || a.Boot? || a.CleanFresh? || a.CleanMarker? || a.ReadDirectory? || a.Pick? || a.ScanEnds? || a.PruneEnds? || a.Wake?
    ensures Inv(Act(s, a))
  {
    var s' := Act(s, a);
    forall i | 0 <= i < s'.accepted ensures Stored(s'.disk, i) || i in s'.pruned {
      assert Stored(s.disk, i) || i in s.pruned;
      assert InLive(s.disk, i) ==> InLive(s'.disk, i);
      assert InPending(s.disk, i) ==> InPending(s'.disk, i);
      assert InArchive(s.disk, i) ==> InArchive(s'.disk, i);
    }
    if a.ScanEnds? && s.phase == Recovering {
      assert s.disk.pending.Keys == {};
      assert s.disk.pending == map[];
    }
  }

  lemma PruneOneInv(s: State, a: ArchiveName)
    requires Inv(s) && CanAct(s, PruneOne(a))
    ensures Inv(Act(s, PruneOne(a)))
  {
    var s' := Act(s, PruneOne(a));
    forall i | 0 <= i < s'.accepted ensures Stored(s'.disk, i) || i in s'.pruned {
      assert Stored(s.disk, i) || i in s.pruned;
      if InArchive(s.disk, i) {
        var b :| b in s.disk.archives && s.disk.archives[b].complete && i in s.disk.archives[b].entry;
        assert b != a ==> b in s'.disk.archives;
      }
    }
  }

  // ----- Startup -----

  lemma StartInv(s: State, a: Action)
    requires Inv(s) && CanAct(s, a)
    requires a.OpenLive? || a.CreateStartArchive? || a.CopyStartArchive?
    ensures Inv(Act(s, a))
  {
    var s' := Act(s, a);
    forall i | 0 <= i < s'.accepted ensures Stored(s'.disk, i) || i in s'.pruned {
      assert Stored(s.disk, i) || i in s.pruned;
      if InArchive(s.disk, i) {
        var b :| b in s.disk.archives && s.disk.archives[b].complete && i in s.disk.archives[b].entry;
        assert b in s'.disk.archives && s'.disk.archives[b] == s.disk.archives[b];
      }
    }
    if a.CopyStartArchive? {
      assert s'.disk.archives[s.phase.target].entry == s.disk.live.value;
    }
  }

  /** Startup empties the live log only after a complete archive holds it. */
  lemma TruncateInv(s: State, drop: set<ArchiveName>)
    requires Inv(s) && CanAct(s, TruncateLive(drop))
    ensures Inv(Act(s, TruncateLive(drop)))
  {
    var s' := Act(s, TruncateLive(drop));
    forall i | 0 <= i < s'.accepted ensures Stored(s'.disk, i) || i in s'.pruned {
      assert Stored(s.disk, i) || i in s.pruned;
      if InLive(s.disk, i) {
        var b :| b in s.disk.archives && s.disk.archives[b].complete && s.disk.archives[b].entry == s.disk.live.value;
        assert i in s'.disk.archives[b].entry;
      }
    }
  }

  // ----- Writing and rotating -----

  lemma WriteInv(s: State)
    requires Inv(s) && CanAct(s, Write)
    ensures Inv(Act(s, Write))
  {
    var s' := Act(s, Write);
    forall i | 0 <= i < s'.accepted ensures Stored(s'.disk, i) || i in s'.pruned {
      if i < s.accepted { assert Stored(s.disk, i) || i in s.pruned; }
      assert InLive(s'.disk, s.accepted);
    }
  }

  /** The rename that stages the live log never replaces another staged log. */
  lemma StageInv(s: State, millis: int)
    requires Inv(s) && CanAct(s, Stage(millis))
    ensures PendingName(millis, s.nextSeq) !in s.disk.pending
    ensures Inv(Act(s, Stage(millis)))
  {
    var s' := Act(s, Stage(millis));
    var p := PendingName(millis, s.nextSeq);
    assert s.scan.Busy? ==> !OnJob(s.scan.job, p);
    forall i | 0 <= i < s'.accepted ensures Stored(s'.disk, i) || i in s'.pruned {
      assert Stored(s.disk, i) || i in s.pruned;
      if InLive(s.disk, i) {
        assert i in s'.disk.pending[p];
      } else if InPending(s.disk, i) {
        var q :| q in s.disk.pending && i in s.disk.pending[q];
        assert q in s'.disk.pending && s'.disk.pending[q] == s.disk.pending[q];
      }
    }
  }

  lemma PutBackInv(s: State, ok: bool)
    requires Inv(s) && CanAct(s, PutBack(ok))
    ensures Inv(Act(s, PutBack(ok)))
  {
    var s' := Act(s, PutBack(ok));
    forall i | 0 <= i < s'.accepted ensures Stored(s'.disk, i) || i in s'.pruned {
      assert Stored(s.disk, i) || i in s.pruned;
      if InPending(s.disk, i) {
        var q :| q in s.disk.pending && i in s.disk.pending[q];
        assert q in s'.disk.pending ==> s'.disk.pending[q] == s.disk.pending[q];
      }
    }
  }

  lemma RotateInv(s: State, a: Action)
    requires Inv(s) && CanAct(s, a)
    requires a.MakeFresh? || a.CloseLive? || a.StageFails? || a.PublishFresh? || a.PublishFails? || a.ReopenLive?
    ensures Inv(Act(s, a))
  {
    var s' := Act(s, a);
    forall i | 0 <= i < s'.accepted ensures Stored(s'.disk, i) || i in s'.pruned {
      assert Stored(s.disk, i) || i in s.pruned;
    }
  }

  lemma ActInv(s: State, a: Action)
    requires Inv(s) && CanAct(s, a)
    ensures Inv(Act(s, a))
  {
    hide Inv, Act;
    match a
    case JobStep(free, extra) => JobStepInv(s, free, extra);
    case JobFails(cleanup) => JobFailsInv(s, cleanup);
    case PruneOne(b) => PruneOneInv(s, b);
    case OpenLive(_) => StartInv(s, a);
    case CreateStartArchive => StartInv(s, a);
    case CopyStartArchive => StartInv(s, a);
    case TruncateLive(drop) => TruncateInv(s, drop);
    case Write => WriteInv(s);
    case Stage(millis) => StageInv(s, millis);
    case PutBack(ok) => PutBackInv(s, ok);
    case MakeFresh(_) => RotateInv(s, a);
    case CloseLive => RotateInv(s, a);
    case StageFails => RotateInv(s, a);
    case PublishFresh => RotateInv(s, a);
    case PublishFails => RotateInv(s, a);
    case ReopenLive(_) => RotateInv(s, a);
    case _ => ScanInv(s, a);
  }

  // ----- Whole runs -----

  ghost predicate Reaches(s: State, actions: seq<Action>, s': State)
    decreases |actions|
  {
    if actions == [] then s == s' else CanAct(s, actions[0]) && Reaches(Act(s, actions[0]), actions[1..], s')
  }

  lemma {:induction false} ReachesInv(s: State, actions: seq<Action>, s': State)
    requires Inv(s) && Reaches(s, actions, s')
    ensures Inv(s')
    decreases |actions|
  {
    hide Inv, Act, CanAct;
    if actions != [] {
      ActInv(s, actions[0]);
      ReachesInv(Act(s, actions[0]), actions[1..], s');
    }
  }

  /** From any directory, over any run of writes, rotations, scans, restarts, errors
      and crashes, each accepted write is in the live log, a staged file or a
      complete archive, unless pruning removed the archive that held it. */
  lemma NothingIsLost(s0: State, actions: seq<Action>, s: State)
    requires Init(s0) && Reaches(s0, actions, s)
    ensures forall i | 0 <= i < s.accepted :: Stored(s.disk, i) || i in s.pruned
  {
    InitInv(s0);
    hide Init;
    ReachesInv(s0, actions, s);
  }

  lemma {:induction false} NothingPruned(s: State, actions: seq<Action>, s': State)
    requires Inv(s) && Reaches(s, actions, s') && s.keep < 0 && NoDrop(s)
    ensures s'.pruned == s.pruned
    decreases |actions|
  {
    if actions != [] {
      ActInv(s, actions[0]);
      KeepsNoDrop(s, actions[0]);
      NothingPruned(Act(s, actions[0]), actions[1..], s');
    }
  }

  ghost predicate NoDrop(s: State) {
    s.scan.Pruning? ==> s.scan.drop == {}
  }

  lemma KeepsNoDrop(s: State, a: Action)
    requires CanAct(s, a) && NoDrop(s) && s.keep < 0
    ensures NoDrop(Act(s, a)) && Act(s, a).pruned == s.pruned && Act(s, a).keep == s.keep
  {}

  /** With a negative keep every accepted write stays on disk for good. */
  lemma KeepForever(s0: State, actions: seq<Action>, s: State)
    requires Init(s0) && Reaches(s0, actions, s) && s0.keep < 0 && s0.pruned == {}
    ensures forall i | 0 <= i < s.accepted :: Stored(s.disk, i)
  {
    InitInv(s0);
    NothingIsLost(s0, actions, s);
    NothingPruned(s0, actions, s);
  }

  // ----- The directory as an uninterrupted process changes it -----

  // What archiving leaves alone: the logs and the archives that were there.
  ghost predicate OnlyAdds(d: Disk, d': Disk) {
    && d'.live == d.live && d'.pending == d.pending && d'.spares == d.spares
    && (forall a | a in d.archives :: a in d'.archives && d'.archives[a] == d.archives[a])
  }

  ghost predicate Ascending(names: seq<ArchiveName>) {
    forall i, j | 0 <= i < j < |names| :: names[i] < names[j]
  }

  // Every name listed before this one is taken.
  ghost predicate FirstFree(names: seq<ArchiveName>, archives: map<ArchiveName, Zip>, free: ArchiveName) {
    exists i :: 0 <= i < |names| && names[i] == free && forall j | 0 <= j < i :: names[j] in archives
  }

  /** The names on the list that no archive has. */
  ghost function FreeNames(names: seq<ArchiveName>, archives: map<ArchiveName, Zip>): set<ArchiveName> {
    set a | a in names && a !in archives
  }

  /** The pending file's own marker names a target that is free or holds the file. */
  ghost predicate MarkerServes(d: Disk, p: PendingName) {
    && p in d.pending && p in d.markers && d.markers[p].Names? && d.markers[p].digest == DigestOf(d.pending[p])
    && var target := d.markers[p].target;
       target !in d.archives || (d.archives[target].complete && d.archives[target].entry == d.pending[p])
  }

  function First(names: seq<ArchiveName>, n: nat): set<ArchiveName>
    requires n <= |names|
  {
    if n == 0 then {} else First(names, n - 1) + {names[n - 1]}
  }

  class LogDirectory {
    var disk: Disk

    constructor (disk: Disk)
      ensures this.disk == disk
    {
      this.disk := disk;
    }

    /** The first name that is free, out of those a date allows. */
    method NextArchivePath(names: seq<ArchiveName>) returns (free: Option<ArchiveName>)
      ensures free.Some? ==> free.value !in disk.archives && FirstFree(names, disk.archives, free.value)
      ensures free.None? ==> forall j | 0 <= j < |names| :: names[j] in disk.archives
    {
      for i := 0 to |names|
        invariant forall j | 0 <= j < i :: names[j] in disk.archives
      {
        if names[i] !in disk.archives {
          return Some(names[i]);
        }
      }
      return None;
    }

    method ReservePendingArchive(p: PendingName, names: seq<ArchiveName>) returns (target: Option<ArchiveName>)
      requires p in disk.pending
      modifies this
      ensures OnlyAdds(old(disk), disk) && disk.archives == old(disk).archives
      ensures target.Some? <==> FreeNames(names, old(disk).archives) != {}
      ensures target.Some? ==> target.value !in disk.archives && FirstFree(names, disk.archives, target.value)
      ensures target.Some? ==> p in disk.markers && disk.markers[p] == Names(target.value, DigestOf(disk.pending[p]))
    {
      target := NextArchivePath(names);
      if target.Some? {
        assert target.value in FreeNames(names, disk.archives);
        disk := disk.(markers := disk.markers[p := Names(target.value, DigestOf(disk.pending[p]))]);
      }
    }

    method ArchiveFileTo(p: PendingName, target: ArchiveName) returns (ok: bool)
      requires p in disk.pending
      modifies this
      ensures OnlyAdds(old(disk), disk)
      ensures ok ==> Archived(disk.archives, disk.pending[p])
      ensures ok <==> old(disk).pending[p] == [] || target !in old(disk).archives
      ensures disk.archives == if ok && old(disk).pending[p] != []
                               then old(disk).archives[target := Zip(old(disk).pending[p], true)] else old(disk).archives
    {
      var log := disk.pending[p];
      if log == [] {
        return true;
      }
      if target in disk.archives {
        return false;
      }
      disk := disk.(archives := disk.archives[target := Zip(log, true)]);
      assert disk.archives[target].entry == log;
      return true;
    }

    /** Succeeds exactly when the file's own marker serves or a listed name is free,
        and then the file is empty or a complete archive holds it, whatever the marker
        and the archives were; a new archive goes under the first free name. */
    method ArchivePendingFile(p: PendingName, names: seq<ArchiveName>) returns (ok: bool)
      requires p in disk.pending
      modifies this
      ensures OnlyAdds(old(disk), disk)
      ensures ok ==> Archived(disk.archives, disk.pending[p])
      ensures ok <==> MarkerServes(old(disk), p) || FreeNames(names, old(disk).archives) != {}
      ensures |disk.archives.Keys - old(disk).archives.Keys| <= 1
      ensures ok && !MarkerServes(old(disk), p) && old(disk).pending[p] != [] ==>
        exists a :: FirstFree(names, old(disk).archives, a) && disk.archives == old(disk).archives[a := Zip(old(disk).pending[p], true)]
    {
      if p in disk.markers && disk.markers[p].Names? && disk.markers[p].digest == DigestOf(disk.pending[p]) {
        var target := disk.markers[p].target;
        if target !in disk.archives {
          ok := ArchiveFileTo(p, target);
          assert disk.archives.Keys - old(disk).archives.Keys <= {target};
          AtMostOne(disk.archives.Keys - old(disk).archives.Keys, target);
          return;
        }
        if disk.archives[target].complete && DigestOf(disk.archives[target].entry) == disk.markers[p].digest {
          assert disk.archives[target].entry == disk.pending[p];
          assert disk.archives.Keys - old(disk).archives.Keys == {};
          return true;
        }
      }
      if p in disk.markers {
        disk := disk.(markers := disk.markers - {p});
      }
      var reserved := ReservePendingArchive(p, names);
      if reserved.None? {
        assert disk.archives.Keys - old(disk).archives.Keys == {};
        return false;
      }
      ok := ArchiveFileTo(p, reserved.value);
      assert disk.archives.Keys - old(disk).archives.Keys <= {reserved.value};
      AtMostOne(disk.archives.Keys - old(disk).archives.Keys, reserved.value);
    }

    /** One scan: archived files go, the first failure ends it, nothing is lost, and it
        does not fail while every file's date has a free name for each file. */
    method ProcessPending(todo: seq<PendingName>, names: map<PendingName, seq<ArchiveName>>) returns (ok: bool)
      requires forall i | 0 <= i < |todo| :: todo[i] in disk.pending && todo[i] in names
      requires forall i, j | 0 <= i < j < |todo| :: todo[i] != todo[j]
      modifies this
      ensures forall x :: Stored(old(disk), x) ==> Stored(disk, x)
      ensures disk.live == old(disk).live
      ensures ok ==> forall q :: q in disk.pending <==> q in old(disk).pending && q !in todo
      ensures (forall i | 0 <= i < |todo| :: |FreeNames(names[todo[i]], old(disk).archives)| >= |todo|) ==> ok
    {
      for i := 0 to |todo|
        invariant forall q :: q in disk.pending <==> q in old(disk).pending && q !in todo[..i]
        invariant forall x :: Stored(old(disk), x) ==> Stored(disk, x)
        invariant disk.live == old(disk).live
        invariant forall j | 0 <= j < |todo| ::
                    |FreeNames(names[todo[j]], disk.archives)| >= |FreeNames(names[todo[j]], old(disk).archives)| - i
      {
        var p := todo[i];
        assert p !in todo[..i];
        ok := ProcessOne(p, names[p], todo, names);
        if !ok {
          return;
        }
        assert todo[..i + 1] == todo[..i] + [p];
      }
      assert todo[..|todo|] == todo;
      return true;
    }

    method ProcessOne(p: PendingName, list: seq<ArchiveName>, ghost todo: seq<PendingName>, ghost names: map<PendingName, seq<ArchiveName>>)
      returns (ok: bool)
      requires p in disk.pending && forall j | 0 <= j < |todo| :: todo[j] in names
      modifies this
      ensures forall x :: Stored(old(disk), x) ==> Stored(disk, x)
      ensures disk.live == old(disk).live
      ensures forall q :: q in disk.pending <==> q in old(disk).pending && (ok ==> q != p)
      ensures |FreeNames(list, old(disk).archives)| > 0 ==> ok
      ensures forall j | 0 <= j < |todo| ::
                |FreeNames(names[todo[j]], disk.archives)| >= |FreeNames(names[todo[j]], old(disk).archives)| - 1
    {
      ghost var start := disk;
      ok := ArchivePendingFile(p, list);
      forall x | Stored(start, x) ensures Stored(disk, x) { AddingKeeps(start, disk, x); }
      forall j | 0 <= j < |todo|
        ensures |FreeNames(names[todo[j]], disk.archives)| >= |FreeNames(names[todo[j]], start.archives)| - 1
      {
        FewerFree(names[todo[j]], start.archives, disk.archives);
      }
      hide FreeNames, Stored, OnlyAdds;
      if !ok {
        return;
      }
      ghost var before := disk;
      disk := disk.(pending := disk.pending - {p}, markers := disk.markers - {p});
      forall x | Stored(before, x) ensures Stored(disk, x) { RemovalKeeps(before, disk, p, x); }
    }

    /** Pruning removes the oldest archives beyond the ones to keep. */
    method Prune(names: seq<ArchiveName>, keep: int) returns (dropped: set<ArchiveName>)
      requires Ascending(names) && disk.archives.Keys == First(names, |names|)
      modifies this
      ensures Oldest(old(disk).archives.Keys, keep, dropped)
      ensures disk == old(disk).(archives := old(disk).archives - dropped)
    {
      var drop := if keep < 0 || |names| <= keep then 0 else |names| - keep;
      OldestIsPrefix(names, drop, keep);
      RemoveFirst(names, drop);
      dropped := First(names, drop);
    }

    method RemoveFirst(names: seq<ArchiveName>, n: nat)
      requires n <= |names|
      modifies this
      ensures disk == old(disk).(archives := old(disk).archives - First(names, n))
    {
      hide First;
      FirstNone(names);
      ghost var start := disk;
      assert start.archives - {} == start.archives;
      for i := 0 to n
        invariant disk == start.(archives := start.archives - First(names, i))
      {
        DropOneMore(start.archives, names, i);
        disk := disk.(archives := disk.archives - {names[i]});
      }
    }
  }

  lemma AtMostOne(s: set<ArchiveName>, a: ArchiveName)
    requires s <= {a}
    ensures |s| <= 1
  {
    assert s == {} || s == {a};
  }

  lemma FewerFree(names: seq<ArchiveName>, before: map<ArchiveName, Zip>, after: map<ArchiveName, Zip>)
    requires |after.Keys - before.Keys| <= 1
    ensures |FreeNames(names, after)| >= |FreeNames(names, before)| - 1
  {
    var fresh' := after.Keys - before.Keys;
    var was, left := FreeNames(names, before), FreeNames(names, after);
    assert was - fresh' <= left;
    hide FreeNames;
    SmallDifference(was, fresh', left);
  }

  lemma SmallDifference(was: set<ArchiveName>, taken: set<ArchiveName>, left: set<ArchiveName>)
    requires was - taken <= left && |taken| <= 1
    ensures |left| >= |was| - 1
  {
    SubsetSize(was - taken, left);
    SubsetSize(was * taken, taken);
    assert was == (was - taken) + (was * taken);
  }

  lemma SubsetSize(a: set<ArchiveName>, b: set<ArchiveName>)
    requires a <= b
    ensures |a| <= |b|
  {
    assert b == a + (b - a);
  }

  lemma FirstNone(names: seq<ArchiveName>)
    ensures First(names, 0) == {}
  {}

  lemma DropOneMore(all: map<ArchiveName, Zip>, names: seq<ArchiveName>, i: nat)
    requires i < |names|
    ensures First(names, i + 1) == First(names, i) + {names[i]}
    ensures all - First(names, i) - {names[i]} == all - First(names, i + 1)
  {}

  lemma AddingKeeps(d: Disk, d': Disk, x: Item)
    requires OnlyAdds(d, d') && Stored(d, x)
    ensures Stored(d', x)
  {
    if InArchive(d, x) {
      var a :| a in d.archives && d.archives[a].complete && x in d.archives[a].entry;
      assert a in d'.archives;
    }
  }

  lemma RemovalKeeps(d: Disk, d': Disk, p: PendingName, x: Item)
    requires p in d.pending && Archived(d.archives, d.pending[p]) && Stored(d, x)
    requires d' == d.(pending := d.pending - {p}, markers := d'.markers)
    ensures Stored(d', x)
  {
    if InPending(d, x) {
      var q :| q in d.pending && x in d.pending[q];
      if q == p {
        var a :| a in d.archives && d.archives[a].complete && d.archives[a].entry == d.pending[p];
        assert x in d'.archives[a].entry;
      } else {
        assert q in d'.pending;
      }
    }
  }

  lemma {:induction false} FirstHas(names: seq<ArchiveName>, n: nat, i: nat)
    requires i < n <= |names|
    ensures names[i] in First(names, n)
  {
    if i < n - 1 { FirstHas(names, n - 1, i); }
  }

  lemma {:induction false} IndexIn(names: seq<ArchiveName>, n: nat, a: ArchiveName) returns (i: nat)
    requires n <= |names| && a in First(names, n)
    ensures i < n && names[i] == a
  {
    if a == names[n - 1] {
      i := n - 1;
    } else {
      i := IndexIn(names, n - 1, a);
    }
  }

  lemma {:induction false} FirstSize(names: seq<ArchiveName>, n: nat)
    requires Ascending(names) && n <= |names|
    ensures |First(names, n)| == n
  {
    if n > 0 {
      FirstSize(names, n - 1);
      if names[n - 1] in First(names, n - 1) {
        var i := IndexIn(names, n - 1, names[n - 1]);
        assert false;
      }
    }
  }

  lemma OldestIsPrefix(names: seq<ArchiveName>, n: nat, keep: int)
    requires Ascending(names) && n == if keep < 0 || |names| <= keep then 0 else |names| - keep
    ensures First(names, n) <= First(names, |names|)
    ensures Oldest(First(names, |names|), keep, First(names, n))
  {
    var all, drop := First(names, |names|), First(names, n);
    FirstSize(names, |names|);
    FirstSize(names, n);
    forall a | a in drop ensures a in all {
      var i := IndexIn(names, n, a);
      FirstHas(names, |names|, i);
    }
    forall a, b | a in drop && b in all - drop ensures a < b {
      var i := IndexIn(names, n, a);
      var k := IndexIn(names, |names|, b);
      if k < n { FirstHas(names, n, k); }
    }
    assert all == drop + (all - drop);
  }
}
