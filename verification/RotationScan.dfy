/** A scan that meets no error empties the staging area: from any running state, every
staged log ends up in a complete archive of its own. */
module RotationScan {
  import opened Wrappers
  import opened Rotation

  // ----- One job -----

  /** The job runs through these steps without an error; each step is given the name
      that nextArchivePath would find. */
  ghost predicate Works(d: Disk, job: Job, frees: seq<ArchiveName>, d': Disk, job': Job)
    decreases |frees|
  {
    if frees == [] then d' == d && job' == job
    else
      var next := Advance(d, job, frees[0], []);
      next.Some? && Works(next.value.0, next.value.1, frees[1..], d', job')
  }

  lemma WorksStep(d: Disk, job: Job, free: ArchiveName, frees: seq<ArchiveName>, d': Disk, job': Job)
    requires Advance(d, job, free, []).Some?
    requires var (d1, job1) := Advance(d, job, free, []).value; Works(d1, job1, frees, d', job')
    ensures Works(d, job, [free] + frees, d', job')
  {
    assert ([free] + frees)[1..] == frees;
  }

  /** What a finished job has done: p is no longer staged, an archive holds it, and
      nothing else about logs and older archives changed. */
  ghost predicate Finished(d: Disk, d': Disk, p: PendingName)
    requires p in d.pending
  {
    && d'.live == d.live && d'.spares == d.spares && d'.pending == d.pending - {p}
    && Archived(d'.archives, d.pending[p])
    && (forall a | a in d.archives && d.archives[a].complete :: a in d'.archives && d'.archives[a] == d.archives[a])
  }

  lemma FromRemove(d: Disk, p: PendingName) returns (frees: seq<ArchiveName>, d': Disk)
    requires p in d.pending && Archived(d.archives, d.pending[p])
    ensures Works(d, RemovePending(p), frees, d', Between) && Finished(d, d', p)
  {
    var d1 := d.(pending := d.pending - {p});
    d' := d1.(markers := d1.markers - {p});
    assert Works(d', Between, [], d', Between);
    WorksStep(d1, RemoveMarker(p), 0, [], d', Between);
    WorksStep(d, RemovePending(p), 0, [0] + [], d', Between);
    frees := [0] + ([0] + []);
  }

  lemma FromCreate(d: Disk, p: PendingName, target: ArchiveName) returns (frees: seq<ArchiveName>, d': Disk)
    requires p in d.pending && target !in d.archives
    ensures Works(d, Create(p, target), frees, d', Between) && Finished(d, d', p)
  {
    var log := d.pending[p];
    if log == [] {
      var rest, end := FromRemove(d, p);
      WorksStep(d, Create(p, target), 0, rest, end, Between);
      frees, d' := [0] + rest, end;
    } else {
      var d1 := d.(archives := d.archives[target := Zip([], false)]);
      var d2 := d1.(archives := d1.archives[target := Zip(log, true)]);
      assert d2.archives[target].entry == log;
      var rest, end := FromRemove(d2, p);
      WorksStep(d1, Copy(p, target, log), 0, rest, end, Between);
      WorksStep(d, Create(p, target), 0, [0] + rest, end, Between);
      frees, d' := [0] + ([0] + rest), end;
    }
  }

  lemma {:induction false} UnusedName(names: set<ArchiveName>) returns (a: ArchiveName)
    ensures a !in names && forall b | b in names :: b < a
  {
    if names == {} {
      a := 0;
    } else {
      var b :| b in names;
      var c := UnusedName(names - {b});
      assert forall x | x in names :: x == b || x in names - {b};
      a := if c <= b then b + 1 else c;
    }
  }

  lemma FromChoose(d: Disk, p: PendingName) returns (frees: seq<ArchiveName>, d': Disk)
    requires p in d.pending
    ensures Works(d, Choose(p), frees, d', Between) && Finished(d, d', p)
  {
    var f := UnusedName(d.archives.Keys);
    var digest := DigestOf(d.pending[p]);
    var d1 := d.(markers := d.markers[p := Torn]);
    var d2 := d1.(markers := d1.markers[p := Names(f, digest)]);
    var rest, end := FromCreate(d2, p, f);
    WorksStep(d1, FillMarker(p, f, digest), 0, rest, end, Between);
    WorksStep(d, TruncateMarker(p, f, digest), 0, [0] + rest, end, Between);
    WorksStep(d, Choose(p), f, [0] + ([0] + rest), end, Between);
    frees, d' := [f] + ([0] + ([0] + rest)), end;
  }

  /** Whatever its marker says, a staged file can be archived and removed. */
  lemma JobCompletes(d: Disk, p: PendingName) returns (frees: seq<ArchiveName>, d': Disk)
    requires p in d.pending
    ensures Works(d, Inspect(p), frees, d', Between) && Finished(d, d', p)
  {
    var next := Examine(d, p).value;
    var rest, end;
    match next {
      case Choose(_) => rest, end := FromChoose(d, p);
      case DropMarker(_) =>
        var d1 := d.(markers := d.markers - {p});
        rest, end := FromChoose(d1, p);
        WorksStep(d, DropMarker(p), 0, rest, end, Between);
        rest := [0] + rest;
      case Create(_, target) => rest, end := FromCreate(d, p, target);
      case RemovePending(_) =>
        assert d.archives[d.markers[p].target].entry == d.pending[p];
        rest, end := FromRemove(d, p);
    }
    WorksStep(d, Inspect(p), 0, rest, end, Between);
    frees, d' := [0] + rest, end;
  }

  // ----- One scan -----

  ghost predicate Smooth(actions: seq<Action>) {
    forall i | 0 <= i < |actions| ::
      actions[i].Wake? || actions[i].ReadDirectory? || actions[i].Pick? || actions[i].JobStep? || actions[i].ScanEnds?
  }

  lemma {:induction false} Chain(s: State, first: seq<Action>, mid: State, second: seq<Action>, s': State)
    requires Reaches(s, first, mid) && Reaches(mid, second, s')
    ensures Reaches(s, first + second, s')
    decreases |first|
  {
    if first == [] {
      assert first + second == second;
    } else {
      Chain(Act(s, first[0]), first[1..], mid, second, s');
      assert (first + second)[1..] == first[1..] + second;
    }
  }

  lemma OneStep(s: State, a: Action)
    requires CanAct(s, a)
    ensures Reaches(s, [a], Act(s, a))
  {
    assert [a][1..] == [];
    assert Reaches(Act(s, a), [], Act(s, a));
  }

  lemma {:induction false} RunJob(s: State, frees: seq<ArchiveName>, d: Disk, job: Job) returns (actions: seq<Action>)
    requires Scanning(s) && Works(s.disk, s.scan.job, frees, d, job)
    ensures Smooth(actions) && Reaches(s, actions, s.(disk := d, scan := Busy(s.scan.todo, job)))
    decreases |frees|
  {
    if frees == [] {
      actions := [];
    } else {
      var step := JobStep(frees[0], []);
      var mid := Act(s, step);
      var rest := RunJob(mid, frees[1..], d, job);
      OneStep(s, step);
      Chain(s, [step], mid, rest, s.(disk := d, scan := Busy(s.scan.todo, job)));
      actions := [step] + rest;
    }
  }

  /** The logs staged before are archived, those on the list are gone, nothing else of
      the writer's business changed. */
  ghost predicate Swept(s: State, s': State, todo: set<PendingName>)
    requires todo <= s.disk.pending.Keys
  {
    && s'.disk.live == s.disk.live && s'.disk.pending == s.disk.pending - todo
    && (forall p | p in todo :: Archived(s'.disk.archives, s.disk.pending[p]))
    && (forall a | a in s.disk.archives && s.disk.archives[a].complete ::
          a in s'.disk.archives && s'.disk.archives[a] == s.disk.archives[a])
    && s' == s.(disk := s'.disk, scan := Busy({}, Between))
  }

  lemma SweptOneMore(s: State, mid: State, s': State, todo: set<PendingName>, p: PendingName)
    requires p in todo && todo <= s.disk.pending.Keys && Finished(s.disk, mid.disk, p)
    requires mid == s.(disk := mid.disk, scan := mid.scan) && todo - {p} <= mid.disk.pending.Keys && Swept(mid, s', todo - {p})
    ensures Swept(s, s', todo)
  {
    assert s.disk.pending - {p} - (todo - {p}) == s.disk.pending - todo;
    forall q | q in todo ensures Archived(s'.disk.archives, s.disk.pending[q]) {
      if q == p {
        ArchivedStays(mid.disk.archives, s'.disk.archives, s.disk.pending[p]);
      } else {
        assert q in todo - {p} && mid.disk.pending[q] == s.disk.pending[q];
      }
    }
  }

  lemma ArchivedStays(archives: map<ArchiveName, Zip>, archives': map<ArchiveName, Zip>, log: Log)
    requires Archived(archives, log)
    requires forall a | a in archives && archives[a].complete :: a in archives' && archives'[a] == archives[a]
    ensures Archived(archives', log)
  {
    if log != [] {
      var a :| a in archives && archives[a].complete && archives[a].entry == log;
      assert a in archives';
    }
  }

  lemma PickStep(s: State, p: PendingName)
    requires Scanning(s) && s.scan.job == Between && p in s.scan.todo
    ensures Reaches(s, [Pick(p)], s.(scan := Busy(s.scan.todo - {p}, Inspect(p))))
  {
    OneStep(s, Pick(p));
  }

  lemma ScanOne(s: State, p: PendingName) returns (actions: seq<Action>, s': State)
    requires Scanning(s) && s.scan.job == Between && p in s.scan.todo && p in s.disk.pending
    ensures Smooth(actions) && Reaches(s, actions, s') && Finished(s.disk, s'.disk, p) && s'.disk.pending == s.disk.pending - {p}
    ensures s' == s.(disk := s'.disk, scan := Busy(s.scan.todo - {p}, Between))
  {
    hide Reaches, Works, Finished;
    PickStep(s, p);
    var picked := s.(scan := Busy(s.scan.todo - {p}, Inspect(p)));
    var frees, d := JobCompletes(s.disk, p);
    var job := RunJob(picked, frees, d, Between);
    s' := picked.(disk := d, scan := Busy(s.scan.todo - {p}, Between));
    Chain(s, [Pick(p)], picked, job, s');
    actions := [Pick(p)] + job;
    FinishedRemoves(s.disk, d, p);
  }

  lemma FinishedRemoves(d: Disk, d': Disk, p: PendingName)
    requires p in d.pending && Finished(d, d', p)
    ensures d'.pending == d.pending - {p}
  {}

  lemma SmoothBoth(first: seq<Action>, second: seq<Action>)
    requires Smooth(first) && Smooth(second)
    ensures Smooth(first + second)
  {}

  lemma SweptNothing(s: State)
    requires s.scan == Busy({}, Between)
    ensures Swept(s, s, {})
  {
    assert s.disk.pending - {} == s.disk.pending;
  }

  lemma {:induction false} ScanAll(s: State) returns (actions: seq<Action>, s': State)
    requires Scanning(s) && s.scan.job == Between && s.scan.todo <= s.disk.pending.Keys
    ensures Smooth(actions) && Reaches(s, actions, s') && Swept(s, s', s.scan.todo)
    decreases |s.scan.todo|
  {
    if s.scan.todo == {} {
      actions, s' := [], s;
      SweptNothing(s);
    } else {
      hide Reaches, Swept, Finished, Smooth;
      var todo := s.scan.todo;
      var p :| p in todo;
      var one, mid := ScanOne(s, p);
      var rest, end := ScanAll(mid);
      Chain(s, one, mid, rest, end);
      SweptOneMore(s, mid, end, todo, p);
      SmoothBoth(one, rest);
      actions, s' := one + rest, end;
    }
  }

  lemma {:induction false} Least(names: set<ArchiveName>) returns (a: ArchiveName)
    requires names != {}
    ensures a in names && forall b | b in names :: a <= b
  {
    var x :| x in names;
    a := x;
    if names - {x} != {} {
      var y := Least(names - {x});
      a := if y < x then y else x;
      assert forall b | b in names :: b == x || b in names - {x};
    } else {
      assert names == {x} + (names - {x});
    }
  }

  lemma {:induction false} OldestExists(names: set<ArchiveName>, keep: int) returns (drop: set<ArchiveName>)
    ensures Oldest(names, keep, drop)
    decreases |names|
  {
    if keep < 0 || |names| <= keep {
      drop := {};
      assert names - drop == names;
    } else {
      var a := Least(names);
      var rest := OldestExists(names - {a}, keep);
      drop := rest + {a};
      assert names - drop == names - {a} - rest;
    }
  }

  /** From any running state between scans, whatever the writer is doing, a scan without
      errors archives every staged log, leaves none staged, and ends. */
  lemma ScanEmptiesStaging(s: State) returns (actions: seq<Action>, s': State)
    requires s.phase == Running && s.scan == Idle
    ensures Smooth(actions) && Reaches(s, actions, s')
    ensures s'.disk.pending == map[] && s'.disk.live == s.disk.live && s'.writer == s.writer && s'.accepted == s.accepted
    ensures forall p | p in s.disk.pending :: Archived(s'.disk.archives, s.disk.pending[p])
    ensures s'.scan == Idle || (s.pruneRequested && s'.scan.Pruning?)
  {
    hide Reaches, Oldest, Archived;
    WakeSteps(s);
    var listed := s.(scan := Busy(s.disk.pending.Keys, Between));
    var scan, swept := ScanAll(listed);
    var drop := OldestExists(swept.disk.archives.Keys, s.keep);
    EndStep(swept, drop);
    Chain(s, [Wake, ReadDirectory], listed, scan, swept);
    Chain(s, [Wake, ReadDirectory] + scan, swept, [ScanEnds(drop)], EndScan(swept, drop));
    actions, s' := [Wake, ReadDirectory] + scan + [ScanEnds(drop)], EndScan(swept, drop);
    assert s.disk.pending - s.disk.pending.Keys == map[];
  }

  lemma WakeSteps(s: State)
    requires s.phase == Running && s.scan == Idle
    ensures Reaches(s, [Wake, ReadDirectory], s.(scan := Busy(s.disk.pending.Keys, Between)))
  {
    OneStep(s, Wake);
    OneStep(Act(s, Wake), ReadDirectory);
    Chain(s, [Wake], Act(s, Wake), [ReadDirectory], Act(Act(s, Wake), ReadDirectory));
    assert [Wake] + [ReadDirectory] == [Wake, ReadDirectory];
  }

  lemma EndStep(s: State, drop: set<ArchiveName>)
    requires Scanning(s) && s.scan == Busy({}, Between) && Oldest(s.disk.archives.Keys, s.keep, drop)
    ensures Reaches(s, [ScanEnds(drop)], EndScan(s, drop))
  {
    OneStep(s, ScanEnds(drop));
  }

  /** From any running state at all: a scan or pruning under way ends first, by an error
      at worst, and the next scan empties the staging area. */
  lemma StagingCanAlwaysBeEmptied(s: State) returns (first: seq<Action>, idle: State, scan: seq<Action>, s': State)
    requires s.phase == Running
    ensures |first| <= 2 && Reaches(s, first, idle) && idle.scan == Idle && idle.disk.pending == s.disk.pending
    ensures Smooth(scan) && Reaches(idle, scan, s') && s'.disk.pending == map[] && s'.disk.live == s.disk.live
    ensures forall p | p in s.disk.pending :: Archived(s'.disk.archives, s.disk.pending[p])
  {
    match s.scan {
      case Idle =>
        first, idle := [], s;
      case Pruning(_) =>
        first, idle := [PruneEnds], Act(s, PruneEnds);
        OneStep(s, PruneEnds);
      case Cleaning =>
        var listed := Act(s, ReadDirectory);
        OneStep(s, ReadDirectory);
        idle := Act(listed, JobFails(false));
        OneStep(listed, JobFails(false));
        Chain(s, [ReadDirectory], listed, [JobFails(false)], idle);
        first := [ReadDirectory] + [JobFails(false)];
      case Busy(_, _) =>
        first, idle := [JobFails(false)], Act(s, JobFails(false));
        OneStep(s, JobFails(false));
    }
    hide Reaches, Archived;
    scan, s' := ScanEmptiesStaging(idle);
  }

  // ----- Rotating and starting without errors -----

  /** A rotation without errors stages the live log under a name of its own and goes on
      writing to an empty one. */
  lemma RotationCompletes(s: State, f: FreshName, millis: int) returns (actions: seq<Action>, s': State)
    requires Inv(s) && s.phase == Running && s.writer == Ready && s.open && f !in s.disk.spares
    ensures Reaches(s, actions, s') && s.disk.live.Some? && PendingName(millis, s.nextSeq) !in s.disk.pending
    ensures s'.disk.pending == s.disk.pending[PendingName(millis, s.nextSeq) := s.disk.live.value]
    ensures s'.disk.live == Some([]) && s'.disk.archives == s.disk.archives && s'.writer == Ready && s'.open && s'.pruneRequested
  {
    var s1 := s.(disk := s.disk.(spares := s.disk.spares + {f}), writer := FreshMade(f));
    var s2 := s1.(open := false, writer := Closed(f));
    var s3 := StageLive(s2, millis);
    s' := s3.(disk := s3.disk.(live := Some([]), spares := s3.disk.spares - {f}), writer := Ready, open := true, pruneRequested := true);
    OneStep(s, MakeFresh(f));
    OneStep(s1, CloseLive);
    OneStep(s2, Stage(millis));
    OneStep(s3, PublishFresh);
    hide Reaches, Inv;
    Chain(s, [MakeFresh(f)], s1, [CloseLive], s2);
    Chain(s, [MakeFresh(f)] + [CloseLive], s2, [Stage(millis)], s3);
    Chain(s, [MakeFresh(f)] + [CloseLive] + [Stage(millis)], s3, [PublishFresh], s');
    actions := [MakeFresh(f)] + [CloseLive] + [Stage(millis)] + [PublishFresh];
  }

  lemma PruneStep(s: State, a: ArchiveName)
    requires s.scan.Pruning? && a in s.scan.drop
    ensures
      var s' := RemoveArchive(s, a);
      && Reaches(s, [PruneOne(a)], s') && s'.scan == Pruning(s.scan.drop - {a})
      && s' == s.(disk := s.disk.(archives := s.disk.archives - {a}), scan := s'.scan, pruned := s'.pruned)
  {
    OneStep(s, PruneOne(a));
    hide Reaches;
  }

  lemma MinusBoth(archives: map<ArchiveName, Zip>, drop: set<ArchiveName>, a: ArchiveName)
    requires a in drop
    ensures archives - {a} - (drop - {a}) == archives - drop
  {}

  lemma {:induction false} PruneAll(s: State) returns (actions: seq<Action>, s': State)
    requires s.scan.Pruning?
    ensures Reaches(s, actions, s') && s'.scan == Pruning({}) && s'.disk == s.disk.(archives := s.disk.archives - s.scan.drop)
    ensures s' == s.(disk := s'.disk, scan := s'.scan, pruned := s'.pruned)
    decreases |s.scan.drop|
  {
    if s.scan.drop == {} {
      actions, s' := [], s;
      assert s.disk.archives - {} == s.disk.archives;
    } else {
      var a :| a in s.scan.drop;
      PruneStep(s, a);
      MinusBoth(s.disk.archives, s.scan.drop, a);
      hide Reaches, RemoveArchive;
      var mid := RemoveArchive(s, a);
      var rest, end := PruneAll(mid);
      Chain(s, [PruneOne(a)], mid, rest, end);
      actions, s' := [PruneOne(a)] + rest, end;
    }
  }

  lemma BootSteps(s: State)
    requires s.phase == Down
    ensures Reaches(s, [Boot, ReadDirectory], s.(phase := Recovering, scan := Busy(s.disk.pending.Keys, Between)))
  {
    OneStep(s, Boot);
    OneStep(Act(s, Boot), ReadDirectory);
    Chain(s, [Boot], Act(s, Boot), [ReadDirectory], Act(Act(s, Boot), ReadDirectory));
    assert [Boot] + [ReadDirectory] == [Boot, ReadDirectory];
  }

  // Opening the live log and archiving what it held.
  lemma OpenSteps(s: State) returns (actions: seq<Action>, s': State)
    requires s.phase == Opening
    ensures Reaches(s, actions, s') && s'.phase == Truncating && s'.disk.live.Some? && s'.open
    ensures s' == s.(disk := s'.disk, phase := Truncating, open := true) && s'.disk.pending == s.disk.pending
    ensures Archived(s'.disk.archives, s'.disk.live.value)
    ensures s'.disk.live.value == if s.disk.live.Some? then s.disk.live.value else []
    ensures forall a | a in s.disk.archives :: a in s'.disk.archives && s'.disk.archives[a] == s.disk.archives[a]
  {
    var f := UnusedName(s.disk.archives.Keys);
    var checked := OpenAndCheck(s, f);
    OneStep(s, OpenLive(f));
    if checked.phase == Truncating {
      actions, s' := [OpenLive(f)], checked;
    } else {
      var made := Act(checked, CreateStartArchive);
      OneStep(checked, CreateStartArchive);
      s' := Act(made, CopyStartArchive);
      OneStep(made, CopyStartArchive);
      assert s'.disk.archives[f].entry == s'.disk.live.value;
      hide Reaches;
      Chain(s, [OpenLive(f)], checked, [CreateStartArchive], made);
      Chain(s, [OpenLive(f)] + [CreateStartArchive], made, [CopyStartArchive], s');
      actions := [OpenLive(f)] + [CreateStartArchive] + [CopyStartArchive];
    }
  }

  lemma TruncateStep(s: State, drop: set<ArchiveName>)
    requires s.phase == Truncating && Oldest(s.disk.archives.Keys, s.keep, drop)
    ensures Reaches(s, [TruncateLive(drop)], s.(disk := s.disk.(live := Some([])), phase := StartPrune, scan := Pruning(drop)))
  {
    OneStep(s, TruncateLive(drop));
  }

  lemma PruneEndStep(s: State)
    requires s.phase == StartPrune && s.scan == Pruning({})
    ensures Reaches(s, [PruneEnds], s.(scan := Idle, phase := Running))
  {
    OneStep(s, PruneEnds);
  }

  // Recovery: everything staged is archived.
  lemma Recover(s: State) returns (actions: seq<Action>, s': State)
    requires s.phase == Down
    ensures Reaches(s, actions, s') && s' == s.(disk := s'.disk, phase := Opening, scan := Idle)
    ensures s'.disk.pending == map[] && s'.disk.live == s.disk.live
    ensures forall p | p in s.disk.pending :: Archived(s'.disk.archives, s.disk.pending[p])
  {
    hide Reaches, Archived, Oldest;
    BootSteps(s);
    var listed := s.(phase := Recovering, scan := Busy(s.disk.pending.Keys, Between));
    var scan, swept := ScanAll(listed);
    var drop := OldestExists(swept.disk.archives.Keys, s.keep);
    EndStep(swept, drop);
    s' := EndScan(swept, drop);
    Chain(s, [Boot, ReadDirectory], listed, scan, swept);
    Chain(s, [Boot, ReadDirectory] + scan, swept, [ScanEnds(drop)], s');
    actions := [Boot, ReadDirectory] + scan + [ScanEnds(drop)];
    assert s.disk.pending - s.disk.pending.Keys == map[];
  }

  /** A start without errors, from any directory at all: it ends running, with an empty
      live log and nothing staged; everything staged or left in the live log had its
      archive, and at most the archives to keep remain. */
  lemma StartupCompletes(s: State) returns (before: seq<Action>, archived: State, after: seq<Action>, s': State)
    requires s.phase == Down
    ensures Reaches(s, before, archived) && archived.phase == Truncating && archived.disk.live.Some?
    ensures forall p | p in s.disk.pending :: Archived(archived.disk.archives, s.disk.pending[p])
    ensures s.disk.live.Some? ==> Archived(archived.disk.archives, s.disk.live.value)
    ensures Reaches(archived, after, s') && s'.phase == Running && s'.open && s'.scan == Idle
    ensures s'.disk.pending == map[] && s'.disk.live == Some([])
    ensures exists drop :: Oldest(archived.disk.archives.Keys, s.keep, drop) && s'.disk.archives == archived.disk.archives - drop
  {
    hide Reaches, Oldest;
    var recover, opening := Recover(s);
    var open, truncating := OpenSteps(opening);
    Chain(s, recover, opening, open, truncating);
    before, archived := recover + open, truncating;
    forall p | p in s.disk.pending ensures Archived(archived.disk.archives, s.disk.pending[p]) {
      ArchivedStays(opening.disk.archives, archived.disk.archives, s.disk.pending[p]);
    }
    hide Archived;
    var drop := OldestExists(archived.disk.archives.Keys, s.keep);
    TruncateStep(archived, drop);
    var pruning := archived.(disk := archived.disk.(live := Some([])), phase := StartPrune, scan := Pruning(drop));
    var prune, pruned := PruneAll(pruning);
    PruneEndStep(pruned);
    s' := pruned.(scan := Idle, phase := Running);
    Chain(archived, [TruncateLive(drop)], pruning, prune, pruned);
    Chain(archived, [TruncateLive(drop)] + prune, pruned, [PruneEnds], s');
    after := [TruncateLive(drop)] + prune + [PruneEnds];
  }
}
