/** Many processes sharing one cache directory (zeno_client/cache.py with the flock of
    zeno_client/cache_lock.py): every interleaving, with crashes, evictions that take no lock, and
    servers and chunk files that deliver arbitrary bytes. */
module CacheProtocol {
  import opened Base
  import opened Worlds
  import opened LocalCaches
  import opened Places

  type Pid = nat

  /** Streaming a blob from the store, writing a blob already at hand, and assembling from a manifest. */
  datatype Kind = Download | Direct | Assembly

  /** One request of one process: publish `root/<id>/<name>`. */
  datatype Job = Job(id: string, name: string, kind: Kind) {
    function Final(): Place {
      Place(id, name)
    }

    /** The temporary that is verified. */
    function Tmp(): Place {
      Place(id, if kind == Assembly then AssembleTmp(name) else DownloadTmp(name))
    }

    /** The file bytes are written to: `get_blob` has a temporary of its own, the others write in place. */
    function Part(): (p: Place)
      ensures !FinalName(p.name)
    {
      TmpSuffix(DownloadTmp(name), ".tmp");
      if kind == Download then Place(id, DownloadTmp(name) + ".tmp") else Tmp()
    }
  }

  /** Where a process stands inside `ensure_cached`. */
  datatype Pc =
    | Idle
    | Looking(job: Job)                    // before the check without the lock
    | Waiting(job: Job)                    // polling for the lock
    | Locked(job: Job)                     // lock held, about to look again
    | Writing(job: Job)                    // bytes arriving in the part file
    | Checking(job: Job, seen: Bytes)      // hashing the temporary, `seen` read so far
    | Verified(job: Job)                   // hash equal, about to publish
    | Evicting(job: Job)                   // published, evicting before the lock is released
    | Crashed

  datatype State = State(files: Files, locks: Locks, procs: map<Pid, Pc>)

  datatype Event =
    | Start(job: Job)
    | Hit
    | Miss
    | Acquire
    | Timeout
    | HitUnderLock
    | BeginWrite
    | Append(bytes: Bytes)
    | FinishWrite
    | ReadMore(upTo: nat)
    | Match
    | Reject
    | Publish
    | Unlink(victim: Place)
    | Release
    | Crash
    | Restart

  predicate InSection(pc: Pc) {
    pc.Locked? || pc.Writing? || pc.Checking? || pc.Verified? || pc.Evicting?
  }

  type Locks = map<string, Pid>

  predicate WritesFiles(e: Event) {
    e.BeginWrite? || e.Append? || e.FinishWrite? || e.Reject? || e.Publish? || e.Unlink?
  }

  /** Events that change no file: from `pc` to `pc'`, and what becomes of the locks. Leaving the locked
      section, normally, by an exception or by a crash, gives up the lock. */
  ghost predicate Quiet(w: World, p: Pid, pc: Pc, e: Event, pc': Pc, files: Files, locks: Locks, locks': Locks) {
    match e
    case Start(job) => pc.Idle? && PlainPlace(job.Final()) && pc' == Looking(job) && locks' == locks
    case Hit => pc.Looking? && pc.job.Final() in files && pc' == Idle && locks' == locks
    case Miss => pc.Looking? && pc' == Waiting(pc.job) && locks' == locks
    case Acquire => pc.Waiting? && pc.job.id !in locks && pc' == Locked(pc.job) && locks' == locks[pc.job.id := p]
    case Timeout => pc.Waiting? && pc' == Idle && locks' == locks
    case HitUnderLock => pc.Locked? && pc.job.Final() in files && pc' == Idle && locks' == locks - {pc.job.id}
    case ReadMore(n) =>
      && pc.Checking? && pc.job.Tmp() in files && |pc.seen| <= n <= |files[pc.job.Tmp()]|
      && pc' == Checking(pc.job, pc.seen + files[pc.job.Tmp()][|pc.seen|..n]) && locks' == locks
    case Match =>
      && pc.Checking? && pc.job.Tmp() in files && |pc.seen| == |files[pc.job.Tmp()]| && w.hash(pc.seen) == pc.job.id
      && pc' == Verified(pc.job) && locks' == locks
    case Release => InSection(pc) && pc' == Idle && locks' == locks - {pc.job.id}
    case Crash => pc' == Crashed && locks' == if InSection(pc) then locks - {pc.job.id} else locks
    case Restart => pc.Crashed? && pc' == Idle && locks' == locks
    case _ => false
  }

  /** Events that change files. A download keeps a file that is already published, the other two
      writers replace it. */
  ghost predicate Writes(pc: Pc, e: Event, pc': Pc, files: Files, files': Files, locks: Locks, locks': Locks) {
    match e
    case BeginWrite =>
      pc.Locked? && pc' == Writing(pc.job) && files' == (files - {pc.job.Tmp()})[pc.job.Part() := []] && locks' == locks
    case Append(bytes) =>
      && pc.Writing? && pc.job.Part() in files && pc' == pc && locks' == locks
      && files' == files[pc.job.Part() := files[pc.job.Part()] + bytes]
    case FinishWrite =>
      && pc.Writing? && pc.job.Part() in files && pc' == Checking(pc.job, []) && locks' == locks
      && files' == (files - {pc.job.Part()})[pc.job.Tmp() := files[pc.job.Part()]]
    case Reject => pc.Checking? && pc' == Idle && files' == files - {pc.job.Tmp()} && locks' == locks - {pc.job.id}
    case Publish =>
      && pc.Verified? && pc.job.Tmp() in files && pc' == Evicting(pc.job) && locks' == locks
      && files' == if pc.job.kind == Download && pc.job.Final() in files then files - {pc.job.Tmp()}
                   else (files - {pc.job.Tmp()})[pc.job.Final() := files[pc.job.Tmp()]]
    case Unlink(victim) =>
      (pc.Idle? || pc.Evicting?) && PlainPlace(victim) && pc' == pc && files' == files - {victim} && locks' == locks
    case _ => false
  }

  /** Process `p` performs `e`; no other process moves. */
  ghost predicate Step(w: World, s: State, s': State, p: Pid, e: Event) {
    && p in s.procs && s'.procs.Keys == s.procs.Keys
    && (forall q :: q in s.procs && q != p ==> s'.procs[q] == s.procs[q])
    && if WritesFiles(e) then Writes(s.procs[p], e, s'.procs[p], s.files, s'.files, s.locks, s'.locks)
       else s'.files == s.files && Quiet(w, p, s.procs[p], e, s'.procs[p], s.files, s.locks, s'.locks)
  }

  ghost predicate Init(s: State) {
    s.files == map[] && s.locks == map[] && forall p :: p in s.procs ==> s.procs[p] == Idle
  }

  ghost predicate Next(w: World, s: State, s': State) {
    exists p: Pid, e: Event :: Step(w, s, s', p, e)
  }

  /** A run: any finite sequence of steps of any processes from the empty cache. */
  ghost predicate Run(w: World, run: seq<State>) {
    run != [] && Init(run[0]) && forall i :: 0 < i < |run| ==> Next(w, run[i - 1], run[i])
  }

  // ---------------------------------------------------------------- invariants

  /** At most one process is in the locked section of a directory. */
  ghost predicate MutualExclusion(s: State) {
    forall p, q :: p in s.procs && q in s.procs && InSection(s.procs[p]) && InSection(s.procs[q]) ==>
                     s.procs[p].job.id == s.procs[q].job.id ==> p == q
  }

  ghost predicate LockOwners(s: State) {
    && (forall p :: p in s.procs && InSection(s.procs[p]) ==>
          s.procs[p].job.id in s.locks && s.locks[s.procs[p].job.id] == p)
    && (forall d :: d in s.locks ==>
          s.locks[d] in s.procs && InSection(s.procs[s.locks[d]]) && s.procs[s.locks[d]].job.id == d)
  }

  /** What a process inside the section may rely on about its own temporaries. */
  ghost predicate TmpOk(w: World, files: Files, pc: Pc) {
    && (pc.Writing? ==> pc.job.Part() in files)
    && (pc.Checking? ==> pc.job.Tmp() in files && |pc.seen| <= |files[pc.job.Tmp()]|
                         && pc.seen == files[pc.job.Tmp()][..|pc.seen|])
    && (pc.Verified? ==> pc.job.Tmp() in files && w.hash(files[pc.job.Tmp()]) == pc.job.id)
  }

  /** Every request under way is for a plain place. */
  predicate JobOk(pc: Pc) {
    !pc.Idle? && !pc.Crashed? ==> PlainPlace(pc.job.Final())
  }

  ghost predicate ProcOk(w: World, s: State, p: Pid) {
    p in s.procs && TmpOk(w, s.files, s.procs[p]) && JobOk(s.procs[p])
  }

  ghost predicate Inv(w: World, s: State) {
    && LockOwners(s) && ContentOk(w, s.files)
    && forall p :: p in s.procs ==> ProcOk(w, s, p)
  }

  /** The files a step may touch: temporaries of the directory the process has locked, or a published
      file that is removed, or published under its verified hash. */
  ghost predicate Frame(files: Files, files': Files, d: string) {
    forall q :: (q in files || q in files') && !FinalName(q.name) && q.id != d ==>
      q in files && q in files' && files[q] == files'[q]
  }

  lemma TmpOkFrame(w: World, files: Files, files': Files, d: string, pc: Pc)
    requires Frame(files, files', d) && TmpOk(w, files, pc) && (InSection(pc) ==> pc.job.id != d)
    ensures TmpOk(w, files', pc)
  {
  }

  /** The files a request works on: one to publish, and temporaries beside it. */
  lemma JobFiles(job: Job)
    requires PlainPlace(job.Final())
    ensures OwnFile(job.Final()) && FinalName(job.name)
    ensures OwnFile(job.Tmp()) && OwnFile(job.Part()) && !FinalName(job.Tmp().name) && !FinalName(job.Part().name)
  {
    TemporariesInside(job.Final());
  }

  /** The moving process: its temporaries stay right, and published content stays verified. */
  lemma QuietOwn(w: World, p: Pid, pc: Pc, e: Event, pc': Pc, files: Files, locks: Locks, locks': Locks)
    requires Quiet(w, p, pc, e, pc', files, locks, locks') && TmpOk(w, files, pc) && JobOk(pc)
    ensures TmpOk(w, files, pc') && JobOk(pc')
  {
    hide PlainPlace;
    if e.ReadMore? {
      ReadOn(files[pc.job.Tmp()], |pc.seen|, e.upTo);
    } else if e.Match? {
      ReadAll(files[pc.job.Tmp()], pc.seen);
    }
  }

  lemma ReadOn(body: Bytes, n: nat, m: nat)
    requires n <= m <= |body|
    ensures body[..n] + body[n..m] == body[..m]
  {
  }

  lemma ReadAll(body: Bytes, seen: Bytes)
    requires |seen| == |body| && seen == body[..|seen|]
    ensures seen == body
  {
  }

  lemma WritesOwn(w: World, pc: Pc, e: Event, pc': Pc, files: Files, files': Files, locks: Locks, locks': Locks)
    requires Writes(pc, e, pc', files, files', locks, locks') && TmpOk(w, files, pc) && JobOk(pc) && ContentOk(w, files)
    ensures ContentOk(w, files') && TmpOk(w, files', pc') && JobOk(pc')
  {
    hide OwnFile, FinalName;
    if !pc.Idle? && !pc.Crashed? { JobFiles(pc.job); }
  }

  lemma StepOwn(w: World, s: State, s': State, p: Pid, e: Event)
    requires ProcOk(w, s, p) && ContentOk(w, s.files) && Step(w, s, s', p, e)
    ensures ContentOk(w, s'.files) && ProcOk(w, s', p)
  {
    hide Quiet, Writes, TmpOk, JobOk, ContentOk;
    if WritesFiles(e) {
      WritesOwn(w, s.procs[p], e, s'.procs[p], s.files, s'.files, s.locks, s'.locks);
    } else {
      QuietOwn(w, p, s.procs[p], e, s'.procs[p], s.files, s.locks, s'.locks);
    }
  }

  lemma WritesFrame(pc: Pc, e: Event, pc': Pc, files: Files, files': Files, locks: Locks, locks': Locks)
    requires Writes(pc, e, pc', files, files', locks, locks')
    ensures InSection(pc) ==> Frame(files, files', pc.job.id)
    ensures !InSection(pc) ==> forall d :: Frame(files, files', d)
  {
    hide OwnFile, FinalName;
    if e.Unlink? {
      assert forall q :: (q in files || q in files') && !FinalName(q.name) ==> q != e.victim;
    }
  }

  lemma SameFrame(files: Files)
    ensures forall d :: Frame(files, files, d)
  {
  }

  /** Outside the directory its process has locked, a step changes no temporary. */
  lemma StepFrame(w: World, s: State, s': State, p: Pid, e: Event)
    requires Step(w, s, s', p, e)
    ensures s'.procs.Keys == s.procs.Keys && forall q :: q in s.procs && q != p ==> s'.procs[q] == s.procs[q]
    ensures InSection(s.procs[p]) ==> Frame(s.files, s'.files, s.procs[p].job.id)
    ensures !InSection(s.procs[p]) ==> forall d :: Frame(s.files, s'.files, d)
  {
    hide Quiet, Writes, Frame;
    SameFrame(s.files);
    if WritesFiles(e) {
      WritesFrame(s.procs[p], e, s'.procs[p], s.files, s'.files, s.locks, s'.locks);
    }
  }

  /** What becomes of the locks when a process goes from `was` to `now`: nothing, it takes the lock it
      will hold, or it gives up the one it held. */
  ghost predicate LockMove(p: Pid, was: Pc, now: Pc, locks: Locks, locks': Locks) {
    || (locks' == locks && InSection(was) == InSection(now) && (InSection(was) ==> was.job.id == now.job.id))
    || (!InSection(was) && InSection(now) && now.job.id !in locks && locks' == locks[now.job.id := p])
    || (InSection(was) && !InSection(now) && locks' == locks - {was.job.id})
  }

  lemma QuietLocks(w: World, p: Pid, pc: Pc, e: Event, pc': Pc, files: Files, locks: Locks, locks': Locks)
    requires Quiet(w, p, pc, e, pc', files, locks, locks')
    ensures LockMove(p, pc, pc', locks, locks')
  {
    hide PlainPlace;
  }

  lemma WritesLocks(p: Pid, pc: Pc, e: Event, pc': Pc, files: Files, files': Files, locks: Locks, locks': Locks)
    requires Writes(pc, e, pc', files, files', locks, locks')
    ensures LockMove(p, pc, pc', locks, locks')
  {
    hide PlainPlace;
  }

  lemma StepLockShape(w: World, s: State, s': State, p: Pid, e: Event)
    requires Step(w, s, s', p, e)
    ensures p in s.procs && s'.procs.Keys == s.procs.Keys
    ensures forall q :: q in s.procs && q != p ==> s'.procs[q] == s.procs[q]
    ensures LockMove(p, s.procs[p], s'.procs[p], s.locks, s'.locks)
  {
    hide Quiet, Writes, LockMove;
    if WritesFiles(e) {
      WritesLocks(p, s.procs[p], e, s'.procs[p], s.files, s'.files, s.locks, s'.locks);
    } else {
      QuietLocks(w, p, s.procs[p], e, s'.procs[p], s.files, s.locks, s'.locks);
    }
  }

  lemma StepLocks(w: World, s: State, s': State, p: Pid, e: Event)
    requires Step(w, s, s', p, e) && LockOwners(s)
    ensures LockOwners(s')
  {
    hide Step, InSection;
    StepLockShape(w, s, s', p, e);
  }

  lemma LocksExclude(s: State)
    requires LockOwners(s)
    ensures MutualExclusion(s)
  {
  }

  /** Every step of every process keeps the invariant. */
  lemma StepKeepsInv(w: World, s: State, s': State, p: Pid, e: Event)
    requires Inv(w, s) && Step(w, s, s', p, e)
    ensures Inv(w, s')
  {
    StepLocks(w, s, s', p, e);
    StepOwn(w, s, s', p, e);
    StepFrame(w, s, s', p, e);
    LocksExclude(s);
    hide Step, ContentOk, LockOwners, TmpOk, Frame, JobOk;
    forall q | q in s'.procs
      ensures ProcOk(w, s', q)
    {
      if q != p {
        var d := if InSection(s.procs[p]) then s.procs[p].job.id else if InSection(s.procs[q]) then s.procs[q].job.id + "x" else "";
        TmpOkFrame(w, s.files, s'.files, d, s.procs[q]);
      }
    }
  }

  lemma {:induction false} RunKeepsInv(w: World, run: seq<State>, i: nat)
    requires Run(w, run) && i < |run|
    ensures Inv(w, run[i])
  {
    hide Inv, Init, Next;
    if i == 0 {
      InitInv(w, run[0]);
    } else {
      RunKeepsInv(w, run, i - 1);
      NextKeepsInv(w, run[i - 1], run[i]);
    }
  }

  lemma InitInv(w: World, s: State)
    requires Init(s)
    ensures Inv(w, s)
  {
  }

  lemma NextKeepsInv(w: World, s: State, s': State)
    requires Inv(w, s) && Next(w, s, s')
    ensures Inv(w, s')
  {
    hide Inv, Step;
    var p: Pid, e: Event :| Step(w, s, s', p, e);
    StepKeepsInv(w, s, s', p, e);
  }

  // ---------------------------------------------------------------- the safety theorem

  /** In every state of every run, at most one process is inside a directory's section, and every
      published file hashes to the id of its directory. */
  lemma RunIsSafe(w: World, run: seq<State>, i: nat)
    requires Run(w, run) && i < |run|
    ensures MutualExclusion(run[i]) && ContentOk(w, run[i].files)
  {
    RunKeepsInv(w, run, i);
    LocksExclude(run[i]);
  }

  /** In every state of every run the files the protocol speaks of are different files of the file
      system, each directly in its digest's directory, and none of them is the cache's bookkeeping. */
  lemma RunStaysInside(w: World, run: seq<State>, i: nat, root: Path, p: Place, q: Place)
    requires Run(w, run) && i < |run| && p in run[i].files && q in run[i].files
    ensures Resolve(root, p) == root + [p.id] + [p.name] && !Reserved(root, Resolve(root, p))
    ensures Resolve(root, p) == Resolve(root, q) ==> p == q
  {
    RunKeepsInv(w, run, i);
    assert OwnFile(p) && OwnFile(q);
    OwnFileIffPlain(root, p.id, p.name);
    OwnFileNotReserved(root, p);
    if Resolve(root, p) == Resolve(root, q) { PlacesAreFiles(root, p, q); }
  }

  /** While a published file exists its bytes never change, whatever any process does: a path once
      returned shows the requested content or, after an eviction, nothing. */
  lemma PublishedNeverChanges(w: World, run: seq<State>, i: nat, j: nat, p: Place)
    requires w.CollisionFree() && Run(w, run) && i < |run| && j < |run| && FinalName(p.name)
    requires p in run[i].files && p in run[j].files
    ensures run[i].files[p] == run[j].files[p]
  {
    RunIsSafe(w, run, i);
    RunIsSafe(w, run, j);
    w.SameHash(run[i].files[p], run[j].files[p]);
  }

  /** A verified temporary is there before and after, with the same bytes. */
  predicate KeepsTmp(files: Files, files': Files, pc: Pc) {
    pc.Verified? ==> pc.job.Tmp() in files && pc.job.Tmp() in files' && files'[pc.job.Tmp()] == files[pc.job.Tmp()]
  }

  /** A process that has matched the hash publishes exactly the bytes it hashed: between the two steps
      no other process can touch its temporary. */
  lemma VerifiedStaysVerified(w: World, s: State, s': State, p: Pid, q: Pid, e: Event)
    requires p in s.procs && s.procs[p].Verified? && p != q
    requires Inv(w, s) && Step(w, s, s', q, e)
    ensures p in s'.procs && s'.procs[p] == s.procs[p] && KeepsTmp(s.files, s'.files, s.procs[p])
  {
    StepFrame(w, s, s', q, e);
    LocksExclude(s);
    hide Step, ContentOk, LockOwners;
    assert TmpOk(w, s.files, s.procs[p]);
    var d := if InSection(s.procs[q]) then s.procs[q].job.id else s.procs[p].job.id + "x";
    assert Frame(s.files, s'.files, d);
  }

  // ---------------------------------------------------------------- the protocol is not stuck

  /** Consecutive states are steps. */
  ghost predicate Path(w: World, ss: seq<State>) {
    ss != [] && forall i :: 0 < i < |ss| ==> Next(w, ss[i - 1], ss[i])
  }

  lemma PathStep(w: World, ss: seq<State>, s: State, p: Pid, e: Event)
    requires Path(w, ss) && Step(w, ss[|ss| - 1], s, p, e)
    ensures Path(w, ss + [s])
  {
    hide Step;
    var longer := ss + [s];
    forall i | 0 < i < |longer|
      ensures Next(w, longer[i - 1], longer[i])
    {
      if i < |ss| {
        assert Next(w, ss[i - 1], ss[i]);
      } else {
        assert Step(w, longer[i - 1], longer[i], p, e);
      }
    }
  }

  /** From any state in which the directory's lock is free, an idle process that is sent the right
      bytes can publish them, through the lock, the write, the hash check and the rename. */
  lemma CanPublish(w: World, s: State, p: Pid, job: Job, body: Bytes) returns (ss: seq<State>)
    requires p in s.procs && s.procs[p] == Idle && job.id !in s.locks && job.Final() !in s.files
    requires PlainPlace(job.Final()) && w.hash(body) == job.id
    ensures Path(w, ss) && ss[0] == s
    ensures var end := ss[|ss| - 1]; job.Final() in end.files && end.files[job.Final()] == body && job.id in end.locks
  {
    ss := ToWriting(w, s, p, job);
    hide Path, Step;
    var s4 := ss[|ss| - 1];
    var s5 := s4.(files := s4.files[job.Part() := s4.files[job.Part()] + body]);
    assert Step(w, s4, s5, p, Append(body)) by { AppendStep(w, s4, s5, p, job, body); }
    PathStep(w, ss, s5, p, Append(body));
    ss := ss + [s5];
    assert s5.files[job.Part()] == body;
    var s6, s7, s8, s9 := ToPublished(w, s5, p, job, body);
    PathStep(w, ss, s6, p, FinishWrite);
    ss := ss + [s6];
    PathStep(w, ss, s7, p, ReadMore(|body|));
    ss := ss + [s7];
    PathStep(w, ss, s8, p, Match);
    ss := ss + [s8];
    PathStep(w, ss, s9, p, Publish);
    ss := ss + [s9];
  }

  lemma AppendStep(w: World, s: State, s': State, p: Pid, job: Job, body: Bytes)
    requires p in s.procs && s.procs[p] == Writing(job) && job.Part() in s.files
    requires s' == s.(files := s.files[job.Part() := s.files[job.Part()] + body])
    ensures Step(w, s, s', p, Append(body))
  {
  }

  lemma QuietStep(w: World, s: State, p: Pid, e: Event, pc: Pc, locks: Locks)
    requires p in s.procs && !WritesFiles(e) && Quiet(w, p, s.procs[p], e, pc, s.files, s.locks, locks)
    ensures Step(w, s, State(s.files, locks, s.procs[p := pc]), p, e)
  {
    hide Quiet;
  }

  lemma WriteStep(w: World, s: State, p: Pid, e: Event, pc: Pc, files: Files)
    requires p in s.procs && WritesFiles(e) && Writes(s.procs[p], e, pc, s.files, files, s.locks, s.locks)
    ensures Step(w, s, State(files, s.locks, s.procs[p := pc]), p, e)
  {
    hide Writes;
  }

  /** Looking without the lock, waiting for it, taking it, and opening an empty part file. */
  lemma ToWriting(w: World, s: State, p: Pid, job: Job) returns (ss: seq<State>)
    requires p in s.procs && s.procs[p] == Idle && job.id !in s.locks && job.Final() !in s.files
    requires PlainPlace(job.Final())
    ensures Path(w, ss) && ss[0] == s
    ensures var end := ss[|ss| - 1];
            && p in end.procs && end.procs[p] == Writing(job) && job.Part() in end.files && end.files[job.Part()] == []
            && job.Final() !in end.files && job.id in end.locks
  {
    hide Step, Path, PlainPlace;
    var s1 := State(s.files, s.locks, s.procs[p := Looking(job)]);
    var s2 := State(s.files, s.locks, s1.procs[p := Waiting(job)]);
    var s3 := State(s.files, s.locks[job.id := p], s2.procs[p := Locked(job)]);
    var files := (s.files - {job.Tmp()})[job.Part() := []];
    var s4 := State(files, s3.locks, s3.procs[p := Writing(job)]);
    QuietStep(w, s, p, Start(job), Looking(job), s.locks);
    QuietStep(w, s1, p, Miss, Waiting(job), s.locks);
    QuietStep(w, s2, p, Acquire, Locked(job), s.locks[job.id := p]);
    WriteStep(w, s3, p, BeginWrite, Writing(job), files);
    hide Quiet, Writes;
    PathOne(w, s);
    PathStep(w, [s], s1, p, Start(job));
    PathStep(w, [s] + [s1], s2, p, Miss);
    PathStep(w, [s] + [s1] + [s2], s3, p, Acquire);
    PathStep(w, [s] + [s1] + [s2] + [s3], s4, p, BeginWrite);
    ss := [s] + [s1] + [s2] + [s3] + [s4];
    JobFiles(job);
  }

  lemma PathOne(w: World, s: State)
    ensures Path(w, [s])
  {
  }

  /** Closing the part file, hashing the temporary, and renaming it. */
  lemma ToPublished(w: World, s: State, p: Pid, job: Job, body: Bytes) returns (s6: State, s7: State, s8: State, s9: State)
    requires p in s.procs && s.procs[p] == Writing(job) && job.Part() in s.files && s.files[job.Part()] == body
    requires job.Final() !in s.files && PlainPlace(job.Final()) && w.hash(body) == job.id
    ensures Step(w, s, s6, p, FinishWrite) && Step(w, s6, s7, p, ReadMore(|body|))
    ensures Step(w, s7, s8, p, Match) && Step(w, s8, s9, p, Publish)
    ensures job.Final() in s9.files && s9.files[job.Final()] == body && s9.locks == s.locks
  {
    hide Step, PlainPlace;
    JobFiles(job);
    var none: Bytes := [];
    assert none + body[|none|..|body|] == body;
    var written := (s.files - {job.Part()})[job.Tmp() := body];
    var published := (written - {job.Tmp()})[job.Final() := body];
    s6 := State(written, s.locks, s.procs[p := Checking(job, [])]);
    s7 := State(written, s.locks, s6.procs[p := Checking(job, body)]);
    s8 := State(written, s.locks, s7.procs[p := Verified(job)]);
    s9 := State(published, s.locks, s8.procs[p := Evicting(job)]);
    WriteStep(w, s, p, FinishWrite, Checking(job, []), written);
    QuietStep(w, s6, p, ReadMore(|body|), Checking(job, body), s.locks);
    QuietStep(w, s7, p, Match, Verified(job), s.locks);
    WriteStep(w, s8, p, Publish, Evicting(job), published);
  }
}
