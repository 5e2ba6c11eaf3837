// Directory entries in a key/value store, under any interleaving of the jobs of
// mkdir, crdirent, rmdirent, chdirent and mgmt-remove-dirent requests that the
// request scheduler allows.

module Directory {
  import F = Fresh

  type Handle = nat
  type ErrorCode = x: int | x < 0 witness -1
  type Entries = map<string, Handle>

  const NULL_HANDLE: Handle := 0
  const EINVAL: ErrorCode := -15
  const ENOTDIR: ErrorCode := -13
  const EEXIST: ErrorCode := -11
  const ENOENT: ErrorCode := -2

  datatype Kind = Directory | DirData | Other

  // How far a request has come. `d` is the dirdata object read on the way.
  datatype Op =
    | Crdirent(dir: Handle, name: string, child: Handle, pc: CrPc)
    | Rmdirent(dir: Handle, name: string, dpc: RdPc)
    | Chdirent(dir: Handle, name: string, child: Handle, cpc: ChPc)
    | RemoveDirent(dir: Handle, name: string, rpc: RmPc)
    | Mkdir(mpc: MkPc)

  datatype CrPc = Validate | CrReadDirData | WriteEntry(d: Handle) | CrUpdateAttr
  datatype RdPc = RdReadDirData | RdRemoveEntry(d: Handle) | RdUpdateAttr(was: Handle)
  datatype ChPc = ChReadDirData | ReadEntry(d: Handle) | ChangeEntry(d: Handle, was: Handle) | ChUpdateAttr(was: Handle)
  datatype RmPc = RmReadDirData | RemoveEntry(d: Handle)
  datatype MkPc = CreateDirectory | SetAttributes(h: Handle) | CreateDirData(h: Handle) | WriteKey(h: Handle, d: Handle)

  // A job either does its work, naming the object it made if it makes one, or
  // fails without effect.
  datatype Job = Done(made: Handle) | Failed(code: ErrorCode)

  datatype Result =
    | Reply(status: int, handle: Handle)
    | NewDirectory(handle: Handle)   // a mkdir's answer with status 0
    | Aborted                        // an assertion stops the server

  predicate HasSlash(name: string) { '/' in name }

  // The scan for a character that no entry may hold.
  method ScanName(name: string) returns (bad: bool)
    ensures bad == HasSlash(name)
  {
    var i := 0;
    while i < |name| && name[i] != '/'
      invariant 0 <= i <= |name| && '/' !in name[..i]
    {
      i := i + 1;
    }
    bad := i < |name|;
    assert name[..|name|] == name;
  }

  // The directory a request was scheduled on; mkdir has none.
  function Locks(op: Op): set<Handle> {
    if op.Mkdir? then {} else {op.dir}
  }

  // A request that has not done anything yet.
  predicate IsFresh(op: Op) {
    match op
    case Crdirent(_, _, _, pc) => pc.Validate?
    case Rmdirent(_, _, pc) => pc.RdReadDirData?
    case Chdirent(_, _, _, pc) => pc.ChReadDirData?
    case RemoveDirent(_, _, pc) => pc.RmReadDirData?
    case Mkdir(pc) => pc.CreateDirectory?
  }

  // Requests that are scheduled whatever else is scheduled on their directory,
  // and requests that must have it to themselves when they are.
  predicate Joins(op: Op) { op.Crdirent? || op.Rmdirent? }
  predicate Exclusive(op: Op) { op.Chdirent? || op.RemoveDirent? }

  // Objects a mkdir has made and not yet published.
  function Unpublished(op: Op): set<Handle> {
    if !op.Mkdir? || op.mpc.CreateDirectory? then {}
    else if op.mpc.WriteKey? then {op.mpc.h, op.mpc.d}
    else {op.mpc.h}
  }

  // The next job makes an object.
  predicate Makes(op: Op) {
    op.Mkdir? && (op.mpc.CreateDirectory? || op.mpc.CreateDirData?)
  }

  // --------------------------------------------------------------------------
  // The store.
  // --------------------------------------------------------------------------

  datatype Store = Store(
    kinds: map<Handle, Kind>,          // every object
    dirdata: map<Handle, Handle>,      // the key kept in each directory
    entries: map<Handle, Entries>,     // the contents of each dirdata object
    counts: map<Handle, int>)          // the store's own count of them

  predicate Holds(s: Store, d: Handle) { d in s.entries && d in s.counts }

  predicate HasEntry(s: Store, dir: Handle, name: string, child: Handle) {
    && dir in s.dirdata && s.dirdata[dir] in s.entries
    && name in s.entries[s.dirdata[dir]] && s.entries[s.dirdata[dir]][name] == child
  }

  function Insert(s: Store, d: Handle, name: string, child: Handle): Store
    requires Holds(s, d)
  {
    Overwrite(s, d, name, child).(counts := s.counts[d := s.counts[d] + 1])
  }

  // A write that does not count, whether or not the entry is there.
  function Overwrite(s: Store, d: Handle, name: string, child: Handle): Store
    requires Holds(s, d)
  {
    var changed: Entries := s.entries[d][name := child];
    s.(entries := s.entries[d := changed])
  }

  function Delete(s: Store, d: Handle, name: string): Store
    requires Holds(s, d)
  {
    s.(entries := s.entries[d := s.entries[d] - {name}], counts := s.counts[d := s.counts[d] - 1])
  }

  function AddDirectory(s: Store, h: Handle): Store {
    s.(kinds := s.kinds[h := Directory])
  }

  function AddDirData(s: Store, d: Handle): Store {
    s.(kinds := s.kinds[d := DirData], entries := s.entries[d := map[]], counts := s.counts[d := 0])
  }

  function SetKey(s: Store, h: Handle, d: Handle): Store {
    s.(dirdata := s.dirdata[h := d])
  }

  predicate NoSlashes(s: Store) {
    forall d, n :: d in s.entries && n in s.entries[d] ==> !HasSlash(n)
  }

  // Every directory has a dirdata object of its own.
  predicate Unshared(s: Store) {
    && (forall h :: h in s.dirdata ==> h in s.kinds && s.kinds[h] == Directory && s.dirdata[h] in s.entries)
    && (forall g, h :: g in s.dirdata && h in s.dirdata && g != h ==> s.dirdata[g] != s.dirdata[h])
  }

  predicate Typed(s: Store) {
    && s.entries.Keys == s.counts.Keys && NULL_HANDLE !in s.kinds
    && forall d :: d in s.entries ==> d in s.kinds && s.kinds[d] == DirData
  }

  predicate Sound(s: Store) {
    NoSlashes(s) && Unshared(s) && Typed(s)
  }

  // By how much the store's count of an object falls short of its entries.
  function Drift(s: Store, d: Handle): int {
    if Holds(s, d) then |s.entries[d]| - s.counts[d] else 0
  }

  ghost predicate Counted(s: Store) {
    forall d :: Drift(s, d) == 0
  }

  // Nothing stored for a directory changes, except for those in `touched`.
  predicate OthersKept(s: Store, t: Store, touched: set<Handle>) {
    forall x :: x in s.dirdata && x !in touched ==>
      && x in t.dirdata && t.dirdata[x] == s.dirdata[x]
      && s.dirdata[x] in s.entries && s.dirdata[x] in t.entries && t.entries[s.dirdata[x]] == s.entries[s.dirdata[x]]
  }

  // --------------------------------------------------------------------------
  // What one job of a request does.
  // --------------------------------------------------------------------------

  datatype Next = Goes(op: Op) | Ends(result: Result)
  datatype Effect = Effect(store: Store, next: Next)

  function Answer(s: Store, status: int, handle: Handle): Effect { Effect(s, Ends(Reply(status, handle))) }
  function Code(job: Job): int { if job.Failed? then job.code else 0 }

  // Reading the dirdata handle of a directory, common to four requests.
  function WithDirData(op: Op, d: Handle): Op
    requires !op.Mkdir?
  {
    match op
    case Crdirent(_, _, _, _) => op.(pc := WriteEntry(d))
    case Rmdirent(_, _, _) => op.(dpc := RdRemoveEntry(d))
    case Chdirent(_, _, _, _) => op.(cpc := ReadEntry(d))
    case RemoveDirent(_, _, _) => op.(rpc := RemoveEntry(d))
  }

  function ReadKey(s: Store, op: Op, job: Job): Effect
    requires !op.Mkdir?
  {
    if job.Failed? then Answer(s, job.code, 0)
    else if op.dir !in s.dirdata then Answer(s, ENOENT, 0)
    else Effect(s, Goes(WithDirData(op, s.dirdata[op.dir])))
  }

  function OnCrdirent(s: Store, op: Op, job: Job): Effect
    requires op.Crdirent?
  {
    match op.pc
    case Validate =>
      if op.dir == NULL_HANDLE || HasSlash(op.name) then Answer(s, EINVAL, 0)
      else if !(op.dir in s.kinds && s.kinds[op.dir] == Directory) then Answer(s, ENOTDIR, 0)
      else Effect(s, Goes(op.(pc := CrReadDirData)))
    case CrReadDirData => ReadKey(s, op, job)
    case WriteEntry(d) =>
      if job.Failed? then Answer(s, job.code, 0)
      else if !Holds(s, d) then Answer(s, ENOENT, 0)
      else if op.name in s.entries[d] then Answer(s, EEXIST, 0)
      else Effect(Insert(s, d, op.name, op.child), Goes(op.(pc := CrUpdateAttr)))
    case CrUpdateAttr => Answer(s, Code(job), 0)
  }

  function OnRmdirent(s: Store, op: Op, job: Job): Effect
    requires op.Rmdirent?
  {
    match op.dpc
    case RdReadDirData => ReadKey(s, op, job)
    case RdRemoveEntry(d) =>
      if job.Failed? then Answer(s, job.code, 0)
      else if !Holds(s, d) || op.name !in s.entries[d] then Answer(s, ENOENT, 0)
      else Effect(Delete(s, d, op.name), Goes(op.(dpc := RdUpdateAttr(s.entries[d][op.name]))))
    case RdUpdateAttr(was) => Answer(s, Code(job), if job.Failed? then 0 else was)
  }

  function OnChdirent(s: Store, op: Op, job: Job): Effect
    requires op.Chdirent?
  {
    match op.cpc
    case ChReadDirData => ReadKey(s, op, job)
    case ReadEntry(d) =>
      if job.Failed? then Answer(s, job.code, 0)
      else if !Holds(s, d) || op.name !in s.entries[d] then Answer(s, ENOENT, 0)
      else Effect(s, Goes(op.(cpc := ChangeEntry(d, s.entries[d][op.name]))))
    case ChangeEntry(d, was) =>
      if job == Failed(ENOENT) || !Holds(s, d) then Effect(s, Ends(Aborted))
      else if job.Failed? then Answer(s, job.code, 0)
      else Effect(Overwrite(s, d, op.name, op.child), Goes(op.(cpc := ChUpdateAttr(was))))
    case ChUpdateAttr(was) => Answer(s, Code(job), if job.Failed? then 0 else was)
  }

  function OnRemoveDirent(s: Store, op: Op, job: Job): Effect
    requires op.RemoveDirent?
  {
    match op.rpc
    case RmReadDirData => ReadKey(s, op, job)
    case RemoveEntry(d) =>
      if job.Failed? then Answer(s, job.code, 0)
      else if !Holds(s, d) || op.name !in s.entries[d] then Answer(s, ENOENT, 0)
      else Answer(Delete(s, d, op.name), 0, 0)
  }

  function OnMkdir(s: Store, op: Op, job: Job): Effect
    requires op.Mkdir?
  {
    if job.Failed? then Answer(s, job.code, NULL_HANDLE)
    else
      match op.mpc
      case CreateDirectory => Effect(AddDirectory(s, job.made), Goes(Mkdir(SetAttributes(job.made))))
      case SetAttributes(h) => Effect(s, Goes(Mkdir(CreateDirData(h))))
      case CreateDirData(h) => Effect(AddDirData(s, job.made), Goes(Mkdir(WriteKey(h, job.made))))
      case WriteKey(h, d) => Effect(SetKey(s, h, d), Ends(NewDirectory(h)))
  }

  function Perform(s: Store, op: Op, job: Job): Effect {
    match op
    case Crdirent(_, _, _, _) => OnCrdirent(s, op, job)
    case Rmdirent(_, _, _) => OnRmdirent(s, op, job)
    case Chdirent(_, _, _, _) => OnChdirent(s, op, job)
    case RemoveDirent(_, _, _) => OnRemoveDirent(s, op, job)
    case Mkdir(_) => OnMkdir(s, op, job)
  }

  // --------------------------------------------------------------------------
  // Runs.
  // --------------------------------------------------------------------------

  datatype World = World(
    store: Store,
    ops: map<nat, Op>,           // requests under way
    results: map<nat, Result>)   // requests answered

  const EMPTY := World(Store(map[], map[], map[], map[]), map[], map[])

  // Requests arrive, and their jobs end.
  datatype Event = Arrives(id: nat, op: Op) | JobEnds(id: nat, job: Job)

  // A request that has to wait for its directory arrives here when it is let in.
  predicate Admits(ops: map<nat, Op>, op: Op) {
    Exclusive(op) ==> forall i :: i in ops ==> Locks(ops[i]) !! Locks(op)
  }

  function Commit(w: World, id: nat, e: Effect): World {
    match e.next
    case Goes(op) => World(e.store, w.ops[id := op], w.results)
    case Ends(result) => World(e.store, w.ops - {id}, w.results[id := result])
  }

  predicate Enabled(w: World, e: Event) {
    match e
    case Arrives(id, op) => id !in w.ops && id !in w.results && IsFresh(op) && Admits(w.ops, op)
    case JobEnds(id, job) =>
      id in w.ops && (Makes(w.ops[id]) && job.Done? ==> job.made !in w.store.kinds && job.made != NULL_HANDLE)
  }

  // An event that cannot happen in the state reached is passed over.
  function Step(w: World, e: Event): World {
    if !Enabled(w, e) then w
    else
      match e
      case Arrives(id, op) => w.(ops := w.ops[id := op])
      case JobEnds(id, job) => Commit(w, id, Perform(w.store, w.ops[id], job))
  }

  function Exec(w: World, run: seq<Event>): World
    decreases |run|
  {
    if run == [] then w else Exec(Step(w, run[0]), run[1..])
  }

  // --------------------------------------------------------------------------
  // What every run keeps.
  // --------------------------------------------------------------------------

  // What a request may rely on.
  predicate OpOk(s: Store, op: Op) {
    match op
    case Crdirent(dir, name, _, pc) =>
      && (!pc.Validate? ==> !HasSlash(name))
      && (pc.WriteEntry? ==> dir in s.dirdata && s.dirdata[dir] == pc.d)
    case Rmdirent(dir, _, pc) =>
      pc.RdRemoveEntry? ==> dir in s.dirdata && s.dirdata[dir] == pc.d
    case Chdirent(dir, name, _, pc) =>
      && (pc.ReadEntry? || pc.ChangeEntry? ==> dir in s.dirdata && s.dirdata[dir] == pc.d)
      && (pc.ChangeEntry? ==> !HasSlash(name))
    case RemoveDirent(dir, _, pc) =>
      pc.RemoveEntry? ==> dir in s.dirdata && s.dirdata[dir] == pc.d
    case Mkdir(pc) =>
      && (!pc.CreateDirectory? ==> pc.h in s.kinds && s.kinds[pc.h] == Directory && pc.h !in s.dirdata)
      && (pc.WriteKey? ==> pc.d in s.entries && s.entries[pc.d] == map[] && forall h :: h in s.dirdata ==> s.dirdata[h] != pc.d)
  }

  // The store is sound, every request can go on, at most one request on a
  // directory needs it to itself, no two have made the same object, and every
  // directory that was answered for with status 0 has its dirdata.
  predicate Valid(w: World) {
    && Sound(w.store) && w.ops.Keys !! w.results.Keys
    && (forall i :: i in w.ops ==> OpOk(w.store, w.ops[i]))
    && (forall i, j :: i in w.ops && j in w.ops && i != j && Exclusive(w.ops[i]) && Exclusive(w.ops[j]) ==>
          w.ops[i].dir != w.ops[j].dir)
    && (forall i, j :: i in w.ops && j in w.ops && i != j ==> Unpublished(w.ops[i]) !! Unpublished(w.ops[j]))
    && (forall i :: i in w.results && w.results[i].NewDirectory? ==> w.results[i].handle in w.store.dirdata)
  }

  // A change to nothing but the contents and the count of one dirdata object.
  predicate Edited(s: Store, t: Store, d: Handle) {
    && t.kinds == s.kinds && t.dirdata == s.dirdata
    && t.entries.Keys == s.entries.Keys && t.counts.Keys == s.counts.Keys && d in s.entries
    && forall x :: x in s.entries && x != d ==> t.entries[x] == s.entries[x]
  }

  lemma EditedSound(s: Store, t: Store, d: Handle)
    requires Sound(s) && Edited(s, t, d) && forall n :: n in t.entries[d] ==> !HasSlash(n)
    ensures Sound(t)
  {
    assert NoSlashes(t);
  }

  lemma EditedScope(s: Store, t: Store, dir: Handle)
    requires Sound(s) && dir in s.dirdata && Edited(s, t, s.dirdata[dir])
    ensures OthersKept(s, t, {dir})
  {
  }

  lemma SameScope(s: Store, touched: set<Handle>)
    requires Sound(s)
    ensures OthersKept(s, s, touched)
  {
  }

  // No other request notices such a change.
  lemma EditedOk(s: Store, t: Store, dir: Handle, other: Op)
    requires Sound(s) && dir in s.dirdata && Edited(s, t, s.dirdata[dir]) && OpOk(s, other)
    ensures OpOk(t, other)
  {
  }

  lemma AddDirectorySound(s: Store, h: Handle)
    requires Sound(s) && h !in s.kinds && h != NULL_HANDLE
    ensures Sound(AddDirectory(s, h)) && OthersKept(s, AddDirectory(s, h), {})
  {
  }

  lemma AddDirDataSound(s: Store, d: Handle)
    requires Sound(s) && d !in s.kinds && d != NULL_HANDLE
    ensures Sound(AddDirData(s, d)) && OthersKept(s, AddDirData(s, d), {})
  {
    var t := AddDirData(s, d);
    assert NoSlashes(t) && Typed(t);
    assert Unshared(t);
  }

  lemma SetKeySound(s: Store, h: Handle, d: Handle)
    requires Sound(s) && h in s.kinds && s.kinds[h] == Directory && h !in s.dirdata && d in s.entries
    requires forall g :: g in s.dirdata ==> s.dirdata[g] != d
    ensures Sound(SetKey(s, h, d)) && OthersKept(s, SetKey(s, h, d), {})
  {
    assert Unshared(SetKey(s, h, d));
  }

  // The next job can be done as described.
  predicate CanEnd(s: Store, op: Op, job: Job) {
    Makes(op) && job.Done? ==> job.made !in s.kinds && job.made != NULL_HANDLE
  }

  // What a job of a request leaves behind.
  predicate Leaves(s: Store, op: Op, e: Effect) {
    && Sound(e.store) && s.dirdata.Keys <= e.store.dirdata.Keys && OthersKept(s, e.store, Locks(op))
    && match e.next {
         case Goes(next) => OpOk(e.store, next) && Locks(next) == Locks(op) && Exclusive(next) == Exclusive(op)
         case Ends(r) => r.NewDirectory? ==> r.handle in e.store.dirdata
       }
  }

  lemma CrdirentLeaves(s: Store, op: Op, job: Job)
    requires Sound(s) && OpOk(s, op) && op.Crdirent?
    ensures Leaves(s, op, OnCrdirent(s, op, job))
  {
    SameScope(s, Locks(op));
    var t := OnCrdirent(s, op, job).store;
    if t != s {
      EditedSound(s, t, op.pc.d);
      EditedScope(s, t, op.dir);
    }
  }

  lemma RmdirentLeaves(s: Store, op: Op, job: Job)
    requires Sound(s) && OpOk(s, op) && op.Rmdirent?
    ensures Leaves(s, op, OnRmdirent(s, op, job))
  {
    SameScope(s, Locks(op));
    var t := OnRmdirent(s, op, job).store;
    if t != s {
      EditedSound(s, t, op.dpc.d);
      EditedScope(s, t, op.dir);
    }
  }

  lemma ChdirentLeaves(s: Store, op: Op, job: Job)
    requires Sound(s) && OpOk(s, op) && op.Chdirent?
    ensures Leaves(s, op, OnChdirent(s, op, job))
  {
    SameScope(s, Locks(op));
    var t := OnChdirent(s, op, job).store;
    if t != s {
      EditedSound(s, t, op.cpc.d);
      EditedScope(s, t, op.dir);
    }
  }

  lemma RemoveDirentLeaves(s: Store, op: Op, job: Job)
    requires Sound(s) && OpOk(s, op) && op.RemoveDirent?
    ensures Leaves(s, op, OnRemoveDirent(s, op, job))
  {
    SameScope(s, Locks(op));
    var t := OnRemoveDirent(s, op, job).store;
    if t != s {
      EditedSound(s, t, op.rpc.d);
      EditedScope(s, t, op.dir);
    }
  }

  lemma MkdirLeaves(s: Store, op: Op, job: Job)
    requires Sound(s) && OpOk(s, op) && op.Mkdir? && CanEnd(s, op, job)
    ensures Leaves(s, op, OnMkdir(s, op, job))
  {
    SameScope(s, {});
    if job.Done? {
      match op.mpc
      case CreateDirectory => AddDirectorySound(s, job.made);
      case SetAttributes(h) =>
      case CreateDirData(h) => AddDirDataSound(s, job.made);
      case WriteKey(h, d) => SetKeySound(s, h, d);
    }
  }

  lemma PerformLeaves(s: Store, op: Op, job: Job)
    requires Sound(s) && OpOk(s, op) && CanEnd(s, op, job)
    ensures Leaves(s, op, Perform(s, op, job))
  {
    match op
    case Crdirent(_, _, _, _) => CrdirentLeaves(s, op, job);
    case Rmdirent(_, _, _) => RmdirentLeaves(s, op, job);
    case Chdirent(_, _, _, _) => ChdirentLeaves(s, op, job);
    case RemoveDirent(_, _, _) => RemoveDirentLeaves(s, op, job);
    case Mkdir(_) => MkdirLeaves(s, op, job);
  }

  // The assertion after a chdirent's write fails exactly when the store itself
  // reports that write as one to a missing object.
  lemma AbortsIff(w: World, id: nat, job: Job)
    requires Valid(w) && id in w.ops
    ensures Perform(w.store, w.ops[id], job).next == Ends(Aborted) <==>
            w.ops[id].Chdirent? && w.ops[id].cpc.ChangeEntry? && job == Failed(ENOENT)
  {
  }

  // No job disturbs another request.
  predicate Undisturbed(e: Effect, other: Op) {
    OpOk(e.store, other) && (e.next.Goes? ==> Unpublished(e.next.op) !! Unpublished(other))
  }

  // A request on a directory changes the store in its dirdata object only.
  lemma EntryEffect(s: Store, op: Op, job: Job)
    requires Sound(s) && OpOk(s, op) && !op.Mkdir?
    ensures var t := Perform(s, op, job).store;
            t == s || (op.dir in s.dirdata && Edited(s, t, s.dirdata[op.dir]))
    ensures Perform(s, op, job).next.Goes? ==> !Perform(s, op, job).next.op.Mkdir?
  {
  }

  lemma MkdirUndisturbed(s: Store, op: Op, job: Job, other: Op)
    requires Sound(s) && OpOk(s, op) && op.Mkdir? && CanEnd(s, op, job) && OpOk(s, other)
    requires Unpublished(op) !! Unpublished(other)
    ensures Undisturbed(OnMkdir(s, op, job), other)
  {
  }

  lemma PerformUndisturbed(s: Store, op: Op, job: Job, other: Op)
    requires Sound(s) && OpOk(s, op) && CanEnd(s, op, job) && OpOk(s, other)
    requires Unpublished(op) !! Unpublished(other)
    ensures Undisturbed(Perform(s, op, job), other)
  {
    if op.Mkdir? {
      MkdirUndisturbed(s, op, job, other);
    } else {
      EntryEffect(s, op, job);
      var t := Perform(s, op, job).store;
      if t != s {
        EditedOk(s, t, op.dir, other);
      }
    }
  }

  lemma ArrivalKeepsValid(w: World, id: nat, op: Op)
    requires Valid(w) && Enabled(w, Arrives(id, op))
    ensures Valid(Step(w, Arrives(id, op)))
  {
  }

  lemma JobKeepsValid(w: World, id: nat, job: Job)
    requires Valid(w) && Enabled(w, JobEnds(id, job))
    ensures Valid(Step(w, JobEnds(id, job)))
  {
    var op := w.ops[id];
    var e := Perform(w.store, op, job);
    PerformLeaves(w.store, op, job);
    forall j | j in w.ops && j != id ensures Undisturbed(e, w.ops[j]) {
      PerformUndisturbed(w.store, op, job, w.ops[j]);
    }
    CommitKeepsValid(w, id, e);
  }

  lemma CommitKeepsValid(w: World, id: nat, e: Effect)
    requires Valid(w) && id in w.ops && Leaves(w.store, w.ops[id], e)
    requires forall j :: j in w.ops && j != id ==> Undisturbed(e, w.ops[j])
    ensures Valid(Commit(w, id, e))
  {
  }

  lemma StepKeepsValid(w: World, e: Event)
    requires Valid(w)
    ensures Valid(Step(w, e))
  {
    if Enabled(w, e) {
      match e
      case Arrives(id, op) => ArrivalKeepsValid(w, id, op);
      case JobEnds(id, job) => JobKeepsValid(w, id, job);
    }
  }

  lemma StartValid()
    ensures Valid(EMPTY) && Present(EMPTY) && Counted(EMPTY.store)
  {
  }

  // In every run no entry name has a separator, no two directories share their
  // dirdata, and every directory answered for with status 0 has its own.
  lemma {:induction false} RunKeepsValid(w: World, run: seq<Event>)
    requires Valid(w)
    ensures Valid(Exec(w, run))
    decreases |run|
  {
    if run != [] {
      StepKeepsValid(w, run[0]);
      RunKeepsValid(Step(w, run[0]), run[1..]);
    }
  }

  // --------------------------------------------------------------------------
  // Operations on one directory never change another.
  // --------------------------------------------------------------------------

  // Every request, under way or yet to arrive, names a directory in `named`.
  predicate Names(w: World, run: seq<Event>, named: set<Handle>) {
    && (forall i :: i in w.ops ==> Locks(w.ops[i]) <= named)
    && forall k :: 0 <= k < |run| && run[k].Arrives? ==> Locks(run[k].op) <= named
  }

  lemma KeptThrough(s: Store, t: Store, u: Store, touched: set<Handle>)
    requires OthersKept(s, t, touched) && OthersKept(t, u, touched)
    ensures OthersKept(s, u, touched)
  {
  }

  lemma StepScoped(w: World, e: Event, named: set<Handle>)
    requires Valid(w) && Names(w, [e], named)
    ensures OthersKept(w.store, Step(w, e).store, named)
    ensures forall i :: i in Step(w, e).ops ==> Locks(Step(w, e).ops[i]) <= named
  {
    SameScope(w.store, named);
    assert e.Arrives? ==> [e][0].Arrives?;
    if Enabled(w, e) && e.JobEnds? {
      PerformLeaves(w.store, w.ops[e.id], e.job);
    }
  }

  lemma {:induction false} RunScoped(w: World, run: seq<Event>, named: set<Handle>)
    requires Valid(w) && Names(w, run, named)
    ensures OthersKept(w.store, Exec(w, run).store, named)
    decreases |run|
  {
    SameScope(w.store, named);
    if run != [] {
      var v := Step(w, run[0]);
      assert Names(w, [run[0]], named);
      StepScoped(w, run[0], named);
      StepKeepsValid(w, run[0]);
      RunScoped(v, run[1..], named);
      KeptThrough(w.store, v.store, Exec(w, run).store, named);
    }
  }

  // --------------------------------------------------------------------------
  // The count of entries.
  // --------------------------------------------------------------------------

  // A chdirent is about to write an entry that has gone since it was read.
  predicate Misses(w: World, e: Event, d: Handle) {
    && Enabled(w, e) && e.JobEnds? && e.job.Done?
    && var op := w.ops[e.id];
       op.Chdirent? && op.cpc.ChangeEntry? && op.cpc.d == d && Holds(w.store, d) && op.name !in w.store.entries[d]
  }

  function Missed(w: World, run: seq<Event>, d: Handle): nat
    decreases |run|
  {
    if run == [] then 0 else (if Misses(w, run[0], d) then 1 else 0) + Missed(Step(w, run[0]), run[1..], d)
  }

  lemma RemovedCount(entries: Entries, name: string)
    requires name in entries
    ensures |entries - {name}| == |entries| - 1
  {
    var rest := entries - {name};
    assert rest[name := entries[name]] == entries;
  }

  lemma OverwrittenCount(entries: Entries, name: string, child: Handle)
    ensures |entries[name := child]| == |entries| + (if name in entries then 0 else 1)
  {
    if name in entries {
      assert entries[name := child].Keys == entries.Keys;
      assert |entries[name := child].Keys| == |entries.Keys|;
    }
  }

  // What each change does to the difference between entries and count.
  lemma ChangeDrifts(s: Store, d: Handle, name: string, child: Handle, x: Handle)
    requires Holds(s, d)
    ensures name !in s.entries[d] ==> Drift(Insert(s, d, name, child), x) == Drift(s, x)
    ensures name in s.entries[d] ==> Drift(Delete(s, d, name), x) == Drift(s, x)
    ensures Drift(Overwrite(s, d, name, child), x) == Drift(s, x) + (if x == d && name !in s.entries[d] then 1 else 0)
  {
    OverwrittenCount(s.entries[d], name, child);
    if name in s.entries[d] {
      RemovedCount(s.entries[d], name);
    }
  }

  lemma JobDrifts(s: Store, op: Op, job: Job, x: Handle)
    requires Sound(s) && OpOk(s, op) && CanEnd(s, op, job)
    ensures Drift(Perform(s, op, job).store, x) == Drift(s, x) +
            (if job.Done? && op.Chdirent? && op.cpc.ChangeEntry? && op.cpc.d == x && Holds(s, x) && op.name !in s.entries[x]
             then 1 else 0)
  {
    match op
    case Crdirent(_, name, child, pc) => if pc.WriteEntry? && Holds(s, pc.d) { ChangeDrifts(s, pc.d, name, child, x); }
    case Rmdirent(_, name, pc) => if pc.RdRemoveEntry? && Holds(s, pc.d) { ChangeDrifts(s, pc.d, name, 0, x); }
    case Chdirent(_, name, child, pc) => if pc.ChangeEntry? && Holds(s, pc.d) { ChangeDrifts(s, pc.d, name, child, x); }
    case RemoveDirent(_, name, pc) => if pc.RemoveEntry? && Holds(s, pc.d) { ChangeDrifts(s, pc.d, name, 0, x); }
    case Mkdir(_) =>
  }

  // The count falls short by exactly the writes that found their entry gone.
  lemma {:induction false} CountExact(w: World, run: seq<Event>, d: Handle)
    requires Valid(w)
    ensures Drift(Exec(w, run).store, d) == Drift(w.store, d) + Missed(w, run, d)
    decreases |run|
  {
    if run != [] {
      if Enabled(w, run[0]) && run[0].JobEnds? {
        JobDrifts(w.store, w.ops[run[0].id], run[0].job, d);
      }
      StepKeepsValid(w, run[0]);
      CountExact(Step(w, run[0]), run[1..], d);
    }
  }

  // Counts that were right stay right exactly when no chdirent writes an entry
  // that has gone.
  lemma CountedIff(w: World, run: seq<Event>)
    requires Valid(w) && Counted(w.store)
    ensures Counted(Exec(w, run).store) <==> forall d :: Missed(w, run, d) == 0
  {
    var s := Exec(w, run).store;
    if Counted(s) {
      forall d ensures Missed(w, run, d) == 0 {
        CountExact(w, run, d);
        assert Drift(s, d) == 0 && Drift(w.store, d) == 0;
      }
    } else {
      var d :| Drift(s, d) != 0;
      CountExact(w, run, d);
      assert Drift(w.store, d) == 0 && Missed(w, run, d) != 0;
    }
  }

  // Every chdirent that has read its entry still finds it.
  predicate Present(w: World) {
    forall i :: i in w.ops && w.ops[i].Chdirent? && w.ops[i].cpc.ChangeEntry? ==>
      w.ops[i].cpc.d in w.store.entries && w.ops[i].name in w.store.entries[w.ops[i].cpc.d]
  }

  predicate NoRmdirent(w: World, run: seq<Event>) {
    && (forall i :: i in w.ops ==> !w.ops[i].Rmdirent?)
    && forall k :: 0 <= k < |run| && run[k].Arrives? ==> !run[k].op.Rmdirent?
  }

  // Only a request scheduled beside a chdirent can take its entry away, and of
  // those only a rmdirent of the same name does.
  lemma EntryKept(s: Store, op: Op, job: Job, ch: Op)
    requires Sound(s) && OpOk(s, op) && OpOk(s, ch) && CanEnd(s, op, job)
    requires ch.Chdirent? && (op.Rmdirent? && !op.dpc.RdUpdateAttr? && op.dir == ch.dir ==> op.name != ch.name)
    requires ch.cpc.ChangeEntry? && ch.cpc.d in s.entries && ch.name in s.entries[ch.cpc.d]
    requires Exclusive(op) ==> op.dir != ch.dir
    ensures var t := Perform(s, op, job).store; ch.cpc.d in t.entries && ch.name in t.entries[ch.cpc.d]
  {
  }

  // A chdirent goes on to write only an entry it has found.
  predicate GoesOnPresent(e: Effect) {
    e.next.Goes? && e.next.op.Chdirent? && e.next.op.cpc.ChangeEntry? ==>
      e.next.op.cpc.d in e.store.entries && e.next.op.name in e.store.entries[e.next.op.cpc.d]
  }

  lemma NextPresent(s: Store, op: Op, job: Job)
    requires Sound(s) && OpOk(s, op)
    ensures GoesOnPresent(Perform(s, op, job))
  {
  }

  lemma CommitPresent(w: World, id: nat, e: Effect)
    requires id in w.ops && Present(w.(store := e.store, ops := w.ops - {id}))
    requires GoesOnPresent(e)
    ensures Present(Commit(w, id, e))
  {
    var v := w.(store := e.store, ops := w.ops - {id});
    var u := Commit(w, id, e);
    forall i | i in u.ops && i != id ensures i in v.ops && u.ops[i] == v.ops[i] {
    }
  }

  // So without rmdirent requests the counts stay right in every run.
  lemma CountedWithoutRmdirent(w: World, run: seq<Event>, d: Handle)
    requires Valid(w) && Present(w) && NoRmdirent(w, run)
    ensures Missed(w, run, d) == 0
  {
    RunStaysSafe(w, run, d);
  }

  lemma Then(w: World, e: Event, rest: seq<Event>)
    ensures Exec(w, [e] + rest) == Exec(Step(w, e), rest)
    ensures forall d :: Missed(w, [e] + rest, d) == (if Misses(w, e, d) then 1 else 0) + Missed(Step(w, e), rest, d)
  {
    assert ([e] + rest)[1..] == rest;
  }

  const DONE := Done(0)

  // With them they do not: from every state in which a chdirent has read its
  // entry, a rmdirent that joins it leaves a count one short.
  lemma CountLost(w: World, i: nat, j: nat) returns (run: seq<Event>)
    requires Valid(w) && i in w.ops && w.ops[i].Chdirent? && w.ops[i].cpc.ChangeEntry? && Drift(w.store, w.ops[i].cpc.d) == 0
    requires w.ops[i].cpc.d in w.store.entries && w.ops[i].name in w.store.entries[w.ops[i].cpc.d]
    requires j !in w.ops && j !in w.results
    ensures Drift(Exec(w, run).store, w.ops[i].cpc.d) == 1
  {
    var e := Arrives(j, Rmdirent(w.ops[i].dir, w.ops[i].name, RdReadDirData));
    StepKeepsValid(w, e);
    var rest := EntryMissed(Step(w, e), i, j);
    run := [e] + rest;
    Then(w, e, rest);
    CountExact(w, run, w.ops[i].cpc.d);
  }

  // --------------------------------------------------------------------------
  // The entry a crdirent has written, until it is answered.
  // --------------------------------------------------------------------------

  predicate Wrote(w: World, i: nat) {
    && i in w.ops && w.ops[i].Crdirent? && w.ops[i].pc.CrUpdateAttr?
    && HasEntry(w.store, w.ops[i].dir, w.ops[i].name, w.ops[i].child)
  }

  // --------------------------------------------------------------------------
  // What the jobs that change a directory do to it, name by name.
  // --------------------------------------------------------------------------

  // The contents of a directory in a sound store.
  function Contents(s: Store, dir: Handle): Entries
    requires dir in s.dirdata && s.dirdata[dir] in s.entries
  {
    s.entries[s.dirdata[dir]]
  }

  // Two states of the store differ at most in what one name of one directory
  // stands for.
  ghost predicate OnlyNameChanged(s: Store, t: Store, dir: Handle, name: string) {
    && t.kinds == s.kinds && t.dirdata == s.dirdata && dir in s.dirdata
    && t.entries.Keys == s.entries.Keys && s.dirdata[dir] in s.entries
    && (forall d :: d in s.entries && d != s.dirdata[dir] ==> t.entries[d] == s.entries[d])
    && forall n :: n != name ==>
         && (n in t.entries[s.dirdata[dir]] <==> n in s.entries[s.dirdata[dir]])
         && (n in s.entries[s.dirdata[dir]] ==> t.entries[s.dirdata[dir]][n] == s.entries[s.dirdata[dir]][n])
  }

  // A crdirent's write makes the name stand for the child, unless it is taken.
  lemma CrdirentAdds(w: World, i: nat, job: Job)
    requires Valid(w) && i in w.ops && w.ops[i].Crdirent? && w.ops[i].pc.WriteEntry? && job.Done?
    ensures var op, v := w.ops[i], Step(w, JobEnds(i, job));
            && op.dir in w.store.dirdata && w.store.dirdata[op.dir] in w.store.entries
            && if op.name in Contents(w.store, op.dir)
               then v.store == w.store && i !in v.ops && i in v.results && v.results[i] == Reply(EEXIST, 0)
               else OnlyNameChanged(w.store, v.store, op.dir, op.name) && Wrote(v, i) && v.ops[i] == op.(pc := CrUpdateAttr)
  {
  }

  // A chdirent's write makes it stand for the new child; what it stood for when
  // it was read is kept for the answer.
  lemma ChdirentFinds(w: World, i: nat, job: Job)
    requires Valid(w) && i in w.ops && w.ops[i].Chdirent? && w.ops[i].cpc.ReadEntry? && job.Done?
    ensures var op, v := w.ops[i], Step(w, JobEnds(i, job));
            && op.dir in w.store.dirdata && w.store.dirdata[op.dir] in w.store.entries && v.store == w.store
            && if op.name in Contents(w.store, op.dir)
               then v == w.(ops := w.ops[i := op.(cpc := ChangeEntry(op.cpc.d, Contents(w.store, op.dir)[op.name]))])
               else i !in v.ops && i in v.results && v.results[i] == Reply(ENOENT, 0)
  {
  }

  lemma ChdirentChanges(w: World, i: nat, job: Job)
    requires Valid(w) && i in w.ops && w.ops[i].Chdirent? && w.ops[i].cpc.ChangeEntry? && job.Done?
    ensures var op, v := w.ops[i], Step(w, JobEnds(i, job));
            && OnlyNameChanged(w.store, v.store, op.dir, op.name) && HasEntry(v.store, op.dir, op.name, op.child)
            && i in v.ops && v.ops[i] == op.(cpc := ChUpdateAttr(op.cpc.was))
  {
  }

  // A removal makes the name stand for nothing.
  lemma RmdirentTakes(w: World, i: nat, job: Job)
    requires Valid(w) && i in w.ops && w.ops[i].Rmdirent? && w.ops[i].dpc.RdRemoveEntry? && job.Done?
    ensures var op, v := w.ops[i], Step(w, JobEnds(i, job));
            && op.dir in w.store.dirdata && w.store.dirdata[op.dir] in w.store.entries
            && if op.name in Contents(w.store, op.dir)
               then OnlyNameChanged(w.store, v.store, op.dir, op.name) && op.name !in Contents(v.store, op.dir)
                    && i in v.ops && v.ops[i] == op.(dpc := RdUpdateAttr(Contents(w.store, op.dir)[op.name]))
               else v.store == w.store && i in v.results && v.results[i] == Reply(ENOENT, 0)
  {
  }

  lemma RemoveDirentTakes(w: World, i: nat, job: Job)
    requires Valid(w) && i in w.ops && w.ops[i].RemoveDirent? && w.ops[i].rpc.RemoveEntry? && job.Done?
    ensures var op, v := w.ops[i], Step(w, JobEnds(i, job));
            && op.dir in w.store.dirdata && w.store.dirdata[op.dir] in w.store.entries && i in v.results
            && if op.name in Contents(w.store, op.dir)
               then OnlyNameChanged(w.store, v.store, op.dir, op.name) && op.name !in Contents(v.store, op.dir)
                    && v.results[i] == Reply(0, 0)
               else v.store == w.store && v.results[i] == Reply(ENOENT, 0)
  {
  }

  // The last job of either: the answer carries what the name stood for.
  lemma AttrStep(w: World, i: nat, was: Handle)
    requires i in w.ops
    requires (w.ops[i].Chdirent? && w.ops[i].cpc == ChUpdateAttr(was)) || (w.ops[i].Rmdirent? && w.ops[i].dpc == RdUpdateAttr(was))
    ensures Step(w, JobEnds(i, DONE)) == World(w.store, w.ops - {i}, w.results[i := Reply(0, was)])
  {
  }

  lemma ChdirentWrites(w: World, i: nat)
    requires Valid(w) && i in w.ops && w.ops[i].Chdirent? && w.ops[i].cpc.ChangeEntry?
    ensures var op, v := w.ops[i], Exec(w, [JobEnds(i, DONE), JobEnds(i, DONE)]);
            && OnlyNameChanged(w.store, v.store, op.dir, op.name) && HasEntry(v.store, op.dir, op.name, op.child)
            && i in v.results && v.results[i] == Reply(0, op.cpc.was)
  {
    var e := JobEnds(i, DONE);
    ChdirentChanges(w, i, DONE);
    var w1 := Step(w, e);
    AttrStep(w1, i, w.ops[i].cpc.was);
    Then(w, e, [e]);
    Then(w1, e, []);
  }

  // From the state that read it, a chdirent whose jobs are done in a row answers
  // with what the name stood for, and leaves it standing for the child.
  lemma ChdirentAnswers(w: World, i: nat)
    requires Valid(w) && i in w.ops && w.ops[i].Chdirent? && w.ops[i].cpc.ReadEntry?
    ensures var op, v := w.ops[i], Exec(w, [JobEnds(i, DONE)] + [JobEnds(i, DONE), JobEnds(i, DONE)]);
            && op.dir in w.store.dirdata && w.store.dirdata[op.dir] in w.store.entries
            && (op.name in Contents(w.store, op.dir) ==>
                  && OnlyNameChanged(w.store, v.store, op.dir, op.name) && HasEntry(v.store, op.dir, op.name, op.child)
                  && i in v.results && v.results[i] == Reply(0, Contents(w.store, op.dir)[op.name]))
  {
    var e := JobEnds(i, DONE);
    ChdirentFinds(w, i, DONE);
    if w.ops[i].name in Contents(w.store, w.ops[i].dir) {
      StepKeepsValid(w, e);
      ChdirentWrites(Step(w, e), i);
      Then(w, e, [e, e]);
    }
  }

  // So does a rmdirent, which answers with what it removed.
  lemma RmdirentAnswers(w: World, i: nat)
    requires Valid(w) && i in w.ops && w.ops[i].Rmdirent? && w.ops[i].dpc.RdRemoveEntry?
    ensures var op, v := w.ops[i], Exec(w, [JobEnds(i, DONE), JobEnds(i, DONE)]);
            && op.dir in w.store.dirdata && w.store.dirdata[op.dir] in w.store.entries
            && (op.name in Contents(w.store, op.dir) ==>
                  && OnlyNameChanged(w.store, v.store, op.dir, op.name) && op.name !in Contents(v.store, op.dir)
                  && i in v.results && v.results[i] == Reply(0, Contents(w.store, op.dir)[op.name]))
  {
    var e := JobEnds(i, DONE);
    RmdirentTakes(w, i, DONE);
    if w.ops[i].name in Contents(w.store, w.ops[i].dir) {
      var w1 := Step(w, e);
      AttrStep(w1, i, Contents(w.store, w.ops[i].dir)[w.ops[i].name]);
      Then(w, e, [e]);
      Then(w1, e, []);
    }
  }

  // A mkdir whose jobs are done in a row answers with the directory it made,
  // which then has the dirdata object it made, and no entries.
  lemma MkdirAnswers(w: World, i: nat, h: Handle, d: Handle)
    requires Valid(w) && i in w.ops && w.ops[i] == Mkdir(CreateDirectory)
    requires h !in w.store.kinds && d !in w.store.kinds && h != d && h != NULL_HANDLE && d != NULL_HANDLE
    ensures var v := Exec(w, [JobEnds(i, Done(h)), JobEnds(i, DONE)] + [JobEnds(i, Done(d)), JobEnds(i, DONE)]);
            && i in v.results && v.results[i] == NewDirectory(h)
            && h in v.store.kinds && v.store.kinds[h] == Directory && v.store.dirdata == w.store.dirdata[h := d]
            && v.store.entries == w.store.entries[d := map[]]
  {
    var a, b := [JobEnds(i, Done(h)), JobEnds(i, DONE)], [JobEnds(i, Done(d)), JobEnds(i, DONE)];
    MkdirMakesDirectory(w, i, h);
    MkdirSetsKey(Exec(w, a), i, h, d);
    Joined(w, a, b);
  }

  lemma MkdirMakesDirectory(w: World, i: nat, h: Handle)
    requires i in w.ops && w.ops[i] == Mkdir(CreateDirectory) && h !in w.store.kinds && h != NULL_HANDLE
    ensures Exec(w, [JobEnds(i, Done(h)), JobEnds(i, DONE)]) ==
            w.(store := w.store.(kinds := w.store.kinds[h := Directory]), ops := w.ops[i := Mkdir(CreateDirData(h))])
  {
    var w1 := Step(w, JobEnds(i, Done(h)));
    var w2 := Step(w1, JobEnds(i, DONE));
    assert w2.ops == w.ops[i := Mkdir(CreateDirData(h))];
    Then(w, JobEnds(i, Done(h)), [JobEnds(i, DONE)]);
    Then(w1, JobEnds(i, DONE), []);
  }

  lemma MkdirSetsKey(w: World, i: nat, h: Handle, d: Handle)
    requires i in w.ops && w.ops[i] == Mkdir(CreateDirData(h)) && d !in w.store.kinds && d != NULL_HANDLE
    ensures var v := Exec(w, [JobEnds(i, Done(d)), JobEnds(i, DONE)]);
            && i in v.results && v.results[i] == NewDirectory(h)
            && v.store == Store(w.store.kinds[d := DirData], w.store.dirdata[h := d],
                                w.store.entries[d := map[]], w.store.counts[d := 0])
  {
    var w1 := Step(w, JobEnds(i, Done(d)));
    Then(w, JobEnds(i, Done(d)), [JobEnds(i, DONE)]);
    Then(w1, JobEnds(i, DONE), []);
  }

  // Any other job that fails leaves the store as it was and its code in the
  // answer, but for the one that stops the server.
  lemma FailureReported(w: World, i: nat, code: ErrorCode)
    requires Valid(w) && i in w.ops && !(w.ops[i].Crdirent? && w.ops[i].pc.Validate?)
    ensures var v := Step(w, JobEnds(i, Failed(code)));
            && v.store == w.store && i !in v.ops && i in v.results
            && v.results[i] == if w.ops[i].Chdirent? && w.ops[i].cpc.ChangeEntry? && code == ENOENT then Aborted else Reply(code, 0)
  {
  }

  // A crdirent whose jobs are all done, from its arrival: the name was free, and
  // now stands for the child.
  lemma CrdirentServed(w: World, dir: Handle, name: string, child: Handle, i: nat)
    requires Valid(w) && dir in w.store.dirdata && w.store.dirdata[dir] in w.store.entries && name !in Contents(w.store, dir)
    requires !HasSlash(name) && i !in w.ops && i !in w.results
    ensures var v := Exec(w, [Arrives(i, Crdirent(dir, name, child, Validate)), JobEnds(i, DONE), JobEnds(i, DONE)] +
                             [JobEnds(i, DONE), JobEnds(i, DONE)]);
            && i in v.results && v.results[i] == Reply(0, 0)
            && HasEntry(v.store, dir, name, child) && OnlyNameChanged(w.store, v.store, dir, name)
  {
    var e := JobEnds(i, DONE);
    var a := [Arrives(i, Crdirent(dir, name, child, Validate)), e, e];
    CrdirentReaches(w, dir, name, child, i);
    RunKeepsValid(w, a);
    var w1 := Exec(w, a);
    CrdirentAdds(w1, i, DONE);
    Joined(w, a, [e, e]);
    Then(w1, e, [e]);
    Then(Step(w1, e), e, []);
  }

  // What a crdirent is refused with before it looks at any entry.
  lemma CrdirentChecked(w: World, i: nat, job: Job)
    requires Valid(w) && i in w.ops && w.ops[i].Crdirent? && w.ops[i].pc.Validate?
    ensures var op, v := w.ops[i], Step(w, JobEnds(i, job));
            && v.store == w.store
            && (i in v.results && v.results[i] == Reply(EINVAL, 0) <==> op.dir == NULL_HANDLE || '/' in op.name)
            && (i in v.results && v.results[i] == Reply(ENOTDIR, 0) <==>
                  op.dir != NULL_HANDLE && '/' !in op.name && !(op.dir in w.store.kinds && w.store.kinds[op.dir] == Directory))
            && (i in v.ops <==>
                  '/' !in op.name && op.dir in w.store.kinds && w.store.kinds[op.dir] == Directory)
  {
  }

  // A request that may still take the entry away or change it.
  predicate Threat(op: Op, cr: Op)
    requires cr.Crdirent?
  {
    match op
    case Rmdirent(dir, name, pc) => dir == cr.dir && name == cr.name && !pc.RdUpdateAttr?
    case RemoveDirent(dir, name, _) => dir == cr.dir && name == cr.name
    case Chdirent(dir, name, child, pc) => dir == cr.dir && name == cr.name && child != cr.child && !pc.ChUpdateAttr?
    case _ => false
  }

  predicate NoThreat(w: World, i: nat)
    requires i in w.ops && w.ops[i].Crdirent?
  {
    forall j :: j in w.ops ==> !Threat(w.ops[j], w.ops[i])
  }

  // With `rm`, rmdirent requests may arrive.
  predicate Permitted(rm: bool, run: seq<Event>) {
    rm || forall k :: 0 <= k < |run| && run[k].Arrives? ==> !run[k].op.Rmdirent?
  }

  // In every run, as long as the request is not answered, its entry is there.
  ghost predicate Stays(rm: bool, w: World, i: nat)
    requires i in w.ops && w.ops[i].Crdirent?
  {
    forall run :: Permitted(rm, run) && i in Exec(w, run).ops ==>
      HasEntry(Exec(w, run).store, w.ops[i].dir, w.ops[i].name, w.ops[i].child)
  }

  lemma HarmlessJob(s: Store, op: Op, job: Job, cr: Op)
    requires Sound(s) && OpOk(s, op) && CanEnd(s, op, job) && cr.Crdirent? && HasEntry(s, cr.dir, cr.name, cr.child)
    requires !Threat(op, cr)
    ensures var e := Perform(s, op, job);
            HasEntry(e.store, cr.dir, cr.name, cr.child) && (e.next.Goes? ==> !Threat(e.next.op, cr))
  {
  }

  // One step of a run in which nothing threatens the entry.
  lemma StepStays(w: World, i: nat, e: Event)
    requires Valid(w) && Wrote(w, i) && NoThreat(w, i) && Permitted(false, [e])
    ensures var v := Step(w, e); i in v.ops ==> v.ops[i] == w.ops[i] && Wrote(v, i) && NoThreat(v, i)
  {
    assert e.Arrives? ==> [e][0].Arrives?;
    if Enabled(w, e) && e.JobEnds? {
      HarmlessJob(w.store, w.ops[e.id], e.job, w.ops[i]);
    }
  }

  lemma {:induction false} GoneStaysGone(w: World, i: nat, run: seq<Event>)
    requires i !in w.ops && i in w.results
    ensures i !in Exec(w, run).ops && i in Exec(w, run).results
    decreases |run|
  {
    if run != [] {
      GoneStaysGone(Step(w, run[0]), i, run[1..]);
    }
  }

  lemma {:induction false} RunStays(w: World, i: nat, run: seq<Event>)
    requires Valid(w) && Wrote(w, i) && NoThreat(w, i) && Permitted(false, run)
    ensures i in Exec(w, run).ops ==> HasEntry(Exec(w, run).store, w.ops[i].dir, w.ops[i].name, w.ops[i].child)
    decreases |run|
  {
    if run != [] {
      var v := Step(w, run[0]);
      assert Permitted(false, [run[0]]) && Permitted(false, run[1..]);
      StepStays(w, i, run[0]);
      StepKeepsValid(w, run[0]);
      if i in v.ops {
        RunStays(v, i, run[1..]);
      } else {
        GoneStaysGone(v, i, run[1..]);
      }
    }
  }

  // Jobs until a threatening request has carried out its threat.
  function Left(op: Op): nat {
    match op
    case Rmdirent(_, _, pc) => (match pc case RdReadDirData => 2 case RdRemoveEntry(_) => 1 case RdUpdateAttr(_) => 0)
    case RemoveDirent(_, _, pc) => (match pc case RmReadDirData => 2 case RemoveEntry(_) => 1)
    case Chdirent(_, _, _, pc) =>
      (match pc case ChReadDirData => 3 case ReadEntry(_) => 2 case ChangeEntry(_, _) => 1 case ChUpdateAttr(_) => 0)
    case _ => 0
  }

  lemma ThreatStep(s: Store, op: Op, cr: Op)
    requires Sound(s) && OpOk(s, op) && cr.Crdirent? && HasEntry(s, cr.dir, cr.name, cr.child) && Threat(op, cr)
    ensures var e := Perform(s, op, DONE);
            if Left(op) == 1 then !HasEntry(e.store, cr.dir, cr.name, cr.child)
            else e.store == s && e.next.Goes? && Threat(e.next.op, cr) && Left(e.next.op) < Left(op)
  {
  }

  // A threatening request takes the entry away if its jobs are done first.
  lemma {:induction false} ThreatCarriedOut(w: World, i: nat, j: nat) returns (run: seq<Event>)
    requires Valid(w) && Wrote(w, i) && j in w.ops && j != i && Threat(w.ops[j], w.ops[i])
    ensures Permitted(false, run) && i in Exec(w, run).ops
    ensures !HasEntry(Exec(w, run).store, w.ops[i].dir, w.ops[i].name, w.ops[i].child)
    decreases Left(w.ops[j])
  {
    var e := JobEnds(j, DONE);
    var v := Step(w, e);
    ThreatStep(w.store, w.ops[j], w.ops[i]);
    if Left(w.ops[j]) == 1 {
      run := [e] + [];
      Then(w, e, []);
    } else {
      StepKeepsValid(w, e);
      var rest := ThreatCarriedOut(v, i, j);
      run := [e] + rest;
      Then(w, e, rest);
    }
  }

  // A rmdirent can always join, and then is a threat.
  lemma RmdirentThreatens(w: World, i: nat) returns (run: seq<Event>)
    requires Valid(w) && Wrote(w, i)
    ensures i in Exec(w, run).ops && !HasEntry(Exec(w, run).store, w.ops[i].dir, w.ops[i].name, w.ops[i].child)
  {
    var j := F.Unused(w.ops.Keys + w.results.Keys);
    var e := Arrives(j, Rmdirent(w.ops[i].dir, w.ops[i].name, RdReadDirData));
    StepKeepsValid(w, e);
    var rest := ThreatCarriedOut(Step(w, e), i, j);
    run := [e] + rest;
    Then(w, e, rest);
  }

  // The entry a crdirent has written is there until the request is answered
  // exactly when no rmdirent may join and no request already scheduled beside it
  // is about to take away or change that entry.
  lemma EntryStaysIff(rm: bool, w: World, i: nat)
    requires Valid(w) && Wrote(w, i)
    ensures Stays(rm, w, i) <==> !rm && NoThreat(w, i)
  {
    if rm {
      var run := RmdirentThreatens(w, i);
    } else if j :| j in w.ops && Threat(w.ops[j], w.ops[i]) {
      var run := ThreatCarriedOut(w, i, j);
    } else {
      forall run | Permitted(rm, run) && i in Exec(w, run).ops
        ensures HasEntry(Exec(w, run).store, w.ops[i].dir, w.ops[i].name, w.ops[i].child)
      {
        RunStays(w, i, run);
      }
    }
  }

  lemma Joined(w: World, a: seq<Event>, b: seq<Event>)
    ensures Exec(w, a + b) == Exec(Exec(w, a), b)
    decreases |a|
  {
    if a == [] {
      assert a + b == b;
    } else {
      assert (a + b)[1..] == a[1..] + b;
      Joined(Step(w, a[0]), a[1..], b);
    }
  }

  // A removal that has read its dirdata handle, and a crdirent of the same name
  // about to write beside it.
  predicate Crossing(w: World, i: nat, j: nat) {
    && i in w.ops && w.ops[i].Crdirent? && w.ops[i].pc.WriteEntry? && j in w.ops && i != j
    && w.ops[j] == RemoveDirent(w.ops[i].dir, w.ops[i].name, RemoveEntry(w.ops[i].pc.d))
    && w.ops[i].pc.d in w.store.entries && w.ops[i].name !in w.store.entries[w.ops[i].pc.d]
  }

  lemma WriteStep(w: World, i: nat)
    requires i in w.ops && w.ops[i].Crdirent? && w.ops[i].pc.WriteEntry? && Holds(w.store, w.ops[i].pc.d)
    requires w.ops[i].name !in w.store.entries[w.ops[i].pc.d]
    ensures var op := w.ops[i];
            Step(w, JobEnds(i, DONE)) ==
            World(Insert(w.store, op.pc.d, op.name, op.child), w.ops[i := op.(pc := CrUpdateAttr)], w.results)
  {
  }

  lemma RemoveStep(w: World, j: nat)
    requires j in w.ops && w.ops[j].RemoveDirent? && w.ops[j].rpc.RemoveEntry? && Holds(w.store, w.ops[j].rpc.d)
    requires w.ops[j].name in w.store.entries[w.ops[j].rpc.d]
    ensures var op := w.ops[j];
            Step(w, JobEnds(j, DONE)) ==
            World(Delete(w.store, op.rpc.d, op.name), w.ops - {j}, w.results[j := Reply(0, 0)])
  {
  }

  // The crdirent can be answered with status 0 when its entry is already gone.
  lemma AnsweredAfterRemoval(w: World, i: nat, j: nat)
    requires Valid(w) && Crossing(w, i, j)
    ensures var op, v := w.ops[i], Exec(w, [JobEnds(i, DONE), JobEnds(j, DONE), JobEnds(i, DONE)]);
            i in v.results && v.results[i] == Reply(0, 0) && !HasEntry(v.store, op.dir, op.name, op.child)
  {
    WriteStep(w, i);
    var w1 := Step(w, JobEnds(i, DONE));
    RemoveStep(w1, j);
    var w2 := Step(w1, JobEnds(j, DONE));
    Then(w, JobEnds(i, DONE), [JobEnds(j, DONE), JobEnds(i, DONE)]);
    Then(w1, JobEnds(j, DONE), [JobEnds(i, DONE)]);
    Then(w2, JobEnds(i, DONE), []);
  }

  // From every state with an idle directory that lacks the name, the two cross.
  lemma CrossingReached(w: World, dir: Handle, name: string, child: Handle, i: nat, j: nat)
    requires Valid(w) && dir in w.store.dirdata && name !in w.store.entries[w.store.dirdata[dir]] && !HasSlash(name)
    requires forall k :: k in w.ops ==> dir !in Locks(w.ops[k])
    requires i != j && i !in w.ops && i !in w.results && j !in w.ops && j !in w.results
    ensures var v := Exec(w, [Arrives(j, RemoveDirent(dir, name, RmReadDirData)), JobEnds(j, DONE)] +
                             [Arrives(i, Crdirent(dir, name, child, Validate)), JobEnds(i, DONE), JobEnds(i, DONE)]);
            Valid(v) && Crossing(v, i, j) && v.ops[i] == Crdirent(dir, name, child, WriteEntry(w.store.dirdata[dir]))
  {
    var a := [Arrives(j, RemoveDirent(dir, name, RmReadDirData)), JobEnds(j, DONE)];
    var b := [Arrives(i, Crdirent(dir, name, child, Validate)), JobEnds(i, DONE), JobEnds(i, DONE)];
    RemovalReaches(w, dir, name, j);
    CrdirentReaches(Exec(w, a), dir, name, child, i);
    Joined(w, a, b);
    RunKeepsValid(w, a + b);
  }

  lemma RemovalReaches(w: World, dir: Handle, name: string, j: nat)
    requires dir in w.store.dirdata && j !in w.ops && j !in w.results && forall k :: k in w.ops ==> dir !in Locks(w.ops[k])
    ensures Exec(w, [Arrives(j, RemoveDirent(dir, name, RmReadDirData)), JobEnds(j, DONE)]) ==
            w.(ops := w.ops[j := RemoveDirent(dir, name, RemoveEntry(w.store.dirdata[dir]))])
  {
    var rm := RemoveDirent(dir, name, RmReadDirData);
    var w1 := Step(w, Arrives(j, rm));
    assert w1 == w.(ops := w.ops[j := rm]);
    var w2 := Step(w1, JobEnds(j, DONE));
    assert w2 == w.(ops := w.ops[j := rm.(rpc := RemoveEntry(w.store.dirdata[dir]))]);
    Then(w, Arrives(j, rm), [JobEnds(j, DONE)]);
    Then(w1, JobEnds(j, DONE), []);
  }

  lemma CrdirentReaches(w: World, dir: Handle, name: string, child: Handle, i: nat)
    requires Sound(w.store) && dir in w.store.dirdata && !HasSlash(name) && i !in w.ops && i !in w.results
    ensures Exec(w, [Arrives(i, Crdirent(dir, name, child, Validate)), JobEnds(i, DONE), JobEnds(i, DONE)]) ==
            w.(ops := w.ops[i := Crdirent(dir, name, child, WriteEntry(w.store.dirdata[dir]))])
  {
    var cr := Crdirent(dir, name, child, Validate);
    var w1 := Step(w, Arrives(i, cr));
    assert w1 == w.(ops := w.ops[i := cr]);
    var w2 := Step(w1, JobEnds(i, DONE));
    assert w2 == w.(ops := w.ops[i := cr.(pc := CrReadDirData)]);
    var w3 := Step(w2, JobEnds(i, DONE));
    assert w3 == w.(ops := w.ops[i := cr.(pc := WriteEntry(w.store.dirdata[dir]))]);
    Then(w, Arrives(i, cr), [JobEnds(i, DONE), JobEnds(i, DONE)]);
    Then(w1, JobEnds(i, DONE), [JobEnds(i, DONE)]);
    Then(w2, JobEnds(i, DONE), []);
  }

  // --------------------------------------------------------------------------
  // When the counts stay right in every run.
  // --------------------------------------------------------------------------

  // A chdirent and a rmdirent of one entry, neither of which is done with it.
  predicate Pair(w: World, i: nat, j: nat) {
    && i in w.ops && w.ops[i].Chdirent? && !w.ops[i].cpc.ChUpdateAttr?
    && j in w.ops && w.ops[j].Rmdirent? && !w.ops[j].dpc.RdUpdateAttr?
    && w.ops[i].dir == w.ops[j].dir && w.ops[i].name == w.ops[j].name
  }

  predicate Making(w: World, m: nat, dir: Handle) {
    m in w.ops && w.ops[m].Mkdir? && !w.ops[m].mpc.CreateDirectory? && w.ops[m].mpc.h == dir
  }

  // A directory with entries, or one that may yet become that.
  ghost predicate MayHold(w: World, dir: Handle) {
    dir in w.store.dirdata || (exists m :: Making(w, m, dir)) || (dir !in w.store.kinds && dir != NULL_HANDLE)
  }

  ghost predicate Dangerous(w: World, i: nat, j: nat) {
    Pair(w, i, j) && !HasSlash(w.ops[i].name) && MayHold(w, w.ops[i].dir)
  }

  ghost predicate Safe(w: World) {
    Present(w) && forall i, j :: !Dangerous(w, i, j)
  }

  // In every run the counts are right.
  ghost predicate CountsStay(rm: bool, w: World) {
    forall run :: Permitted(rm, run) ==> Counted(Exec(w, run).store)
  }

  // Dangers do not arise.
  lemma MayHoldBefore(w: World, e: Event, dir: Handle)
    requires Valid(w) && MayHold(Step(w, e), dir)
    ensures MayHold(w, dir)
  {
    var v := Step(w, e);
    if Enabled(w, e) && e.JobEnds? && w.ops[e.id].Mkdir? {
      MkdirMakes(w, e.id, e.job, dir);
    } else if Enabled(w, e) && e.JobEnds? {
      EntryEffect(w.store, w.ops[e.id], e.job);
      forall m | Making(v, m, dir) ensures Making(w, m, dir) {
      }
    } else {
      forall m | Making(v, m, dir) ensures Making(w, m, dir) {
      }
    }
  }

  lemma MkdirMakes(w: World, id: nat, job: Job, dir: Handle)
    requires Valid(w) && Enabled(w, JobEnds(id, job)) && w.ops[id].Mkdir?
    requires MayHold(Step(w, JobEnds(id, job)), dir)
    ensures MayHold(w, dir)
  {
    var v := Step(w, JobEnds(id, job));
    if dir in v.store.dirdata && dir !in w.store.dirdata {
      assert Making(w, id, dir);
    } else if m :| Making(v, m, dir) {
      assert m != id ==> Making(w, m, dir);
      assert m == id && !w.ops[id].mpc.CreateDirectory? ==> Making(w, id, dir);
    }
  }

  predicate SameEntry(e: Effect, op: Op) {
    e.next.Goes? ==>
      && (e.next.op.Chdirent? ==> op.Chdirent? && !op.cpc.ChUpdateAttr? && e.next.op.dir == op.dir && e.next.op.name == op.name)
      && (e.next.op.Rmdirent? ==> op.Rmdirent? && !op.dpc.RdUpdateAttr? && e.next.op.dir == op.dir && e.next.op.name == op.name)
  }

  lemma PerformSameEntry(s: Store, op: Op, job: Job)
    ensures SameEntry(Perform(s, op, job), op)
  {
  }

  lemma CommitPair(w: World, id: nat, e: Effect, i: nat, j: nat)
    requires id in w.ops && SameEntry(e, w.ops[id]) && Pair(Commit(w, id, e), i, j)
    ensures Pair(w, i, j) && w.ops[i].dir == Commit(w, id, e).ops[i].dir && w.ops[i].name == Commit(w, id, e).ops[i].name
  {
  }

  lemma PairBefore(w: World, e: Event, i: nat, j: nat)
    requires Valid(w) && Permitted(false, [e]) && Pair(Step(w, e), i, j)
    ensures Pair(w, i, j) && w.ops[i].dir == Step(w, e).ops[i].dir && w.ops[i].name == Step(w, e).ops[i].name
  {
    assert e.Arrives? ==> [e][0].Arrives?;
    if Enabled(w, e) && e.JobEnds? {
      PerformSameEntry(w.store, w.ops[e.id], e.job);
      CommitPair(w, e.id, Perform(w.store, w.ops[e.id], e.job), i, j);
    }
  }

  lemma StepStaysSafe(w: World, e: Event)
    requires Valid(w) && Safe(w) && Permitted(false, [e])
    ensures Safe(Step(w, e)) && forall d :: !Misses(w, e, d)
  {
    var v := Step(w, e);
    forall i, j ensures !Dangerous(v, i, j) {
      if Dangerous(v, i, j) {
        PairBefore(w, e, i, j);
        MayHoldBefore(w, e, v.ops[i].dir);
        assert Dangerous(w, i, j);
      }
    }
    if Enabled(w, e) && e.JobEnds? {
      SafeJob(w, e.id, e.job);
    }
  }

  lemma SafeJob(w: World, id: nat, job: Job)
    requires Valid(w) && Safe(w) && Enabled(w, JobEnds(id, job))
    ensures Present(Commit(w, id, Perform(w.store, w.ops[id], job)))
  {
    var op := w.ops[id];
    var v := w.(store := Perform(w.store, op, job).store, ops := w.ops - {id});
    forall i | i in v.ops && v.ops[i].Chdirent? && v.ops[i].cpc.ChangeEntry?
      ensures v.ops[i].cpc.d in v.store.entries && v.ops[i].name in v.store.entries[v.ops[i].cpc.d]
    {
      assert !Dangerous(w, i, id);
      EntryKept(w.store, op, job, w.ops[i]);
    }
    NextPresent(w.store, op, job);
    CommitPresent(w, id, Perform(w.store, op, job));
  }

  lemma {:induction false} RunStaysSafe(w: World, run: seq<Event>, d: Handle)
    requires Valid(w) && Safe(w) && Permitted(false, run)
    ensures Missed(w, run, d) == 0
    decreases |run|
  {
    if run != [] {
      assert Permitted(false, [run[0]]) && Permitted(false, run[1..]);
      StepStaysSafe(w, run[0]);
      StepKeepsValid(w, run[0]);
      RunStaysSafe(Step(w, run[0]), run[1..], d);
    }
  }

  // ---- From a danger to a wrong count.

  lemma {:induction false} MissedJoined(w: World, a: seq<Event>, b: seq<Event>, d: Handle)
    ensures Missed(w, a + b, d) == Missed(w, a, d) + Missed(Exec(w, a), b, d)
    decreases |a|
  {
    if a == [] {
      assert a + b == b;
    } else {
      assert (a + b)[1..] == a[1..] + b;
      MissedJoined(Step(w, a[0]), a[1..], b, d);
    }
  }

  lemma ChdirentReads(w: World, i: nat) returns (run: seq<Event>)
    requires i in w.ops && w.ops[i].Chdirent? && !w.ops[i].cpc.ChUpdateAttr? && w.ops[i].dir in w.store.dirdata
    requires var d := w.store.dirdata[w.ops[i].dir]; Holds(w.store, d) && w.ops[i].name in w.store.entries[d]
    requires OpOk(w.store, w.ops[i]) && !HasSlash(w.ops[i].name)
    ensures Permitted(false, run)
    ensures var v := Exec(w, run);
            && i in v.ops && v.ops[i].Chdirent? && v.ops[i].dir == w.ops[i].dir && v.ops[i].name == w.ops[i].name
            && v.ops[i].cpc.ChangeEntry? && v.ops[i].cpc.d == w.store.dirdata[w.ops[i].dir]
            && v == w.(ops := w.ops[i := v.ops[i]])
    decreases 3 - (if w.ops[i].cpc.ChReadDirData? then 0 else if w.ops[i].cpc.ReadEntry? then 1 else 2)
  {
    if w.ops[i].cpc.ChangeEntry? {
      run := [];
      assert w == w.(ops := w.ops[i := w.ops[i]]);
    } else {
      var e := JobEnds(i, DONE);
      var v := Step(w, e);
      var op := v.ops[i];
      assert v == w.(ops := w.ops[i := op]) && op.Chdirent? && op.dir == w.ops[i].dir && op.name == w.ops[i].name;
      var rest := ChdirentReads(v, i);
      run := [e] + rest;
      Then(w, e, rest);
      var u := Exec(v, rest);
      assert u == w.(ops := w.ops[i := u.ops[i]]);
    }
  }

  lemma RmdirentRemoves(w: World, j: nat) returns (run: seq<Event>)
    requires j in w.ops && w.ops[j].Rmdirent? && !w.ops[j].dpc.RdUpdateAttr? && w.ops[j].dir in w.store.dirdata
    requires var d := w.store.dirdata[w.ops[j].dir]; Holds(w.store, d) && w.ops[j].name in w.store.entries[d]
    requires OpOk(w.store, w.ops[j])
    ensures Permitted(false, run) && forall d :: Missed(w, run, d) == 0
    ensures var v, d := Exec(w, run), w.store.dirdata[w.ops[j].dir];
            && v.store == Delete(w.store, d, w.ops[j].name)
            && forall x :: x in w.ops && x != j ==> x in v.ops && v.ops[x] == w.ops[x]
    decreases w.ops[j].dpc.RdReadDirData?
  {
    var e := JobEnds(j, DONE);
    var v := Step(w, e);
    if w.ops[j].dpc.RdReadDirData? {
      assert v.store == w.store && v.ops == w.ops[j := w.ops[j].(dpc := RdRemoveEntry(w.store.dirdata[w.ops[j].dir]))];
      var rest := RmdirentRemoves(v, j);
      run := [e] + rest;
      Then(w, e, rest);
    } else {
      run := [e] + [];
      Then(w, e, []);
    }
  }

  // A chdirent that has read its entry, and a rmdirent of it: the rmdirent goes
  // first, and the chdirent misses.
  lemma EntryMissed(w: World, i: nat, j: nat) returns (run: seq<Event>)
    requires Valid(w) && Pair(w, i, j) && w.ops[i].cpc.ChangeEntry?
    ensures Permitted(false, run) && Missed(w, run, w.ops[i].cpc.d) == 1
  {
    var d, last := w.ops[i].cpc.d, JobEnds(i, DONE);
    if w.ops[i].name in w.store.entries[d] {
      var a := RmdirentRemoves(w, j);
      var v := Exec(w, a);
      assert Misses(v, last, d);
      Then(v, last, []);
      MissedJoined(w, a, [last] + [], d);
      run := a + ([last] + []);
    } else {
      assert Misses(w, last, d);
      Then(w, last, []);
      run := [last] + [];
    }
  }

  // A crdirent joins and puts the entry there if need be.
  lemma EntryPutThere(w: World, dir: Handle, name: string) returns (run: seq<Event>)
    requires Valid(w) && dir in w.store.dirdata && !HasSlash(name)
    ensures Permitted(false, run)
    ensures var v := Exec(w, run);
            && v.store.dirdata == w.store.dirdata && w.store.dirdata[dir] in v.store.entries
            && name in v.store.entries[w.store.dirdata[dir]]
            && forall x :: x in w.ops ==> x in v.ops && v.ops[x] == w.ops[x]
  {
    var d := w.store.dirdata[dir];
    if name in w.store.entries[d] {
      run := [];
    } else {
      var m := F.Unused(w.ops.Keys + w.results.Keys);
      var a := [Arrives(m, Crdirent(dir, name, 0, Validate)), JobEnds(m, DONE), JobEnds(m, DONE)];
      CrdirentReaches(w, dir, name, 0, m);
      var v := Exec(w, a);
      WriteStep(v, m);
      Then(v, JobEnds(m, DONE), []);
      Joined(w, a, [JobEnds(m, DONE)] + []);
      run := a + ([JobEnds(m, DONE)] + []);
    }
  }

  lemma ReadAndMissed(w: World, i: nat, j: nat) returns (run: seq<Event>, d: Handle)
    requires Valid(w) && Pair(w, i, j) && !HasSlash(w.ops[i].name) && w.ops[i].dir in w.store.dirdata
    requires w.ops[i].name in w.store.entries[w.store.dirdata[w.ops[i].dir]]
    ensures Permitted(false, run) && Missed(w, run, d) > 0
  {
    var a := ChdirentReads(w, i);
    var v := Exec(w, a);
    RunKeepsValid(w, a);
    d := v.ops[i].cpc.d;
    var b := EntryMissed(v, i, j);
    MissedJoined(w, a, b, d);
    run := a + b;
  }

  // With the directory there, the entry is put there, the chdirent reads it, the
  // rmdirent takes it away, and the chdirent misses it.
  lemma PairMisses(w: World, i: nat, j: nat) returns (run: seq<Event>, d: Handle)
    requires Valid(w) && Pair(w, i, j) && !HasSlash(w.ops[i].name) && w.ops[i].dir in w.store.dirdata
    ensures Permitted(false, run) && Missed(w, run, d) > 0
  {
    var a := EntryPutThere(w, w.ops[i].dir, w.ops[i].name);
    var v := Exec(w, a);
    RunKeepsValid(w, a);
    var b;
    b, d := ReadAndMissed(v, i, j);
    MissedJoined(w, a, b, d);
    run := a + b;
  }

  // Requests other than mkdir stay where they are.
  predicate OthersWait(w: World, v: World) {
    forall x :: x in w.ops && !w.ops[x].Mkdir? ==> x in v.ops && v.ops[x] == w.ops[x]
  }

  lemma {:induction false} MkdirPublishes(w: World, m: nat, dir: Handle) returns (run: seq<Event>)
    requires Valid(w) && Making(w, m, dir)
    ensures Permitted(false, run) && dir in Exec(w, run).store.dirdata && OthersWait(w, Exec(w, run))
    decreases if w.ops[m].mpc.SetAttributes? then 2 else if w.ops[m].mpc.CreateDirData? then 1 else 0
  {
    var e := JobEnds(m, Done(0));
    if w.ops[m].mpc.CreateDirData? {
      var n := F.Unused(w.store.kinds.Keys);
      e := JobEnds(m, Done(n));
    }
    var v := Step(w, e);
    if w.ops[m].mpc.WriteKey? {
      run := [e] + [];
      Then(w, e, []);
    } else {
      StepKeepsValid(w, e);
      var rest := MkdirPublishes(v, m, dir);
      run := [e] + rest;
      Then(w, e, rest);
    }
  }

  lemma MkdirStarts(w: World, dir: Handle, m: nat)
    requires dir !in w.store.kinds && dir != NULL_HANDLE && m !in w.ops && m !in w.results
    ensures Exec(w, [Arrives(m, Mkdir(CreateDirectory)), JobEnds(m, Done(dir))]) ==
            World(AddDirectory(w.store, dir), w.ops[m := Mkdir(SetAttributes(dir))], w.results)
  {
    var e1, e2 := Arrives(m, Mkdir(CreateDirectory)), JobEnds(m, Done(dir));
    var w1 := Step(w, e1);
    assert w1 == w.(ops := w.ops[m := Mkdir(CreateDirectory)]);
    assert Step(w1, e2).ops == w.ops[m := Mkdir(SetAttributes(dir))];
    Then(w, e1, [e2]);
    Then(w1, e2, []);
  }

  lemma DirectoryMade(w: World, dir: Handle) returns (run: seq<Event>)
    requires Valid(w) && MayHold(w, dir)
    ensures Permitted(false, run) && dir in Exec(w, run).store.dirdata && OthersWait(w, Exec(w, run))
  {
    if dir in w.store.dirdata {
      run := [];
    } else if m :| Making(w, m, dir) {
      run := MkdirPublishes(w, m, dir);
    } else {
      var m := F.Unused(w.ops.Keys + w.results.Keys);
      var a := [Arrives(m, Mkdir(CreateDirectory)), JobEnds(m, Done(dir))];
      MkdirStarts(w, dir, m);
      RunKeepsValid(w, a);
      var b := MkdirPublishes(Exec(w, a), m, dir);
      Joined(w, a, b);
      run := a + b;
    }
  }

  lemma DangerMisses(w: World, i: nat, j: nat) returns (run: seq<Event>, d: Handle)
    requires Valid(w) && Dangerous(w, i, j)
    ensures Permitted(false, run) && Missed(w, run, d) > 0
  {
    var a := DirectoryMade(w, w.ops[i].dir);
    RunKeepsValid(w, a);
    var b;
    b, d := PairMisses(Exec(w, a), i, j);
    MissedJoined(w, a, b, d);
    run := a + b;
  }

  function Directories(ops: map<nat, Op>): set<Handle> {
    set i | i in ops && !ops[i].Mkdir? :: ops[i].dir
  }

  lemma PairArrives(w: World, h: Handle, i: nat, j: nat)
    requires Valid(w) && h !in w.store.kinds && h != NULL_HANDLE && h !in Directories(w.ops)
    requires i != j && i !in w.ops && i !in w.results && j !in w.ops && j !in w.results
    ensures var v := Exec(w, [Arrives(i, Chdirent(h, "a", 0, ChReadDirData)), Arrives(j, Rmdirent(h, "a", RdReadDirData))]);
            Dangerous(v, i, j)
  {
    var ch, rm := Chdirent(h, "a", 0, ChReadDirData), Rmdirent(h, "a", RdReadDirData);
    forall k | k in w.ops ensures Locks(w.ops[k]) !! Locks(ch) {
      assert !w.ops[k].Mkdir? ==> w.ops[k].dir in Directories(w.ops);
    }
    var w1 := Step(w, Arrives(i, ch));
    assert w1 == w.(ops := w.ops[i := ch]);
    var w2 := Step(w1, Arrives(j, rm));
    assert w2 == w1.(ops := w1.ops[j := rm]);
    assert '/' !in "a";
    Then(w, Arrives(i, ch), [Arrives(j, rm)]);
    Then(w1, Arrives(j, rm), []);
  }

  // Where a rmdirent may arrive, it may arrive beside a chdirent.
  lemma RmdirentMisses(w: World) returns (run: seq<Event>, d: Handle)
    requires Valid(w)
    ensures Missed(w, run, d) > 0
  {
    var h := F.Unused(w.store.kinds.Keys + Directories(w.ops));
    var i := F.Unused(w.ops.Keys + w.results.Keys);
    var j := F.Unused(w.ops.Keys + w.results.Keys + {i});
    var a := [Arrives(i, Chdirent(h, "a", 0, ChReadDirData)), Arrives(j, Rmdirent(h, "a", RdReadDirData))];
    PairArrives(w, h, i, j);
    RunKeepsValid(w, a);
    var b;
    b, d := DangerMisses(Exec(w, a), i, j);
    MissedJoined(w, a, b, d);
    run := a + b;
  }

  lemma MissMeansWrong(w: World, run: seq<Event>, d: Handle)
    requires Valid(w) && Counted(w.store) && Missed(w, run, d) > 0
    ensures !Counted(Exec(w, run).store)
  {
    CountExact(w, run, d);
    assert Drift(w.store, d) == 0;
    assert Drift(Exec(w, run).store, d) != 0;
  }

  // The counts stay right in every run exactly when no rmdirent may arrive, every
  // chdirent that has read its entry still finds it, and no rmdirent under way is
  // for an entry that a chdirent under way may yet read or has read.
  lemma CountsStayIff(rm: bool, w: World)
    requires Valid(w) && Counted(w.store)
    ensures CountsStay(rm, w) <==> !rm && Safe(w)
  {
    if rm {
      var run, d := RmdirentMisses(w);
      MissMeansWrong(w, run, d);
    } else if !Present(w) {
      var i :| i in w.ops && w.ops[i].Chdirent? && w.ops[i].cpc.ChangeEntry?
               && w.ops[i].name !in w.store.entries[w.ops[i].cpc.d];
      var e := JobEnds(i, DONE);
      Then(w, e, []);
      MissMeansWrong(w, [e] + [], w.ops[i].cpc.d);
      assert Permitted(false, [e] + []);
    } else if i, j :| Dangerous(w, i, j) {
      var run, d := DangerMisses(w, i, j);
      MissMeansWrong(w, run, d);
    } else {
      forall run | Permitted(rm, run) ensures Counted(Exec(w, run).store) {
        forall d ensures Missed(w, run, d) == 0 {
          RunStaysSafe(w, run, d);
        }
        CountedIff(w, run);
      }
    }
  }

  // --------------------------------------------------------------------------
  // The server.
  // --------------------------------------------------------------------------

  class Server {
    var store: Store
    var ops: map<nat, Op>
    var results: map<nat, Result>

    function Now(): World
      reads this
    {
      World(store, ops, results)
    }

    constructor ()
      ensures Now() == EMPTY && Valid(Now()) && Present(Now()) && Counted(store)
    {
      store, ops, results := Store(map[], map[], map[], map[]), map[], map[];
      new;
      StartValid();
    }

    // The outcome of one job of request `id`.
    ghost function Performed(id: nat, job: Job): World
      reads this
      requires id in ops
    {
      Commit(Now(), id, Perform(store, ops[id], job))
    }

    // The scheduler lets a crdirent or rmdirent join whatever runs on its
    // directory, and any other request only onto an idle one.
    method Admit(id: nat, op: Op) returns (ok: bool)
      requires id !in ops && id !in results && IsFresh(op)
      modifies this`ops
      ensures ok <==> Joins(op) || op.Mkdir? || forall i :: i in old(ops) ==> Locks(old(ops)[i]) !! Locks(op)
      ensures Now() == Step(old(Now()), Arrives(id, op)) && (ok <==> id in ops)
    {
      ok := true;
      if Exclusive(op) {
        ok := forall i :: i in ops.Keys ==> Locks(ops[i]) !! Locks(op);
      }
      if ok {
        ops := ops[id := op];
      }
    }

    method AnswerWith(id: nat, status: int, handle: Handle)
      requires id in ops
      modifies this`ops, this`results
      ensures ops == old(ops) - {id} && results == old(results)[id := Reply(status, handle)]
    {
      ops := ops - {id};
      results := results[id := Reply(status, handle)];
    }

    method ReadDirData(id: nat, job: Job)
      requires id in ops
      requires match ops[id] {
                 case Crdirent(_, _, _, pc) => pc.CrReadDirData?
                 case Rmdirent(_, _, pc) => pc.RdReadDirData?
                 case Chdirent(_, _, _, pc) => pc.ChReadDirData?
                 case RemoveDirent(_, _, pc) => pc.RmReadDirData?
                 case Mkdir(_) => false
               }
      modifies this
      ensures Now() == old(Performed(id, job))
    {
      var op := ops[id];
      if job.Failed? {
        AnswerWith(id, job.code, 0);
      } else if op.dir !in store.dirdata {
        AnswerWith(id, ENOENT, 0);
      } else {
        ops := ops[id := WithDirData(op, store.dirdata[op.dir])];
      }
    }

    // ---- crdirent.

    method CrdirentValidate(id: nat, job: Job)
      requires id in ops && ops[id].Crdirent? && ops[id].pc.Validate?
      modifies this
      ensures Now() == old(Performed(id, job))
    {
      var op := ops[id];
      if op.dir == NULL_HANDLE {
        AnswerWith(id, EINVAL, 0);
        return;
      }
      var bad := ScanName(op.name);
      if bad {
        AnswerWith(id, EINVAL, 0);
      } else if !(op.dir in store.kinds && store.kinds[op.dir] == Directory) {
        AnswerWith(id, ENOTDIR, 0);
      } else {
        ops := ops[id := op.(pc := CrReadDirData)];
      }
    }

    // The write refuses to overwrite, and counts what it adds.
    method CrdirentWrite(id: nat, job: Job)
      requires id in ops && ops[id].Crdirent? && ops[id].pc.WriteEntry?
      modifies this
      ensures Now() == old(Performed(id, job))
      ensures var op := old(ops[id]);
              job.Done? && old(Holds(store, op.pc.d)) && op.name !in old(store.entries)[op.pc.d] ==>
                op.pc.d in store.entries && store.entries[op.pc.d] == old(store.entries)[op.pc.d][op.name := op.child]
    {
      var op := ops[id];
      var d := op.pc.d;
      if job.Failed? {
        AnswerWith(id, job.code, 0);
      } else if !Holds(store, d) {
        AnswerWith(id, ENOENT, 0);
      } else if op.name in store.entries[d] {
        AnswerWith(id, EEXIST, 0);
      } else {
        var changed: Entries := store.entries[d][op.name := op.child];
        store := store.(entries := store.entries[d := changed],
                        counts := store.counts[d := store.counts[d] + 1]);
        ops := ops[id := op.(pc := CrUpdateAttr)];
      }
    }

    // The entry was changed already: a failure here is reported, not undone.
    method UpdateDirectoryAttr(id: nat, job: Job)
      requires id in ops
      requires (ops[id].Crdirent? && ops[id].pc.CrUpdateAttr?) || (ops[id].Rmdirent? && ops[id].dpc.RdUpdateAttr?)
               || (ops[id].Chdirent? && ops[id].cpc.ChUpdateAttr?)
      modifies this
      ensures Now() == old(Performed(id, job))
    {
      var op := ops[id];
      if job.Failed? {
        AnswerWith(id, job.code, 0);
      } else {
        AnswerWith(id, 0, if op.Chdirent? then op.cpc.was else if op.Rmdirent? then op.dpc.was else 0);
      }
    }

    // ---- rmdirent and mgmt-remove-dirent.

    method RmdirentRemove(id: nat, job: Job)
      requires id in ops && ops[id].Rmdirent? && ops[id].dpc.RdRemoveEntry?
      modifies this
      ensures Now() == old(Performed(id, job))
    {
      var op := ops[id];
      var d := op.dpc.d;
      if job.Failed? {
        AnswerWith(id, job.code, 0);
      } else if !Holds(store, d) || op.name !in store.entries[d] {
        AnswerWith(id, ENOENT, 0);
      } else {
        ops := ops[id := op.(dpc := RdUpdateAttr(store.entries[d][op.name]))];
        store := store.(entries := store.entries[d := store.entries[d] - {op.name}],
                        counts := store.counts[d := store.counts[d] - 1]);
      }
    }

    method RemoveDirentEntry(id: nat, job: Job)
      requires id in ops && ops[id].RemoveDirent? && ops[id].rpc.RemoveEntry?
      modifies this
      ensures Now() == old(Performed(id, job))
    {
      var op := ops[id];
      var d := op.rpc.d;
      if job.Failed? {
        AnswerWith(id, job.code, 0);
      } else if !Holds(store, d) || op.name !in store.entries[d] {
        AnswerWith(id, ENOENT, 0);
      } else {
        store := store.(entries := store.entries[d := store.entries[d] - {op.name}],
                        counts := store.counts[d := store.counts[d] - 1]);
        AnswerWith(id, 0, 0);
      }
    }

    // ---- chdirent.

    method ChdirentReadEntry(id: nat, job: Job)
      requires id in ops && ops[id].Chdirent? && ops[id].cpc.ReadEntry?
      modifies this
      ensures Now() == old(Performed(id, job))
    {
      var op := ops[id];
      var d := op.cpc.d;
      if job.Failed? {
        AnswerWith(id, job.code, 0);
      } else if !Holds(store, d) || op.name !in store.entries[d] {
        AnswerWith(id, ENOENT, 0);
      } else {
        ops := ops[id := op.(cpc := ChangeEntry(d, store.entries[d][op.name]))];
      }
    }

    // The write overwrites or creates, and does not count. That it could miss its
    // object is asserted not to happen.
    method ChdirentChange(id: nat, job: Job)
      requires id in ops && ops[id].Chdirent? && ops[id].cpc.ChangeEntry?
      modifies this
      ensures Now() == old(Performed(id, job))
    {
      var op := ops[id];
      var d := op.cpc.d;
      if job == Failed(ENOENT) || !Holds(store, d) {
        ops, results := ops - {id}, results[id := Aborted];
      } else if job.Failed? {
        AnswerWith(id, job.code, 0);
      } else {
        var changed: Entries := store.entries[d][op.name := op.child];
        store := store.(entries := store.entries[d := changed]);
        ops := ops[id := op.(cpc := ChUpdateAttr(op.cpc.was))];
      }
    }

    // ---- mkdir.

    method MkdirStep(id: nat, job: Job)
      requires id in ops && ops[id].Mkdir?
      modifies this
      ensures Now() == old(Performed(id, job))
    {
      if job.Failed? {
        AnswerWith(id, job.code, NULL_HANDLE);
        return;
      }
      match ops[id].mpc
      case CreateDirectory =>
        store := store.(kinds := store.kinds[job.made := Directory]);
        ops := ops[id := Mkdir(SetAttributes(job.made))];
      case SetAttributes(h) =>
        ops := ops[id := Mkdir(CreateDirData(h))];
      case CreateDirData(h) =>
        store := store.(kinds := store.kinds[job.made := DirData], entries := store.entries[job.made := map[]],
                        counts := store.counts[job.made := 0]);
        ops := ops[id := Mkdir(WriteKey(h, job.made))];
      case WriteKey(h, d) =>
        store := store.(dirdata := store.dirdata[h := d]);
        ops, results := ops - {id}, results[id := NewDirectory(h)];
    }

    // ---- Any interleaving.

    method EndJob(id: nat, job: Job)
      requires id in ops
      modifies this
      ensures Now() == old(Performed(id, job))
    {
      match ops[id]
      case Crdirent(_, _, _, pc) =>
        match pc {
          case Validate => CrdirentValidate(id, job);
          case CrReadDirData => ReadDirData(id, job);
          case WriteEntry(_) => CrdirentWrite(id, job);
          case CrUpdateAttr => UpdateDirectoryAttr(id, job);
        }
      case Rmdirent(_, _, pc) =>
        match pc {
          case RdReadDirData => ReadDirData(id, job);
          case RdRemoveEntry(_) => RmdirentRemove(id, job);
          case RdUpdateAttr(_) => UpdateDirectoryAttr(id, job);
        }
      case Chdirent(_, _, _, pc) =>
        match pc {
          case ChReadDirData => ReadDirData(id, job);
          case ReadEntry(_) => ChdirentReadEntry(id, job);
          case ChangeEntry(_, _) => ChdirentChange(id, job);
          case ChUpdateAttr(_) => UpdateDirectoryAttr(id, job);
        }
      case RemoveDirent(_, _, pc) =>
        match pc {
          case RmReadDirData => ReadDirData(id, job);
          case RemoveEntry(_) => RemoveDirentEntry(id, job);
        }
      case Mkdir(_) => MkdirStep(id, job);
    }

    // Requests arrive and their jobs end in any order.
    method Serve(run: seq<Event>)
      modifies this
      ensures Now() == Exec(old(Now()), run)
      ensures old(Valid(Now())) ==> Valid(Now())
    {
      var k := 0;
      while k < |run|
        invariant 0 <= k <= |run| && Exec(Now(), run[k..]) == Exec(old(Now()), run)
      {
        assert run[k..][0] == run[k] && run[k..][1..] == run[k + 1..];
        match run[k] {
          case Arrives(id, op) =>
            if id !in ops && id !in results && IsFresh(op) {
              var ok := Admit(id, op);
            }
          case JobEnds(id, job) =>
            if id in ops && (Makes(ops[id]) && job.Done? ==> job.made !in store.kinds && job.made != NULL_HANDLE) {
              EndJob(id, job);
            }
        }
        k := k + 1;
      }
      if old(Valid(Now())) {
        RunKeepsValid(old(Now()), run);
      }
    }
  }
}
