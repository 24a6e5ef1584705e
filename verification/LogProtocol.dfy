/**
 The redo log of kernel/log.c as a state machine over disk, buffer cache and log header.
 One action is one critical section or one single-block disk write, so a crash can fall
 between any two disk writes, including inside recovery.  The fields `base`, `hist` and
 `current` only record what happened; no guard reads them.
*/
module LogProtocol {

  const MAXOPBLOCKS := 10
  const LOGSIZE := 30

  // A disk block seen as BSIZE / 4 words, the unit of `struct logheader`.
  type Block = b: seq<nat> | |b| == 256 witness seq(256, i => 0)
  type Disk = map<nat, Block>

  // The log region: a header block at `start`, then size - 1 slots.
  datatype Layout = Layout(start: nat, size: nat) {
    predicate InLog(b: nat) { start <= b < start + size }
    function Slot(t: nat): nat { start + 1 + t }
  }

  // ---------- the header block ----------

  predicate HeadOk(b: Block) { b[0] <= LOGSIZE }

  function Head(b: Block): seq<nat>
    requires HeadOk(b)
  {
    b[1..1 + b[0]]
  }

  // write_head overwrites the count and the first |lh| entries and leaves the rest.
  function PutHead(b: Block, lh: seq<nat>): (r: Block)
    requires |lh| <= LOGSIZE
    ensures HeadOk(r) && Head(r) == lh
    ensures r[|lh| + 1..] == b[|lh| + 1..]
  {
    [|lh|] + lh + b[|lh| + 1..]
  }

  // ---------- what a disk means ----------

  // The index log_write's scan stops at: the first entry equal to b, or |s|.
  function Find(s: seq<nat>, b: nat): (i: nat)
    ensures i <= |s|
    ensures i < |s| ==> s[i] == b
    ensures forall j :: 0 <= j < i ==> s[j] != b
  {
    if s == [] || s[0] == b then 0 else 1 + Find(s[1..], b)
  }

  ghost predicate Distinct(s: seq<nat>) {
    forall i, j :: 0 <= i < j < |s| ==> s[i] != s[j]
  }

  // Entries that name distinct home blocks and whose slots exist.
  ghost predicate Loggable(g: Layout, d: Disk, lh: seq<nat>) {
    && |lh| <= LOGSIZE && |lh| < g.size
    && Distinct(lh)
    && (forall i :: 0 <= i < |lh| ==> lh[i] in d && !g.InLog(lh[i]))
  }

  ghost predicate DiskOk(g: Layout, d: Disk) {
    && 1 <= g.size
    && (forall b :: g.InLog(b) ==> b in d)
    && HeadOk(d[g.start])
    && Loggable(g, d, Head(d[g.start]))
  }

  function Home(g: Layout, d: Disk): Disk {
    map b | b in d && !g.InLog(b) :: d[b]
  }

  // A home block's value in the file system a disk stands for: a committed log wins.
  ghost function RedoAt(g: Layout, d: Disk, b: nat): Block
    requires DiskOk(g, d) && b in d
  {
    var h := Head(d[g.start]);
    var i := Find(h, b);
    if i < |h| then d[g.Slot(i)] else d[b]
  }

  ghost function Redo(g: Layout, d: Disk): (m: Disk)
    requires DiskOk(g, d)
    ensures m.Keys == Home(g, d).Keys
  {
    map b | b in d && !g.InLog(b) :: RedoAt(g, d, b)
  }

  datatype Write = Write(op: nat, block: nat, data: Block)

  // The operations that began in one transaction, and their logged writes in order.
  datatype Group = Group(ops: set<nat>, writes: seq<Write>)

  ghost function ApplyWrites(m: Disk, ws: seq<Write>): Disk {
    if ws == [] then m
    else var w := ws[|ws| - 1]; ApplyWrites(m, ws[..|ws| - 1])[w.block := w.data]
  }

  ghost function ApplyGroups(m: Disk, gs: seq<Group>): Disk {
    if gs == [] then m
    else ApplyWrites(ApplyGroups(m, gs[..|gs| - 1]), gs[|gs| - 1].writes)
  }

  // ---------- states ----------

  // Where the single commit or recovery thread stands.
  datatype Phase =
    | Boot                    // mounted; the header has not been read
    | Replay(done: nat)       // install_trans(1)
    | Normal                  // committing == 0
    | CopyToLog(done: nat)    // write_log
    | Install(done: nat)      // install_trans(0), the header is on disk
    | Finishing               // commit() has returned, committing is still 1

  datatype Op = Op(id: nat, budget: nat)

  datatype State = State(
    disk: Disk,
    cache: Disk,              // valid buffers
    held: map<nat, nat>,      // buffer sleep-locks: block -> holder
    dirty: set<nat>,          // changed by the holder, log_write not yet called
    pins: set<nat>,           // bpin references
    lh: seq<nat>,             // log.lh
    outstanding: nat,         // log.outstanding
    phase: Phase,
    asleep: set<nat>,         // processes sleeping in begin_op
    ops: seq<Op>,             // running operations and their unused block budgets
    nextOp: nat,
    over: bool,               // an operation of the open transaction has logged more than it reserved
    base: Disk,               // the file system at mount
    hist: seq<Group>,         // committed groups
    current: Group)           // the open transaction
  {
    predicate Committing() { phase.CopyToLog? || phase.Install? || phase.Finishing? }
    predicate Recovering() { phase.Boot? || phase.Replay? }
    function Logical(b: nat): Block
      requires b in cache || b in disk
    {
      if b in cache then cache[b] else disk[b]
    }
  }

  function Budgets(ops: seq<Op>): nat {
    if ops == [] then 0 else Budgets(ops[..|ops| - 1]) + ops[|ops| - 1].budget
  }

  // log.lh.n + (log.outstanding+1)*MAXOPBLOCKS > LOGSIZE makes begin_op sleep.
  predicate NoRoom(s: State) {
    |s.lh| + (s.outstanding + 1) * MAXOPBLOCKS > LOGSIZE
  }

  // The first panic of log_write.
  predicate TooBig(g: Layout, s: State) {
    |s.lh| >= LOGSIZE || |s.lh| >= g.size - 1
  }

  // Operation k, whose process p holds the buffer of home block b, calls log_write.
  ghost predicate CallsLogWrite(g: Layout, s: State, p: nat, k: nat, b: nat) {
    && k < |s.ops| && s.ops[k].id == p
    && b in s.held && s.held[b] == p && b in s.cache && b in s.disk && !g.InLog(b)
  }

  datatype Action =
    | Read(b: nat)                              // bread fills a buffer
    | Recycle(b: nat)                           // bget takes an unreferenced buffer
    | Lock(p: nat, b: nat)
    | Modify(p: nat, k: nat, b: nat, v: Block)  // k: index of the operation in ops
    | LogWrite(p: nat, k: nat, b: nat)
    | Unlock(p: nat, b: nat)                    // brelse
    | Begin
    | Sleep(p: nat)
    | Wake(p: nat)                              // kill, or the scheduler
    | End(k: nat)
    | CopyOne
    | Seal                                      // write_head with n > 0
    | InstallOne
    | Erase                                     // lh.n = 0; write_head
    | Finish                                    // committing = 0; wakeup
    | Crash
    | ReadHead
    | ReplayOne
    | ReplayErase

  ghost predicate Enabled(g: Layout, s: State, a: Action) {
    match a
    case Read(b) => b in s.disk
    case Recycle(b) => b in s.cache && b !in s.pins && b !in s.held
    case Lock(p, b) => b in s.cache && b !in s.held
    case Modify(p, k, b, v) =>
      && k < |s.ops| && s.ops[k].id == p
      && b in s.held && s.held[b] == p && b in s.cache && b in s.disk && !g.InLog(b)
    case LogWrite(p, k, b) => CallsLogWrite(g, s, p, k, b) && !TooBig(g, s)
    case Unlock(p, b) => b in s.held && s.held[b] == p && b !in s.dirty
    case Begin => !s.Committing() && !s.Recovering() && !NoRoom(s)
    case Sleep(p) => !s.Recovering() && (s.Committing() || NoRoom(s))
    case Wake(p) => p in s.asleep
    case End(k) =>
      && k < |s.ops| && s.outstanding > 0
      && (forall b :: b in s.dirty && b in s.held ==> s.held[b] != s.ops[k].id)
    case CopyOne => s.phase.CopyToLog? && s.phase.done < |s.lh|
    case Seal => s.phase.CopyToLog? && s.phase.done == |s.lh|
    case InstallOne => s.phase.Install? && s.phase.done < |s.lh|
    case Erase => s.phase.Install? && s.phase.done == |s.lh|
    case Finish => s.phase.Finishing?
    case Crash => true
    case ReadHead => s.phase.Boot?
    case ReplayOne => s.phase.Replay? && s.phase.done < |s.lh|
    case ReplayErase => s.phase.Replay? && s.phase.done == |s.lh|
  }

  ghost function WriteBlock(s: State, b: nat, v: Block): State {
    s.(disk := s.disk[b := v], cache := s.cache[b := v])
  }

  // Read the next log slot and write it to the block it is for.
  ghost function CopyHome(g: Layout, s: State): State
    requires Typed(g, s) && (s.phase.Install? || s.phase.Replay?) && s.phase.done < |s.lh|
  {
    var t := g.Slot(s.phase.done);
    var v := s.Logical(t);
    WriteBlock(s.(cache := s.cache[t := v]), s.lh[s.phase.done], v)
  }

  function NewTransaction(): Group { Group({}, []) }

  // What the actions need in order to be defined at all.
  ghost predicate Typed(g: Layout, s: State) {
    && DiskOk(g, s.disk)
    && Loggable(g, s.disk, s.lh)
    && s.cache.Keys <= s.disk.Keys
    && (s.phase.CopyToLog? || s.phase.Install? || s.phase.Replay? ==> s.phase.done <= |s.lh|)
    && (g.start in s.cache ==> s.cache[g.start] == s.disk[g.start])
  }

  ghost function Next(g: Layout, s: State, a: Action): State
    requires Typed(g, s) && Enabled(g, s, a)
  {
    match a
    case Read(b) => s.(cache := s.cache[b := s.Logical(b)])
    case Recycle(b) => s.(cache := s.cache - {b})
    case Lock(p, b) => s.(held := s.held[b := p])
    case Modify(p, k, b, v) => s.(cache := s.cache[b := v], dirty := s.dirty + {b})
    case LogWrite(p, k, b) => NextLogWrite(g, s, p, k, b)
    case Unlock(p, b) => s.(held := s.held - {b})
    case Begin =>
      s.(outstanding := s.outstanding + 1,
         ops := s.ops + [Op(s.nextOp, MAXOPBLOCKS)],
         nextOp := s.nextOp + 1,
         current := s.current.(ops := s.current.ops + {s.nextOp}))
    case Sleep(p) => s.(asleep := s.asleep + {p})
    case Wake(p) => s.(asleep := s.asleep - {p})
    case End(k) =>
      var s1 := s.(outstanding := s.outstanding - 1, ops := s.ops[..k] + s.ops[k + 1..]);
      if s1.outstanding != 0 then s1.(asleep := {})
      else if |s.lh| > 0 then s1.(phase := CopyToLog(0))
      else s1.(phase := Finishing)
    case CopyOne =>
      var b := s.lh[s.phase.done];
      var s1 := s.(cache := s.cache[b := s.Logical(b)]);
      WriteBlock(s1, g.Slot(s.phase.done), s.Logical(b)).(phase := CopyToLog(s.phase.done + 1))
    case Seal =>
      var h := PutHead(s.Logical(g.start), s.lh);
      WriteBlock(s, g.start, h).(
        phase := Install(0), hist := s.hist + [s.current], current := NewTransaction())
    case InstallOne =>
      var b := s.lh[s.phase.done];
      CopyHome(g, s).(pins := s.pins - {b}, phase := Install(s.phase.done + 1))
    case Erase =>
      WriteBlock(s, g.start, PutHead(s.Logical(g.start), [])).(lh := [], phase := Finishing)
    case Finish => s.(phase := Normal, asleep := {}, over := false, current := NewTransaction())
    case Crash =>
      State(s.disk, map[], map[], {}, {}, [], 0, Boot, {}, [], s.nextOp, false, s.base, s.hist,
            NewTransaction())
    case ReadHead =>
      var h := s.Logical(g.start);
      s.(cache := s.cache[g.start := h], lh := Head(h), phase := Replay(0))
    case ReplayOne => CopyHome(g, s).(phase := Replay(s.phase.done + 1))
    case ReplayErase =>
      WriteBlock(s, g.start, PutHead(s.Logical(g.start), [])).(lh := [], phase := Normal)
  }

  // The reservation counts the blocks an operation adds to the log: a listed block is absorbed for
  // nothing.
  ghost function NextLogWrite(g: Layout, s: State, p: nat, k: nat, b: nat): State
    requires Enabled(g, s, LogWrite(p, k, b))
  {
    var w := s.current.(writes := s.current.writes + [Write(p, b, s.cache[b])]);
    var s1 := s.(dirty := s.dirty - {b}, current := w);
    if Find(s.lh, b) < |s.lh| then s1
    else s1.(lh := s.lh + [b], pins := s.pins + {b},
             ops := s.ops[k := s.ops[k].(budget := if Spent(s, k) then 0 else s.ops[k].budget - 1)],
             over := s.over || Spent(s, k))
  }

  ghost predicate Spent(s: State, k: nat)
    requires k < |s.ops|
  {
    s.ops[k].budget == 0
  }

  ghost predicate Init(g: Layout, s: State) {
    && DiskOk(g, s.disk)
    && s == State(s.disk, map[], map[], {}, {}, [], 0, Boot, {}, [], 0, false, Redo(g, s.disk), [],
                  NewTransaction())
  }

  // ---------- the invariant ----------

  ghost function Committed(s: State): Disk { ApplyGroups(s.base, s.hist) }

  // Home blocks as the open transaction has left them.
  ghost function View(s: State): Disk { ApplyWrites(Committed(s), s.current.writes) }

  ghost predicate Runs(ops: seq<Op>, p: nat) {
    exists k :: 0 <= k < |ops| && ops[k].id == p
  }

  // A buffer that differs from its disk block is pinned or held by a running operation.
  ghost predicate CacheInv(g: Layout, s: State) {
    && s.cache.Keys <= s.disk.Keys
    && (forall b :: b in s.cache && b !in s.pins && b !in s.dirty ==> s.cache[b] == s.disk[b])
    && (forall b :: b in s.pins ==> b in s.cache && !g.InLog(b))
    && (forall b :: b in s.dirty ==> b in s.held && !g.InLog(b))
    && (forall b :: b in s.held ==> b in s.cache)
  }

  ghost predicate DirtyInv(s: State) {
    forall b :: b in s.dirty ==> b in s.held && Runs(s.ops, s.held[b])
  }

  ghost predicate BudgetInv(s: State) {
    && s.outstanding == |s.ops|
    && (forall k :: 0 <= k < |s.ops| ==> s.ops[k].budget <= MAXOPBLOCKS)
    && (!s.over ==> |s.lh| + Budgets(s.ops) <= LOGSIZE)
    && (!s.phase.Normal? ==> s.ops == [])
    && (s.phase.Normal? && s.ops == [] ==> s.lh == [])
    && (s.phase.Boot? || s.phase.Finishing? ==> s.lh == [])
    && (s.phase.CopyToLog? ==> s.lh != [])
    && (s.asleep != {} ==> s.ops != [] || s.Committing())
  }

  ghost predicate OwnWrites(t: Group) {
    forall i :: 0 <= i < |t.writes| ==> t.writes[i].op in t.ops
  }

  // Every operation belongs to one transaction, and so do all its writes.
  ghost predicate HistoryInv(s: State) {
    && (forall i :: 0 <= i < |s.hist| ==> OwnWrites(s.hist[i]))
    && OwnWrites(s.current)
    && (forall i, j :: 0 <= i < j < |s.hist| ==> s.hist[i].ops !! s.hist[j].ops)
    && (forall i :: 0 <= i < |s.hist| ==> s.hist[i].ops !! s.current.ops)
    && (forall i, p :: 0 <= i < |s.hist| && p in s.hist[i].ops ==> p < s.nextOp)
    && (forall p :: p in s.current.ops ==> p < s.nextOp)
    && (forall k :: 0 <= k < |s.ops| ==> s.ops[k].id in s.current.ops)
    && (forall i, j :: 0 <= i < j < |s.ops| ==> s.ops[i].id != s.ops[j].id)
  }

  ghost function Members(s: seq<nat>): set<nat> { set b | b in s }

  // Entries [from, to) of the log have reached their home blocks.
  ghost predicate Installed(g: Layout, d: Disk, h: seq<nat>, n: nat)
    requires DiskOk(g, d) && n <= |h| && Loggable(g, d, h)
  {
    forall i :: 0 <= i < n ==> d[h[i]] == d[g.Slot(i)]
  }

  // Slots [from, to) hold the cached contents of their blocks.
  ghost predicate Copied(g: Layout, s: State, from: nat, to: nat)
    requires Typed(g, s) && to <= |s.lh|
  {
    forall i :: from <= i < to ==> s.Logical(s.lh[i]) == s.disk[g.Slot(i)]
  }

  // What the thread that owns the log has achieved so far.
  ghost predicate PhaseInv(g: Layout, s: State)
    requires Typed(g, s)
  {
    var h := Head(s.disk[g.start]);
    match s.phase
    case Boot => s.pins == {}
    case Replay(t) => h == s.lh && s.pins == {} && Installed(g, s.disk, h, t)
    case Normal => h == [] && s.pins == Members(s.lh)
    case CopyToLog(t) => h == [] && s.pins == Members(s.lh) && Copied(g, s, 0, t)
    case Install(t) =>
      && h == s.lh && s.pins == Members(s.lh[t..])
      && Installed(g, s.disk, h, t) && Copied(g, s, t, |h|)
    case Finishing => h == [] && s.pins == {}
  }

  // While a transaction is open its view is the cache, and only logged blocks differ from
  // the disk; at any other time nothing is open.
  ghost predicate ViewInv(g: Layout, s: State)
    requires Typed(g, s)
  {
    View(s).Keys == Home(g, s.disk).Keys &&
    if s.phase.Normal? || s.phase.CopyToLog? then
      && (forall b :: b in s.disk && !g.InLog(b) && b !in s.dirty ==> s.Logical(b) == View(s)[b])
      && (forall b :: b in s.disk && !g.InLog(b) && b !in s.lh ==> View(s)[b] == s.disk[b])
      && (s.lh == [] ==> s.current.writes == [])
    else
      s.current.writes == []
  }

  // The disk, read as recovery would read it, is the mounted file system plus the
  // committed groups.
  ghost predicate MeaningInv(g: Layout, s: State) {
    DiskOk(g, s.disk) && Redo(g, s.disk) == Committed(s)
  }

  ghost predicate Inv(g: Layout, s: State) {
    && Typed(g, s)
    && CacheInv(g, s)
    && DirtyInv(s)
    && BudgetInv(s)
    && HistoryInv(s)
    && PhaseInv(g, s)
    && MeaningInv(g, s)
    && ViewInv(g, s)
  }
}
