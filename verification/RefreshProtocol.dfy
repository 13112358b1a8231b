/**
 Several processes refresh, save and edit one account store. Refresh tokens are used once: the provider
 answers each with a new one. Every process works on a snapshot it may save long after it loaded it, and may
 lose the answer, die or fail to save before the new token is in the store.
 */
module RefreshProtocol {
  import opened Json
  import opened TokenMerge

  type Id = string
  type Pid = nat
  type Rows = map<Id, Entry>

  /** What a process is doing with the refresh lock of a row. */
  datatype Phase =
    | Idle
    | Holding(id: Id)
    | Ready(id: Id, source: Entry)
    | Answered(id: Id, answer: Entry)

  datatype Process = Process(snapshot: Rows, phase: Phase)

  /** The row a token was issued for and the time it was issued at. */
  datatype Issue = Issue(id: Id, stamp: real)

  /**
   `lost` are the rows whose newest token may have reached no store: the provider's answer was lost on the way,
   or the process that had it died or could not save, and nobody has logged in since.
   */
  datatype World = World(
    disk: Rows,
    processes: map<Pid, Process>,
    spent: set<Json>,
    issued: map<Json, Issue>,
    clock: real,
    lost: set<Id>)

  datatype Action =
    | Tick(to: real)
    | Load(p: Pid)
    | LoadRow(p: Pid, id: Id)
    | Share(p: Pid, q: Pid, id: Id)
    | Touch(p: Pid, id: Id, entry: Entry)
    | AcquireLock(p: Pid, id: Id)
    | Reload(p: Pid, force: bool, beforeExpiry: real)
    | GiveUp(p: Pid)
    | Present(p: Pid, access: string, refresh: string, expires: real, expiresIn: real)
    | Lose(p: Pid, refresh: string, stamp: real)
    | Drop(p: Pid, died: bool)
    | Save(p: Pid)
    | SaveState(p: Pid, rows: set<Id>)
    | SaveAccounts(p: Pid)
    | Edit(roster: Rows)
    | Login(id: Id, entry: Entry)

  // ---------------------------------------------------------------------
  // Steps
  // ---------------------------------------------------------------------

  predicate On(phase: Phase, id: Id) {
    !phase.Idle? && phase.id == id
  }

  predicate AnsweredOn(phase: Phase, id: Id) {
    phase.Answered? && phase.id == id
  }

  ghost predicate LockFree(w: World, id: Id) {
    forall p :: p in w.processes ==> !On(w.processes[p].phase, id)
  }

  function WithPhase(w: World, p: Pid, phase: Phase): World
    requires p in w.processes
  {
    w.(processes := w.processes[p := w.processes[p].(phase := phase)])
  }

  function WithRow(w: World, p: Pid, id: Id, entry: Entry): World
    requires p in w.processes
  {
    w.(processes := w.processes[p := w.processes[p].(snapshot := w.processes[p].snapshot[id := entry])])
  }

  predicate TokenNeedsRefresh(e: Entry, beforeExpiry: real, now: real) {
    Access !in e || e[Access] == Str("") || NumberOr(e, Expires, 0.0) == 0.0
    || NumberOr(e, Expires, 0.0) - now <= beforeExpiry
  }

  /** The source row with the provider's answer written into it. */
  function Refreshed(source: Entry, access: string, refresh: string, expires: real, expiresIn: real): Entry {
    source[Access := Str(access)][Refresh := Str(refresh)][Expires := Num(expires)]
          [LastRefreshedAt := Num(expires - expiresIn * 1000.0)] - {LastRefreshError}
  }

  /** `saveAccountState`: the named rows of a snapshot merged into the rows still on the roster. */
  function StateSaved(disk: Rows, snapshot: Rows, rows: set<Id>, now: real): Rows {
    map id | id in disk :: if id in snapshot && id in rows then Merged(disk[id], snapshot[id], now) else disk[id]
  }

  /** `saveAccounts`: the union of both rosters, each common row with the credential of the newer token. */
  function AccountsSaved(disk: Rows, snapshot: Rows, now: real): Rows {
    map id | id in disk.Keys + snapshot.Keys ::
      if id !in snapshot then disk[id]
      else if id in disk then WithCredentialOf(snapshot[id], NewerOf(disk[id], snapshot[id], now))
      else snapshot[id]
  }

  /** A new token for the row, issued later than all its others by a clock that is not far ahead. */
  ghost predicate Fresh(w: World, id: Id, refresh: Json, stamp: real) {
    && refresh !in w.issued
    && (forall t :: t in w.issued && w.issued[t].id == id ==> w.issued[t].stamp < stamp)
    && stamp <= w.clock + FUTURE_REFRESH_STAMP_TOLERANCE_MS
  }

  predicate SameToken(a: Entry, b: Entry) {
    SameField(a, b, Access) && SameField(a, b, Refresh) && SameField(a, b, Expires) && SameField(a, b, LastRefreshedAt)
  }

  ghost predicate Step(w: World, action: Action, next: World) {
    match action
    case Tick(to) => to >= w.clock && next == w.(clock := to)
    case Load(p) =>
      && p in w.processes && !w.processes[p].phase.Answered?
      && next == w.(processes := w.processes[p := w.processes[p].(snapshot := w.disk)])
    case LoadRow(p, id) =>
      && p in w.processes && id in w.disk && !AnsweredOn(w.processes[p].phase, id)
      && next == WithRow(w, p, id, w.disk[id])
    case Share(p, q, id) =>
      && p in w.processes && q in w.processes && !AnsweredOn(w.processes[p].phase, id)
      && id in w.processes[q].snapshot
      && next == WithRow(w, p, id, w.processes[q].snapshot[id])
    case Touch(p, id, entry) =>
      && p in w.processes && id in w.processes[p].snapshot && SameToken(entry, w.processes[p].snapshot[id])
      && next == WithRow(w, p, id, entry)
    case AcquireLock(p, id) =>
      && p in w.processes && w.processes[p].phase.Idle? && LockFree(w, id)
      && next == WithPhase(w, p, Holding(id))
    case Reload(p, force, beforeExpiry) => ReloadStep(w, p, force, beforeExpiry, next)
    case GiveUp(p) =>
      && p in w.processes && (w.processes[p].phase.Holding? || w.processes[p].phase.Ready?)
      && next == WithPhase(w, p, Idle)
    case Present(p, access, refresh, expires, expiresIn) =>
      PresentStep(w, p, access, refresh, expires, expiresIn, next)
    case Lose(p, refresh, stamp) => LoseStep(w, p, refresh, stamp, next)
    case Drop(p, died) =>
      && p in w.processes && w.processes[p].phase.Answered?
      && next == w.(processes := w.processes[p := Process(if died then map[] else w.processes[p].snapshot, Idle)],
                    lost := w.lost + {w.processes[p].phase.id})
    case Save(p) =>
      && p in w.processes && w.processes[p].phase.Answered?
      && next == WithPhase(w, p, Idle).(disk := StateSaved(w.disk, w.processes[p].snapshot,
                                                            w.processes[p].snapshot.Keys, w.clock))
    case SaveState(p, rows) =>
      p in w.processes && next == w.(disk := StateSaved(w.disk, w.processes[p].snapshot, rows, w.clock))
    case SaveAccounts(p) =>
      p in w.processes && next == w.(disk := AccountsSaved(w.disk, w.processes[p].snapshot, w.clock))
    case Edit(roster) =>
      && (forall id :: id in roster ==> id in w.disk && SameCredential(roster[id], w.disk[id]))
      && next == w.(disk := roster)
    case Login(id, entry) =>
      && Refresh in entry && Fresh(w, id, entry[Refresh], NumberOr(entry, LastRefreshedAt, 0.0))
      && next == w.(disk := w.disk[id := entry],
                    issued := w.issued[entry[Refresh] := Issue(id, NumberOr(entry, LastRefreshedAt, 0.0))],
                    lost := if LockFree(w, id) then w.lost - {id} else w.lost)
  }

  /** Under the lock the row is read again; it is refreshed only if that row needs it or force is asked for. */
  ghost predicate ReloadStep(w: World, p: Pid, force: bool, beforeExpiry: real, next: World) {
    && p in w.processes && w.processes[p].phase.Holding?
    && var id := w.processes[p].phase.id;
       next == if id !in w.disk then WithPhase(w, p, Idle)
               else if !force && !TokenNeedsRefresh(w.disk[id], beforeExpiry, w.clock)
               then WithPhase(WithRow(w, p, id, w.disk[id]), p, Idle)
               else WithPhase(w, p, Ready(id, w.disk[id]))
  }

  /** The provider takes an unspent token and answers with a new one; it refuses a spent one. */
  ghost predicate PresentStep(w: World, p: Pid, access: string, refresh: string, expires: real, expiresIn: real,
                              next: World)
  {
    && p in w.processes && w.processes[p].phase.Ready?
    && var Ready(id, source) := w.processes[p].phase;
       var stamp := expires - expiresIn * 1000.0;
       && id in w.processes[p].snapshot && Refresh in source
       && if source[Refresh] in w.spent then next == WithPhase(w, p, Idle)
          else
            var answer := Refreshed(source, access, refresh, expires, expiresIn);
            && Fresh(w, id, Str(refresh), stamp)
            && next == WithPhase(WithRow(w, p, id, answer), p, Answered(id, answer))
                         .(spent := w.spent + {source[Refresh]}, issued := w.issued[Str(refresh) := Issue(id, stamp)])
  }

  /** The provider takes the token, and its answer never arrives. */
  ghost predicate LoseStep(w: World, p: Pid, refresh: string, stamp: real, next: World) {
    && p in w.processes && w.processes[p].phase.Ready?
    && var Ready(id, source) := w.processes[p].phase;
       && Refresh in source && source[Refresh] !in w.spent && Fresh(w, id, Str(refresh), stamp)
       && next == WithPhase(w, p, Idle).(spent := w.spent + {source[Refresh]},
                                         issued := w.issued[Str(refresh) := Issue(id, stamp)],
                                         lost := w.lost + {id})
  }

  /** Every row a whole save brings back into the store carries the newest token issued for it. */
  ghost predicate BringsBackNewest(w: World, action: Action) {
    action.SaveAccounts? && action.p in w.processes ==>
      AllHeld(w, w.processes[action.p].snapshot - w.disk.Keys)
  }

  ghost predicate Run(trace: seq<World>, actions: seq<Action>) {
    && |trace| == |actions| + 1
    && forall i :: 0 <= i < |actions| ==> Step(trace[i], actions[i], trace[i + 1])
  }

  // ---------------------------------------------------------------------
  // The invariant
  // ---------------------------------------------------------------------

  function Stamp(e: Entry): real {
    NumberOr(e, LastRefreshedAt, 0.0)
  }

  /** The entry holds a token issued for the row, with its stamp. */
  predicate Known(issued: map<Json, Issue>, id: Id, e: Entry) {
    Refresh in e && e[Refresh] in issued && issued[e[Refresh]] == Issue(id, Stamp(e))
  }

  /** The entry holds the newest token issued for the row, and it is unspent. */
  ghost predicate Newest(w: World, id: Id, e: Entry) {
    && Known(w.issued, id, e) && e[Refresh] !in w.spent
    && forall t :: t in w.issued && w.issued[t].id == id ==> w.issued[t].stamp <= Stamp(e)
  }

  ghost predicate IssuesInv(w: World) {
    && (forall t :: t in w.issued ==> w.issued[t].stamp <= w.clock + FUTURE_REFRESH_STAMP_TOLERANCE_MS)
    && (forall t, u :: t in w.issued && u in w.issued && w.issued[t] == w.issued[u] ==> t == u)
    && (forall t :: t in w.spent ==> t in w.issued)
  }

  ghost predicate RowsKnown(issued: map<Json, Issue>, rows: Rows) {
    forall id :: id in rows ==> Known(issued, id, rows[id])
  }

  ghost predicate PhaseInv(w: World, process: Process) {
    match process.phase
    case Ready(id, source) => Known(w.issued, id, source) && (id in w.lost || source[Refresh] !in w.spent)
    case Answered(id, answer) =>
      && Known(w.issued, id, answer)
      && id in process.snapshot && SameToken(process.snapshot[id], answer)
    case _ => true
  }

  ghost predicate ProcessesInv(w: World) {
    && (forall p :: p in w.processes ==> RowsKnown(w.issued, w.processes[p].snapshot) && PhaseInv(w, w.processes[p]))
    && forall p, q, id ::
         (p in w.processes && q in w.processes && On(w.processes[p].phase, id) && On(w.processes[q].phase, id))
         ==> p == q
  }

  /**
   The newest token of the row is stored, or a process holds it between the provider's answer and the save,
   unless it was lost.
   */
  ghost predicate NewestHeld(w: World, id: Id, e: Entry) {
    || id in w.lost
    || Newest(w, id, e)
    || exists p ::
         p in w.processes && AnsweredOn(w.processes[p].phase, id) && Newest(w, id, w.processes[p].phase.answer)
  }

  ghost predicate Inv(w: World) {
    && IssuesInv(w)
    && RowsKnown(w.issued, w.disk)
    && ProcessesInv(w)
    && AllHeld(w, w.disk)
  }

  ghost predicate AllHeld(w: World, rows: Rows) {
    forall id :: id in rows ==> NewestHeld(w, id, rows[id])
  }

  /** Every stored row holds the newest token issued for it, unspent, and the snapshots are copies of rows. */
  ghost predicate Starts(w: World) {
    && IssuesInv(w) && w.lost == {}
    && (forall id :: id in w.disk ==> Newest(w, id, w.disk[id]))
    && forall p :: p in w.processes ==> w.processes[p].phase.Idle? && RowsKnown(w.issued, w.processes[p].snapshot)
  }

  // ---------------------------------------------------------------------
  // Merging keeps the newest token
  // ---------------------------------------------------------------------

  /** The credential is that of one of the two copies, and neither copy is newer. */
  ghost predicate Chosen(result: Entry, a: Entry, b: Entry, now: real) {
    (SameCredential(result, a) || SameCredential(result, b)) && !Newer(a, result, now) && !Newer(b, result, now)
  }

  lemma MergedIsChosen(existing: Entry, incoming: Entry, now: real)
    ensures Chosen(Merged(existing, incoming, now), existing, incoming, now)
  {
    MergeKeepsOneCredential(existing, incoming, now);
  }

  lemma KeptIsChosen(onDisk: Entry, incoming: Entry, now: real)
    ensures Chosen(WithCredentialOf(incoming, NewerOf(onDisk, incoming, now)), onDisk, incoming, now)
  {
    var source := NewerOf(onDisk, incoming, now);
    var result := WithCredentialOf(incoming, source);
    forall f | IsCredential(f) ensures SameField(result, source, f) {
    }
    assert SameField(result, source, Expires) && SameField(result, source, LastRefreshedAt);
  }

  lemma SameCredentialKnown(w: World, id: Id, a: Entry, b: Entry)
    requires SameCredential(a, b)
    ensures Known(w.issued, id, a) == Known(w.issued, id, b)
    ensures Newest(w, id, a) == Newest(w, id, b)
  {
    assert SameField(a, b, Refresh) && SameField(a, b, LastRefreshedAt);
  }

  lemma SameTokenKnown(w: World, id: Id, a: Entry, b: Entry)
    requires SameToken(a, b)
    ensures Known(w.issued, id, a) == Known(w.issued, id, b)
    ensures Newest(w, id, a) == Newest(w, id, b)
  {
  }

  lemma ChosenKnown(w: World, id: Id, result: Entry, a: Entry, b: Entry)
    requires Known(w.issued, id, a) && Known(w.issued, id, b) && Chosen(result, a, b, w.clock)
    ensures Known(w.issued, id, result)
  {
    hide Newest;
    SameCredentialKnown(w, id, result, if SameCredential(result, a) then a else b);
  }

  /** If one of the copies holds the newest token, so does the result. */
  lemma ChosenIsNewest(w: World, id: Id, result: Entry, a: Entry, b: Entry)
    requires IssuesInv(w) && Known(w.issued, id, a) && Known(w.issued, id, b) && Chosen(result, a, b, w.clock)
    requires Newest(w, id, a) || Newest(w, id, b)
    ensures Newest(w, id, result)
  {
    ChosenKnown(w, id, result, a, b);
    assert TrustedRefreshStamp(a, w.clock) == Stamp(a) && TrustedRefreshStamp(b, w.clock) == Stamp(b)
        && TrustedRefreshStamp(result, w.clock) == Stamp(result);
  }

  // ---------------------------------------------------------------------
  // Every step keeps the invariant
  // ---------------------------------------------------------------------

  /** The tokens, and the answers processes hold, stay as they are. */
  ghost predicate SameHoldings(w: World, next: World) {
    && next.issued == w.issued && next.spent == w.spent && next.lost == w.lost && next.clock >= w.clock
    && forall p :: p in w.processes && w.processes[p].phase.Answered? ==>
         p in next.processes && next.processes[p].phase == w.processes[p].phase
  }

  lemma HeldKeeps(w: World, next: World, id: Id, e: Entry, f: Entry)
    requires SameHoldings(w, next) && NewestHeld(w, id, e)
    requires Newest(w, id, e) ==> Newest(w, id, f)
    ensures NewestHeld(next, id, f)
  {
    if id !in w.lost && !Newest(w, id, e) {
      var p :| p in w.processes && AnsweredOn(w.processes[p].phase, id) && Newest(w, id, w.processes[p].phase.answer);
      assert Newest(next, id, next.processes[p].phase.answer);
    }
  }

  /** Steps that change one process: its snapshot still holds known rows and it holds no answer. */
  lemma ProcessKeeps(w: World, p: Pid, process: Process, next: World)
    requires Inv(w) && p in w.processes && next == w.(processes := w.processes[p := process])
    requires RowsKnown(w.issued, process.snapshot) && PhaseInv(w, process)
    requires forall id :: On(process.phase, id) ==> On(w.processes[p].phase, id) || LockFree(w, id)
    requires w.processes[p].phase.Answered? ==> process.phase == w.processes[p].phase
    ensures Inv(next)
  {
    hide Newest;
    hide RowsKnown;
    forall id | id in w.disk ensures NewestHeld(next, id, next.disk[id]) {
      HeldKeeps(w, next, id, w.disk[id], w.disk[id]);
    }
    forall q | q in next.processes ensures PhaseInv(next, next.processes[q]) {
      assert PhaseInv(w, next.processes[q]);
    }
  }

  /** Steps that change the store: each row's credential is kept or chosen against another known copy. */
  ghost predicate RowFollows(w: World, id: Id, e: Entry) {
    && id in w.disk
    && (|| SameCredential(e, w.disk[id])
        || exists other :: Known(w.issued, id, other) && Chosen(e, w.disk[id], other, w.clock))
  }

  lemma RowKeeps(w: World, next: World, id: Id)
    requires Inv(w) && SameHoldings(w, next) && id in next.disk && RowFollows(w, id, next.disk[id])
    ensures Known(next.issued, id, next.disk[id]) && NewestHeld(next, id, next.disk[id])
  {
    hide Newest;
    hide Chosen;
    var e := next.disk[id];
    if SameCredential(e, w.disk[id]) {
      SameCredentialKnown(w, id, e, w.disk[id]);
    } else {
      var other :| Known(w.issued, id, other) && Chosen(e, w.disk[id], other, w.clock);
      ChosenKnown(w, id, e, w.disk[id], other);
      if Newest(w, id, w.disk[id]) { ChosenIsNewest(w, id, e, w.disk[id], other); }
    }
    HeldKeeps(w, next, id, w.disk[id], e);
  }

  lemma DiskKeeps(w: World, next: World)
    requires Inv(w) && next == w.(disk := next.disk)
    requires forall id :: id in next.disk ==> RowFollows(w, id, next.disk[id])
    ensures Inv(next)
  {
    hide RowFollows;
    hide NewestHeld;
    forall id | id in next.disk ensures Known(next.issued, id, next.disk[id]) && NewestHeld(next, id, next.disk[id]) {
      RowKeeps(w, next, id);
    }
    forall q | q in next.processes ensures PhaseInv(next, next.processes[q]) {
      assert PhaseInv(w, next.processes[q]);
    }
  }

  lemma TickKeeps(w: World, to: real)
    requires Inv(w) && to >= w.clock
    ensures Inv(w.(clock := to))
  {
    hide Newest;
    var next := w.(clock := to);
    forall id | id in w.disk ensures NewestHeld(next, id, next.disk[id]) {
      HeldKeeps(w, next, id, w.disk[id], w.disk[id]);
    }
    forall q | q in next.processes ensures PhaseInv(next, next.processes[q]) {
      assert PhaseInv(w, next.processes[q]);
    }
  }

  /** A row written into a snapshot is known; while an answer is held, the row keeps its token. */
  lemma RowKeepsProcess(w: World, p: Pid, id: Id, entry: Entry)
    requires Inv(w) && p in w.processes && Known(w.issued, id, entry)
    requires AnsweredOn(w.processes[p].phase, id) ==>
               id in w.processes[p].snapshot && SameToken(entry, w.processes[p].snapshot[id])
    ensures Inv(WithRow(w, p, id, entry))
  {
    hide Known;
    var process := w.processes[p];
    assert PhaseInv(w, process);
    ProcessKeeps(w, p, process.(snapshot := process.snapshot[id := entry]), WithRow(w, p, id, entry));
  }

  lemma ReloadKeeps(w: World, p: Pid, force: bool, beforeExpiry: real, next: World)
    requires Inv(w) && ReloadStep(w, p, force, beforeExpiry, next)
    ensures Inv(next)
  {
    hide Newest;
    hide RowsKnown;
    hide Known;
    hide TokenNeedsRefresh;
    var process := w.processes[p];
    var id := process.phase.id;
    if id !in w.disk {
      ProcessKeeps(w, p, process.(phase := Idle), next);
    } else {
      RowIsKnown(w, id);
      if !force && !TokenNeedsRefresh(w.disk[id], beforeExpiry, w.clock) {
        RowKeepsProcess(w, p, id, w.disk[id]);
        var mid := WithRow(w, p, id, w.disk[id]);
        ProcessKeeps(mid, p, mid.processes[p].(phase := Idle), next);
      } else {
        StoredIsUnspent(w, p, id);
        ProcessKeeps(w, p, process.(phase := Ready(id, w.disk[id])), next);
      }
    }
  }

  lemma RowIsKnown(w: World, id: Id)
    requires Inv(w) && id in w.disk
    ensures Known(w.issued, id, w.disk[id])
  {
  }

  /** Whoever holds the lock without an answer finds the newest token, unspent, in the store, unless it was lost. */
  lemma StoredIsUnspent(w: World, p: Pid, id: Id)
    requires Inv(w) && id in w.disk && p in w.processes
    requires On(w.processes[p].phase, id) && !w.processes[p].phase.Answered?
    ensures id !in w.lost ==> Newest(w, id, w.disk[id])
    ensures PhaseInv(w, w.processes[p].(phase := Ready(id, w.disk[id])))
  {
    assert NewestHeld(w, id, w.disk[id]);
  }

  /** A new token is issued for the row; of its tokens `spent` may be used up. */
  ghost predicate Issues(w: World, next: World, id: Id, token: Json, stamp: real, spent: set<Json>) {
    && Fresh(w, id, token, stamp)
    && next.issued == w.issued[token := Issue(id, stamp)] && next.clock == w.clock
    && next.spent == w.spent + spent
    && (forall i :: i != id ==> (i in w.lost <==> i in next.lost))
    && forall t :: t in spent ==> t in w.issued && w.issued[t].id == id
  }

  lemma IssuesKeep(w: World, next: World, id: Id, token: Json, stamp: real, spent: set<Json>)
    requires IssuesInv(w) && Issues(w, next, id, token, stamp, spent)
    ensures IssuesInv(next)
    ensures forall i, e :: Known(w.issued, i, e) ==> Known(next.issued, i, e)
  {
  }

  lemma RowsStayKnown(w: World, next: World, rows: Rows)
    requires forall i, e :: Known(w.issued, i, e) ==> Known(next.issued, i, e)
    requires RowsKnown(w.issued, rows)
    ensures RowsKnown(next.issued, rows)
  {
    hide Known;
  }

  /** Rows other than the one a token is issued for keep their newest token. */
  lemma OthersKeepNewest(w: World, next: World, id: Id, token: Json, stamp: real, spent: set<Json>, i: Id, e: Entry)
    requires Issues(w, next, id, token, stamp, spent) && i != id && Newest(w, i, e)
    ensures Newest(next, i, e)
  {
  }

  lemma OthersKeepHeld(w: World, next: World, id: Id, token: Json, stamp: real, spent: set<Json>, i: Id, e: Entry)
    requires Issues(w, next, id, token, stamp, spent) && i != id && NewestHeld(w, i, e)
    requires forall q :: q in w.processes && AnsweredOn(w.processes[q].phase, i) ==>
               q in next.processes && next.processes[q].phase == w.processes[q].phase
    ensures NewestHeld(next, i, e)
  {
    hide Newest;
    if Newest(w, i, e) {
      OthersKeepNewest(w, next, id, token, stamp, spent, i, e);
    } else if i !in w.lost {
      var q :| q in w.processes && AnsweredOn(w.processes[q].phase, i) && Newest(w, i, w.processes[q].phase.answer);
      OthersKeepNewest(w, next, id, token, stamp, spent, i, w.processes[q].phase.answer);
    }
  }

  /** A process that does not work on the row keeps what it has. */
  lemma OthersKeepPhase(w: World, next: World, id: Id, token: Json, stamp: real, spent: set<Json>, process: Process)
    requires IssuesInv(w) && Issues(w, next, id, token, stamp, spent) && PhaseInv(w, process)
    requires On(process.phase, id) ==> spent == {} && (id in w.lost ==> id in next.lost)
    ensures PhaseInv(next, process)
  {
  }

  /** The token of the refreshed row is the answer's, and it is the newest. */
  lemma RefreshedIsNewest(w: World, next: World, id: Id, source: Entry, access: string, refresh: string, expires: real,
                          expiresIn: real, spent: set<Json>)
    requires IssuesInv(w) && Issues(w, next, id, Str(refresh), expires - expiresIn * 1000.0, spent)
    ensures Newest(next, id, Refreshed(source, access, refresh, expires, expiresIn))
  {
  }

  /** The provider's answer becomes the newest token of its row; the one presented for it is spent. */
  lemma PresentKeeps(w: World, p: Pid, access: string, refresh: string, expires: real, expiresIn: real, next: World)
    requires Inv(w) && PresentStep(w, p, access, refresh, expires, expiresIn, next)
    ensures Inv(next)
  {
    hide Inv;
    hide Fresh;
    if w.processes[p].phase.source[Refresh] in w.spent {
      PhaseKeeps(w, p, Idle);
    } else {
      AnswerKeeps(w, p, access, refresh, expires, expiresIn, next);
    }
  }

  lemma AnswerKeeps(w: World, p: Pid, access: string, refresh: string, expires: real, expiresIn: real, next: World)
    requires Inv(w) && PresentStep(w, p, access, refresh, expires, expiresIn, next)
    requires w.processes[p].phase.source[Refresh] !in w.spent
    ensures Inv(next)
  {
    hide RowsKnown;
    hide Refreshed;
    hide Newest;
    hide Fresh;
    var process := w.processes[p];
    var Ready(id, source) := process.phase;
    assert PhaseInv(w, process) && On(process.phase, id);
    var answer := Refreshed(source, access, refresh, expires, expiresIn);
    var token, stamp, spent := Str(refresh), expires - expiresIn * 1000.0, {source[Refresh]};
    assert Issues(w, next, id, token, stamp, spent);
    hide Issues;
    IssuesKeep(w, next, id, token, stamp, spent);
    RefreshedIsNewest(w, next, id, source, access, refresh, expires, expiresIn, spent);
    forall i | i in next.disk ensures NewestHeld(next, i, next.disk[i]) {
      if i == id {
        assert AnsweredOn(next.processes[p].phase, id);
      } else {
        OthersKeepHeld(w, next, id, token, stamp, spent, i, w.disk[i]);
      }
    }
    NewestIsKnown(next, id, answer);
    RowsStayKnown(w, next, w.disk);
    RowsStayKnown(w, next, process.snapshot);
    AddedRowKnown(next.issued, process.snapshot, id, answer);
    hide Known;
    hide SameField;
    forall q | q in next.processes
      ensures RowsKnown(next.issued, next.processes[q].snapshot) && PhaseInv(next, next.processes[q])
    {
      if q != p {
        RowsStayKnown(w, next, w.processes[q].snapshot);
        OthersKeepPhase(w, next, id, token, stamp, spent, w.processes[q]);
      }
    }
  }

  /** A lost answer leaves its row lost; every other row keeps its newest token. */
  lemma LoseKeeps(w: World, p: Pid, refresh: string, stamp: real, next: World)
    requires Inv(w) && LoseStep(w, p, refresh, stamp, next)
    ensures Inv(next)
  {
    hide RowsKnown;
    hide Newest;
    hide Fresh;
    var process := w.processes[p];
    var Ready(id, source) := process.phase;
    assert PhaseInv(w, process) && On(process.phase, id);
    var token, spent := Str(refresh), {source[Refresh]};
    assert Issues(w, next, id, token, stamp, spent);
    hide Issues;
    IssuesKeep(w, next, id, token, stamp, spent);
    forall i | i in next.disk ensures NewestHeld(next, i, next.disk[i]) {
      if i != id { OthersKeepHeld(w, next, id, token, stamp, spent, i, w.disk[i]); }
    }
    RowsStayKnown(w, next, w.disk);
    hide Known;
    forall q | q in next.processes
      ensures RowsKnown(next.issued, next.processes[q].snapshot) && PhaseInv(next, next.processes[q])
    {
      RowsStayKnown(w, next, w.processes[q].snapshot);
      if q != p { OthersKeepPhase(w, next, id, token, stamp, spent, w.processes[q]); }
    }
  }

  /** So does one that is not saved. */
  lemma DropKeeps(w: World, p: Pid, died: bool, next: World)
    requires Inv(w) && Step(w, Action.Drop(p, died), next)
    ensures Inv(next)
  {
    hide Newest;
    hide RowsKnown;
    hide Known;
    EmptyIsKnown(w.issued);
    forall i | i in next.disk ensures NewestHeld(next, i, next.disk[i]) {
      DropKeepsHeld(w, p, died, next, i);
    }
    forall q | q in next.processes
      ensures RowsKnown(next.issued, next.processes[q].snapshot) && PhaseInv(next, next.processes[q])
    {
      assert PhaseInv(w, w.processes[q]);
    }
  }

  lemma DropKeepsHeld(w: World, p: Pid, died: bool, next: World, id: Id)
    requires Step(w, Action.Drop(p, died), next) && id in w.disk && NewestHeld(w, id, w.disk[id])
    ensures NewestHeld(next, id, next.disk[id])
  {
    hide Newest;
    if Newest(w, id, w.disk[id]) {
      SameNewest(w, next, id, w.disk[id]);
    } else if id !in next.lost {
      var q :| q in w.processes && AnsweredOn(w.processes[q].phase, id) && Newest(w, id, w.processes[q].phase.answer);
      SameNewest(w, next, id, w.processes[q].phase.answer);
      assert next.processes[q] == w.processes[q];
    }
  }

  lemma EmptyIsKnown(issued: map<Json, Issue>)
    ensures RowsKnown(issued, map[])
  {
  }

  lemma NewestIsKnown(w: World, id: Id, e: Entry)
    requires Newest(w, id, e)
    ensures Known(w.issued, id, e)
  {
  }

  lemma AddedRowKnown(issued: map<Json, Issue>, rows: Rows, id: Id, e: Entry)
    requires RowsKnown(issued, rows) && Known(issued, id, e)
    ensures RowsKnown(issued, rows[id := e])
  {
  }

  lemma LoginKeeps(w: World, id: Id, entry: Entry, next: World)
    requires Inv(w) && Step(w, Action.Login(id, entry), next)
    ensures Inv(next)
  {
    hide RowsKnown;
    var token, stamp := entry[Refresh], Stamp(entry);
    assert Issues(w, next, id, token, stamp, {});
    assert entry[Refresh] !in w.spent;
    assert Newest(next, id, entry);
    hide Issues;
    IssuesKeep(w, next, id, token, stamp, {});
    hide Newest;
    forall i | i in next.disk ensures NewestHeld(next, i, next.disk[i]) {
      if i != id { OthersKeepHeld(w, next, id, token, stamp, {}, i, w.disk[i]); }
    }
    NewestIsKnown(next, id, entry);
    RowsStayKnown(w, next, w.disk);
    AddedRowKnown(next.issued, w.disk, id, entry);
    hide Known;
    forall q | q in next.processes
      ensures RowsKnown(next.issued, next.processes[q].snapshot) && PhaseInv(next, next.processes[q])
    {
      RowsStayKnown(w, next, w.processes[q].snapshot);
      OthersKeepPhase(w, next, id, token, stamp, {}, w.processes[q]);
    }
  }

  /** The answer reaches the store: the row, if it is still there, holds the newest token again. */
  lemma SaveKeeps(w: World, p: Pid, next: World)
    requires Inv(w) && Step(w, Action.Save(p), next)
    ensures Inv(next)
  {
    hide Merged;
    hide Newest;
    hide Known;
    var process := w.processes[p];
    assert PhaseInv(w, process);
    forall i | i in next.disk ensures Known(next.issued, i, next.disk[i]) && NewestHeld(next, i, next.disk[i]) {
      SavedRowKeeps(w, p, next, i);
    }
    hide NewestHeld;
    hide StateSaved;
    ReleasedKeeps(w, p, next);
  }

  /** Giving the lock back leaves the processes as they should be. */
  lemma ReleasedKeeps(w: World, p: Pid, next: World)
    requires ProcessesInv(w) && p in w.processes
    requires next.issued == w.issued && next.spent == w.spent && next.lost == w.lost
    requires next.processes == w.processes[p := w.processes[p].(phase := Idle)]
    ensures ProcessesInv(next)
  {
    hide RowsKnown;
    hide Known;
    forall q | q in next.processes
      ensures RowsKnown(next.issued, next.processes[q].snapshot) && PhaseInv(next, next.processes[q])
    {
      assert PhaseInv(w, w.processes[q]);
    }
  }

  lemma SavedRowKeeps(w: World, p: Pid, next: World, id: Id)
    requires Inv(w) && Step(w, Action.Save(p), next) && id in next.disk
    ensures Known(next.issued, id, next.disk[id]) && NewestHeld(next, id, next.disk[id])
  {
    hide Merged;
    hide Newest;
    hide Known;
    hide RowFollows;
    var process := w.processes[p];
    assert RowsKnown(w.issued, process.snapshot);
    StateSavedFollows(w, process.snapshot, process.snapshot.Keys, id);
    if id in w.lost {
      RowKeeps(w, w.(disk := next.disk), id);
    } else if id == process.phase.id {
      assert AnsweredOn(process.phase, id);
      SavedIsNewest(w, p, id);
      NewestIsKnown(w, id, next.disk[id]);
      SameNewest(w, next, id, next.disk[id]);
    } else {
      RowKeepsBut(w, next, p, id);
    }
  }

  lemma StateSavedFollows(w: World, snapshot: Rows, rows: set<Id>, id: Id)
    requires Inv(w) && RowsKnown(w.issued, snapshot) && id in w.disk
    ensures RowFollows(w, id, StateSaved(w.disk, snapshot, rows, w.clock)[id])
  {
    hide Merged;
    hide Chosen;
    if id in snapshot && id in rows { MergedIsChosen(w.disk[id], snapshot[id], w.clock); }
  }

  /** The lock holder's save leaves the newest token in the store. */
  lemma SavedIsNewest(w: World, p: Pid, id: Id)
    requires Inv(w) && p in w.processes && AnsweredOn(w.processes[p].phase, id) && id in w.disk && id !in w.lost
    ensures Newest(w, id, StateSaved(w.disk, w.processes[p].snapshot, w.processes[p].snapshot.Keys, w.clock)[id])
  {
    hide Merged;
    hide Chosen;
    var process := w.processes[p];
    assert PhaseInv(w, process) && NewestHeld(w, id, w.disk[id]);
    SameTokenKnown(w, id, process.snapshot[id], process.phase.answer);
    MergedIsChosen(w.disk[id], process.snapshot[id], w.clock);
    AnswerOrStored(w, p, id);
    ChosenIsNewest(w, id, Merged(w.disk[id], process.snapshot[id], w.clock), w.disk[id], process.snapshot[id]);
  }

  lemma AnswerOrStored(w: World, p: Pid, id: Id)
    requires Inv(w) && p in w.processes && AnsweredOn(w.processes[p].phase, id) && id in w.disk && id !in w.lost
    ensures Newest(w, id, w.disk[id]) || Newest(w, id, w.processes[p].phase.answer)
  {
    hide Newest;
    if !Newest(w, id, w.disk[id]) {
      assert NewestHeld(w, id, w.disk[id]);
      var q :| q in w.processes && AnsweredOn(w.processes[q].phase, id) && Newest(w, id, w.processes[q].phase.answer);
      assert On(w.processes[q].phase, id) && On(w.processes[p].phase, id);
    }
  }

  /** The other rows of a save keep the newest token where it is. */
  lemma RowKeepsBut(w: World, next: World, p: Pid, id: Id)
    requires Inv(w) && p in w.processes && !AnsweredOn(w.processes[p].phase, id)
    requires next.issued == w.issued && next.spent == w.spent && next.clock == w.clock && next.lost == w.lost
    requires next.processes == w.processes[p := w.processes[p].(phase := Idle)]
    requires id in next.disk && RowFollows(w, id, next.disk[id])
    ensures Known(next.issued, id, next.disk[id]) && NewestHeld(next, id, next.disk[id])
  {
    hide RowFollows;
    hide Newest;
    hide Known;
    var mid := w.(disk := next.disk);
    RowKeeps(w, mid, id);
    if Newest(mid, id, mid.disk[id]) {
      SameNewest(mid, next, id, mid.disk[id]);
    } else if id !in w.lost {
      var q :| q in mid.processes && AnsweredOn(mid.processes[q].phase, id)
               && Newest(mid, id, mid.processes[q].phase.answer);
      SameNewest(mid, next, id, mid.processes[q].phase.answer);
      assert next.processes[q] == mid.processes[q];
    }
  }

  lemma SameNewest(w: World, next: World, id: Id, e: Entry)
    requires next.issued == w.issued && next.spent == w.spent && Newest(w, id, e)
    ensures Newest(next, id, e)
  {
  }

  lemma SaveStateKeeps(w: World, p: Pid, rows: set<Id>, next: World)
    requires Inv(w) && Step(w, Action.SaveState(p, rows), next)
    ensures Inv(next)
  {
    forall id | id in next.disk ensures RowFollows(w, id, next.disk[id]) {
      StateSavedFollows(w, w.processes[p].snapshot, rows, id);
    }
    DiskKeeps(w, next);
  }

  lemma StepKeepsInv(w: World, action: Action, next: World)
    requires Inv(w) && Step(w, action, next) && BringsBackNewest(w, action)
    ensures Inv(next)
  {
    hide Inv;
    match action
    case Tick(to) => TickKeeps(w, to);
    case Load(p) => LoadKeeps(w, p);
    case LoadRow(p, id) => RowIsKnown(w, id); RowKeepsProcess(w, p, id, w.disk[id]);
    case Share(p, q, id) => ShareKeeps(w, p, q, id);
    case Touch(p, id, entry) => TouchKeeps(w, p, id, entry);
    case AcquireLock(p, id) => PhaseKeeps(w, p, Holding(id));
    case Reload(p, force, beforeExpiry) => ReloadKeeps(w, p, force, beforeExpiry, next);
    case GiveUp(p) => PhaseKeeps(w, p, Idle);
    case Present(p, access, refresh, expires, expiresIn) =>
      PresentKeeps(w, p, access, refresh, expires, expiresIn, next);
    case Lose(p, refresh, stamp) => LoseKeeps(w, p, refresh, stamp, next);
    case Drop(p, died) => DropKeeps(w, p, died, next);
    case Save(p) => SaveKeeps(w, p, next);
    case SaveState(p, rows) => SaveStateKeeps(w, p, rows, next);
    case SaveAccounts(p) => SaveAccountsKeepsExactlyWhen(w, p, next);
    case Edit(roster) => EditKeeps(w, roster);
    case Login(id, entry) => LoginKeeps(w, id, entry, next);
  }

  lemma LoadKeeps(w: World, p: Pid)
    requires Inv(w) && p in w.processes && !w.processes[p].phase.Answered?
    ensures Inv(w.(processes := w.processes[p := w.processes[p].(snapshot := w.disk)]))
  {
    var process := w.processes[p].(snapshot := w.disk);
    assert PhaseInv(w, w.processes[p]);
    ProcessKeeps(w, p, process, w.(processes := w.processes[p := process]));
  }

  lemma ShareKeeps(w: World, p: Pid, q: Pid, id: Id)
    requires Inv(w) && p in w.processes && q in w.processes && !AnsweredOn(w.processes[p].phase, id)
    requires id in w.processes[q].snapshot
    ensures Inv(WithRow(w, p, id, w.processes[q].snapshot[id]))
  {
    assert RowsKnown(w.issued, w.processes[q].snapshot);
    RowKeepsProcess(w, p, id, w.processes[q].snapshot[id]);
  }

  lemma TouchKeeps(w: World, p: Pid, id: Id, entry: Entry)
    requires Inv(w) && p in w.processes && id in w.processes[p].snapshot
    requires SameToken(entry, w.processes[p].snapshot[id])
    ensures Inv(WithRow(w, p, id, entry))
  {
    assert RowsKnown(w.issued, w.processes[p].snapshot);
    SameTokenKnown(w, id, entry, w.processes[p].snapshot[id]);
    RowKeepsProcess(w, p, id, entry);
  }

  lemma PhaseKeeps(w: World, p: Pid, phase: Phase)
    requires Inv(w) && p in w.processes && !w.processes[p].phase.Answered?
    requires phase.Idle? || (phase.Holding? && LockFree(w, phase.id))
    ensures Inv(WithPhase(w, p, phase))
  {
    ProcessKeeps(w, p, w.processes[p].(phase := phase), WithPhase(w, p, phase));
  }

  lemma EditKeeps(w: World, roster: Rows)
    requires Inv(w) && forall id :: id in roster ==> id in w.disk && SameCredential(roster[id], w.disk[id])
    ensures Inv(w.(disk := roster))
  {
    hide SameCredential;
    DiskKeeps(w, w.(disk := roster));
  }

  lemma StartHasInv(w: World)
    requires Starts(w)
    ensures Inv(w)
  {
    hide Newest;
    forall id | id in w.disk ensures Known(w.issued, id, w.disk[id]) { NewestIsKnown(w, id, w.disk[id]); }
  }

  /** No step of the run brings a removed row back with anything but its newest token. */
  ghost predicate BringsBackOnlyNewest(trace: seq<World>, actions: seq<Action>)
    requires Run(trace, actions)
  {
    forall i :: 0 <= i < |actions| ==> BringsBackNewest(trace[i], actions[i])
  }

  lemma {:induction false} RunKeepsInv(trace: seq<World>, actions: seq<Action>, i: nat)
    requires Run(trace, actions) && Starts(trace[0]) && BringsBackOnlyNewest(trace, actions) && i < |trace|
    ensures Inv(trace[i])
    decreases i
  {
    hide Inv;
    hide Step;
    if i == 0 {
      StartHasInv(trace[0]);
    } else {
      RunKeepsInv(trace, actions, i - 1);
      StepKeepsInv(trace[i - 1], actions[i - 1], trace[i]);
    }
  }

  // ---------------------------------------------------------------------
  // Main results
  // ---------------------------------------------------------------------

  /** A process presents a spent token to the provider. */
  ghost predicate PresentsSpent(w: World, action: Action) {
    && action.Present? && action.p in w.processes && w.processes[action.p].phase.Ready?
    && Refresh in w.processes[action.p].phase.source && w.processes[action.p].phase.source[Refresh] in w.spent
  }

  /** The row whose token is presented lost an answer. */
  ghost predicate OfLostRow(w: World, action: Action) {
    && action.Present? && action.p in w.processes && w.processes[action.p].phase.Ready?
    && w.processes[action.p].phase.id in w.lost
  }

  /**
   While no save brings a removed row back with an older token, no process ever presents a spent refresh token,
   but of a row one of whose answers was lost since it was last logged in.
   */
  lemma NoSpentTokenIsPresented(trace: seq<World>, actions: seq<Action>, i: nat)
    requires Run(trace, actions) && Starts(trace[0]) && BringsBackOnlyNewest(trace, actions) && i < |actions|
    ensures PresentsSpent(trace[i], actions[i]) ==> OfLostRow(trace[i], actions[i])
  {
    RunKeepsInv(trace, actions, i);
    InvForbids(trace[i], actions[i]);
  }

  /**
   Whole saves of snapshots are the only way a row comes back. In a run without them, or whose whole
   saves name only rows in the store, no spent token is presented and the store never falls behind, lost
   answers aside.
   */
  lemma WithoutReaddingNoneIsPresented(trace: seq<World>, actions: seq<Action>, i: nat)
    requires Run(trace, actions) && Starts(trace[0]) && i < |actions|
    requires forall k :: 0 <= k < |actions| && actions[k].SaveAccounts? && actions[k].p in trace[k].processes ==>
               trace[k].processes[actions[k].p].snapshot.Keys <= trace[k].disk.Keys
    ensures BringsBackOnlyNewest(trace, actions)
    ensures (PresentsSpent(trace[i], actions[i]) ==> OfLostRow(trace[i], actions[i])) && Inv(trace[i])
  {
    hide OfLostRow;
    hide Inv;
    hide PresentsSpent;
    hide NewestHeld;
    hide Step;
    forall k | 0 <= k < |actions| ensures BringsBackNewest(trace[k], actions[k]) {
    }
    hide BringsBackNewest;
    NoSpentTokenIsPresented(trace, actions, i);
    RunKeepsInv(trace, actions, i);
  }

  lemma InvForbids(w: World, action: Action)
    requires Inv(w)
    ensures PresentsSpent(w, action) ==> OfLostRow(w, action)
  {
    if action.Present? && action.p in w.processes { assert PhaseInv(w, w.processes[action.p]); }
  }

  /**
   The stored token is the newest issued and unspent, except between the provider's answer and its save, or once
   an answer was lost.
   */
  lemma StoredTokenIsNewest(trace: seq<World>, actions: seq<Action>, i: nat, id: Id)
    requires Run(trace, actions) && Starts(trace[0]) && BringsBackOnlyNewest(trace, actions) && i < |trace|
    requires id in trace[i].disk && id !in trace[i].lost
    requires forall p :: p in trace[i].processes ==> !AnsweredOn(trace[i].processes[p].phase, id)
    ensures Newest(trace[i], id, trace[i].disk[id])
  {
    RunKeepsInv(trace, actions, i);
  }

  /**
   In any state that satisfies the invariant, when the answer to a process that holds the stored token ready is
   lost, the token, now spent, can be presented again three steps later.
   */
  lemma LostAnswerPresentsSpentToken(w: World, p: Pid, refresh: string, stamp: real)
    returns (trace: seq<World>, actions: seq<Action>)
    requires Inv(w) && p in w.processes && w.processes[p].phase.Ready?
    requires w.processes[p].phase.source[Refresh] !in w.spent
    requires w.processes[p].phase.id in w.processes[p].snapshot
    requires w.processes[p].phase.id in w.disk && w.disk[w.processes[p].phase.id] == w.processes[p].phase.source
    requires Fresh(w, w.processes[p].phase.id, Str(refresh), stamp)
    ensures Run(trace, actions) && trace[0] == w && |actions| == 4 && actions[0] == Action.Lose(p, refresh, stamp)
    ensures PresentsSpent(trace[3], actions[3])
  {
    var Ready(id, source) := w.processes[p].phase;
    assert PhaseInv(w, w.processes[p]) && On(w.processes[p].phase, id);
    var w1 := WithPhase(w, p, Idle).(spent := w.spent + {source[Refresh]},
                                     issued := w.issued[Str(refresh) := Issue(id, stamp)], lost := w.lost + {id});
    assert LockFree(w1, id);
    var t2, a2 := StoredSpentIsPresented(w1, p, id);
    hide Fresh;
    assert Step(w, Action.Lose(p, refresh, stamp), w1);
    hide Step;
    trace, actions := [w] + t2, [Action.Lose(p, refresh, stamp)] + a2;
    assert trace[1] == w1 && forall i :: 0 <= i < 3 ==> Step(t2[i], a2[i], t2[i + 1]);
  }

  lemma StoredSpentIsPresented(w: World, p: Pid, id: Id) returns (trace: seq<World>, actions: seq<Action>)
    requires p in w.processes && w.processes[p].phase.Idle? && LockFree(w, id)
    requires id in w.processes[p].snapshot
    requires id in w.disk && Refresh in w.disk[id] && w.disk[id][Refresh] in w.spent
    ensures Run(trace, actions) && trace[0] == w && |actions| == 3 && PresentsSpent(trace[2], actions[2])
    ensures trace[2].lost == w.lost
  {
    var w1 := WithPhase(w, p, Holding(id));
    var w2 := WithPhase(w1, p, Ready(id, w.disk[id]));
    var w3 := WithPhase(w2, p, Idle);
    hide TokenNeedsRefresh;
    hide Fresh;
    trace := [w, w1, w2, w3];
    actions := [Action.AcquireLock(p, id), Action.Reload(p, true, 0.0), Action.Present(p, "", "", 0.0, 0.0)];
    assert Step(w, actions[0], w1);
    assert Step(w1, actions[1], w2);
    assert Step(w2, actions[2], w3);
  }

  // ---------------------------------------------------------------------
  // A removed row that comes back
  // ---------------------------------------------------------------------

  /** A whole save keeps the invariant exactly when every row it brings back has the newest token. */
  lemma SaveAccountsKeepsExactlyWhen(w: World, p: Pid, next: World)
    requires Inv(w) && Step(w, Action.SaveAccounts(p), next)
    ensures Inv(next) <==>
            AllHeld(w, w.processes[p].snapshot - w.disk.Keys)
  {
    var snapshot := w.processes[p].snapshot;
    var mid := w.(disk := map id | id in w.disk :: next.disk[id]);
    OldRowsKeep(w, p, next, mid);
    RowsOfUnion(w, snapshot, next, mid);
    hide *;
    UnionKeeps(w, snapshot, next, mid);
  }

  lemma UnionKeeps(w: World, snapshot: Rows, next: World, mid: World)
    requires Inv(mid) && RowsKnown(w.issued, snapshot)
    requires next == w.(disk := next.disk) && mid == w.(disk := mid.disk) && mid.disk.Keys == w.disk.Keys
    requires forall id :: id in next.disk <==> id in mid.disk || id in snapshot
    requires forall id :: id in next.disk ==> next.disk[id] == if id in mid.disk then mid.disk[id] else snapshot[id]
    ensures Inv(next) <==> AllHeld(w, snapshot - w.disk.Keys)
  {
    hide IssuesInv;
    hide ProcessesInv;
    hide RowsKnown;
    hide AllHeld;
    SameHeld(w, next, snapshot - w.disk.Keys);
    SameHeld(mid, next, mid.disk);
    ProcessesSame(mid, next);
    UnionHeld(next, mid.disk, snapshot);
  }

  lemma RowsOfUnion(w: World, snapshot: Rows, next: World, mid: World)
    requires next == w.(disk := AccountsSaved(w.disk, snapshot, w.clock))
    requires mid == w.(disk := map id | id in w.disk :: next.disk[id])
    ensures forall id :: id in next.disk <==> id in mid.disk || id in snapshot
    ensures forall id :: id in next.disk ==> next.disk[id] == if id in mid.disk then mid.disk[id] else snapshot[id]
    ensures mid.disk.Keys == w.disk.Keys
  {
  }

  lemma SameHeld(w: World, next: World, rows: Rows)
    requires next == w.(disk := next.disk)
    ensures AllHeld(w, rows) <==> AllHeld(next, rows)
  {
    HeldSame(w, next);
    hide NewestHeld;
  }

  /** A store is as it should be when its old rows are, and the rows it took over. */
  lemma UnionHeld(w: World, kept: Rows, snapshot: Rows)
    requires RowsKnown(w.issued, kept) && RowsKnown(w.issued, snapshot) && AllHeld(w, kept)
    requires forall id :: id in w.disk <==> id in kept || id in snapshot
    requires forall id :: id in w.disk ==> w.disk[id] == if id in kept then kept[id] else snapshot[id]
    ensures RowsKnown(w.issued, w.disk)
    ensures AllHeld(w, w.disk) <==> AllHeld(w, snapshot - kept.Keys)
  {
    hide Known;
    hide NewestHeld;
    if AllHeld(w, w.disk) {
      forall id | id in snapshot - kept.Keys ensures NewestHeld(w, id, snapshot[id]) {
        assert w.disk[id] == snapshot[id];
      }
    }
    if AllHeld(w, snapshot - kept.Keys) {
      forall id | id in w.disk ensures NewestHeld(w, id, w.disk[id]) {
        if id !in kept { assert id in snapshot - kept.Keys; }
      }
    }
  }

  lemma HeldSame(w: World, next: World)
    requires SameHoldings(w, next) && SameHoldings(next, w)
    ensures forall id, e :: NewestHeld(w, id, e) <==> NewestHeld(next, id, e)
  {
    hide Newest;
    hide NewestHeld;
    forall id, e | NewestHeld(w, id, e) ensures NewestHeld(next, id, e) { HeldKeeps(w, next, id, e, e); }
    forall id, e | NewestHeld(next, id, e) ensures NewestHeld(w, id, e) { HeldKeeps(next, w, id, e, e); }
  }

  lemma OldRowsKeep(w: World, p: Pid, next: World, mid: World)
    requires Inv(w) && Step(w, Action.SaveAccounts(p), next)
    requires mid == w.(disk := map id | id in w.disk :: next.disk[id])
    ensures Inv(mid) && RowsKnown(w.issued, w.processes[p].snapshot)
  {
    var snapshot := w.processes[p].snapshot;
    forall id | id in w.disk
      ensures id in AccountsSaved(w.disk, snapshot, w.clock)
      ensures RowFollows(w, id, AccountsSaved(w.disk, snapshot, w.clock)[id])
    {
      UnitedFollows(w, snapshot, id);
    }
    hide RowFollows;
    hide AccountsSaved;
    DiskKeeps(w, mid);
  }

  lemma UnitedFollows(w: World, snapshot: Rows, id: Id)
    requires RowsKnown(w.issued, snapshot) && id in w.disk
    ensures id in AccountsSaved(w.disk, snapshot, w.clock)
    ensures RowFollows(w, id, AccountsSaved(w.disk, snapshot, w.clock)[id])
  {
    hide Chosen;
    hide NewerOf;
    hide WithCredentialOf;
    if id in snapshot {
      KeptIsChosen(w.disk[id], snapshot[id], w.clock);
      assert Known(w.issued, id, snapshot[id]);
    }
  }

  lemma ProcessesSame(w: World, next: World)
    requires IssuesInv(w) && ProcessesInv(w) && next == w.(disk := next.disk)
    ensures IssuesInv(next) && ProcessesInv(next)
  {
    hide RowsKnown;
    forall q | q in next.processes ensures PhaseInv(next, next.processes[q]) {
      assert PhaseInv(w, next.processes[q]);
    }
  }

  /** Saving a snapshot that brings a removed row back with a spent token lets that token be presented. */
  lemma ReaddedTokenIsPresented(w: World, p: Pid, id: Id) returns (trace: seq<World>, actions: seq<Action>)
    requires p in w.processes && w.processes[p].phase.Idle? && LockFree(w, id)
    requires id in w.processes[p].snapshot && id !in w.disk
    requires Refresh in w.processes[p].snapshot[id] && w.processes[p].snapshot[id][Refresh] in w.spent
    ensures Run(trace, actions) && trace[0] == w && |actions| == 4 && actions[0] == Action.SaveAccounts(p)
    ensures PresentsSpent(trace[3], actions[3]) && trace[3].lost == w.lost
  {
    var w1 := w.(disk := AccountsSaved(w.disk, w.processes[p].snapshot, w.clock));
    RowIsReadded(w.disk, w.processes[p].snapshot, w.clock, id);
    var t2, a2 := StoredSpentIsPresented(w1, p, id);
    assert Step(w, Action.SaveAccounts(p), w1);
    hide Step;
    trace, actions := [w] + t2, [Action.SaveAccounts(p)] + a2;
    assert trace[1] == w1 && forall i :: 0 <= i < 3 ==> Step(t2[i], a2[i], t2[i + 1]);
  }

  lemma RowIsReadded(disk: Rows, snapshot: Rows, now: real, id: Id)
    requires id in snapshot && id !in disk
    ensures id in AccountsSaved(disk, snapshot, now) && AccountsSaved(disk, snapshot, now)[id] == snapshot[id]
  {
  }

  const OLD: Entry := map[Refresh := Str("first"), LastRefreshedAt := Num(1.0)]

  /** A store with one row, of which two processes hold a snapshot. */
  function TwoSnapshots(id: Id): World {
    var process := Process(map[id := OLD], Idle);
    World(map[id := OLD], map[0 := process, 1 := process], {}, map[Str("first") := Issue(id, 1.0)], 10000.0, {})
  }

  lemma TwoSnapshotsStart(id: Id)
    ensures Starts(TwoSnapshots(id)) && LockFree(TwoSnapshots(id), id)
  {
    assert Newest(TwoSnapshots(id), id, OLD);
  }

  /** One process refreshes the row, which is then removed: the other is left with the spent token. */
  lemma RefreshedThenRemoved(id: Id) returns (trace: seq<World>, actions: seq<Action>)
    ensures |actions| == 5 && Run(trace, actions) && Starts(trace[0])
    ensures var w := trace[5];
            && 0 in w.processes && w.processes[0] == Process(map[id := OLD], Idle) && LockFree(w, id)
            && id !in w.disk && OLD[Refresh] in w.spent && w.lost == {}
  {
    TwoSnapshotsStart(id);
    var w0 := TwoSnapshots(id);
    var w1, w2 := SecondTakesTheRow(id);
    var a2: seq<Action> := [Action.AcquireLock(1, id), Action.Reload(1, true, 0.0)];
    hide Starts;
    var t3, a3 := RefreshedFromReady(id, w2);
    hide Step;
    trace, actions := [w0, w1] + t3, a2 + a3;
    assert trace[2] == w2 && actions[0] == a2[0] && actions[1] == a2[1];
    assert forall i :: 0 <= i < 3 ==> Step(t3[i], a3[i], t3[i + 1]);
  }

  lemma SecondTakesTheRow(id: Id) returns (held: World, ready: World)
    ensures Step(TwoSnapshots(id), Action.AcquireLock(1, id), held)
    ensures Step(held, Action.Reload(1, true, 0.0), ready) && SecondReady(id, ready)
  {
    held := WithPhase(TwoSnapshots(id), 1, Holding(id));
    ready := WithPhase(held, 1, Ready(id, OLD));
  }

  /** Process 1 holds the row of `TwoSnapshots` ready to be refreshed. */
  predicate SecondReady(id: Id, w: World) {
    && w.processes == map[0 := Process(map[id := OLD], Idle), 1 := Process(map[id := OLD], Ready(id, OLD))]
    && w.spent == {} && w.issued == map[Str("first") := Issue(id, 1.0)] && w.clock == 10000.0
    && w.lost == {}
  }

  lemma RefreshedFromReady(id: Id, w2: World) returns (trace: seq<World>, actions: seq<Action>)
    requires SecondReady(id, w2)
    ensures |actions| == 3 && Run(trace, actions) && trace[0] == w2
    ensures var w := trace[3];
            && 0 in w.processes && w.processes[0] == Process(map[id := OLD], Idle) && LockFree(w, id)
            && id !in w.disk && OLD[Refresh] in w.spent && w.lost == {}
  {
    var w3 := SecondIsAnswered(id, w2);
    var w4, w5 := AnsweredThenRemoved(w3, 1);
    trace := [w2, w3, w4, w5];
    actions := [Action.Present(1, "", "second", 5000.0, 1.0), Action.Save(1), Action.Edit(map[])];
    hide Step;
    assert Run(trace, actions);
  }

  lemma SecondIsAnswered(id: Id, w: World) returns (next: World)
    requires SecondReady(id, w)
    ensures Step(w, Action.Present(1, "", "second", 5000.0, 1.0), next)
    ensures next.processes.Keys == {0, 1} && next.processes[0] == w.processes[0]
    ensures next.processes[1].phase.Answered? && next.spent == {OLD[Refresh]} && next.lost == {}
  {
    hide Refreshed;
    var answer := Refreshed(OLD, "", "second", 5000.0, 1.0);
    next := WithPhase(WithRow(w, 1, id, answer), 1, Answered(id, answer))
              .(spent := {OLD[Refresh]}, issued := w.issued[Str("second") := Issue(id, 4000.0)]);
    assert PresentStep(w, 1, "", "second", 5000.0, 1.0, next);
  }

  lemma AnsweredThenRemoved(w: World, p: Pid) returns (saved: World, next: World)
    requires p in w.processes && w.processes[p].phase.Answered?
    ensures Step(w, Action.Save(p), saved) && Step(saved, Action.Edit(map[]), next)
    ensures next == WithPhase(w, p, Idle).(disk := map[])
  {
    hide StateSaved;
    saved := WithPhase(w, p, Idle).(disk := StateSaved(w.disk, w.processes[p].snapshot,
                                                        w.processes[p].snapshot.Keys, w.clock));
    next := saved.(disk := map[]);
  }

  /** With a save that brings a removed row back with an older token, a spent token is presented. */
  lemma StaleUnionPresentsSpentToken(id: Id) returns (trace: seq<World>, actions: seq<Action>)
    ensures |actions| == 9 && Run(trace, actions) && Starts(trace[0]) && PresentsSpent(trace[8], actions[8])
    ensures !BringsBackOnlyNewest(trace, actions)
  {
    trace, actions := RefreshedThenRemoved(id);
    var t2, a2 := ReaddedTokenIsPresented(trace[5], 0, id);
    hide Step;
    trace, actions := trace + t2[1..], actions + a2;
    assert trace[5] == t2[0] && forall i :: 0 < i <= 4 ==> trace[5 + i] == t2[i];
    if BringsBackOnlyNewest(trace, actions) { NoSpentTokenIsPresented(trace, actions, 8); }
  }
}
