// agent/run_live.py with agent/ops/state.py: the live loop as a crash-recovery protocol. Memory is lost at a crash or
// an exception, the disk holds the last complete snapshot, the executor may be cut off at any point, and the chain
// moves when a broadcast takes effect, at once or later.
module Protocol {
  import opened Types
  import opened Money
  import opened Core

  // ------------------------------------------------------------ disk

  datatype File = Absent | Torn | Whole(state: Ledger)

  /** The committed state file and the temp file beside it. */
  datatype Disk = Disk(committed: File, temp: File)

  // ------------------------------------------------------------ control

  /** Why the state is being written. */
  datatype Purpose = Pausing | Recovering(p: Pending) | Staging(p: Pending) | Finishing

  /** Temp file not opened, opened, complete. */
  datatype Phase = Unopened | Open | Complete

  datatype Pc = Down
              | AtTop
              | SyncDone
              | MarkedNow
              | Writing(purpose: Purpose, phase: Phase, snapshot: Ledger)
              | Staged(p: Pending)
              | Sent(p: Pending, executed: bool)
              | Booked

  /** What happened, in order; a sync records what it read and the memory it found, a decision the memory it used. */
  datatype Event = ESync(bals: seq<Balance>, found: Ledger, price: Prices, now: real)
                 | ESettle(after: seq<Balance>)
                 | EDecide(mem: Ledger)
                 | EBroadcast(p: Pending, durable: File, after: seq<Balance>)
                 | ERecover(p: Pending)
                 | EWrite(state: Ledger)
                 | EFinal
                 | ECrash

  /** What a loop is started with; without a wallet address, walletSet, nothing is reconciled. */
  datatype Env = Env(walletSet: bool, seedNav: real, quotes: seq<Token>, genesis: seq<Balance>)

  /** A live loop: control, memory, quotes, disk and the wallet on chain. */
  datatype Loop = Loop(env: Env, pc: Pc, mem: Ledger, price: Prices, disk: Disk, wallet: seq<Balance>,
                       events: seq<Event>)

  /** Every choice the environment makes; a settlement is any movement of the wallet, such as a late swap. */
  datatype Action = Start
                  | SyncOk(quotedAt: Prices, now: real)
                  | SyncFail
                  | NoSync(quotedAt: Prices)
                  | MarkState
                  | Recover
                  | DecideNothing
                  | DecideTrade(side: Side, fromToken: Token, toToken: Token, amountUsd: real)
                  | WriteStep
                  | Broadcast(executed: bool, after: seq<Balance>)
                  | Settle(after: seq<Balance>)
                  | Book(now: real)
                  | Finish
                  | Crash

  const FRESH := Ledger([], 0.0, 0.0, 0.0, 0.0, 0, 0, 0, None)

  /** load, then the seed for an absent high-water mark; a torn file cannot be loaded. */
  function Loaded(s: Loop): Ledger {
    var l := if s.disk.committed.Whole? then s.disk.committed.state else FRESH;
    if l.hwm == 0.0 then l.(hwm := s.env.seedNav) else l
  }

  /** One step of save: open the temp file, complete it, rename it over the committed one. */
  function Saved(d: Disk, phase: Phase, snapshot: Ledger): Disk {
    match phase
    case Unopened => d.(temp := Torn)
    case Open => d.(temp := Whole(snapshot))
    case Complete => Disk(d.temp, Absent)
  }

  /** What happens once the rename is done. */
  function Written(s: Loop, purpose: Purpose, snapshot: Ledger): Loop {
    match purpose
    case Pausing => s.(pc := AtTop, events := s.events + [EWrite(snapshot)])
    case Recovering(p) => s.(pc := AtTop, events := s.events + [EWrite(snapshot), ERecover(p)])
    case Staging(p) => s.(pc := Staged(p), mem := s.mem.(intentSeq := p.id), events := s.events + [EWrite(snapshot)])
    case Finishing => s.(pc := AtTop, events := s.events + [EWrite(snapshot), EFinal])
  }

  function WriteNext(s: Loop): Loop
    requires s.pc.Writing?
  {
    var s' := s.(disk := Saved(s.disk, s.pc.phase, s.pc.snapshot));
    match s.pc.phase
    case Unopened => s'.(pc := s.pc.(phase := Open))
    case Open => s'.(pc := s.pc.(phase := Complete))
    case Complete => Written(s', s.pc.purpose, s.pc.snapshot)
  }

  function ToSide(p: Pending): Decision { Decision(p.side, "bsc", p.fromToken, p.toToken, p.amountUsd) }

  function Next(s: Loop, a: Action): Loop {
    match a
    case Crash => s.(pc := Down, mem := FRESH, events := s.events + [ECrash])
    case Start =>
      if s.pc == Down && s.disk.committed != Torn then s.(pc := AtTop, mem := Loaded(s)) else s
    case Settle(after) => s.(wallet := after, events := s.events + [ESettle(after)])
    case SyncOk(quotedAt, now) =>
      if s.pc == AtTop && s.env.walletSet then
        s.(pc := SyncDone, price := quotedAt, mem := Synced(s.mem, s.wallet, quotedAt, s.env.quotes, now),
           events := s.events + [ESync(s.wallet, s.mem, quotedAt, now)])
      else s
    case SyncFail =>
      if s.pc == AtTop && s.env.walletSet then s.(pc := Writing(Pausing, Unopened, s.mem)) else s
    case NoSync(quotedAt) =>
      if s.pc == AtTop && !s.env.walletSet then
        s.(pc := SyncDone, price := quotedAt,
           mem := if s.mem.stable == 0.0 && s.mem.positions == [] then s.mem.(stable := s.env.seedNav) else s.mem)
      else s
    case MarkState =>
      if s.pc == SyncDone then s.(pc := MarkedNow, mem := Marked(s.mem, s.price)) else s
    case Recover =>
      if s.pc == MarkedNow && s.mem.pending.Some? then
        var cleared := s.mem.(pending := None);
        s.(pc := Writing(Recovering(s.mem.pending.value), Unopened, cleared), mem := cleared)
      else s
    case DecideNothing =>
      if s.pc == MarkedNow && s.mem.pending.None? then s.(pc := Booked, events := s.events + [EDecide(s.mem)]) else s
    case DecideTrade(side, fromToken, toToken, amountUsd) =>
      if s.pc == MarkedNow && s.mem.pending.None? then
        var p := Pending(s.mem.intentSeq + 1, side, fromToken, toToken, amountUsd);
        s.(pc := Writing(Staging(p), Unopened, s.mem.(intentSeq := p.id, pending := Some(p))),
           events := s.events + [EDecide(s.mem)])
      else s
    case WriteStep =>
      if s.pc.Writing? then WriteNext(s) else s
    case Broadcast(executed, after) =>
      if s.pc.Staged? then
        s.(pc := Sent(s.pc.p, executed), wallet := after,
           events := s.events + [EBroadcast(s.pc.p, s.disk.committed, after)])
      else s
    case Book(now) =>
      if s.pc.Sent? then
        s.(pc := Booked,
           mem := if s.pc.executed
                  then Filled(s.mem, ToSide(s.pc.p), s.pc.p.amountUsd, s.price, now)
                         .(lastTrade := now, trades := s.mem.trades + 1)
                  else s.mem)
      else s
    case Finish =>
      if s.pc == Booked then
        var m := Marked(s.mem, s.price);
        s.(pc := Writing(Finishing, Unopened, m), mem := m)
      else s
  }

  function Exec(s: Loop, acts: seq<Action>): Loop {
    if acts == [] then s else Next(Exec(s, acts[..|acts| - 1]), acts[|acts| - 1])
  }

  /** The loop has not started; the state file is absent or a snapshot whose peak is at least its NAV. */
  ghost predicate Init(s: Loop) {
    && s.pc == Down && s.events == [] && s.wallet == s.env.genesis && s.env.seedNav >= 0.0
    && s.disk.committed != Torn
    && (s.disk.committed.Whole? ==> s.disk.committed.state.hwm >= Max(0.0, s.disk.committed.state.nav))
  }

  // ------------------------------------------------------------ reading the history

  /** The broadcast whose tick has neither been written up nor recovered. */
  function Unsettled(es: seq<Event>): Option<Pending> {
    if es == [] then None
    else match es[|es| - 1]
      case EBroadcast(p, _, _) => Some(p)
      case ERecover(_) => None
      case EFinal => None
      case _ => Unsettled(es[..|es| - 1])
  }

  /** The wallet after a history. */
  function WalletAfter(genesis: seq<Balance>, es: seq<Event>): seq<Balance> {
    if es == [] then genesis
    else match es[|es| - 1]
      case EBroadcast(_, _, after) => after
      case ESettle(after) => after
      case _ => WalletAfter(genesis, es[..|es| - 1])
  }

  /** The sync with nothing but settlements after it. */
  function FreshSync(es: seq<Event>): (e: Option<Event>)
    ensures e.Some? ==> e.value.ESync?
  {
    if es == [] then None
    else match es[|es| - 1]
      case ESync(_, _, _, _) => Some(es[|es| - 1])
      case ESettle(_) => FreshSync(es[..|es| - 1])
      case _ => None
  }

  /** The memory a sync leaves. */
  function Reread(e: Event, quotes: seq<Token>): Ledger
    requires e.ESync?
  {
    Synced(e.found, e.bals, e.price, quotes, e.now)
  }

  /** Was the last thing a decision, but for writes and settlements? */
  function JustDecided(es: seq<Event>): bool {
    if es == [] then false
    else match es[|es| - 1]
      case EDecide(_) => true
      case EWrite(_) => JustDecided(es[..|es| - 1])
      case ESettle(_) => JustDecided(es[..|es| - 1])
      case _ => false
  }

  /** Has the chain been reconciled since the last broadcast, recovery, final write or crash? */
  function SyncedSince(es: seq<Event>): bool {
    if es == [] then false
    else match es[|es| - 1]
      case ESync(_, _, _, _) => true
      case EBroadcast(_, _, _) => false
      case ERecover(_) => false
      case EFinal => false
      case ECrash => false
      case _ => SyncedSince(es[..|es| - 1])
  }

  /** Sequence number of the last broadcast. */
  function LastId(es: seq<Event>): Option<int> {
    if es == [] then None
    else if es[|es| - 1].EBroadcast? then Some(es[|es| - 1].p.id)
    else LastId(es[..|es| - 1])
  }

  /** Largest high-water mark or NAV ever written. */
  function PeakWritten(es: seq<Event>): real {
    if es == [] then 0.0
    else
      var before := PeakWritten(es[..|es| - 1]);
      if es[|es| - 1].EWrite? then Max(before, Max(es[|es| - 1].state.hwm, es[|es| - 1].state.nav)) else before
  }

  predicate Below(id: Option<int>, n: int) { id.Some? ==> id.value < n }

  predicate AtMost(id: Option<int>, n: int) { Below(id, n + 1) }

  /** What each event promises about the history before it. */
  ghost predicate Promise(env: Env, before: seq<Event>, e: Event) {
    match e
    case ESync(bals, _, _, _) => bals == WalletAfter(env.genesis, before)
    case EDecide(mem) =>
      && Unsettled(before) == None
      && (env.walletSet ==>
            FreshSync(before).Some?
            && mem == Marked(Reread(FreshSync(before).value, env.quotes), FreshSync(before).value.price))
    case EBroadcast(p, durable, _) =>
      && Below(LastId(before), p.id)
      && durable.Whole? && durable.state.pending == Some(p) && durable.state.intentSeq == p.id
      && Unsettled(before) == None && JustDecided(before)
    case ERecover(p) =>
      && (Unsettled(before) == None || Unsettled(before) == Some(p))
      && (env.walletSet ==> SyncedSince(before))
    case EWrite(l) => l.hwm >= PeakWritten(before) && l.hwm >= l.nav
    case _ => true
  }

  ghost predicate PromiseAt(env: Env, es: seq<Event>, i: nat)
    requires i < |es|
  {
    Promise(env, es[..i], es[i])
  }

  ghost predicate KeepsPromises(env: Env, es: seq<Event>) {
    forall i :: 0 <= i < |es| ==> PromiseAt(env, es, i)
  }

  // ------------------------------------------------------------ the invariant

  function DurableId(d: Disk): int { if d.committed.Whole? then d.committed.state.intentSeq else 0 }

  ghost predicate DiskOk(s: Loop) {
    && s.env.seedNav >= 0.0 && s.wallet == WalletAfter(s.env.genesis, s.events)
    && s.disk.committed != Torn
    && AtMost(LastId(s.events), DurableId(s.disk))
    && (Unsettled(s.events).Some? ==>
          s.disk.committed.Whole? && s.disk.committed.state.pending == Unsettled(s.events))
    && (if s.disk.committed.Whole?
        then s.disk.committed.state.hwm >= Max(s.disk.committed.state.nav, PeakWritten(s.events))
        else PeakWritten(s.events) == 0.0)
    && PeakWritten(s.events) >= 0.0
  }

  /** Memory agrees with the history: a broadcast that is unsettled is still pending. */
  ghost predicate MemOk(s: Loop) {
    && s.mem.hwm >= PeakWritten(s.events)
    && AtMost(LastId(s.events), s.mem.intentSeq)
  }

  ghost predicate StillPending(s: Loop) {
    Unsettled(s.events).Some? ==> s.mem.pending == Unsettled(s.events)
  }

  ghost predicate SyncedIfWallet(s: Loop) { s.env.walletSet ==> SyncedSince(s.events) }

  /** Memory is what the last sync left, marked or not yet, and nothing but settlements came since. */
  ghost predicate OnWallet(s: Loop, marked: bool) {
    s.env.walletSet ==>
      && FreshSync(s.events).Some?
      && s.price == FreshSync(s.events).value.price
      && s.mem == var l := Reread(FreshSync(s.events).value, s.env.quotes); if marked then Marked(l, s.price) else l
  }

  /** A snapshot may be written now: it moves no number back. */
  ghost predicate Writable(s: Loop, snapshot: Ledger) {
    snapshot.hwm >= Max(snapshot.nav, PeakWritten(s.events)) && AtMost(LastId(s.events), snapshot.intentSeq)
  }

  ghost predicate WritingOk(s: Loop)
    requires s.pc.Writing?
  {
    var snapshot := s.pc.snapshot;
    && Writable(s, snapshot)
    && (s.pc.phase == Complete ==> s.disk.temp == Whole(snapshot))
    && match s.pc.purpose
       case Pausing => snapshot == s.mem && StillPending(s)
       case Recovering(p) =>
         && snapshot == s.mem && s.mem.pending == None && SyncedIfWallet(s)
         && (Unsettled(s.events) == None || Unsettled(s.events) == Some(p))
       case Staging(p) =>
         && snapshot == s.mem.(intentSeq := p.id, pending := Some(p)) && s.mem.hwm >= s.mem.nav
         && Below(LastId(s.events), p.id) && Unsettled(s.events) == None && JustDecided(s.events)
         && s.mem.pending == None
       case Finishing => snapshot == s.mem && s.mem.pending == None
  }

  ghost predicate PcOk(s: Loop) {
    match s.pc
    case Down => true
    case AtTop => StillPending(s) && s.mem.hwm >= s.mem.nav
    case SyncDone => StillPending(s) && SyncedIfWallet(s) && OnWallet(s, false)
    case MarkedNow => StillPending(s) && SyncedIfWallet(s) && OnWallet(s, true) && s.mem.hwm >= s.mem.nav
    case Writing(_, _, _) => WritingOk(s)
    case Staged(p) =>
      && s.disk.committed.Whole? && s.disk.committed.state.pending == Some(p)
      && s.disk.committed.state.intentSeq == p.id
      && Below(LastId(s.events), p.id) && Unsettled(s.events) == None && JustDecided(s.events)
      && s.mem.intentSeq == p.id && s.mem.pending == None
    case Sent(p, _) => s.mem.pending == None
    case Booked => s.mem.pending == None
  }

  ghost predicate Inv(s: Loop) {
    KeepsPromises(s.env, s.events) && DiskOk(s) && (s.pc != Down ==> MemOk(s)) && PcOk(s)
  }

  // ------------------------------------------------------------ every step keeps it

  lemma Snoc(es: seq<Event>, e: Event)
    ensures (es + [e])[..|es|] == es && (es + [e])[|es|] == e
  {
  }

  lemma KeptSnoc(env: Env, es: seq<Event>, e: Event)
    requires KeepsPromises(env, es) && Promise(env, es, e)
    ensures KeepsPromises(env, es + [e])
  {
    forall i | 0 <= i < |es + [e]| ensures PromiseAt(env, es + [e], i) {
      if i < |es| {
        assert PromiseAt(env, es, i) && (es + [e])[..i] == es[..i];
      } else {
        Snoc(es, e);
      }
    }
  }

  lemma InitInv(s: Loop)
    requires Init(s)
    ensures Inv(s)
  {
  }

  lemma StartStep(s: Loop)
    requires Inv(s)
    ensures Inv(Next(s, Start))
  {
  }

  lemma CrashStep(s: Loop)
    requires Inv(s)
    ensures Inv(Next(s, Crash))
  {
    KeptSnoc(s.env, s.events, ECrash);
    Snoc(s.events, ECrash);
  }

  /** What a sync adds to the history. */
  lemma SyncRecorded(s: Loop, e: Event)
    requires Inv(s) && e.ESync? && e.bals == s.wallet
    ensures var es := s.events + [e];
            && KeepsPromises(s.env, es) && Unsettled(es) == Unsettled(s.events) && LastId(es) == LastId(s.events)
            && SyncedSince(es) && FreshSync(es) == Some(e) && PeakWritten(es) == PeakWritten(s.events)
            && WalletAfter(s.env.genesis, es) == WalletAfter(s.env.genesis, s.events)
  {
    KeptSnoc(s.env, s.events, e);
    Snoc(s.events, e);
  }

  lemma SyncStep(s: Loop, quotedAt: Prices, now: real)
    requires Inv(s)
    ensures Inv(Next(s, SyncOk(quotedAt, now)))
  {
    if s.pc == AtTop && s.env.walletSet {
      SyncRecorded(s, ESync(s.wallet, s.mem, quotedAt, now));
      SyncKeepsMem(s, quotedAt, now);
    }
  }

  lemma SyncKeepsMem(s: Loop, quotedAt: Prices, now: real)
    ensures var l := Synced(s.mem, s.wallet, quotedAt, s.env.quotes, now);
            l.hwm == s.mem.hwm && l.intentSeq == s.mem.intentSeq && l.pending == s.mem.pending
  {
  }

  lemma UnsyncedStep(s: Loop, a: Action)
    requires Inv(s) && (a.SyncFail? || a.NoSync?)
    ensures Inv(Next(s, a))
  {
  }

  lemma MarkStep(s: Loop)
    requires Inv(s)
    ensures Inv(Next(s, MarkState))
  {
  }

  lemma RecoverStep(s: Loop)
    requires Inv(s)
    ensures Inv(Next(s, Recover))
  {
  }

  /** What a decision adds to the history. */
  lemma Decided(s: Loop)
    requires Inv(s) && s.pc == MarkedNow && s.mem.pending.None?
    ensures var es := s.events + [EDecide(s.mem)];
            && KeepsPromises(s.env, es) && Unsettled(es) == None && LastId(es) == LastId(s.events) && JustDecided(es)
            && PeakWritten(es) == PeakWritten(s.events)
            && WalletAfter(s.env.genesis, es) == WalletAfter(s.env.genesis, s.events)
  {
    KeptSnoc(s.env, s.events, EDecide(s.mem));
    Snoc(s.events, EDecide(s.mem));
  }

  lemma DecideStep(s: Loop, a: Action)
    requires Inv(s) && (a.DecideNothing? || a.DecideTrade?)
    ensures Inv(Next(s, a))
  {
    if s.pc == MarkedNow && s.mem.pending.None? {
      Decided(s);
    }
  }

  lemma SettleStep(s: Loop, after: seq<Balance>)
    requires Inv(s)
    ensures Inv(Next(s, Settle(after)))
  {
    KeptSnoc(s.env, s.events, ESettle(after));
    Snoc(s.events, ESettle(after));
  }

  lemma BroadcastStep(s: Loop, executed: bool, after: seq<Balance>)
    requires Inv(s)
    ensures Inv(Next(s, Broadcast(executed, after)))
  {
    if s.pc.Staged? {
      var e := EBroadcast(s.pc.p, s.disk.committed, after);
      KeptSnoc(s.env, s.events, e);
      Snoc(s.events, e);
    }
  }

  lemma BookStep(s: Loop, a: Action)
    requires Inv(s) && (a.Book? || a.Finish?)
    ensures Inv(Next(s, a))
  {
  }

  lemma TempStep(s: Loop)
    requires Inv(s) && s.pc.Writing? && s.pc.phase != Complete
    ensures Inv(Next(s, WriteStep))
  {
  }

  /** The rename puts a writable snapshot on disk and records it. */
  lemma RenameStep(s: Loop)
    requires Inv(s) && s.pc.Writing? && s.pc.phase == Complete
    ensures var es := s.events + [EWrite(s.pc.snapshot)];
            && KeepsPromises(s.env, es) && Unsettled(es) == Unsettled(s.events) && LastId(es) == LastId(s.events)
            && SyncedSince(es) == SyncedSince(s.events) && JustDecided(es) == JustDecided(s.events)
            && WalletAfter(s.env.genesis, es) == WalletAfter(s.env.genesis, s.events)
            && PeakWritten(es) == Max(PeakWritten(s.events), s.pc.snapshot.hwm)
            && Saved(s.disk, Complete, s.pc.snapshot).committed == Whole(s.pc.snapshot)
  {
    KeptSnoc(s.env, s.events, EWrite(s.pc.snapshot));
    Snoc(s.events, EWrite(s.pc.snapshot));
  }

  /** Closing a tick, by recovery or final write. */
  lemma CloseTick(env: Env, es: seq<Event>, e: Event)
    requires KeepsPromises(env, es) && Promise(env, es, e) && (e.ERecover? || e.EFinal?)
    ensures KeepsPromises(env, es + [e]) && Unsettled(es + [e]) == None && LastId(es + [e]) == LastId(es)
    ensures PeakWritten(es + [e]) == PeakWritten(es)
            && WalletAfter(env.genesis, es + [e]) == WalletAfter(env.genesis, es)
  {
    KeptSnoc(env, es, e);
    Snoc(es, e);
  }

  lemma PlainWriteStep(s: Loop)
    requires Inv(s) && s.pc.Writing? && s.pc.phase == Complete
    requires s.pc.purpose == Pausing || s.pc.purpose.Staging?
    ensures Inv(Next(s, WriteStep))
  {
    RenameStep(s);
  }

  /** A tick that ends with memory written whole leaves the loop at the top. */
  lemma ClosedAtTop(s: Loop, t: Loop)
    requires Inv(s) && s.pc.Writing? && s.pc.snapshot == s.mem
    requires t.env == s.env && t.mem == s.mem && t.pc == AtTop && t.wallet == WalletAfter(t.env.genesis, t.events)
    requires KeepsPromises(t.env, t.events) && Unsettled(t.events) == None && LastId(t.events) == LastId(s.events)
    requires PeakWritten(t.events) == Max(PeakWritten(s.events), s.mem.hwm)
    requires t.disk.committed == Whole(s.mem)
    ensures Inv(t)
  {
  }

  lemma RecoverWriteStep(s: Loop)
    requires Inv(s) && s.pc.Writing? && s.pc.phase == Complete && s.pc.purpose.Recovering?
    ensures Inv(Next(s, WriteStep))
  {
    RenameStep(s);
    var es, e := s.events + [EWrite(s.pc.snapshot)], ERecover(s.pc.purpose.p);
    CloseTick(s.env, es, e);
    assert s.events + [EWrite(s.pc.snapshot), e] == es + [e];
    ClosedAtTop(s, Next(s, WriteStep));
  }

  lemma FinalWriteStep(s: Loop)
    requires Inv(s) && s.pc.Writing? && s.pc.phase == Complete && s.pc.purpose == Finishing
    ensures Inv(Next(s, WriteStep))
  {
    RenameStep(s);
    var es := s.events + [EWrite(s.pc.snapshot)];
    CloseTick(s.env, es, EFinal);
    assert s.events + [EWrite(s.pc.snapshot), EFinal] == es + [EFinal];
    ClosedAtTop(s, Next(s, WriteStep));
  }

  lemma WriteStepInv(s: Loop)
    requires Inv(s)
    ensures Inv(Next(s, WriteStep))
  {
    if s.pc.Writing? {
      if s.pc.phase != Complete {
        TempStep(s);
      } else if s.pc.purpose.Recovering? {
        RecoverWriteStep(s);
      } else if s.pc.purpose == Finishing {
        FinalWriteStep(s);
      } else {
        PlainWriteStep(s);
      }
    }
  }

  lemma StepInv(s: Loop, a: Action)
    requires Inv(s)
    ensures Inv(Next(s, a))
  {
    match a
    case Start => StartStep(s);
    case Crash => CrashStep(s);
    case SyncOk(quotedAt, now) => SyncStep(s, quotedAt, now);
    case Settle(after) => SettleStep(s, after);
    case SyncFail => UnsyncedStep(s, a);
    case NoSync(_) => UnsyncedStep(s, a);
    case MarkState => MarkStep(s);
    case Recover => RecoverStep(s);
    case DecideNothing => DecideStep(s, a);
    case DecideTrade(_, _, _, _) => DecideStep(s, a);
    case WriteStep => WriteStepInv(s);
    case Broadcast(executed, after) => BroadcastStep(s, executed, after);
    case Book(_) => BookStep(s, a);
    case Finish => BookStep(s, a);
  }

  lemma EnvStays(s: Loop, a: Action)
    ensures Next(s, a).env == s.env
  {
  }

  /** The invariant holds after any sequence of steps, crashes and restarts. */
  lemma {:induction false} RunInv(s: Loop, acts: seq<Action>)
    requires Init(s)
    ensures Inv(Exec(s, acts)) && Exec(s, acts).env == s.env
  {
    if acts == [] {
      InitInv(s);
    } else {
      var t, a := Exec(s, acts[..|acts| - 1]), acts[|acts| - 1];
      RunInv(s, acts[..|acts| - 1]);
      StepInv(t, a);
      EnvStays(t, a);
    }
  }

  // ------------------------------------------------------------ what the history says

  /** Every event of every run keeps its promise. */
  lemma RunKept(s: Loop, acts: seq<Action>)
    requires Init(s)
    ensures KeepsPromises(s.env, Exec(s, acts).events)
  {
    RunInv(s, acts);
  }

  lemma WritesKeepThePeak(env: Env, es: seq<Event>, i: nat, j: nat)
    requires KeepsPromises(env, es) && i <= j < |es| && es[i].EWrite? && es[j].EWrite?
    ensures es[i].state.hwm <= es[j].state.hwm && es[i].state.nav <= es[j].state.hwm
  {
    assert PromiseAt(env, es, j);
    if i < j {
      PeakCoversWrites(es[..j], i);
    }
  }

  lemma {:induction false} SyncWitness(es: seq<Event>, i: nat) returns (k: nat)
    requires i < |es| && SyncedSince(es)
    requires es[i].EBroadcast? || es[i].ERecover? || es[i].EFinal?
    ensures i < k < |es| && es[k].ESync?
  {
    var n := |es| - 1;
    if es[n].ESync? {
      k := n;
    } else {
      k := SyncWitness(es[..n], i);
    }
  }

  lemma {:induction false} IdsBelowLast(env: Env, es: seq<Event>, i: nat)
    requires KeepsPromises(env, es) && i < |es| && es[i].EBroadcast?
    ensures LastId(es).Some? && es[i].p.id <= LastId(es).value
  {
    var n := |es| - 1;
    if i < n {
      KeptPrefix(env, es, n);
      IdsBelowLast(env, es[..n], i);
      assert PromiseAt(env, es, n);
    }
  }

  lemma KeptPrefix(env: Env, es: seq<Event>, n: nat)
    requires KeepsPromises(env, es) && n <= |es|
    ensures KeepsPromises(env, es[..n])
  {
    forall i | 0 <= i < n ensures PromiseAt(env, es[..n], i) {
      assert PromiseAt(env, es, i) && es[..n][..i] == es[..i];
    }
  }

  lemma {:induction false} PeakCoversWrites(es: seq<Event>, i: nat)
    requires i < |es| && es[i].EWrite?
    ensures es[i].state.hwm <= PeakWritten(es) && es[i].state.nav <= PeakWritten(es)
  {
    var n := |es| - 1;
    if i < n {
      PeakCoversWrites(es[..n], i);
    }
  }

  /** With no final write since, a broadcast is either still unsettled or was recovered. */
  lemma {:induction false} UnsettledOrRecovered(env: Env, es: seq<Event>, i: nat)
    requires KeepsPromises(env, es) && i < |es| && es[i].EBroadcast?
    requires forall m :: i < m < |es| ==> !es[m].EFinal?
    ensures Unsettled(es) == Some(es[i].p) || exists k :: i < k < |es| && es[k] == ERecover(es[i].p)
  {
    var n := |es| - 1;
    if i < n {
      KeptPrefix(env, es, n);
      assert PromiseAt(env, es, n);
      UnsettledOrRecovered(env, es[..n], i);
      if Unsettled(es[..n]) != Some(es[i].p) {
        var k :| i < k < n && es[..n][k] == ERecover(es[i].p);
        assert es[k] == ERecover(es[i].p);
      }
    }
  }

  // ------------------------------------------------------------ the theorems, over every run

  /** Every broadcast has its own, strictly larger sequence number, however often the loop crashes and restarts. */
  lemma BroadcastIdsIncrease(s: Loop, acts: seq<Action>, i: nat, j: nat)
    requires Init(s)
    requires var es := Exec(s, acts).events; i < j < |es| && es[i].EBroadcast? && es[j].EBroadcast?
    ensures var es := Exec(s, acts).events; es[i].p.id < es[j].p.id
  {
    RunKept(s, acts);
    var es := Exec(s, acts).events;
    KeptPrefix(s.env, es, j);
    IdsBelowLast(s.env, es[..j], i);
    assert PromiseAt(s.env, es, j);
  }

  /** At the moment of every broadcast the committed file is whole and holds exactly that intent as pending. */
  lemma PendingIsDurable(s: Loop, acts: seq<Action>, i: nat)
    requires Init(s)
    requires var es := Exec(s, acts).events; i < |es| && es[i].EBroadcast?
    ensures var e := Exec(s, acts).events[i];
            e.durable.Whole? && e.durable.state.pending == Some(e.p) && e.durable.state.intentSeq == e.p.id
  {
    RunKept(s, acts);
    assert PromiseAt(s.env, Exec(s, acts).events, i);
  }

  /**
   * With a wallet configured, every decision of every run is taken on the wallet: the last thing before it, but for
   * movements of the chain, is a sync that read the wallet as it then was, and the memory it decides on is exactly what
   * that sync makes of it, marked.
   */
  lemma DecidesOnTheWallet(s: Loop, acts: seq<Action>, j: nat) returns (k: nat)
    requires Init(s) && s.env.walletSet
    requires var es := Exec(s, acts).events; j < |es| && es[j].EDecide?
    ensures var es := Exec(s, acts).events;
            && k < j && es[k].ESync? && (forall m :: k < m < j ==> es[m].ESettle?)
            && es[k].bals == WalletAfter(s.env.genesis, es[..k])
            && es[j].mem == Marked(Reread(es[k], s.env.quotes), es[k].price)
  {
    RunKept(s, acts);
    var es := Exec(s, acts).events;
    assert PromiseAt(s.env, es, j);
    k := FreshSyncAt(es, j);
    assert PromiseAt(s.env, es, k);
  }

  lemma {:induction false} FreshSyncAt(es: seq<Event>, j: nat) returns (k: nat)
    requires j <= |es| && FreshSync(es[..j]).Some?
    ensures k < j && es[k] == FreshSync(es[..j]).value && forall m :: k < m < j ==> es[m].ESettle?
  {
    assert es[..j][..j - 1] == es[..j - 1];
    if es[j - 1].ESync? {
      k := j - 1;
    } else {
      k := FreshSyncAt(es, j - 1);
    }
  }

  lemma {:induction false} DecisionBefore(es: seq<Event>, j: nat) returns (d: nat)
    requires j <= |es| && JustDecided(es[..j])
    ensures d < j && es[d].EDecide? && forall m :: d < m < j ==> es[m].EWrite? || es[m].ESettle?
  {
    assert es[..j][..j - 1] == es[..j - 1];
    if es[j - 1].EDecide? {
      d := j - 1;
    } else {
      d := DecisionBefore(es, j - 1);
    }
  }

  /**
   * With a wallet configured, a reconcile separates any two broadcasts: every broadcast comes of a decision with
   * nothing but writes and settlements between, and that decision of a sync with nothing but settlements between.
   */
  lemma ReconcileSeparatesBroadcasts(s: Loop, acts: seq<Action>, i: nat, j: nat) returns (k: nat, d: nat)
    requires Init(s) && s.env.walletSet
    requires var es := Exec(s, acts).events; i < j < |es| && es[i].EBroadcast? && es[j].EBroadcast?
    ensures var es := Exec(s, acts).events;
            && i < k < d < j && es[k].ESync? && es[d].EDecide?
            && (forall m :: k < m < d ==> es[m].ESettle?)
            && (forall m :: d < m < j ==> es[m].EWrite? || es[m].ESettle?)
  {
    RunKept(s, acts);
    k, d := SyncThenDecision(s.env, Exec(s, acts).events, i, j);
  }

  lemma SyncThenDecision(env: Env, es: seq<Event>, i: nat, j: nat) returns (k: nat, d: nat)
    requires KeepsPromises(env, es) && env.walletSet && i < j < |es| && es[i].EBroadcast? && es[j].EBroadcast?
    ensures i < k < d < j && es[k].ESync? && es[d].EDecide?
    ensures (forall m :: k < m < d ==> es[m].ESettle?) && forall m :: d < m < j ==> es[m].EWrite? || es[m].ESettle?
  {
    assert PromiseAt(env, es, j);
    d := DecisionBefore(es, j);
    k := SyncBeforeDecision(env, es, d);
  }

  /**
   * If no final write follows a broadcast, because the loop died in between, then before the next decision a whole tick
   * is spent on recovering that very intent; with a wallet configured the chain is reconciled before and after.
   */
  lemma LostTickIsSkipped(s: Loop, acts: seq<Action>, i: nat, j: nat) returns (a: nat, k: nat, b: nat)
    requires Init(s)
    requires var es := Exec(s, acts).events;
             i < j < |es| && es[i].EBroadcast? && es[j].EDecide? && forall m :: i < m < j ==> !es[m].EFinal?
    ensures var es := Exec(s, acts).events;
            && i < k < j && es[k] == ERecover(es[i].p)
            && (s.env.walletSet ==> i < a < k < b < j && es[a].ESync? && es[b].ESync?)
  {
    RunKept(s, acts);
    var es := Exec(s, acts).events;
    k := RecoveryBefore(s.env, es, i, j);
    a, b := 0, 0;
    if s.env.walletSet {
      a := SyncBeforeRecovery(s.env, es, i, k);
      b := SyncBeforeDecision(s.env, es, j);
    }
  }

  /** The recovery of a broadcast without a final write, before the next decision. */
  lemma RecoveryBefore(env: Env, es: seq<Event>, i: nat, j: nat) returns (k: nat)
    requires KeepsPromises(env, es) && i < j < |es| && es[i].EBroadcast? && es[j].EDecide?
    requires forall m :: i < m < j ==> !es[m].EFinal?
    ensures i < k < j && es[k] == ERecover(es[i].p)
  {
    assert PromiseAt(env, es, j);
    KeptPrefix(env, es, j);
    UnsettledOrRecovered(env, es[..j], i);
    k :| i < k < j && es[..j][k] == ERecover(es[i].p);
  }

  lemma SyncBeforeDecision(env: Env, es: seq<Event>, j: nat) returns (b: nat)
    requires KeepsPromises(env, es) && env.walletSet && j < |es| && es[j].EDecide?
    ensures b < j && es[b].ESync? && forall m :: b < m < j ==> es[m].ESettle?
  {
    assert PromiseAt(env, es, j);
    b := FreshSyncAt(es, j);
  }

  lemma SyncBeforeRecovery(env: Env, es: seq<Event>, i: nat, k: nat) returns (a: nat)
    requires KeepsPromises(env, es) && env.walletSet && i < k < |es| && es[i].EBroadcast? && es[k].ERecover?
    ensures i < a < k && es[a].ESync?
  {
    assert PromiseAt(env, es, k);
    a := SyncWitness(es[..k], i);
  }

  /** The persisted high-water mark never decreases and is never under any NAV persisted so far. */
  lemma PersistedPeakNeverFalls(s: Loop, acts: seq<Action>, i: nat, j: nat)
    requires Init(s)
    requires var es := Exec(s, acts).events; i <= j < |es| && es[i].EWrite? && es[j].EWrite?
    ensures var es := Exec(s, acts).events;
            es[i].state.hwm <= es[j].state.hwm && es[i].state.nav <= es[j].state.hwm
  {
    RunKept(s, acts);
    WritesKeepThePeak(s.env, Exec(s, acts).events, i, j);
  }

  /** A crash at any step of a save leaves the committed file whole or never written, so a restart can always load. */
  lemma AlwaysLoadable(s: Loop, acts: seq<Action>)
    requires Init(s)
    ensures Exec(s, acts).disk.committed != Torn
    ensures Next(Exec(s, acts + [Crash]), Start).pc == AtTop
  {
    RunInv(s, acts);
    assert (acts + [Crash])[..|acts|] == acts;
  }

  /**
   * A failed read of the chain holds the tick: the loop comes back to its top with memory, prices and wallet as they
   * were, the state file holding exactly that memory, and nothing but that write added to the history.
   */
  lemma FailedSyncChangesNothing(s: Loop)
    requires s.pc == AtTop && s.env.walletSet
    ensures Exec(s, [SyncFail, WriteStep, WriteStep, WriteStep])
            == s.(disk := Disk(Whole(s.mem), Absent), events := s.events + [EWrite(s.mem)])
  {
    ExecSnoc(s, [], SyncFail);
    var held := [] + [SyncFail];
    WriteThrough(s, held);
    assert held + [WriteStep] + [WriteStep] + [WriteStep] == [SyncFail, WriteStep, WriteStep, WriteStep];
  }

  // ------------------------------------------------------------ live mode without a wallet address

  lemma ExecSnoc(s: Loop, acts: seq<Action>, a: Action)
    ensures Exec(s, acts + [a]) == Next(Exec(s, acts), a)
  {
    assert (acts + [a])[..|acts|] == acts;
  }

  lemma NoWalletStep(s: Loop, a: Action)
    requires !s.env.walletSet && forall e :: e in s.events ==> !e.ESync?
    ensures !Next(s, a).env.walletSet && forall e :: e in Next(s, a).events ==> !e.ESync?
  {
  }

  lemma {:induction false} NoWalletNeverSyncs(s: Loop, acts: seq<Action>)
    requires !s.env.walletSet && s.events == []
    ensures !Exec(s, acts).env.walletSet && forall e :: e in Exec(s, acts).events ==> !e.ESync?
  {
    if acts != [] {
      NoWalletNeverSyncs(s, acts[..|acts| - 1]);
      NoWalletStep(Exec(s, acts[..|acts| - 1]), acts[|acts| - 1]);
    }
  }

  lemma NextWrite(s: Loop)
    requires s.pc.Writing?
    ensures Next(s, WriteStep) == WriteNext(s)
  {
  }

  lemma WriteSnoc(s: Loop, acts: seq<Action>)
    requires Exec(s, acts).pc.Writing?
    ensures Exec(s, acts + [WriteStep]) == WriteNext(Exec(s, acts))
  {
    ExecSnoc(s, acts, WriteStep);
    NextWrite(Exec(s, acts));
  }

  /** Three write steps carry a write through. */
  lemma WriteThrough(s: Loop, acts: seq<Action>)
    requires Exec(s, acts).pc.Writing? && Exec(s, acts).pc.phase == Unopened
    ensures var t := Exec(s, acts);
            Exec(s, acts + [WriteStep] + [WriteStep] + [WriteStep])
            == Written(t.(disk := Disk(Whole(t.pc.snapshot), Absent), pc := t.pc.(phase := Complete)),
                       t.pc.purpose, t.pc.snapshot)
  {
    WriteSnoc(s, acts);
    WriteSnoc(s, acts + [WriteStep]);
    WriteSnoc(s, acts + [WriteStep] + [WriteStep]);
  }

  /** From the top of the loop to a staged order, without a look at the chain. */
  lemma StageUnreconciled(s: Loop, acts: seq<Action>) returns (more: seq<Action>)
    requires !s.env.walletSet && s.events == []
    requires Exec(s, acts).pc == AtTop && Exec(s, acts).mem.pending == None
    ensures Exec(s, more).pc.Staged? && Exec(s, more).mem.pending == None
    ensures var before, after := Exec(s, acts).events, Exec(s, more).events;
            |after| == |before| + 2 && after[..|before|] == before
  {
    NoWalletNeverSyncs(s, acts);
    ExecSnoc(s, acts, NoSync(map[]));
    more := acts + [NoSync(map[])];
    ExecSnoc(s, more, MarkState);
    more := more + [MarkState];
    ExecSnoc(s, more, DecideTrade(Buy, "USDT", "ETH", 12.0));
    more := more + [DecideTrade(Buy, "USDT", "ETH", 12.0)];
    WriteThrough(s, more);
    more := more + [WriteStep] + [WriteStep] + [WriteStep];
  }

  /** From the top of the loop, one whole trading tick that never looks at the chain. */
  lemma TradeUnreconciled(s: Loop, acts: seq<Action>) returns (more: seq<Action>)
    requires !s.env.walletSet && s.events == []
    requires Exec(s, acts).pc == AtTop && Exec(s, acts).mem.pending == None
    ensures Exec(s, more).pc == AtTop && Exec(s, more).mem.pending == None
    ensures var before, after := Exec(s, acts).events, Exec(s, more).events;
            |before| + 2 < |after| && after[..|before|] == before && after[|before| + 2].EBroadcast?
  {
    more := StageUnreconciled(s, acts);
    ExecSnoc(s, more, Broadcast(false, []));
    more := more + [Broadcast(false, [])];
    ExecSnoc(s, more, Book(0.0));
    more := more + [Book(0.0)];
    ExecSnoc(s, more, Finish);
    more := more + [Finish];
    WriteThrough(s, more);
    more := more + [WriteStep] + [WriteStep] + [WriteStep];
  }

  lemma StartFresh(s: Loop) returns (start: seq<Action>)
    requires Init(s) && s.disk.committed == Absent
    ensures Exec(s, start).pc == AtTop && Exec(s, start).mem.pending == None
  {
    ExecSnoc(s, [], Start);
    start := [] + [Start];
  }

  /**
   * The separation is exactly conditional on the wallet address: without one there is a run of the live loop with two
   * broadcasts and no reconcile anywhere.
   */
  lemma UnreconciledWithoutWallet(s: Loop) returns (acts: seq<Action>, i: nat, j: nat)
    requires Init(s) && !s.env.walletSet && s.disk.committed == Absent
    ensures var es := Exec(s, acts).events;
            && i < j < |es| && es[i].EBroadcast? && es[j].EBroadcast?
            && forall e :: e in es ==> !e.ESync?
  {
    var start := StartFresh(s);
    acts, i, j := TradeTwice(s, start);
    NoWalletNeverSyncs(s, acts);
  }

  lemma TradeTwice(s: Loop, start: seq<Action>) returns (acts: seq<Action>, i: nat, j: nat)
    requires !s.env.walletSet && s.events == []
    requires Exec(s, start).pc == AtTop && Exec(s, start).mem.pending == None
    ensures var es := Exec(s, acts).events; i < j < |es| && es[i].EBroadcast? && es[j].EBroadcast?
  {
    ghost var a, b, c: seq<Event>;
    var once: seq<Action>;
    once, a, b := TradeOnce(s, start);
    acts, b, c := TradeOnce(s, once);
    i, j := TwoBroadcasts(a, b, c);
  }

  /** The same with the histories before and after named. */
  lemma TradeOnce(s: Loop, acts: seq<Action>) returns (more: seq<Action>, before: seq<Event>, after: seq<Event>)
    requires !s.env.walletSet && s.events == []
    requires Exec(s, acts).pc == AtTop && Exec(s, acts).mem.pending == None
    ensures Exec(s, more).pc == AtTop && Exec(s, more).mem.pending == None
    ensures before == Exec(s, acts).events && after == Exec(s, more).events
    ensures |before| + 2 < |after| && after[..|before|] == before && after[|before| + 2].EBroadcast?
  {
    more := TradeUnreconciled(s, acts);
    before, after := Exec(s, acts).events, Exec(s, more).events;
  }

  lemma TwoBroadcasts(a: seq<Event>, b: seq<Event>, c: seq<Event>) returns (i: nat, j: nat)
    requires |a| + 2 < |b| && b[|a| + 2].EBroadcast?
    requires |b| + 2 < |c| && c[..|b|] == b && c[|b| + 2].EBroadcast?
    ensures i < j < |c| && c[i].EBroadcast? && c[j].EBroadcast?
  {
    i, j := |a| + 2, |b| + 2;
    assert c[..|b|][i] == c[i];
  }
}
