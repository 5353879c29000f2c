// agent/ops/nonce.py: local nonce reservation with chain reconciliation.
module Nonce {
  import opened Types

  datatype Nonces = Nonces(next: Option<int>, reserved: set<int>, confirmed: set<int>, failed: set<int>, gapped: bool)

  const FRESH := Nonces(None, {}, {}, {}, false)

  /** range(lo, hi) */
  function Span(lo: int, hi: int): (r: set<int>)
    ensures forall n :: n in r <==> lo <= n < hi
    decreases hi - lo
  {
    if hi <= lo then {} else Span(lo, hi - 1) + {hi - 1}
  }

  /** chain <= min(open) < next, for a non-empty set of open nonces. */
  ghost predicate Stuck(open: set<int>, chain: int, next: int) {
    open != {} && (forall n :: n in open ==> chain <= n) && exists n :: n in open && n < next
  }

  // ------------------------------------------------------------ what each call does to the state

  /** sync, when the chain answers. */
  ghost function Synced(s: Nonces, chain: int): Nonces {
    if s.next.None? then s.(next := Some(chain))
    else
      var next := s.next.value;
      var t := if chain > next then s.(confirmed := s.confirmed + Span(next, chain),
                                       reserved := s.reserved - Span(next, chain), next := Some(chain))
               else s;
      t.(gapped := t.gapped || Stuck(t.reserved, chain, t.next.value))
  }

  /** sync: a failed read of the chain nonce raises and changes nothing. */
  ghost function AfterSync(s: Nonces, reply: Option<int>): Nonces {
    if reply.Some? then Synced(s, reply.value) else s
  }

  /** reserve: the new state and the nonce handed out, if any. */
  ghost function Reserve(s: Nonces, reply: Option<int>): (Nonces, Option<int>) {
    if s.gapped then (s, None)
    else
      var t := if s.next.None? then AfterSync(s, reply) else s;
      if t.next.None? then (t, None)
      else (t.(reserved := t.reserved + {t.next.value}, next := Some(t.next.value + 1)), t.next)
  }

  ghost function Confirm(s: Nonces, nonce: int): Nonces {
    s.(confirmed := s.confirmed + {nonce}, reserved := s.reserved - {nonce},
       gapped := s.gapped || exists n :: n in s.reserved && n < nonce)
  }

  ghost function Fail(s: Nonces, nonce: int): Nonces {
    s.(failed := s.failed + {nonce}, reserved := s.reserved - {nonce},
       gapped := s.gapped || s.next.None? || nonce < s.next.value)
  }

  // ------------------------------------------------------------ the manager

  lemma Inhabited(s: set<int>)
    requires s != {}
    ensures exists n :: n in s
  {
    if forall n: int :: n !in s {
      assert false;
    }
  }

  /** min(s) of a non-empty set. */
  method Least(s: set<int>) returns (m: int)
    requires s != {}
    ensures m in s && forall n :: n in s ==> m <= n
  {
    Inhabited(s);
    m :| m in s;
    var rest := s - {m};
    while rest != {}
      invariant m in s && rest <= s
      invariant forall n :: n in s && n !in rest ==> m <= n
      decreases |rest|
    {
      Inhabited(rest);
      var n :| n in rest;
      if n < m {
        m := n;
      }
      rest := rest - {n};
    }
  }

  class NonceManager {
    var next: Option<int>
    var reserved: set<int>
    var confirmed: set<int>
    var failed: set<int>
    var gapped: bool

    ghost function State(): Nonces
      reads this
    {
      Nonces(next, reserved, confirmed, failed, gapped)
    }

    constructor ()
      ensures State() == FRESH
    {
      next, reserved, confirmed, failed, gapped := None, {}, {}, {}, false;
    }

    /** sync; chain is the nonce read from the chain, or nothing when the read raised. */
    method Sync(chain: Option<int>) returns (ok: bool)
      modifies this
      ensures State() == AfterSync(old(State()), chain) && ok == chain.Some?
    {
      if chain.None? {
        return false;
      }
      ok := true;
      if next.None? {
        next := chain;
        return;
      }
      if chain.value > next.value {
        var passed := Span(next.value, chain.value);
        confirmed := confirmed + passed;
        reserved := reserved - passed;
        next := chain;
      }
      if reserved != {} {
        var least := Least(reserved);
        if chain.value <= least < next.value {
          gapped := true;
        }
      }
    }

    /** reserve */
    method Take(chain: Option<int>) returns (nonce: Option<int>)
      modifies this
      ensures (State(), nonce) == Reserve(old(State()), chain)
    {
      if gapped {
        return None;
      }
      if next.None? {
        var ok := Sync(chain);
        if !ok {
          return None;
        }
      }
      nonce := next;
      reserved := reserved + {next.value};
      next := Some(next.value + 1);
    }

    /** on_confirmed */
    method OnConfirmed(nonce: int, chain: Option<int>) returns (ok: bool)
      modifies this
      ensures State() == AfterSync(Confirm(old(State()), nonce), chain) && ok == chain.Some?
    {
      ghost var held := reserved;
      confirmed := confirmed + {nonce};
      reserved := reserved - {nonce};
      assert forall n :: n < nonce ==> (n in reserved <==> n in held);
      if exists n :: n in reserved && n < nonce {
        gapped := true;
      }
      ok := Sync(chain);
    }

    /** on_failed */
    method OnFailed(nonce: int, chain: Option<int>) returns (ok: bool)
      modifies this
      ensures State() == AfterSync(Fail(old(State()), nonce), chain) && ok == chain.Some?
    {
      failed := failed + {nonce};
      reserved := reserved - {nonce};
      if next.None? || nonce < next.value {
        gapped := true;
      }
      ok := Sync(chain);
    }
  }

  // ------------------------------------------------------------ any history of calls

  datatype Event = Syncs(reply: Option<int>)
                 | Reserves(reply: Option<int>)
                 | Confirms(nonce: int, reply: Option<int>)
                 | Fails(nonce: int, reply: Option<int>)

  ghost function After(s: Nonces, e: Event): Nonces {
    match e
    case Syncs(reply) => AfterSync(s, reply)
    case Reserves(reply) => Reserve(s, reply).0
    case Confirms(nonce, reply) => AfterSync(Confirm(s, nonce), reply)
    case Fails(nonce, reply) => AfterSync(Fail(s, nonce), reply)
  }

  /** The nonce this call hands out, if any. */
  ghost function HandedBy(s: Nonces, e: Event): seq<int> {
    if e.Reserves? && Reserve(s, e.reply).1.Some? then [Reserve(s, e.reply).1.value] else []
  }

  ghost function Run(s: Nonces, es: seq<Event>): Nonces {
    if es == [] then s else After(Run(s, es[..|es| - 1]), es[|es| - 1])
  }

  /** Every nonce handed out, in order. */
  ghost function Handed(s: Nonces, es: seq<Event>): seq<int> {
    if es == [] then []
    else Handed(s, es[..|es| - 1]) + HandedBy(Run(s, es[..|es| - 1]), es[|es| - 1])
  }

  /** A transaction is reported confirmed or failed only while its nonce is held. */
  ghost predicate Honest(s: Nonces, e: Event) {
    match e
    case Confirms(nonce, _) => nonce in s.reserved
    case Fails(nonce, _) => nonce in s.reserved
    case _ => true
  }

  ghost predicate HonestRun(s: Nonces, es: seq<Event>) {
    forall i :: 0 <= i < |es| ==> Honest(Run(s, es[..i]), es[i])
  }

  /** Every nonce from the first one on is in exactly one of the three sets. */
  ghost predicate Accounted(s: Nonces, first: int) {
    match s.next
    case None => s.reserved == {} && s.confirmed == {} && s.failed == {}
    case Some(next) =>
      && first <= next
      && s.reserved + s.confirmed + s.failed == Span(first, next)
      && s.reserved !! s.confirmed && s.reserved !! s.failed && s.confirmed !! s.failed
  }

  /** The chain nonce the first sync saw. */
  ghost function First(s: Nonces, e: Event, first: int): int {
    if s.next.None? && e.reply.Some? && !(e.Reserves? && s.gapped) then e.reply.value else first
  }

  lemma SyncKeepsAccounts(s: Nonces, chain: int, first: int)
    requires Accounted(s, first) && s.next.Some?
    ensures Accounted(Synced(s, chain), first)
  {
    var next := s.next.value;
    if chain > next {
      assert Span(first, next) + Span(next, chain) == Span(first, chain);
      assert s.reserved - Span(next, chain) == s.reserved;
    }
  }

  lemma CallbackKeepsAccounts(s: Nonces, nonce: int, first: int)
    requires Accounted(s, first) && nonce in s.reserved
    ensures Accounted(Confirm(s, nonce), first) && Accounted(Fail(s, nonce), first)
    ensures s.next.Some?
  {
    var left := s.reserved - {nonce};
    assert left + (s.confirmed + {nonce}) + s.failed == s.reserved + s.confirmed + s.failed;
    assert left + s.confirmed + (s.failed + {nonce}) == s.reserved + s.confirmed + s.failed;
  }

  lemma ReserveKeepsAccounts(s: Nonces, first: int)
    requires Accounted(s, first) && s.next.Some? && !s.gapped
    ensures Accounted(Reserve(s, None).0, first)
  {
    var next := s.next.value;
    assert Span(first, next) + {next} == Span(first, next + 1);
    assert s.reserved + {next} + s.confirmed + s.failed == s.reserved + s.confirmed + s.failed + {next};
  }

  /** One honest call keeps the accounts. */
  lemma StepKeepsAccounts(s: Nonces, e: Event, first: int)
    requires Accounted(s, first) && Honest(s, e)
    ensures Accounted(After(s, e), First(s, e, first))
  {
    match e
    case Syncs(reply) =>
    case Reserves(reply) =>
      if !s.gapped {
        if s.next.None? && reply.Some? {
          ReserveKeepsAccounts(Synced(s, reply.value), reply.value);
        } else if s.next.Some? {
          ReserveKeepsAccounts(s, first);
        }
      }
    case Confirms(nonce, reply) =>
      CallbackKeepsAccounts(s, nonce, first);
    case Fails(nonce, reply) =>
      CallbackKeepsAccounts(s, nonce, first);
  }

  /** The chain nonce of the first successful sync of a history. */
  ghost function FirstOf(es: seq<Event>): int {
    if es == [] then 0
    else First(Run(FRESH, es[..|es| - 1]), es[|es| - 1], FirstOf(es[..|es| - 1]))
  }

  /** In every honest history reserved, confirmed and failed nonces split the interval since the first sync. */
  lemma {:induction false} NoncesAreAccountedFor(es: seq<Event>)
    requires HonestRun(FRESH, es)
    ensures Accounted(Run(FRESH, es), FirstOf(es))
  {
    if es != [] {
      var n := |es| - 1;
      assert Honest(Run(FRESH, es[..n]), es[n]);
      forall i | 0 <= i < n ensures Honest(Run(FRESH, es[..n][..i]), es[..n][i]) {
        assert es[..n][..i] == es[..i];
      }
      NoncesAreAccountedFor(es[..n]);
      StepKeepsAccounts(Run(FRESH, es[..n]), es[n], FirstOf(es[..n]));
    }
  }

  // ------------------------------------------------------------ facts that need no honesty

  lemma StepOnlyGoesUp(s: Nonces, e: Event)
    ensures s.gapped ==> After(s, e).gapped
    ensures s.next.Some? ==> After(s, e).next.Some? && s.next.value + |HandedBy(s, e)| <= After(s, e).next.value
    ensures forall n :: n in HandedBy(s, e) ==>
              After(s, e).next == Some(n + 1) && (s.next.Some? ==> s.next.value == n) && !s.gapped
  {
  }

  /** Whatever the chain replies, no nonce is handed out twice: they strictly increase. */
  lemma {:induction false} HandedIncrease(es: seq<Event>)
    ensures forall i, j :: 0 <= i < j < |Handed(FRESH, es)| ==> Handed(FRESH, es)[i] < Handed(FRESH, es)[j]
    ensures forall n :: n in Handed(FRESH, es) ==> Run(FRESH, es).next.Some? && n < Run(FRESH, es).next.value
  {
    if es != [] {
      var before, last := es[..|es| - 1], es[|es| - 1];
      HandedIncrease(before);
      StepOnlyGoesUp(Run(FRESH, before), last);
      var earlier, latest := Handed(FRESH, before), HandedBy(Run(FRESH, before), last);
      assert Handed(FRESH, es) == earlier + latest;
      forall i, j | 0 <= i < j < |earlier + latest| ensures (earlier + latest)[i] < (earlier + latest)[j] {
        assert (earlier + latest)[i] in earlier;
        assert j >= |earlier| ==> (earlier + latest)[j] in latest;
      }
    }
  }

  /** Once the state is gapped it stays gapped and nothing more is handed out. */
  lemma {:induction false} GapIsFinal(s: Nonces, es: seq<Event>)
    requires s.gapped
    ensures Run(s, es).gapped && Handed(s, es) == []
  {
    if es != [] {
      GapIsFinal(s, es[..|es| - 1]);
      StepOnlyGoesUp(Run(s, es[..|es| - 1]), es[|es| - 1]);
    }
  }

  /** One failure report on a held nonce closes the manager for good. */
  lemma FailureIsFinal(s: Nonces, nonce: int, reply: Option<int>, es: seq<Event>)
    requires s.next.Some? ==> nonce < s.next.value
    ensures Handed(After(s, Fails(nonce, reply)), es) == []
  {
    StepOnlyGoesUp(Fail(s, nonce), Syncs(reply));
    GapIsFinal(After(s, Fails(nonce, reply)), es);
  }

  /** After a sync that had something to compare with, an ungapped manager holds nothing
      or the chain has moved past its least held nonce. */
  lemma ComparingSyncDetectsGaps(s: Nonces, chain: int, first: int)
    requires Accounted(s, first) && s.next.Some?
    ensures var t := Synced(s, chain);
            !t.gapped ==> t.reserved == {} || exists n :: n in t.reserved && n < chain
  {
    SyncKeepsAccounts(s, chain, first);
    var t := Synced(s, chain);
    if t.reserved != {} && !exists n :: n in t.reserved && n < chain {
      var n :| n in t.reserved;
      assert n in Span(first, t.next.value);
      assert Stuck(t.reserved, chain, t.next.value);
    }
  }

  /** A callback keeps the accounts exactly when its nonce is held, or already stands where the callback puts it. */
  lemma CallbackKeepsAccountsIff(s: Nonces, nonce: int, first: int)
    requires Accounted(s, first) && s.next.Some?
    ensures Accounted(Confirm(s, nonce), first) <==> nonce in s.reserved || nonce in s.confirmed
    ensures Accounted(Fail(s, nonce), first) <==> nonce in s.reserved || nonce in s.failed
  {
    var all := s.reserved + s.confirmed + s.failed;
    if nonce in s.reserved {
      CallbackKeepsAccounts(s, nonce, first);
    } else {
      assert s.reserved - {nonce} == s.reserved;
      if nonce !in all {
        assert nonce !in Span(first, s.next.value);
        assert nonce in Confirm(s, nonce).confirmed && nonce in Fail(s, nonce).failed;
      } else if nonce in s.confirmed {
        assert s.confirmed + {nonce} == s.confirmed;
        assert nonce in Fail(s, nonce).confirmed && nonce in Fail(s, nonce).failed;
      } else {
        assert s.failed + {nonce} == s.failed;
        assert nonce in Confirm(s, nonce).confirmed && nonce in Confirm(s, nonce).failed;
      }
    }
  }
}
