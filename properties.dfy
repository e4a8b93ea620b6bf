/** Properties of the balance tracker's handlers over whole runs of events:
    running totals, undo as the inverse of add, the ledger/balance pairing
    that add and undo keep and reset breaks, and the sign of every entry. */
module TrackerProperties {
  import opened TrackerState

  /** The page as first opened with nothing in storage. */
  function Fresh(): (p: Page)
    ensures Consistent(p)
    ensures p.mem.balances == [0.0] && p.mem.labels == [1] && p.mem.ledger == []
  {
    var disk := Stored(None, None);
    Page(LoadFrom(disk), disk)
  }

  /** The page after the given events, in order. */
  function Run(p: Page, es: seq<Event>): (r: Page)
    requires Consistent(p)
    ensures Consistent(r)
    decreases |es|
  {
    if es == [] then p else Run(Step(p, es[0]), es[1..])
  }

  /** `addTransaction` called once per entry, in order. */
  function AddAll(p: Page, txs: seq<Entry>): (r: Page)
    requires Consistent(p)
    ensures Consistent(r)
    decreases |txs|
  {
    if txs == [] then p
    else
      var last := txs[|txs| - 1];
      AddStep(AddAll(p, txs[..|txs| - 1]), last.amount, last.kind, last.date)
  }

  predicate NoReset(es: seq<Event>)
  {
    forall i :: 0 <= i < |es| ==> !es[i].ResetClicked?
  }

  /** After transactions added one by one to any page, the ledger has gained
      exactly those entries and the balance has grown by their total. */
  lemma {:induction false} AddAllAppends(p: Page, txs: seq<Entry>)
    requires Consistent(p)
    ensures AddAll(p, txs).mem.ledger == p.mem.ledger + txs
    ensures Current(AddAll(p, txs).mem) == Current(p.mem) + Total(txs)
  {
    if txs != [] {
      var n := |txs|;
      AddAllAppends(p, txs[..n - 1]);
      assert txs == txs[..n - 1] + [txs[n - 1]];
      assert p.mem.ledger + txs == (p.mem.ledger + txs[..n - 1]) + [txs[n - 1]];
    }
  }

  /** Starting from `[0]`, after n transactions `currentBalance()` is the sum of their amounts. */
  lemma BalanceIsSumOfTransactions(txs: seq<Entry>)
    ensures Current(AddAll(Fresh(), txs).mem) == Total(txs)
    ensures AddAll(Fresh(), txs).mem.ledger == txs
  {
    AddAllAppends(Fresh(), txs);
  }

  /** `addTransaction` followed by undo gives back the balances, labels and
      ledger exactly; storage then holds both keys, and reloads to the same page. */
  lemma UndoAfterAdd(p: Page, amount: real, kind: Kind, date: Date)
    requires Consistent(p)
    ensures UndoStep(AddStep(p, amount, kind, date)).mem == p.mem
    ensures UndoStep(AddStep(p, amount, kind, date)).disk == Stored(Some(p.mem.balances), Some(p.mem.ledger))
    ensures LoadFrom(UndoStep(AddStep(p, amount, kind, date)).disk) == LoadFrom(p.disk)
  {
  }

  /** An accepted confirmation followed by undo gives back the page's memory. */
  lemma UndoAfterConfirm(p: Page, num: real, kind: Kind, date: Date)
    requires Consistent(p)
    requires Accepts(num)
    ensures UndoStep(ConfirmStep(p, num, kind, date)).mem == p.mem
  {
    UndoAfterAdd(p, if kind == Earn then num else -num, kind, date);
  }

  lemma AddKeepsPaired(p: Page, amount: real, kind: Kind, date: Date)
    requires Consistent(p) && Paired(p.mem.balances, p.mem.ledger)
    ensures Paired(AddStep(p, amount, kind, date).mem.balances, AddStep(p, amount, kind, date).mem.ledger)
  {
  }

  lemma UndoKeepsPaired(p: Page)
    requires Consistent(p) && Paired(p.mem.balances, p.mem.ledger)
    ensures Paired(UndoStep(p).mem.balances, UndoStep(p).mem.ledger)
  {
  }

  /** Every event but reset keeps the pairing. */
  lemma StepKeepsPaired(p: Page, e: Event)
    requires Consistent(p) && Paired(p.mem.balances, p.mem.ledger)
    requires !e.ResetClicked?
    ensures Paired(Step(p, e).mem.balances, Step(p, e).mem.ledger)
  {
    match e
    case ConfirmClicked(num, kind, date) =>
      if Accepts(num) {
        var amount := if kind == Earn then num else -num;
        assert Step(p, e) == AddStep(p, amount, kind, date);
        AddKeepsPaired(p, amount, kind, date);
      } else {
        assert Step(p, e) == p;
      }
    case UndoClicked =>
      assert Step(p, e) == UndoStep(p);
      UndoKeepsPaired(p);
    case PageLoaded =>
      assert Step(p, e) == p;
  }

  lemma {:induction false} RunWithoutResetKeepsPaired(p: Page, es: seq<Event>)
    requires Consistent(p) && Paired(p.mem.balances, p.mem.ledger)
    requires NoReset(es)
    ensures Paired(Run(p, es).mem.balances, Run(p, es).mem.ledger)
    decreases |es|
  {
    if es != [] {
      assert !es[0].ResetClicked?;
      StepKeepsPaired(p, es[0]);
      assert NoReset(es[1..]) by {
        forall i | 0 <= i < |es[1..]| ensures !es[1..][i].ResetClicked? {
          assert es[1..][i] == es[i + 1];
        }
      }
      RunWithoutResetKeepsPaired(Step(p, es[0]), es[1..]);
    }
  }

  /** From a fresh page, as long as reset is never pressed, the balance is the ledger's total. */
  lemma BalanceIsLedgerTotalWithoutReset(es: seq<Event>)
    requires NoReset(es)
    ensures Paired(Run(Fresh(), es).mem.balances, Run(Fresh(), es).mem.ledger)
    ensures Current(Run(Fresh(), es).mem) == Total(Run(Fresh(), es).mem.ledger)
  {
    RunWithoutResetKeepsPaired(Fresh(), es);
    var m := Run(Fresh(), es).mem;
    PairedBalanceIsTotal(m.balances, m.ledger);
    assert m.balances[0] == 0.0 by {
      RunKeepsFirstBalance(Fresh(), es);
    }
  }

  /** No handler changes the first balance except by resetting it to zero. */
  lemma StepKeepsFirstBalance(p: Page, e: Event)
    requires Consistent(p) && p.mem.balances[0] == 0.0
    ensures Step(p, e).mem.balances[0] == 0.0
  {
    match e
    case ConfirmClicked(num, kind, date) =>
      assert Step(p, e) == ConfirmStep(p, num, kind, date);
    case UndoClicked =>
      assert Step(p, e) == UndoStep(p);
    case ResetClicked =>
      assert Step(p, e) == ResetStep(p);
    case PageLoaded =>
      assert Step(p, e) == p;
  }

  /** A first balance of 0 stays 0 through any run of events. */
  lemma {:induction false} RunKeepsFirstBalance(p: Page, es: seq<Event>)
    requires Consistent(p) && p.mem.balances[0] == 0.0
    ensures Run(p, es).mem.balances[0] == 0.0
    decreases |es|
  {
    if es != [] {
      StepKeepsFirstBalance(p, es[0]);
      RunKeepsFirstBalance(Step(p, es[0]), es[1..]);
    }
  }

  /** Reset breaks the pairing: one earning followed by reset leaves one
      balance beside one ledger entry, both in memory and after a reload. */
  lemma ResetBreaksPairing(date: Date)
    ensures Paired(AddStep(Fresh(), 5.0, Earn, date).mem.balances, AddStep(Fresh(), 5.0, Earn, date).mem.ledger)
    ensures !Paired(ResetStep(AddStep(Fresh(), 5.0, Earn, date)).mem.balances,
                    ResetStep(AddStep(Fresh(), 5.0, Earn, date)).mem.ledger)
    ensures LoadFrom(ResetStep(AddStep(Fresh(), 5.0, Earn, date)).disk).balances == [0.0]
    ensures LoadFrom(ResetStep(AddStep(Fresh(), 5.0, Earn, date)).disk).ledger == [Entry(5.0, Earn, date)]
  {
  }

  /** The corrected reset leaves a page whose balances and ledger are paired,
      and a later run in which reset is never pressed keeps them so. */
  lemma ResetAllThenRunKeepsPaired(p: Page, es: seq<Event>)
    requires Consistent(p)
    requires NoReset(es)
    ensures Paired(Run(ResetAllStep(p), es).mem.balances, Run(ResetAllStep(p), es).mem.ledger)
    ensures Current(Run(ResetAllStep(p), es).mem) == Total(Run(ResetAllStep(p), es).mem.ledger)
  {
    var q := ResetAllStep(p);
    RunWithoutResetKeepsPaired(q, es);
    var m := Run(q, es).mem;
    PairedBalanceIsTotal(m.balances, m.ledger);
    RunKeepsFirstBalance(q, es);
  }

  /** The event dispatch with the corrected reset: the reset button deletes
      all data, and every other event goes to its handler as written. */
  function FixedStep(p: Page, e: Event): (r: Page)
    requires Consistent(p)
    ensures Consistent(r)
    ensures e.ResetClicked? ==> r.mem.ledger == [] && r.disk == Stored(None, None)
    ensures e.PageLoaded? ==> r == p
  {
    if e.ResetClicked? then ResetAllStep(p) else Step(p, e)
  }

  /** The page after the given events, in order, with the corrected reset. */
  function FixedRun(p: Page, es: seq<Event>): (r: Page)
    requires Consistent(p)
    ensures Consistent(r)
    decreases |es|
  {
    if es == [] then p else FixedRun(FixedStep(p, es[0]), es[1..])
  }

  /** With the corrected reset every event keeps the pairing, resets included. */
  lemma {:induction false} FixedRunKeepsPaired(p: Page, es: seq<Event>)
    requires Consistent(p) && Paired(p.mem.balances, p.mem.ledger)
    ensures Paired(FixedRun(p, es).mem.balances, FixedRun(p, es).mem.ledger)
    decreases |es|
  {
    if es != [] {
      if !es[0].ResetClicked? {
        StepKeepsPaired(p, es[0]);
      }
      FixedRunKeepsPaired(FixedStep(p, es[0]), es[1..]);
    }
  }

  /** With the corrected reset, a first balance of 0 stays 0. */
  lemma {:induction false} FixedRunKeepsFirstBalance(p: Page, es: seq<Event>)
    requires Consistent(p) && p.mem.balances[0] == 0.0
    ensures FixedRun(p, es).mem.balances[0] == 0.0
    decreases |es|
  {
    if es != [] {
      if !es[0].ResetClicked? {
        StepKeepsFirstBalance(p, es[0]);
      }
      FixedRunKeepsFirstBalance(FixedStep(p, es[0]), es[1..]);
    }
  }

  /** From a first visit, with the corrected reset, balances and ledger stay
      paired through any run of events and the balance is the ledger's total. */
  lemma FixedBalanceIsLedgerTotal(es: seq<Event>)
    ensures Paired(FixedRun(Fresh(), es).mem.balances, FixedRun(Fresh(), es).mem.ledger)
    ensures Current(FixedRun(Fresh(), es).mem) == Total(FixedRun(Fresh(), es).mem.ledger)
  {
    FixedRunKeepsPaired(Fresh(), es);
    FixedRunKeepsFirstBalance(Fresh(), es);
    var m := FixedRun(Fresh(), es).mem;
    PairedBalanceIsTotal(m.balances, m.ledger);
  }

  /** The scenario earn 50, spend 20, undo, reset: the balance goes 50, 30,
      50, 0, and after reset one ledger entry is still there. */
  lemma EarnSpendUndoReset(d1: Date, d2: Date)
    ensures var p1 := ConfirmStep(Fresh(), 50.0, Earn, d1);
            var p2 := ConfirmStep(p1, 20.0, Spend, d2);
            var p3 := UndoStep(p2);
            var p4 := ResetStep(p3);
            && Current(p1.mem) == 50.0
            && Current(p2.mem) == 30.0
            && Current(p3.mem) == 50.0 && p3.mem.ledger == [Entry(50.0, Earn, d1)]
            && Current(p4.mem) == 0.0 && p4.mem.ledger == [Entry(50.0, Earn, d1)]
  {
    var p1 := ConfirmStep(Fresh(), 50.0, Earn, d1);
    var p2 := ConfirmStep(p1, 20.0, Spend, d2);
    UndoAfterConfirm(p1, 20.0, Spend, d2);
  }

  /** Fresh or after reset, undo changes nothing in memory or storage. */
  lemma UndoAfterResetIsNoop(p: Page)
    requires Consistent(p)
    ensures UndoStep(ResetStep(p)) == ResetStep(p)
    ensures UndoStep(Fresh()) == Fresh()
  {
  }

  /** Every handler keeps each ledger entry's sign in line with its kind. */
  lemma StepKeepsWellSigned(p: Page, e: Event)
    requires Consistent(p) && AllWellSigned(p.mem.ledger)
    ensures AllWellSigned(Step(p, e).mem.ledger)
  {
    var l := Step(p, e).mem.ledger;
    match e
    case ConfirmClicked(num, kind, date) =>
      assert Step(p, e) == ConfirmStep(p, num, kind, date);
      if Accepts(num) {
        assert l == p.mem.ledger + [l[|p.mem.ledger|]];
      }
    case UndoClicked =>
      assert Step(p, e) == UndoStep(p);
      assert l == p.mem.ledger[..|l|];
    case ResetClicked =>
      assert Step(p, e) == ResetStep(p);
    case PageLoaded =>
      assert Step(p, e) == p;
  }

  lemma {:induction false} RunKeepsWellSigned(p: Page, es: seq<Event>)
    requires Consistent(p) && AllWellSigned(p.mem.ledger)
    ensures AllWellSigned(Run(p, es).mem.ledger)
    decreases |es|
  {
    if es != [] {
      StepKeepsWellSigned(p, es[0]);
      RunKeepsWellSigned(Step(p, es[0]), es[1..]);
    }
  }

  /** Whatever happens, storage never holds an empty "balances" array, so the
      load rule always yields at least one balance. */
  lemma RunNeverStoresEmptyBalances(p: Page, es: seq<Event>)
    requires Consistent(p)
    ensures Run(p, es).disk.balances != Some([])
    ensures LoadFrom(Run(p, es).disk) == Run(p, es).mem
  {
  }
}
