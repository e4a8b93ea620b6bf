/** The balance tracker's state machine as values: the three module-level
    arrays of app.js (`balances`, `labels`, `ledger`), the two localStorage
    keys they are saved under, and one function per handler that changes them.
    Amounts are exact decimals (`real`), not IEEE doubles. */
module TrackerState {

  datatype Option<T> = None | Some(value: T)

  /** The `type` argument of `addTransaction`: "earn" or anything else ("spend"). */
  datatype Kind = Earn | Spend

  /** The ISO calendar date stamped on a ledger entry; supplied by the caller. */
  type Date = string

  /** One ledger record `{amount, type, date}`. */
  datatype Entry = Entry(amount: real, kind: Kind, date: Date)

  /** The module-level arrays in memory. */
  datatype Memory = Memory(balances: seq<real>, labels: seq<int>, ledger: seq<Entry>)

  /** The localStorage keys "balances" and "ledger"; `None` when the key is absent. */
  datatype Stored = Stored(balances: Option<seq<real>>, ledger: Option<seq<Entry>>)

  /** What the page holds in memory together with what it has saved. */
  datatype Page = Page(mem: Memory, disk: Stored)

  /** The chart's x-axis for `n` balances: 1, 2, ..., n. */
  function Labels(n: nat): (r: seq<int>)
    ensures |r| == n
    ensures forall i :: 0 <= i < n ==> r[i] == i + 1
  {
    if n == 0 then [] else Labels(n - 1) + [n]
  }

  /** The effect of JavaScript's `pop` on an array: drop the last element, if any. */
  function Pop<T>(s: seq<T>): (r: seq<T>)
    ensures s == [] ==> r == []
    ensures s != [] ==> s == r + [s[|s| - 1]]
  {
    if s == [] then [] else s[..|s| - 1]
  }

  /** The sum of the amounts of a ledger, in order. */
  function Total(ledger: seq<Entry>): real
  {
    if ledger == [] then 0.0 else Total(ledger[..|ledger| - 1]) + ledger[|ledger| - 1].amount
  }

  /** An entry whose amount carries the sign its kind calls for. */
  predicate WellSigned(e: Entry)
  {
    (e.kind == Earn ==> e.amount > 0.0) && (e.kind == Spend ==> e.amount < 0.0)
  }

  predicate AllWellSigned(ledger: seq<Entry>)
  {
    forall i :: 0 <= i < |ledger| ==> WellSigned(ledger[i])
  }

  /** One ledger entry per balance after the first, each balance being the
      previous one plus that entry's amount. */
  predicate Paired(balances: seq<real>, ledger: seq<Entry>)
  {
    && |balances| == |ledger| + 1
    && forall i :: 0 <= i < |ledger| ==> balances[i + 1] == balances[i] + ledger[i].amount
  }

  /** The load rule: an absent "balances" key gives `[0]`, an absent "ledger" key `[]`,
      and the labels are numbered from the balances. */
  function LoadFrom(disk: Stored): (m: Memory)
    ensures m.labels == Labels(|m.balances|)
    ensures disk.balances.None? ==> m.balances == [0.0]
    ensures disk.balances.Some? ==> m.balances == disk.balances.value
    ensures disk.ledger.None? ==> m.ledger == []
    ensures disk.ledger.Some? ==> m.ledger == disk.ledger.value
  {
    var balances := match disk.balances case None => [0.0] case Some(b) => b;
    var ledger := match disk.ledger case None => [] case Some(l) => l;
    Memory(balances, Labels(|balances|), ledger)
  }

  /** The invariant every handler keeps: at least one balance, the labels
      numbered 1..n, and a reload from storage giving back exactly what is in memory. */
  predicate Consistent(p: Page)
  {
    && p.mem.balances != []
    && p.mem.labels == Labels(|p.mem.balances|)
    && LoadFrom(p.disk) == p.mem
  }

  /** Where balances and ledger are paired, the last balance is the first
      balance plus the ledger's total. */
  lemma {:induction false} PairedBalanceIsTotal(balances: seq<real>, ledger: seq<Entry>)
    requires balances != []
    ensures Paired(balances, ledger) ==> balances[|balances| - 1] == balances[0] + Total(ledger)
  {
    if Paired(balances, ledger) && ledger != [] {
      var n := |ledger|;
      assert Paired(balances[..n], ledger[..n - 1]);
      PairedBalanceIsTotal(balances[..n], ledger[..n - 1]);
    }
  }

  /** `currentBalance()`: the last running total. While balances and ledger
      are paired it is the first balance plus the ledger's total. */
  function Current(m: Memory): (r: real)
    requires m.balances != []
    ensures Paired(m.balances, m.ledger) ==> r == m.balances[0] + Total(m.ledger)
  {
    PairedBalanceIsTotal(m.balances, m.ledger);
    m.balances[|m.balances| - 1]
  }

  /** The state part of `addTransaction(amount, type)`. */
  function AddStep(p: Page, amount: real, kind: Kind, date: Date): (r: Page)
    requires Consistent(p)
    ensures Consistent(r)
    ensures r.mem.balances == p.mem.balances + [Current(p.mem) + amount]
    ensures Current(r.mem) == Current(p.mem) + amount
    ensures r.mem.ledger == p.mem.ledger + [Entry(amount, kind, date)]
    ensures r.disk == Stored(Some(r.mem.balances), Some(r.mem.ledger))
  {
    var balances := p.mem.balances + [Current(p.mem) + amount];
    var labels := p.mem.labels + [|p.mem.labels| + 1];
    var saved := p.disk.(balances := Some(balances));
    var ledger := p.mem.ledger + [Entry(amount, kind, date)];
    Page(Memory(balances, labels, ledger), saved.(ledger := Some(ledger)))
  }

  /** The input accepted by the confirm button: a number greater than zero. */
  predicate Accepts(num: real)
  {
    num > 0.0
  }

  /** The confirm handler once the input is parsed: record `+num` for an
      earning and `-num` for a spending, and nothing at all unless `num > 0`. */
  function ConfirmStep(p: Page, num: real, kind: Kind, date: Date): (r: Page)
    requires Consistent(p)
    ensures Consistent(r)
    ensures !Accepts(num) ==> r == p
    ensures Accepts(num) ==>
      && |r.mem.ledger| == |p.mem.ledger| + 1
      && r.mem.ledger[..|p.mem.ledger|] == p.mem.ledger
      && var e := r.mem.ledger[|p.mem.ledger|];
         WellSigned(e) && e.kind == kind && e.date == date
         && e.amount == (if kind == Earn then num else -num)
         && r.mem.balances == p.mem.balances + [Current(p.mem) + e.amount]
  {
    if Accepts(num) then AddStep(p, if kind == Earn then num else -num, kind, date) else p
  }

  /** The undo handler: with more than one balance, pop a balance and a label
      and save the balances; pop and save the ledger only when it is not empty.
      With one balance it only tells the user there is nothing to undo. */
  function UndoStep(p: Page): (r: Page)
    requires Consistent(p)
    ensures Consistent(r)
    ensures |p.mem.balances| <= 1 ==> r == p
    ensures |p.mem.balances| > 1 ==>
      && p.mem.balances == r.mem.balances + [Current(p.mem)]
      && |r.mem.labels| == |p.mem.labels| - 1
      && r.disk.balances == Some(r.mem.balances)
      && (p.mem.ledger == [] ==> r.mem.ledger == [] && r.disk.ledger == p.disk.ledger)
      && (p.mem.ledger != [] ==>
            p.mem.ledger == r.mem.ledger + [p.mem.ledger[|p.mem.ledger| - 1]]
            && r.disk.ledger == Some(r.mem.ledger))
  {
    if |p.mem.balances| > 1 then
      var balances := Pop(p.mem.balances);
      var labels := Pop(p.mem.labels);
      var saved := p.disk.(balances := Some(balances));
      if p.mem.ledger != [] then
        var ledger := Pop(p.mem.ledger);
        Page(Memory(balances, labels, ledger), saved.(ledger := Some(ledger)))
      else
        Page(Memory(balances, labels, p.mem.ledger), saved)
    else
      p
  }

  /** The reset handler, the confirmation already given: back to one zero
      balance and label 1, and the "balances" key removed. The ledger and
      the "ledger" key stay as they were. */
  function ResetStep(p: Page): (r: Page)
    requires Consistent(p)
    ensures Consistent(r)
    ensures Current(r.mem) == 0.0 && |r.mem.balances| == 1 && r.mem.labels == [1]
    ensures r.disk.balances == None && LoadFrom(r.disk).balances == [0.0]
    ensures r.mem.ledger == p.mem.ledger && r.disk.ledger == p.disk.ledger
  {
    Page(Memory([0.0], [1], p.mem.ledger), p.disk.(balances := None))
  }

  /** A reset that deletes all data, as its confirmation message says: both
      keys removed, the ledger emptied. */
  function ResetAllStep(p: Page): (r: Page)
    requires Consistent(p)
    ensures Consistent(r)
    ensures Paired(r.mem.balances, r.mem.ledger)
    ensures Current(r.mem) == 0.0 && r.mem.ledger == []
    ensures r.disk == Stored(None, None)
  {
    Page(Memory([0.0], [1], []), Stored(None, None))
  }

  /** What the user can do to the page. */
  datatype Event =
    | ConfirmClicked(num: real, kind: Kind, date: Date)
    | UndoClicked
    | ResetClicked
    | PageLoaded

  /** One event, dispatched to its handler; a reload runs the load rule on storage. */
  function Step(p: Page, e: Event): (r: Page)
    requires Consistent(p)
    ensures Consistent(r)
    ensures e.PageLoaded? ==> r == p
  {
    match e
    case ConfirmClicked(num, kind, date) => ConfirmStep(p, num, kind, date)
    case UndoClicked => UndoStep(p)
    case ResetClicked => ResetStep(p)
    case PageLoaded => Page(LoadFrom(p.disk), p.disk)
  }
}
