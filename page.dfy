/** The balance tracker as app.js holds it: the module-level arrays `balances`,
    `labels` and `ledger`, changed in place by the handlers, and the browser's
    localStorage, which outlives the page. Each handler is tied to the step
    function of TrackerState that describes it. */
module TrackerPage {
  import opened TrackerState
  import TrackerProperties

  /** localStorage, reduced to the two keys the page uses. */
  class Storage {
    var balances: Option<seq<real>>
    var ledger: Option<seq<Entry>>

    /** Storage with neither key set, as on a first visit. */
    constructor ()
      ensures balances == None && ledger == None
    {
      balances := None;
      ledger := None;
    }

    function Contents(): Stored
      reads this
    {
      Stored(balances, ledger)
    }
  }

  /** A first visit: the page loads with nothing in storage. */
  method FirstVisit() returns (t: Tracker)
    ensures fresh(t) && fresh(t.store)
    ensures t.Valid() && t.State() == TrackerProperties.Fresh()
  {
    var s := new Storage();
    t := new Tracker.Load(s);
  }

  class Tracker {
    var balances: seq<real>
    var labels: seq<int>
    var ledger: seq<Entry>
    const store: Storage

    /** Memory and storage together, as a value. */
    ghost function State(): Page
      reads this, store
    {
      Page(Memory(balances, labels, ledger), store.Contents())
    }

    ghost predicate Valid()
      reads this, store
    {
      Consistent(State())
    }

    /** The page load: read both keys, falling back to `[0]` and `[]`, and
        number the labels from the balances. An empty stored "balances" array
        is excluded: the page never writes one. */
    constructor Load(s: Storage)
      requires s.balances != Some([])
      ensures store == s && Valid()
      ensures State() == Page(LoadFrom(s.Contents()), s.Contents())
    {
      store := s;
      var loaded := match s.balances case None => [0.0] case Some(b) => b;
      balances := loaded;
      labels := seq(|loaded|, i => i + 1);
      ledger := match s.ledger case None => [] case Some(l) => l;
      new;
      assert labels == Labels(|balances|);
    }

    /** `currentBalance()`: the last running total. While balances and ledger
        are paired it is the first balance plus the ledger's total. */
    function CurrentBalance(): (b: real)
      reads this
      requires balances != []
      ensures Paired(balances, ledger) ==> b == balances[0] + Total(ledger)
    {
      Current(Memory(balances, labels, ledger))
    }

    /** `saveData()`: write the balances under their key. */
    method SaveData()
      modifies store
      ensures store.balances == Some(balances)
      ensures store.ledger == old(store.ledger)
    {
      store.balances := Some(balances);
    }

    /** The state part of `addTransaction(amount, type)`. */
    method AddTransaction(amount: real, kind: Kind, date: Date)
      requires Valid()
      modifies this, store
      ensures Valid()
      ensures State() == AddStep(old(State()), amount, kind, date)
    {
      var newBalance := CurrentBalance() + amount;
      balances := balances + [newBalance];
      labels := labels + [|labels| + 1];
      SaveData();
      ledger := ledger + [Entry(amount, kind, date)];
      store.ledger := Some(ledger);
    }

    /** The confirm button, its input already parsed to `num`. */
    method Confirm(num: real, kind: Kind, date: Date)
      requires Valid()
      modifies this, store
      ensures Valid()
      ensures State() == ConfirmStep(old(State()), num, kind, date)
    {
      if num > 0.0 {
        AddTransaction(if kind == Earn then num else -num, kind, date);
      }
    }

    /** The undo button. `undone` is false where the page says "Nothing to undo". */
    method Undo() returns (undone: bool)
      requires Valid()
      modifies this, store
      ensures Valid()
      ensures undone == (|old(balances)| > 1)
      ensures State() == UndoStep(old(State()))
    {
      undone := |balances| > 1;
      if undone {
        balances := Pop(balances);
        labels := Pop(labels);
        SaveData();
        if |ledger| > 0 {
          ledger := Pop(ledger);
          store.ledger := Some(ledger);
        }
      }
    }

    /** The reset button, confirmation given. */
    method Reset()
      requires Valid()
      modifies this, store
      ensures Valid()
      ensures State() == ResetStep(old(State()))
    {
      balances := [0.0];
      labels := [1];
      store.balances := None;
    }
  }
}
