/**
 * The transaction history card (frontend/components/history.tsx): records
 * sorted newest first, the five most recent unless expanded, a label per
 * status and per type. `new Date(ts).getTime()` is the `timeOf` parameter.
 */
module History {
  import opened Wrappers
  import opened ClientTx
  import Sorting

  const Collapsed: nat := 5

  /** `getStatusEmoji`. */
  function StatusLabel(status: string): (r: string)
    ensures r != "" <==> status in {"pending", "failed", "approved"}
  {
    match status
    case "pending" => "⏳ Pending"
    case "failed" => "❌ Failed"
    case "approved" => "✅ Approved"
    case _ => ""
  }

  /** The three known statuses get three different labels. */
  lemma StatusLabelsDistinct(a: string, b: string)
    requires StatusLabel(a) != "" && StatusLabel(a) == StatusLabel(b)
    ensures a == b
  {
  }

  /** A transfer or a receive whose details are non-empty shows them. */
  predicate ShowsDetails(tx: Tx)
  {
    (tx.kind == "transfer" || tx.kind == "receive") && tx.details.Some? && tx.details.value != ""
  }

  /**
   * The type column: the label starts with the type, and it is longer than
   * the type exactly when it shows the details, which are then read back
   * from between " (" and the closing ")".
   */
  function TypeLabel(tx: Tx): (r: string)
    ensures |r| >= |tx.kind| && r[..|tx.kind|] == tx.kind
    ensures |r| > |tx.kind| <==> ShowsDetails(tx)
    ensures ShowsDetails(tx) ==> |r| == |tx.kind| + |tx.details.value| + 3
    ensures ShowsDetails(tx) ==>
              r[|tx.kind|..|tx.kind| + 2] == " (" && r[|r| - 1] == ')' &&
              r[|tx.kind| + 2..|r| - 1] == tx.details.value
  {
    if ShowsDetails(tx) then
      var r := tx.kind + " (" + tx.details.value + ")";
      assert r[|tx.kind|..|tx.kind| + 2] == " (";
      assert r[|tx.kind| + 2..|r| - 1] == tx.details.value;
      r
    else tx.kind
  }

  /** `[...transactions].sort(newest first)`, shown whole or cut to its first five. */
  function Displayed(txs: seq<Tx>, showAll: bool, timeOf: string -> int): (r: seq<Tx>)
    ensures showAll ==> |r| == |txs| && multiset(r) == multiset(txs)
    ensures !showAll ==> |r| == if |txs| < Collapsed then |txs| else Collapsed
    ensures forall i :: 0 <= i < |r| ==> r[i] in txs
    ensures Sorting.SortedDesc(r, (t: Tx) => timeOf(t.timestamp))
  {
    var key := (t: Tx) => timeOf(t.timestamp);
    var sorted := Sorting.SortDesc(txs, key);
    Sorting.SortDescSorted(txs, key);
    forall i | 0 <= i < |sorted| ensures sorted[i] in txs {
      assert sorted[i] in multiset(sorted);
    }
    if showAll then sorted else sorted[..if |sorted| < Collapsed then |sorted| else Collapsed]
  }

  /** Nothing hidden by the collapsed view is newer than anything it shows. */
  lemma CollapsedShowsNewest(txs: seq<Tx>, timeOf: string -> int, shown: nat, hidden: nat)
    requires |txs| > Collapsed
    requires shown < Collapsed <= hidden < |txs|
    ensures timeOf(Displayed(txs, false, timeOf)[shown].timestamp) >=
            timeOf(Displayed(txs, true, timeOf)[hidden].timestamp)
  {
    var key := (t: Tx) => timeOf(t.timestamp);
    Sorting.TopPrefix(txs, key, Collapsed);
  }

  /** The collapsed view is the start of the expanded one. */
  lemma CollapsedIsPrefix(txs: seq<Tx>, timeOf: string -> int)
    ensures var all := Displayed(txs, true, timeOf);
      var few := Displayed(txs, false, timeOf);
      |few| <= |all| && few == all[..|few|]
  {
  }

  /** The Show All / Show Less button is rendered exactly when there are more than five records. */
  function ShowsToggle(txs: seq<Tx>): (r: bool)
    ensures r <==> |Displayed(txs, false, t => 0)| < |txs|
  {
    |txs| > Collapsed
  }
}
