/** The indicator checkbox list shared by the preference modal and the
    onboarding modal: the selection set up on open, the checkbox toggle with
    its mandatory lock, the merge on submit, and the mandatory-first display
    comparator. */
module IndicatorSelection {
  import opened SeqUtil
  import opened IndicatorPreferences

  /** On open the selection is the merge of the initial indicators. */
  function OpenSelection(initialIndicators: seq<IndicatorKey>): (sel: seq<IndicatorKey>)
    ensures sel == MergeMandatory(initialIndicators)
    ensures forall k | IsMandatory(k) :: k in sel
  {
    MergeMandatory(initialIndicators)
  }

  /** The checkbox handler: a selected key is removed (every occurrence),
      an unselected one appended. */
  function Toggle(sel: seq<IndicatorKey>, k: IndicatorKey): (r: seq<IndicatorKey>)
    ensures k in r <==> k !in sel
    ensures forall j | j != k :: j in r <==> j in sel
    ensures k !in sel ==> r == sel + [k]
    ensures k in sel ==> r == RemoveAll(sel, k)
  {
    if k in sel then RemoveAll(sel, k) else sel + [k]
  }

  /** Toggling an unselected key twice restores the selection exactly. */
  lemma ToggleTwiceRestores(sel: seq<IndicatorKey>, k: IndicatorKey)
    requires k !in sel
    ensures Toggle(Toggle(sel, k), k) == sel
  {
    RemoveAllAppend(sel, [k], k);
    RemoveAllAbsent(sel, k);
    assert RemoveAll([k], k) == [];
  }

  /** The `onCheckedChange` wiring: mandatory boxes are disabled and their
      handler does nothing. */
  function CheckboxChange(sel: seq<IndicatorKey>, k: IndicatorKey): (r: seq<IndicatorKey>)
    ensures IsMandatory(k) ==> r == sel
    ensures !IsMandatory(k) ==> (k in r <==> k !in sel)
    ensures forall j | IsMandatory(j) :: j in r <==> j in sel
  {
    if IsMandatory(k) then sel else Toggle(sel, k)
  }

  /** A run of checkbox clicks. */
  function ApplyClicks(sel: seq<IndicatorKey>, clicks: seq<IndicatorKey>): seq<IndicatorKey>
    decreases |clicks|
  {
    if |clicks| == 0 then sel else ApplyClicks(CheckboxChange(sel, clicks[0]), clicks[1..])
  }

  /** Whatever the user clicks after opening, both mandatory keys stay
      selected. */
  lemma {:induction false} ClicksKeepMandatory(sel: seq<IndicatorKey>, clicks: seq<IndicatorKey>)
    requires forall k | IsMandatory(k) :: k in sel
    ensures forall k | IsMandatory(k) :: k in ApplyClicks(sel, clicks)
    decreases |clicks|
  {
    if |clicks| > 0 {
      ClicksKeepMandatory(CheckboxChange(sel, clicks[0]), clicks[1..]);
    }
  }

  /** Submit sends the merge of the selection. */
  function SubmitSelection(sel: seq<IndicatorKey>): (r: seq<IndicatorKey>)
    ensures |r| >= 2 && r[0] == EPS && r[1] == PBR && NoDuplicates(r)
    ensures forall k :: k in r <==> k in Mandatory || k in sel
  {
    MergeMandatory(sel)
  }

  /** The display comparator: mandatory keys before the others, otherwise
      the labels' locale order, which is a parameter here. */
  function DisplayCompare(a: IndicatorKey, b: IndicatorKey, localeCompare: (string, string) -> int): (c: int)
    ensures IsMandatory(a) && !IsMandatory(b) ==> c < 0
    ensures !IsMandatory(a) && IsMandatory(b) ==> c > 0
    ensures IsMandatory(a) == IsMandatory(b) ==> c == localeCompare(Label(a), Label(b))
  {
    if IsMandatory(a) && !IsMandatory(b) then -1
    else if !IsMandatory(a) && IsMandatory(b) then 1
    else localeCompare(Label(a), Label(b))
  }

  /** Any arrangement in which no pair is out of order for the comparator
      lists every mandatory key before every other key. */
  lemma SortedOrderPutsMandatoryFirst(order: seq<IndicatorKey>, localeCompare: (string, string) -> int)
    requires forall i, j | 0 <= i < j < |order| :: DisplayCompare(order[i], order[j], localeCompare) <= 0
    ensures forall i, j | 0 <= i < j < |order| && IsMandatory(order[j]) :: IsMandatory(order[i])
  {
  }
}
