/** The preferred-indicator context: the indicator keys, the mandatory pair
    EPS and PBR, and the merge `Array.from(new Set([...MANDATORY, ...xs]))`
    applied on load and on every save. */
module IndicatorPreferences {
  import opened SeqUtil
  import opened BrowserStorage

  datatype IndicatorKey = PER | PBR | EPS | W52HighRatio | BPS | ForeignerRatio

  /** The keys in the order they are declared. */
  const AllIndicators: seq<IndicatorKey> := [PER, PBR, EPS, W52HighRatio, BPS, ForeignerRatio]

  /** The indicators every preference list contains. */
  const Mandatory: seq<IndicatorKey> := [EPS, PBR]

  predicate IsMandatory(k: IndicatorKey) {
    k in Mandatory
  }

  /** The display label of each indicator. */
  function Label(k: IndicatorKey): string {
    match k
    case PER => "PER (주가수익비율)"
    case PBR => "PBR (주가순자산비율)"
    case EPS => "EPS (주당순이익)"
    case W52HighRatio => "52주 최고가 대비 하락률"
    case BPS => "BPS (주당순자산가치)"
    case ForeignerRatio => "외국인 소진율 (%)"
  }

  /** A key is its own de-duplication key. */
  function Id(k: IndicatorKey): IndicatorKey {
    k
  }

  /** `Array.from(new Set(xs))`, skipping keys in `seen`. */
  function Distinct(xs: seq<IndicatorKey>, seen: set<IndicatorKey>): seq<IndicatorKey> {
    DedupBy(xs, seen, Id)
  }

  /** The keys of a list are its elements. */
  lemma KeysAreElements(xs: seq<IndicatorKey>)
    ensures forall k :: k in xs <==> k in KeysOf(xs, Id)
  {
    forall k ensures k in xs <==> k in KeysOf(xs, Id) {
      if k in xs {
        var i :| 0 <= i < |xs| && xs[i] == k;
        assert Id(xs[i]) == k;
      }
    }
  }

  /** Pairwise distinct entries. */
  predicate NoDuplicates(xs: seq<IndicatorKey>) {
    forall i, j | 0 <= i < j < |xs| :: xs[i] != xs[j]
  }

  /** The mandatory-first merge: EPS, then PBR, then the other input keys
      in order of first occurrence, with no repetition and nothing lost. */
  function MergeMandatory(xs: seq<IndicatorKey>): (r: seq<IndicatorKey>)
    ensures |r| >= 2 && r[0] == EPS && r[1] == PBR
    ensures r[2..] == Distinct(xs, {EPS, PBR})
    ensures InFirstOccurrenceOrder(r[2..], xs, Id)
    ensures NoDuplicates(r)
    ensures forall k :: k in r <==> k in Mandatory || k in xs
  {
    var s := Mandatory + xs;
    var r := Distinct(s, {});
    assert s[0] == EPS && s[1..][0] == PBR && s[1..][1..] == xs;
    assert {} + {EPS} == {EPS} && {EPS} + {PBR} == {EPS, PBR};
    assert Distinct(s, {}) == [EPS] + Distinct(s[1..], {EPS});
    assert Distinct(s[1..], {EPS}) == [PBR] + Distinct(xs, {EPS, PBR});
    assert r == [EPS, PBR] + Distinct(xs, {EPS, PBR});
    KeysAreElements(r);
    KeysAreElements(s);
    r
  }

  /** The non-mandatory part of a merged list is already de-duplicated
      against the mandatory keys. */
  lemma MergedTailIsDistinct(xs: seq<IndicatorKey>)
    ensures Distinct(MergeMandatory(xs), {EPS, PBR}) == MergeMandatory(xs)[2..]
  {
    var m := MergeMandatory(xs);
    var tail := Distinct(xs, {EPS, PBR});
    assert m == [EPS, PBR] + tail;
    DedupBySkipSeen([EPS, PBR], tail, {EPS, PBR}, Id);
    DedupByDistinct(tail, {EPS, PBR}, Id);
  }

  /** Merging an already merged list changes nothing. */
  lemma MergeIdempotent(xs: seq<IndicatorKey>)
    ensures MergeMandatory(MergeMandatory(xs)) == MergeMandatory(xs)
  {
    var m := MergeMandatory(xs);
    var mm := MergeMandatory(m);
    MergedTailIsDistinct(xs);
    assert mm[2..] == m[2..];
    assert mm[..2] == m[..2];
    assert mm == mm[..2] + mm[2..];
    assert m == m[..2] + m[2..];
  }

  /** Merging a longer list extends the merge of its prefix: the keys the
      extension brings that are neither mandatory nor already present are
      appended, in first-occurrence order. */
  lemma MergeExtends(xs: seq<IndicatorKey>, ys: seq<IndicatorKey>)
    ensures MergeMandatory(xs + ys) == MergeMandatory(xs) + Distinct(ys, {EPS, PBR} + KeysOf(xs, Id))
  {
    DedupByAppend(xs, ys, {EPS, PBR}, Id);
  }

  /** A merged list always holds both mandatory keys, so it is never empty. */
  lemma MergeContainsMandatory(xs: seq<IndicatorKey>)
    ensures forall k | IsMandatory(k) :: k in MergeMandatory(xs)
    ensures |MergeMandatory(xs)| > 0
  {
  }

  /** The mount-time load: no stored list gives exactly the mandatory pair;
      a stored list is merged; any failure falls back to the mandatory pair. */
  function LoadPreferences(stored: Stored<seq<IndicatorKey>>, readFails: bool): (r: seq<IndicatorKey>)
    ensures readFails || !stored.Present? ==> r == [EPS, PBR]
    ensures !readFails && stored.Present? ==> r == MergeMandatory(stored.value)
    ensures forall k | IsMandatory(k) :: k in r
  {
    if !readFails && stored.Present? then MergeMandatory(stored.value) else Mandatory
  }

  /** `setPreferences`: the merge is saved and becomes the state; if saving
      throws, the state stays as it was. */
  function SetPreferences(current: seq<IndicatorKey>, newPreferences: seq<IndicatorKey>, storageOk: bool): (r: seq<IndicatorKey>)
    ensures storageOk ==> r == MergeMandatory(newPreferences)
    ensures !storageOk ==> r == current
  {
    if storageOk then MergeMandatory(newPreferences) else current
  }
}
