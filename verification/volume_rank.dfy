/** The volume-rank carousel helpers: splitting the ranking into fixed-size
    groups, and the colour and text of a price change by its sign code
    ('1' upper limit, '2' rise, '3' flat, '4' lower limit, '5' fall). */
module VolumeRank {

  /** `chunk`: consecutive groups of `size` elements, the last one possibly
      shorter. A size of 0 would never shrink the tail, so it is excluded. */
  function Chunk<T>(a: seq<T>, size: nat): (r: seq<seq<T>>)
    requires size > 0
    ensures |a| == 0 <==> r == []
    ensures forall i | 0 <= i < |r| :: 0 < |r[i]| <= size
    ensures forall i | 0 <= i < |r| - 1 :: |r[i]| == size
    decreases |a|
  {
    if |a| == 0 then []
    else if |a| <= size then [a]
    else [a[..size]] + Chunk(a[size..], size)
  }

  /** Concatenation of a sequence of groups. */
  function Flatten<T>(groups: seq<seq<T>>): seq<T> {
    if |groups| == 0 then [] else groups[0] + Flatten(groups[1..])
  }

  /** Chunking loses, duplicates and reorders nothing. */
  lemma {:induction false} ChunkFlattens<T>(a: seq<T>, size: nat)
    requires size > 0
    ensures Flatten(Chunk(a, size)) == a
    decreases |a|
  {
    if |a| == 0 {
    } else if |a| <= size {
      assert [a][1..] == [];
      assert a + [] == a;
    } else {
      var r := Chunk(a, size);
      assert r[0] == a[..size];
      assert r[1..] == Chunk(a[size..], size);
      ChunkFlattens(a[size..], size);
      assert a[..size] + a[size..] == a;
    }
  }

  /** The number of groups n is |a| / size rounded up: the smallest n with
      |a| <= n * size. */
  lemma {:induction false} ChunkCount<T>(a: seq<T>, size: nat)
    requires size > 0
    ensures var n := |Chunk(a, size)|;
      (n - 1) * size < |a| <= n * size
    decreases |a|
  {
    if |a| > size {
      var n' := |Chunk(a[size..], size)|;
      ChunkCount(a[size..], size);
      assert |Chunk(a, size)| == n' + 1;
      assert (n' + 1) * size == n' * size + size;
      assert (n' - 1) * size == n' * size - size;
    }
  }

  datatype ChangeColour = Red | Blue | Gray

  predicate Rising(sign: string) {
    sign == "1" || sign == "2"
  }

  predicate Falling(sign: string) {
    sign == "4" || sign == "5"
  }

  /** The colour of a price change: red for a rise, blue for a fall, gray
      for a flat day or an unknown code. */
  function PriceChangeColour(sign: string): (c: ChangeColour)
    ensures c == Red <==> Rising(sign)
    ensures c == Blue <==> Falling(sign)
  {
    match sign
    case "1" => Red
    case "2" => Red
    case "4" => Blue
    case "5" => Blue
    case _ => Gray
  }

  /** The change text: an up arrow for a rise, a down arrow for a fall,
      then the rate and a percent sign. */
  function FormatPriceChange(sign: string, changeRate: string): (r: string)
    ensures Rising(sign) ==> r == "↑ " + changeRate + "%"
    ensures Falling(sign) ==> r == "↓ " + changeRate + "%"
    ensures !Rising(sign) && !Falling(sign) ==> r == changeRate + "%"
  {
    match sign
    case "1" => "↑ " + changeRate + "%"
    case "2" => "↑ " + changeRate + "%"
    case "4" => "↓ " + changeRate + "%"
    case "5" => "↓ " + changeRate + "%"
    case _ => changeRate + "%"
  }

  /** The arrow and the colour always tell the same story: an up arrow
      exactly when red, a down arrow exactly when blue, no arrow exactly
      when gray. */
  lemma ArrowMatchesColour(sign: string, changeRate: string)
    ensures FormatPriceChange(sign, changeRate) == "↑ " + changeRate + "%" <==> PriceChangeColour(sign) == Red
    ensures FormatPriceChange(sign, changeRate) == "↓ " + changeRate + "%" <==> PriceChangeColour(sign) == Blue
    ensures FormatPriceChange(sign, changeRate) == changeRate + "%" <==> PriceChangeColour(sign) == Gray
  {
    var up := "↑ " + changeRate + "%";
    var down := "↓ " + changeRate + "%";
    var plain := changeRate + "%";
    assert up[0] != down[0];
    assert |up| != |plain| && |down| != |plain|;
  }
}
