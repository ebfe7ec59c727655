/** Where the stacked-area charts put their text.  Bands are stacked in
    order, each starting at the exclusive prefix sum of the bands below
    it; a label sits at its band's centre unless a separation rule moves
    it up.  Each pass is a specification function over one year's row of
    band values, producing the (band, height, colour) triples that the
    charts hand to `ax.text`; the loops of the chart scripts are proved
    to compute exactly these. */
module Stacking {
  import opened Wrappers
  import opened Seqs

  datatype TextColor = Black | White | DarkRed

  /** One piece of text: the band it names, its height and its colour. */
  datatype Label = Label(band: nat, y: real, color: TextColor)

  /** The labels of a pass and the height of the last one placed. */
  datatype Pass = Pass(labels: seq<Label>, last: Option<real>)

  /** `np.cumsum`: running totals, inclusive. */
  function Cumsum(row: seq<real>): (c: seq<real>)
    ensures |c| == |row|
    ensures forall i :: 0 <= i < |row| ==> c[i] == Sum(row[..i + 1])
    decreases |row|
  {
    if row == [] then []
    else
      var init := row[..|row| - 1];
      var c := Cumsum(init);
      forall i | 0 <= i < |init| ensures c[i] == Sum(row[..i + 1]) {
        assert init[..i + 1] == row[..i + 1];
      }
      assert row[..|row|] == row;
      c + [Sum(row)]
  }

  /** `np.cumsum(v) - v`: the base of every band, which is the total of
      the bands stacked below it. */
  function Bases(row: seq<real>): (b: seq<real>)
    ensures |b| == |row|
    ensures forall i :: 0 <= i < |row| ==> b[i] == Sum(row[..i])
  {
    var c := Cumsum(row);
    CumsumMinusValue(row);
    seq(|row|, i requires 0 <= i < |row| => c[i] - row[i])
  }

  lemma CumsumMinusValue(row: seq<real>)
    ensures forall i :: 0 <= i < |row| ==> Cumsum(row)[i] - row[i] == Sum(row[..i])
  {
    forall i | 0 <= i < |row| ensures Cumsum(row)[i] - row[i] == Sum(row[..i]) {
      SumStep(row, i);
    }
  }

  /** Middle height of band `i`: its base plus half its value.  A band
      with a positive value has its centre strictly inside it. */
  function Centre(row: seq<real>, i: nat): (c: real)
    requires i < |row|
    ensures row[i] > 0.0 ==> Sum(row[..i]) < c < Sum(row[..i + 1])
  {
    SumStep(row, i);
    Sum(row[..i]) + row[i] / 2.0
  }

  /** Centres do not depend on the bands stacked above. */
  lemma CentrePrefix(row: seq<real>, n: nat, i: nat)
    requires i < n <= |row|
    ensures Centre(row[..n], i) == Centre(row, i)
  {
    assert row[..n][..i] == row[..i];
  }

  /** The separation rule: a label closer than `minSep` to the previous
      one goes to exactly `minSep` above it; otherwise it stays.  A moved
      label never goes down, and the result keeps at least `minSep` from
      the previous label. */
  function Nudge(last: Option<real>, y: real, minSep: real): (r: real)
    ensures r == y || (last.Some? && r == last.value + minSep)
    ensures r >= y
    ensures last.Some? ==> Abs(r - last.value) >= minSep
  {
    if last.Some? && Abs(y - last.value) < minSep then last.value + minSep else y
  }

  /** Indices of the set entries of a mask, in increasing order. */
  function TrueIndices(mask: seq<bool>): (r: seq<nat>)
    ensures forall j :: 0 <= j < |r| ==> r[j] < |mask| && mask[r[j]]
    ensures forall j, k :: 0 <= j < k < |r| ==> r[j] < r[k]
    ensures forall i :: 0 <= i < |mask| && mask[i] ==> i in r
    decreases |mask|
  {
    if mask == [] then []
    else
      var n := |mask| - 1;
      var prev := TrueIndices(mask[..n]);
      prev + (if mask[n] then [n] else [])
  }

  function BandsOf(labels: seq<Label>): (r: seq<nat>)
    ensures |r| == |labels| && forall j :: 0 <= j < |r| ==> r[j] == labels[j].band
  {
    seq(|labels|, j requires 0 <= j < |labels| => labels[j].band)
  }

  lemma BandsOfAppend(labels: seq<Label>, l: Label)
    ensures BandsOf(labels + [l]) == BandsOf(labels) + [l.band]
  {
    var r := labels + [l];
    assert forall j :: 0 <= j < |labels| ==> r[j] == labels[j];
  }

  /** Bands that get a start or end label: those with a positive value. */
  function PositiveMask(row: seq<real>): (m: seq<bool>)
    ensures |m| == |row| && forall i :: 0 <= i < |row| ==> (m[i] <==> row[i] > 0.0)
  {
    seq(|row|, i requires 0 <= i < |row| => row[i] > 0.0)
  }

  predicate LastTracks(p: Pass) {
    p.last == if p.labels == [] then None else Some(p.labels[|p.labels| - 1].y)
  }

  /** The employment chart's start or end labels: one dark-red label per
      positive band, at its centre, moved up by `Nudge` when it comes
      closer than `minSep` to the label placed just before it; zero bands
      are skipped and leave the previous height in place. */
  function SeparatedPass(row: seq<real>, minSep: real): Pass
    decreases |row|
  {
    if row == [] then Pass([], None)
    else
      var n := |row| - 1;
      var prev := SeparatedPass(row[..n], minSep);
      if row[n] > 0.0 then
        var y := Nudge(prev.last, Centre(row, n), minSep);
        Pass(prev.labels + [Label(n, y, DarkRed)], Some(y))
      else prev
  }

  /** Exactly the positive bands are labelled, in stacking order, and the
      remembered height is that of the last label placed. */
  lemma {:induction false} SeparatedPassBands(row: seq<real>, minSep: real)
    ensures BandsOf(SeparatedPass(row, minSep).labels) == TrueIndices(PositiveMask(row))
    ensures LastTracks(SeparatedPass(row, minSep))
    decreases |row|
  {
    if row != [] {
      var n := |row| - 1;
      SeparatedPassBands(row[..n], minSep);
      assert PositiveMask(row)[..n] == PositiveMask(row[..n]);
      var prev := SeparatedPass(row[..n], minSep);
      if row[n] > 0.0 {
        var y := Nudge(prev.last, Centre(row, n), minSep);
        BandsOfAppend(prev.labels, Label(n, y, DarkRed));
      }
    }
  }

  /** The remembered height is that of the last label placed. */
  lemma {:induction false} SeparatedPassLast(row: seq<real>, minSep: real)
    ensures LastTracks(SeparatedPass(row, minSep))
    decreases |row|
  {
    if row != [] {
      SeparatedPassLast(row[..|row| - 1], minSep);
    }
  }

  /** Every label is dark red and never below its band's centre. */
  lemma {:induction false} SeparatedPassHeights(row: seq<real>, minSep: real)
    ensures forall l :: l in SeparatedPass(row, minSep).labels ==>
              l.band < |row| && l.color == DarkRed && l.y >= Centre(row, l.band)
    decreases |row|
  {
    if row != [] {
      var n := |row| - 1;
      SeparatedPassHeights(row[..n], minSep);
      forall l | l in SeparatedPass(row[..n], minSep).labels
        ensures l.band < |row| && Centre(row[..n], l.band) == Centre(row, l.band)
      {
        CentrePrefix(row, n, l.band);
      }
    }
  }

  /** Consecutive labels of a pass keep at least `minSep` apart, and
      each is either at its band's centre or exactly `minSep` above the
      label before it. */
  predicate Gapped(row: seq<real>, ls: seq<Label>, minSep: real) {
    forall j :: 0 < j < |ls| ==> GapAfter(row, ls[j - 1], ls[j], minSep)
  }

  /** Label `l`, placed right after `prev`, keeps at least `minSep` from
      it and sits at its band's centre or exactly `minSep` above `prev`. */
  predicate GapAfter(row: seq<real>, prev: Label, l: Label, minSep: real) {
    && Abs(l.y - prev.y) >= minSep
    && l.band < |row|
    && (l.y == Centre(row, l.band) || l.y == prev.y + minSep)
  }

  /** Each label keeps at least `minSep` from the one placed just before
      it, and is either at its centre or exactly `minSep` above that
      previous label. */
  lemma {:induction false} SeparatedPassGaps(row: seq<real>, minSep: real)
    ensures Gapped(row, SeparatedPass(row, minSep).labels, minSep)
    decreases |row|
  {
    if row != [] {
      var n := |row| - 1;
      SeparatedPassGaps(row[..n], minSep);
      SeparatedPassLast(row[..n], minSep);
      var prev := SeparatedPass(row[..n], minSep);
      GappedExtends(row, n, prev.labels, minSep);
      if row[n] > 0.0 {
        var y := Nudge(prev.last, Centre(row, n), minSep);
        GappedAppend(row, prev.labels, Label(n, y, DarkRed), minSep);
      }
    }
  }

  /** A label placed by the separation rule after the last one keeps the
      gaps. */
  lemma GappedAppend(row: seq<real>, ls: seq<Label>, l: Label, minSep: real)
    requires Gapped(row, ls, minSep) && l.band < |row|
    requires ls != [] ==> GapAfter(row, ls[|ls| - 1], l, minSep)
    ensures Gapped(row, ls + [l], minSep)
  {
    var r := ls + [l];
    forall j | 0 < j < |r| ensures GapAfter(row, r[j - 1], r[j], minSep) {
      if j < |ls| {
        assert r[j] == ls[j] && r[j - 1] == ls[j - 1];
      } else {
        assert r[j] == l && r[j - 1] == ls[|ls| - 1];
      }
    }
  }

  /** Gaps stated against a prefix of the row hold against the whole row. */
  lemma GappedExtends(row: seq<real>, n: nat, ls: seq<Label>, minSep: real)
    requires n <= |row|
    requires Gapped(row[..n], ls, minSep)
    ensures Gapped(row, ls, minSep)
  {
    forall j | 0 < j < |ls| ensures GapAfter(row, ls[j - 1], ls[j], minSep) {
      assert GapAfter(row[..n], ls[j - 1], ls[j], minSep);
      CentrePrefix(row, n, ls[j].band);
    }
  }

  /** The separation rule only looks one label back: on four equal bands
      of 10 with `minSep` 30 the labels go to 5, 35, 65 and 35, so the
      second and fourth labels coincide. */
  lemma NonAdjacentLabelsMayCoincide()
    ensures |SeparatedPass([10.0, 10.0, 10.0, 10.0], 30.0).labels| == 4
    ensures SeparatedPass([10.0, 10.0, 10.0, 10.0], 30.0).labels[1].y
         == SeparatedPass([10.0, 10.0, 10.0, 10.0], 30.0).labels[3].y
  {
    var r1 := [10.0];
    var r2 := r1 + [10.0];
    var r3 := r2 + [10.0];
    var row := r3 + [10.0];
    assert row == [10.0, 10.0, 10.0, 10.0];
    assert r1[..0] == [];
    assert r2[..1] == r1;
    assert r3[..2] == r2;
    assert row[..3] == r3;
    assert Sum(r1) == 10.0;
    assert Sum(r2) == 20.0;
    assert Sum(r3) == 30.0;
    var p1 := SeparatedPass(r1, 30.0);
    assert p1.labels == [Label(0, 5.0, DarkRed)];
    var p2 := SeparatedPass(r2, 30.0);
    assert p2.labels == p1.labels + [Label(1, 35.0, DarkRed)];
    var p3 := SeparatedPass(r3, 30.0);
    assert p3.labels == p2.labels + [Label(2, 65.0, DarkRed)];
    var p4 := SeparatedPass(row, 30.0);
    assert p4.labels == p3.labels + [Label(3, 35.0, DarkRed)];
  }

  /** Bands that get a midpoint label in the employment chart: the
      positive ones and the first smallest one, whatever its value. */
  function MidMask(row: seq<real>, smallest: nat): (m: seq<bool>)
    ensures |m| == |row|
    ensures forall i :: 0 <= i < |row| ==> (m[i] <==> row[i] > 0.0 || i == smallest)
  {
    seq(|row|, i requires 0 <= i < |row| => row[i] > 0.0 || i == smallest)
  }

  /** Raw midpoint height: the running offset plus half the value, with a
      negative value counted as zero. */
  function MidHeight(row: seq<real>, i: nat): (y: real)
    requires i < |row|
    ensures row[i] > 0.0 ==> y == Centre(row, i)
    ensures row[i] <= 0.0 ==> y == Sum(row[..i])
  {
    Sum(row[..i]) + Max(row[i], 0.0) / 2.0
  }

  /** The employment chart's sector names at the middle year: a label for
      every positive band and for band `smallest` (the first smallest),
      each at its raw midpoint height; only the smallest band's label is
      moved by the separation rule.  The running offset takes in every
      band, labelled or not. */
  function MidPass(row: seq<real>, smallest: nat, colors: seq<TextColor>, minSep: real): Pass
    requires |colors| == |row|
    decreases |row|
  {
    if row == [] then Pass([], None)
    else
      var n := |row| - 1;
      var prev := MidPass(row[..n], smallest, colors[..n], minSep);
      if row[n] > 0.0 || n == smallest then
        var raw := MidHeight(row, n);
        var y := if n == smallest then Nudge(prev.last, raw, minSep) else raw;
        Pass(prev.labels + [Label(n, y, colors[n])], Some(y))
      else prev
  }

  /** Exactly the positive bands and the smallest band are labelled, in
      stacking order; in particular the smallest band always is. */
  lemma MidPassBands(row: seq<real>, smallest: nat, colors: seq<TextColor>, minSep: real)
    requires |colors| == |row|
    ensures BandsOf(MidPass(row, smallest, colors, minSep).labels) == TrueIndices(MidMask(row, smallest))
    ensures smallest < |row| ==> smallest in BandsOf(MidPass(row, smallest, colors, minSep).labels)
  {
    MidPassBandOrder(row, smallest, colors, minSep);
    if smallest < |row| {
      assert MidMask(row, smallest)[smallest];
    }
  }

  lemma {:induction false} MidPassBandOrder(row: seq<real>, smallest: nat, colors: seq<TextColor>, minSep: real)
    requires |colors| == |row|
    ensures BandsOf(MidPass(row, smallest, colors, minSep).labels) == TrueIndices(MidMask(row, smallest))
    decreases |row|
  {
    if row != [] {
      var n := |row| - 1;
      MidPassBandOrder(row[..n], smallest, colors[..n], minSep);
      assert MidMask(row, smallest)[..n] == MidMask(row[..n], smallest);
      var prev := MidPass(row[..n], smallest, colors[..n], minSep);
      if row[n] > 0.0 || n == smallest {
        var raw := MidHeight(row, n);
        var y := if n == smallest then Nudge(prev.last, raw, minSep) else raw;
        BandsOfAppend(prev.labels, Label(n, y, colors[n]));
      }
    }
  }

  lemma {:induction false} MidPassLast(row: seq<real>, smallest: nat, colors: seq<TextColor>, minSep: real)
    requires |colors| == |row|
    ensures LastTracks(MidPass(row, smallest, colors, minSep))
    decreases |row|
  {
    if row != [] {
      var n := |row| - 1;
      MidPassLast(row[..n], smallest, colors[..n], minSep);
    }
  }

  lemma MidHeightPrefix(row: seq<real>, n: nat, i: nat)
    requires i < n <= |row|
    ensures MidHeight(row[..n], i) == MidHeight(row, i)
  {
    assert row[..n][..i] == row[..i];
  }

  /** Every label has its band's colour; every label but the smallest
      band's sits exactly at its band's centre, and the smallest band's
      is never below its raw midpoint height. */
  lemma {:induction false} MidPassHeights(row: seq<real>, smallest: nat, colors: seq<TextColor>, minSep: real)
    requires |colors| == |row|
    ensures forall l :: l in MidPass(row, smallest, colors, minSep).labels ==>
              l.band < |row| && l.color == colors[l.band]
              && (l.band != smallest ==> l.y == Centre(row, l.band))
              && (l.band == smallest ==> l.y >= MidHeight(row, l.band))
    decreases |row|
  {
    if row != [] {
      var n := |row| - 1;
      MidPassHeights(row[..n], smallest, colors[..n], minSep);
      forall l | l in MidPass(row[..n], smallest, colors[..n], minSep).labels
        ensures l.band < |row| && colors[..n][l.band] == colors[l.band]
             && Centre(row[..n], l.band) == Centre(row, l.band)
             && MidHeight(row[..n], l.band) == MidHeight(row, l.band)
      {
        CentrePrefix(row, n, l.band);
        MidHeightPrefix(row, n, l.band);
      }
    }
  }

  /** The smallest band's label keeps at least `minSep` from the label
      placed just before it. */
  predicate SmallestSeparated(ls: seq<Label>, smallest: nat, minSep: real) {
    forall j :: 0 < j < |ls| && ls[j].band == smallest ==> Abs(ls[j].y - ls[j - 1].y) >= minSep
  }

  lemma {:induction false} MidPassSmallestGap(row: seq<real>, smallest: nat, colors: seq<TextColor>, minSep: real)
    requires |colors| == |row|
    ensures SmallestSeparated(MidPass(row, smallest, colors, minSep).labels, smallest, minSep)
    decreases |row|
  {
    if row != [] {
      var n := |row| - 1;
      MidPassSmallestGap(row[..n], smallest, colors[..n], minSep);
      MidPassLast(row[..n], smallest, colors[..n], minSep);
      var prev := MidPass(row[..n], smallest, colors[..n], minSep);
      if row[n] > 0.0 || n == smallest {
        var raw := MidHeight(row, n);
        var y := if n == smallest then Nudge(prev.last, raw, minSep) else raw;
        SmallestSeparatedAppend(prev.labels, Label(n, y, colors[n]), smallest, minSep);
      }
    }
  }

  lemma SmallestSeparatedAppend(ls: seq<Label>, l: Label, smallest: nat, minSep: real)
    requires SmallestSeparated(ls, smallest, minSep)
    requires ls != [] && l.band == smallest ==> Abs(l.y - ls[|ls| - 1].y) >= minSep
    ensures SmallestSeparated(ls + [l], smallest, minSep)
  {
    var r := ls + [l];
    forall j | 0 < j < |r| && r[j].band == smallest ensures Abs(r[j].y - r[j - 1].y) >= minSep {
      if j < |ls| {
        assert r[j] == ls[j] && r[j - 1] == ls[j - 1];
      } else {
        assert r[j] == l && r[j - 1] == ls[|ls| - 1];
      }
    }
  }

  /** The GVA chart's passes: a label for every positive band, exactly at
      its centre, in the band's colour; no separation rule. */
  function CentrePass(row: seq<real>, colors: seq<TextColor>): (ls: seq<Label>)
    requires |colors| == |row|
    decreases |row|
  {
    if row == [] then []
    else
      var n := |row| - 1;
      var prev := CentrePass(row[..n], colors[..n]);
      if row[n] > 0.0 then prev + [Label(n, Centre(row, n), colors[n])] else prev
  }

  /** Exactly the positive bands are labelled, in stacking order. */
  lemma {:induction false} CentrePassBands(row: seq<real>, colors: seq<TextColor>)
    requires |colors| == |row|
    ensures BandsOf(CentrePass(row, colors)) == TrueIndices(PositiveMask(row))
    decreases |row|
  {
    if row != [] {
      var n := |row| - 1;
      CentrePassBands(row[..n], colors[..n]);
      assert PositiveMask(row)[..n] == PositiveMask(row[..n]);
      var prev := CentrePass(row[..n], colors[..n]);
      if row[n] > 0.0 {
        BandsOfAppend(prev, Label(n, Centre(row, n), colors[n]));
      }
    }
  }

  /** Every label sits at its band's centre, strictly inside the band,
      in the band's colour. */
  lemma {:induction false} CentrePassHeights(row: seq<real>, colors: seq<TextColor>)
    requires |colors| == |row|
    ensures forall l :: l in CentrePass(row, colors) ==>
              l.band < |row| && l.color == colors[l.band] && l.y == Centre(row, l.band)
              && Sum(row[..l.band]) < l.y < Sum(row[..l.band + 1])
    decreases |row|
  {
    if row != [] {
      var n := |row| - 1;
      CentrePassHeights(row[..n], colors[..n]);
      forall l | l in CentrePass(row[..n], colors[..n])
        ensures l.band < |row| && colors[..n][l.band] == colors[l.band]
             && Centre(row[..n], l.band) == Centre(row, l.band)
             && row[..n][..l.band] == row[..l.band] && row[..n][..l.band + 1] == row[..l.band + 1]
      {
        CentrePrefix(row, n, l.band);
      }
    }
  }

  /** With no negative band the centre labels rise strictly in stacking
      order, so they never share a height. */
  lemma {:induction false} CentrePassRises(row: seq<real>, colors: seq<TextColor>)
    requires |colors| == |row|
    requires forall i :: 0 <= i < |row| ==> row[i] >= 0.0
    ensures forall j, k :: 0 <= j < k < |CentrePass(row, colors)| ==>
              CentrePass(row, colors)[j].y < CentrePass(row, colors)[k].y
    decreases |row|
  {
    if row != [] {
      var n := |row| - 1;
      var prev := CentrePass(row[..n], colors[..n]);
      CentrePassRises(row[..n], colors[..n]);
      CentrePassHeights(row[..n], colors[..n]);
      if row[n] > 0.0 {
        var ls := prev + [Label(n, Centre(row, n), colors[n])];
        forall j | 0 <= j < |prev| ensures prev[j].y < Centre(row, n) {
          var b := prev[j].band;
          assert prev[j] in prev;
          SumPrefixMonotone(row, b + 1, n);
          CentrePrefix(row, n, b);
        }
        assert forall j :: 0 <= j < |prev| ==> ls[j] == prev[j];
      }
    }
  }
}
