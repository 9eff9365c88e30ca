/**
  Laws of the MGF reader. `next` is described independently of its loop: a
  line that does not stop the scan changes the gathered values by `Step`, so
  up to the first line that stops it the values are a fold of the lines. A
  scan then ends in one of four ways: the end of the input (an error when a
  block is open, the end of the iteration otherwise), `END IONS` (the folded
  values), or a peak line without a first or second word.

  What the fold holds: each keyed value is the one on the last line with its
  key, the block is open once a `BEGIN IONS` line was seen, and the m/z and
  intensity texts are the first and second words of the peak lines, in file
  order, so the two lists have equal length.
 */
module MgfReaderLaws {
  import opened Base
  import opened MgfReading

  /** A line that does not end the call of `next`: anything but `END IONS` and a peak line with fewer than two words. */
  predicate Passes(l: MgfLine) {
    !l.EndIons? && !(l.Peak? && |l.words| < 2)
  }

  /** What a line that passes does to the gathered values. */
  function Step(acc: Pending, l: MgfLine): Pending {
    match LineEffect(l, acc)
    case Continue(next) => next
    case Stop(_) => acc
  }

  /** The lines that pass are exactly those after which `next` goes on, whatever was gathered. */
  lemma PassesContinues(l: MgfLine, acc: Pending)
    ensures Passes(l) <==> LineEffect(l, acc).Continue?
    ensures Passes(l) ==> LineEffect(l, acc) == Continue(Step(acc, l))
  {
  }

  /** A scan past a line that passes goes on from the next line with that line's step. */
  lemma ScanPast(ls: seq<MgfLine>, i: nat, acc: Pending)
    requires i < |ls| && Passes(ls[i])
    ensures Scan(ls, i, acc) == Scan(ls, i + 1, Step(acc, ls[i]))
  {
    PassesContinues(ls[i], acc);
  }

  /** The lines applied in order. */
  function Fold(xs: seq<MgfLine>, acc: Pending): Pending
    decreases |xs|
  {
    if |xs| == 0 then acc else Step(Fold(xs[..|xs| - 1], acc), xs[|xs| - 1])
  }

  /** The first line at or after `i` that ends the scan, or the end of the input. */
  function StopAt(ls: seq<MgfLine>, i: nat): (j: nat)
    requires i <= |ls|
    ensures i <= j <= |ls|
    ensures forall m :: i <= m < j ==> Passes(ls[m])
    ensures j < |ls| ==> !Passes(ls[j])
    decreases |ls| - i
  {
    if i == |ls| || !Passes(ls[i]) then i else StopAt(ls, i + 1)
  }

  /** Up to a line `j` that the lines before it let through, a scan is a scan from `j` with the folded values. */
  lemma {:induction false} ScanFold(ls: seq<MgfLine>, i: nat, j: nat, acc: Pending)
    requires i <= j <= |ls|
    requires forall m :: i <= m < j ==> Passes(ls[m])
    ensures Scan(ls, i, acc) == Scan(ls, j, Fold(ls[i..j], acc))
    decreases j - i
  {
    if j == i {
      assert ls[i..j] == [];
    } else {
      ScanFold(ls, i, j - 1, acc);
      var xs := ls[i..j];
      assert xs[..|xs| - 1] == ls[i..j - 1] && xs[|xs| - 1] == ls[j - 1];
      ScanPast(ls, j - 1, Fold(ls[i..j - 1], acc));
    }
  }

  /**
    What one call of `next` returns, in terms of the fold: the values at
    `END IONS`; `MzMissing` or `IntensityMissing` at a peak line without its
    first or second word; at the end of the input, `IncompleteSpectrum` when a
    block is open and the end of the iteration otherwise.
   */
  lemma ScanResult(ls: seq<MgfLine>, i: nat, acc: Pending)
    requires i <= |ls|
    ensures var j := StopAt(ls, i);
            var p := Fold(ls[i..j], acc);
            Scan(ls, i, acc) ==
              if j == |ls| then (if p.inSpectrum then Some(Err(IncompleteSpectrum)) else None, j)
              else if ls[j].EndIons? then (Some(Ok(p)), j + 1)
              else if |ls[j].words| == 0 then (Some(Err(MzMissing)), j + 1)
              else (Some(Err(IntensityMissing)), j + 1)
  {
    ScanFold(ls, i, StopAt(ls, i), acc);
  }

  // ---------------------------------------------------------------------------
  // What the fold holds

  /** The keys of the `KEY=value` lines. */
  datatype Key = TitleKey | PepMassKey | RtInSecondsKey | ChargeKey

  /** The value a line gives a key, if it is a line of that key. */
  function KeyValue(l: MgfLine, key: Key): Option<string> {
    match (l, key)
    case (Title(v), TitleKey) => Some(v)
    case (PepMass(v), PepMassKey) => Some(v)
    case (RtInSeconds(v), RtInSecondsKey) => Some(v)
    case (Charge(v), ChargeKey) => Some(v)
    case _ => None
  }

  /** The value of the last line of the key, or `None` when there is none. */
  function LastValue(xs: seq<MgfLine>, key: Key): (r: Option<string>)
    ensures r.None? <==> forall m :: 0 <= m < |xs| ==> KeyValue(xs[m], key).None?
    ensures r.Some? ==> exists m :: 0 <= m < |xs| && KeyValue(xs[m], key) == r
                                    && forall n :: m < n < |xs| ==> KeyValue(xs[n], key).None?
    decreases |xs|
  {
    if |xs| == 0 then None
    else
      var l := xs[|xs| - 1];
      var prefix := xs[..|xs| - 1];
      assert forall m :: 0 <= m < |prefix| ==> prefix[m] == xs[m];
      if KeyValue(l, key).Some? then KeyValue(l, key) else LastValue(prefix, key)
  }

  /** The first words of the peak lines that have two words, in order. */
  function FirstWords(xs: seq<MgfLine>): (r: seq<string>)
    decreases |xs|
  {
    if |xs| == 0 then []
    else
      var l := xs[|xs| - 1];
      FirstWords(xs[..|xs| - 1]) + (if l.Peak? && |l.words| >= 2 then [l.words[0]] else [])
  }

  /** The second words of the same lines. */
  function SecondWords(xs: seq<MgfLine>): (r: seq<string>)
    ensures |r| == |FirstWords(xs)|
    decreases |xs|
  {
    if |xs| == 0 then []
    else
      var l := xs[|xs| - 1];
      SecondWords(xs[..|xs| - 1]) + (if l.Peak? && |l.words| >= 2 then [l.words[1]] else [])
  }

  /** The gathered value of a key (the title and the precursor's m/z are always there). */
  function Value(p: Pending, key: Key): Option<string> {
    match key
    case TitleKey => Some(p.title)
    case PepMassKey => Some(p.precursorMz)
    case RtInSecondsKey => p.retentionTime
    case ChargeKey => p.precursorCharge
  }

  function OrKeep(o: Option<string>, d: Option<string>): Option<string> {
    if o.Some? then o else d
  }

  lemma StepValue(q: Pending, l: MgfLine, key: Key)
    ensures Value(Step(q, l), key) == OrKeep(KeyValue(l, key), Value(q, key))
  {
  }

  /** Each keyed value is that of the last line with its key, or the value before when there is none. */
  lemma {:induction false} FoldKeyed(xs: seq<MgfLine>, acc: Pending, key: Key)
    ensures Value(Fold(xs, acc), key) == OrKeep(LastValue(xs, key), Value(acc, key))
    decreases |xs|
  {
    if |xs| > 0 {
      FoldKeyed(xs[..|xs| - 1], acc, key);
      StepValue(Fold(xs[..|xs| - 1], acc), xs[|xs| - 1], key);
    }
  }

  /** The block is open once a `BEGIN IONS` line was seen. */
  lemma {:induction false} FoldOpen(xs: seq<MgfLine>, acc: Pending)
    ensures Fold(xs, acc).inSpectrum <==> acc.inSpectrum || exists m :: 0 <= m < |xs| && xs[m].BeginIons?
    decreases |xs|
  {
    if |xs| > 0 {
      var prefix := xs[..|xs| - 1];
      FoldOpen(prefix, acc);
      assert forall m :: 0 <= m < |prefix| ==> prefix[m] == xs[m];
      if xs[|xs| - 1].BeginIons? {
        assert exists m :: 0 <= m < |xs| && xs[m].BeginIons?;
      }
    }
  }

  /** The peak texts are appended in file order. */
  lemma {:induction false} FoldPeaks(xs: seq<MgfLine>, acc: Pending)
    ensures Fold(xs, acc).mzList == acc.mzList + FirstWords(xs)
    ensures Fold(xs, acc).intensityList == acc.intensityList + SecondWords(xs)
    decreases |xs|
  {
    if |xs| > 0 {
      var prefix := xs[..|xs| - 1];
      FoldPeaks(prefix, acc);
      var l := xs[|xs| - 1];
      if l.Peak? && |l.words| >= 2 {
        assert acc.mzList + FirstWords(prefix) + [l.words[0]] == acc.mzList + FirstWords(xs);
        assert acc.intensityList + SecondWords(prefix) + [l.words[1]] == acc.intensityList + SecondWords(xs);
      } else {
        assert FirstWords(xs) == FirstWords(prefix) + [];
        assert SecondWords(xs) == SecondWords(prefix) + [];
      }
    }
  }

  /**
    Every block `next` returns has as many m/z texts as intensity texts,
    each the first or second word of one peak line of the block, in file order.
   */
  lemma ScanBalanced(ls: seq<MgfLine>, i: nat)
    requires i <= |ls|
    ensures var r := Scan(ls, i, Start);
            r.0.Some? && r.0.value.Ok? ==>
              var p := r.0.value.value;
              var xs := ls[i..StopAt(ls, i)];
              p.mzList == FirstWords(xs) && p.intensityList == SecondWords(xs)
              && |p.mzList| == |p.intensityList|
  {
    ScanResult(ls, i, Start);
    FoldPeaks(ls[i..StopAt(ls, i)], Start);
  }

  /** An open block at the end of the input is an error; without `BEGIN IONS` the iteration ends. */
  lemma EndOfInput(ls: seq<MgfLine>, i: nat)
    requires i <= |ls| && StopAt(ls, i) == |ls|
    ensures var r := Scan(ls, i, Start);
            r.1 == |ls|
            && (r.0 == Some(Err(IncompleteSpectrum)) <==> exists m :: i <= m < |ls| && ls[m].BeginIons?)
            && (r.0.None? <==> forall m :: i <= m < |ls| ==> !ls[m].BeginIons?)
  {
    var xs := ls[i..];
    assert ls[i..StopAt(ls, i)] == xs;
    ScanResult(ls, i, Start);
    FoldOpen(xs, Start);
    if exists m :: 0 <= m < |xs| && xs[m].BeginIons? {
      var m :| 0 <= m < |xs| && xs[m].BeginIons?;
      assert ls[i + m].BeginIons?;
    }
    if exists m :: i <= m < |ls| && ls[m].BeginIons? {
      var m :| i <= m < |ls| && ls[m].BeginIons?;
      assert xs[m - i].BeginIons?;
    }
  }
}
