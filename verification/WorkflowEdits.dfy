/** Replacing the action calls of a workflow: collecting line edits and applying them from the bottom up. */
module WorkflowEdits {
  import opened Wrappers
  import opened Collections
  import opened Sorting
  import opened TextLines

  datatype Edit = Edit(first: nat, last: nat, text: string)

  /** Order of the edits as tuples. */
  predicate EditLeq(a: Edit, b: Edit) {
    a.first < b.first || (a.first == b.first && (a.last < b.last || (a.last == b.last && StringLeq(a.text, b.text))))
  }

  lemma EditTotal()
    ensures Total(EditLeq)
  {
    forall a, b
      ensures EditLeq(a, b) || EditLeq(b, a)
    {
      StringTotalFor(a.text, b.text);
    }
  }

  function Min(a: nat, b: nat): nat {
    if a < b then a else b
  }

  /** Slice assignment: bounds beyond the end are clamped, a last bound before the first inserts. */
  function Replace(lines: seq<string>, e: Edit): seq<string> {
    var lo := Min(e.first, |lines|);
    var hi := Min(e.last, |lines|);
    lines[..lo] + SplitLines(e.text) + lines[if hi < lo then lo else hi..]
  }

  // ---- Reference: one simultaneous splice ----

  predicate InOrder(es: seq<Edit>, n: nat) {
    && (forall i | 0 <= i < |es| :: es[i].first <= es[i].last <= n)
    && (forall i | 0 < i < |es| :: es[i - 1].last <= es[i].first)
  }

  /** The lines from a position on, every edited range replaced, all at once. */
  function Spliced(lines: seq<string>, es: seq<Edit>, from: nat): seq<string>
    requires InOrder(es, |lines|) && from <= |lines| && (es != [] ==> from <= es[0].first)
  {
    if es == [] then lines[from..]
    else lines[from..es[0].first] + SplitLines(es[0].text) + Spliced(lines, es[1..], es[0].last)
  }

  /** The same as text: kept ranges of the original and the replacement texts in turn. */
  function SplicedText(lines: seq<string>, es: seq<Edit>, from: nat): string
    requires InOrder(es, |lines|) && from <= |lines| && (es != [] ==> from <= es[0].first)
  {
    if es == [] then Join(lines[from..])
    else Join(lines[from..es[0].first]) + es[0].text + SplicedText(lines, es[1..], es[0].last)
  }

  lemma {:induction false} SplicedIsText(lines: seq<string>, es: seq<Edit>, from: nat)
    requires InOrder(es, |lines|) && from <= |lines| && (es != [] ==> from <= es[0].first)
    ensures Join(Spliced(lines, es, from)) == SplicedText(lines, es, from)
    decreases |es|
  {
    if es != [] {
      var e := es[0];
      var rest := Spliced(lines, es[1..], e.last);
      SplicedIsText(lines, es[1..], e.last);
      JoinConcat(lines[from..e.first] + SplitLines(e.text), rest);
      JoinConcat(lines[from..e.first], SplitLines(e.text));
      JoinSplit(e.text);
      hide Join, SplitLines;
    }
  }

  lemma ThreePieces(lines: seq<string>, from: nat, to: nat, until: nat, below: seq<string>)
    requires from <= to <= until <= |lines|
    ensures lines[from..until] + below == lines[from..to] + (lines[to..until] + below)
  {
    assert lines[from..until] == lines[from..to] + lines[to..until];
  }

  /** Moving the start of the splice back only adds the lines in between. */
  lemma SplicedFrom(lines: seq<string>, es: seq<Edit>, from: nat, to: nat)
    requires InOrder(es, |lines|) && from <= to <= |lines| && (es != [] ==> to <= es[0].first)
    ensures Spliced(lines, es, from) == lines[from..to] + Spliced(lines, es, to)
  {
    hide SplitLines;
    if es == [] {
      assert lines[from..] == lines[from..to] + lines[to..];
    } else {
      var e := es[0];
      var below := SplitLines(e.text) + Spliced(lines, es[1..], e.last);
      assert Spliced(lines, es, from) == lines[from..e.first] + below;
      assert Spliced(lines, es, to) == lines[to..e.first] + below;
      ThreePieces(lines, from, to, e.first, below);
    }
  }

  lemma ReplaceAbove(now: seq<string>, lines: seq<string>, e: Edit, below: seq<string>)
    requires e.first <= e.last <= |lines| && now == lines[0..e.last] + below
    ensures Replace(now, e) == lines[..e.first] + SplitLines(e.text) + below
  {
    hide SplitLines;
    assert now[..e.first] == lines[..e.first];
    assert now[e.last..] == below;
  }

  lemma SplicedFirst(lines: seq<string>, es: seq<Edit>)
    requires es != [] && InOrder(es, |lines|)
    ensures InOrder(es[1..], |lines|) && (es[1..] != [] ==> es[0].last <= es[1..][0].first)
    ensures Spliced(lines, es, 0) == lines[..es[0].first] + SplitLines(es[0].text) + Spliced(lines, es[1..], es[0].last)
  {
    TailInOrder(es, 1, |lines|);
    hide SplitLines;
    assert lines[0..es[0].first] == lines[..es[0].first];
  }

  /** Applying the bottom edit to text that is only changed below it. */
  lemma OneMoreEdit(lines: seq<string>, es: seq<Edit>)
    requires es != [] && InOrder(es, |lines|)
    ensures InOrder(es[1..], |lines|) && (es[1..] != [] ==> es[0].last <= es[1..][0].first)
    ensures Replace(Spliced(lines, es[1..], 0), es[0]) == Spliced(lines, es, 0)
  {
    var e, rest := es[0], es[1..];
    assert e.first <= e.last <= |lines|;
    SplicedFirst(lines, es);
    hide Spliced, InOrder, SplitLines, Replace;
    SplicedFrom(lines, rest, 0, e.last);
    ReplaceAbove(Spliced(lines, rest, 0), lines, e, Spliced(lines, rest, e.last));
  }

  // ---- Edits that share a range ----

  predicate Shares(a: Edit, b: Edit) {
    a.first == b.first < a.last == b.last
  }

  /** The replacement has as many lines as the range it replaces. */
  predicate FillsRange(e: Edit) {
    e.first <= e.last && |SplitLines(e.text)| == e.last - e.first
  }

  /** In order, except that edits of one range may follow each other, the later ones filling it. */
  predicate Stacked(es: seq<Edit>, n: nat) {
    && (forall i | 0 <= i < |es| :: es[i].first <= es[i].last <= n)
    && (forall i | 0 < i < |es| :: es[i - 1].last <= es[i].first || (Shares(es[i - 1], es[i]) && FillsRange(es[i])))
  }

  /** In order, except that edits of one range may follow each other. */
  predicate Layered(es: seq<Edit>, n: nat) {
    && (forall i | 0 <= i < |es| :: es[i].first <= es[i].last <= n)
    && (forall i | 0 < i < |es| :: es[i - 1].last <= es[i].first || Shares(es[i - 1], es[i]))
  }

  function Drop(lines: seq<string>, n: nat): seq<string> {
    lines[Min(n, |lines|)..]
  }

  /**
    The lines from a position on when several edits may replace one range: the first of them stands, and
    what the others made of the range and the lines below it loses as many lines as the range has.
   */
  function Overlaid(lines: seq<string>, es: seq<Edit>, from: nat): seq<string>
    requires Layered(es, |lines|) && from <= |lines| && (es != [] ==> from <= es[0].first)
    decreases |es|, 1
  {
    if es == [] then lines[from..] else lines[from..es[0].first] + OverlaidAt(lines, es)
  }

  /** From the first edit on. */
  function OverlaidAt(lines: seq<string>, es: seq<Edit>): seq<string>
    requires es != [] && Layered(es, |lines|)
    decreases |es|, 0
  {
    TailLayered(es, 1, |lines|);
    SplitLines(es[0].text)
    + if 1 < |es| && Shares(es[0], es[1]) then
        Drop(Overlaid(lines, es[1..], es[0].first), es[0].last - es[0].first)
      else Overlaid(lines, es[1..], es[0].last)
  }

  lemma TailLayered(es: seq<Edit>, i: nat, n: nat)
    requires i <= |es| && Layered(es, n)
    ensures Layered(es[i..], n)
  {
    forall k | 0 < k < |es[i..]|
      ensures es[i..][k - 1].last <= es[i..][k].first || Shares(es[i..][k - 1], es[i..][k])
    {
      assert es[i..][k - 1] == es[i + k - 1] && es[i..][k] == es[i + k];
    }
  }

  /** What stands below a position that no edit is above of. */
  lemma OverlaidFrom(lines: seq<string>, es: seq<Edit>, from: nat, to: nat)
    requires Layered(es, |lines|) && from <= to <= |lines| && (es != [] ==> to <= es[0].first)
    ensures Overlaid(lines, es, from) == lines[from..to] + Overlaid(lines, es, to)
  {
    hide OverlaidAt;
    if es == [] {
      assert lines[from..] == lines[from..to] + lines[to..];
    } else {
      ThreePieces(lines, from, to, es[0].first, OverlaidAt(lines, es));
    }
  }

  lemma ReplaceOver(lines: seq<string>, e: Edit, below: seq<string>)
    requires e.first <= e.last && e.first <= |lines|
    ensures Replace(lines[0..e.first] + below, e)
         == lines[..e.first] + SplitLines(e.text) + Drop(below, e.last - e.first)
  {
    hide SplitLines;
    var now := lines[0..e.first] + below;
    assert now[..e.first] == lines[..e.first];
  }

  lemma OverlaidAtFirst(lines: seq<string>, es: seq<Edit>)
    requires es != [] && Layered(es, |lines|)
    ensures es[0].first <= es[0].last <= |lines| && Layered(es[1..], |lines|)
    ensures 1 < |es| && Shares(es[0], es[1]) ==>
              OverlaidAt(lines, es)
              == SplitLines(es[0].text) + Drop(Overlaid(lines, es[1..], es[0].first), es[0].last - es[0].first)
    ensures !(1 < |es| && Shares(es[0], es[1])) ==>
              && (es[1..] != [] ==> es[0].last <= es[1..][0].first)
              && OverlaidAt(lines, es) == SplitLines(es[0].text) + Overlaid(lines, es[1..], es[0].last)
  {
    hide Overlaid, Drop, Layered;
    LayeredFirst(es, |lines|);
  }

  lemma OverlaidFirst(lines: seq<string>, es: seq<Edit>)
    requires es != [] && Layered(es, |lines|)
    ensures es[0].first <= es[0].last <= |lines| && Layered(es[1..], |lines|)
    ensures Overlaid(lines, es, 0) == lines[..es[0].first] + OverlaidAt(lines, es)
  {
    hide OverlaidAt, Layered;
    LayeredFirst(es, |lines|);
    assert lines[0..es[0].first] == lines[..es[0].first];
  }

  lemma LayeredFirst(es: seq<Edit>, n: nat)
    requires es != [] && Layered(es, n)
    ensures es[0].first <= es[0].last <= n && Layered(es[1..], n)
    ensures es[1..] != [] ==>
              if Shares(es[0], es[1]) then es[1..][0].first == es[0].first else es[0].last <= es[1..][0].first
  {
    TailLayered(es, 1, n);
  }

  lemma OneMoreLayered(lines: seq<string>, es: seq<Edit>)
    requires es != [] && Layered(es, |lines|)
    ensures Layered(es[1..], |lines|)
    ensures Replace(Overlaid(lines, es[1..], 0), es[0]) == Overlaid(lines, es, 0)
  {
    hide Replace, SplitLines, Drop, Overlaid, OverlaidAt, Layered;
    OverlaidFirst(lines, es);
    OverlaidAtFirst(lines, es);
    var e, rest := es[0], es[1..];
    if 1 < |es| && Shares(e, es[1]) {
      OverlaidFrom(lines, rest, 0, e.first);
      ReplaceOver(lines, e, Overlaid(lines, rest, e.first));
    } else {
      OverlaidFrom(lines, rest, 0, e.last);
      ReplaceAbove(Overlaid(lines, rest, 0), lines, e, Overlaid(lines, rest, e.last));
    }
  }

  /** When the later edits of a range fill it, of each range only the first edit shows. */
  lemma {:induction false} FilledLayersCollapse(lines: seq<string>, es: seq<Edit>)
    requires Stacked(es, |lines|)
    ensures Layered(es, |lines|) && Overlaid(lines, es, 0) == SplicedAll(lines, es)
    decreases |es|
  {
    StackedIsLayered(es, |lines|);
    if es != [] {
      OneMoreStacked(lines, es);
      OneMoreLayered(lines, es);
      hide *;
      FilledLayersCollapse(lines, es[1..]);
    }
  }

  lemma StackedIsLayered(es: seq<Edit>, n: nat)
    requires Stacked(es, n)
    ensures Layered(es, n)
  {
  }

  /** Of edits that share a range only the first one. */
  function Collapsed(es: seq<Edit>): (r: seq<Edit>)
    ensures |es| > 0 ==> |r| > 0 && r[0] == es[0]
  {
    if |es| <= 1 then es
    else
      var rest := Collapsed(es[1..]);
      if Shares(es[0], rest[0]) then [es[0]] + rest[1..] else [es[0]] + rest
  }

  lemma TailStacked(es: seq<Edit>, i: nat, n: nat)
    requires i <= |es| && Stacked(es, n)
    ensures Stacked(es[i..], n)
  {
    hide FillsRange;
    forall k | 0 < k < |es[i..]|
      ensures es[i..][k - 1].last <= es[i..][k].first || (Shares(es[i..][k - 1], es[i..][k]) && FillsRange(es[i..][k]))
    {
      assert es[i..][k - 1] == es[i + k - 1] && es[i..][k] == es[i + k];
    }
  }

  lemma {:induction false} CollapsedInOrder(es: seq<Edit>, n: nat)
    requires Stacked(es, n)
    ensures InOrder(Collapsed(es), n)
    decreases |es|
  {
    hide FillsRange;
    if 1 < |es| {
      TailStacked(es, 1, n);
      CollapsedInOrder(es[1..], n);
      var rest := Collapsed(es[1..]);
      TailInOrder(rest, 1, n);
      assert rest[0] == es[1];
      hide Collapsed;
      if Shares(es[0], rest[0]) { Prepend(es[0], rest[1..], n); } else { Prepend(es[0], rest, n); }
    }
  }

  lemma Prepend(e: Edit, rest: seq<Edit>, n: nat)
    requires InOrder(rest, n) && e.first <= e.last <= n && (rest != [] ==> e.last <= rest[0].first)
    ensures InOrder([e] + rest, n)
  {
  }

  /** Edits in order are their own collapse. */
  lemma {:induction false} InOrderCollapses(es: seq<Edit>, n: nat)
    requires InOrder(es, n)
    ensures Stacked(es, n) && Collapsed(es) == es
    decreases |es|
  {
    hide FillsRange;
    assert Stacked(es, n);
    hide Stacked;
    if 1 < |es| {
      TailInOrder(es, 1, n);
      InOrderCollapses(es[1..], n);
      assert !Shares(es[0], es[1]);
      hide InOrder;
      CollapsedApart(es);
      assert es == [es[0]] + es[1..];
    }
  }

  lemma CollapsedApart(es: seq<Edit>)
    requires 1 < |es| && !Shares(es[0], es[1])
    ensures Collapsed(es) == [es[0]] + Collapsed(es[1..])
  {
  }

  function SplicedAll(lines: seq<string>, es: seq<Edit>): seq<string>
    requires Stacked(es, |lines|)
  {
    CollapsedInOrder(es, |lines|);
    Spliced(lines, Collapsed(es), 0)
  }

  function SplicedAllText(lines: seq<string>, es: seq<Edit>): string
    requires Stacked(es, |lines|)
  {
    CollapsedInOrder(es, |lines|);
    SplicedText(lines, Collapsed(es), 0)
  }

  /** The text of a shared range is replaced once more, line for line. */
  lemma ReplaceShared(lines: seq<string>, a: Edit, b: Edit, below: seq<string>)
    requires Shares(a, b) && FillsRange(b) && b.last <= |lines|
    ensures Replace(lines[..b.first] + SplitLines(b.text) + below, a) == lines[..a.first] + SplitLines(a.text) + below
  {
    var now := lines[..b.first] + SplitLines(b.text) + below;
    hide SplitLines;
    assert now[..a.first] == lines[..a.first] && now[a.last..] == below;
  }

  lemma OneMoreStacked(lines: seq<string>, es: seq<Edit>)
    requires es != [] && Stacked(es, |lines|)
    ensures Stacked(es[1..], |lines|)
    ensures Replace(SplicedAll(lines, es[1..]), es[0]) == SplicedAll(lines, es)
  {
    TailStacked(es, 1, |lines|);
    CollapsedInOrder(es, |lines|);
    CollapsedInOrder(es[1..], |lines|);
    var all, rest := Collapsed(es), Collapsed(es[1..]);
    hide Replace, SplitLines, Spliced;
    if 1 < |es| && Shares(es[0], rest[0]) {
      assert es[1..] != [] && rest[0] == es[1] && FillsRange(es[1]);
      SharedStep(lines, es[0], rest, all);
    } else {
      assert all[1..] == rest;
      hide Collapsed, Stacked, InOrder;
      OneMoreEdit(lines, all);
    }
  }

  lemma SharedStep(lines: seq<string>, e: Edit, rest: seq<Edit>, all: seq<Edit>)
    requires InOrder(rest, |lines|) && InOrder(all, |lines|) && rest != [] && all == [e] + rest[1..]
    requires Shares(e, rest[0]) && FillsRange(rest[0])
    ensures Replace(Spliced(lines, rest, 0), e) == Spliced(lines, all, 0)
  {
    SplicedFirst(lines, rest);
    SplicedFirst(lines, all);
    assert all[1..] == rest[1..] && all[0] == e;
    hide Spliced, InOrder, Replace, SplitLines, FillsRange;
    ReplaceShared(lines, e, rest[0], Spliced(lines, rest[1..], rest[0].last));
  }

  /**
    Edits in descending order, each against the lines the earlier ones left.  The outcome is the overlay
    of the original lines; when edits of one range fill it, that is the simultaneous splice in which of
    each range the smallest edit stands.
   */
  method ApplyEdits(original: seq<string>, edits: seq<Edit>) returns (lines: seq<string>)
    ensures Layered(Sort(edits, EditLeq), |original|) ==> lines == Overlaid(original, Sort(edits, EditLeq), 0)
    ensures Stacked(Sort(edits, EditLeq), |original|) ==>
              && lines == SplicedAll(original, Sort(edits, EditLeq))
              && Join(lines) == SplicedAllText(original, Sort(edits, EditLeq))
  {
    hide SplitLines, Join, Replace, SplicedAll, FillsRange, Stacked, Layered, Overlaid;
    var es := Sort(edits, EditLeq);
    lines := original;
    var i := |es|;
    ghost var layered := Layered(es, |original|);
    NothingOverlaid(original, es);
    while 0 < i
      invariant 0 <= i <= |es|
      invariant layered ==> Layered(es[i..], |original|) && lines == Overlaid(original, es[i..], 0)
    {
      i := i - 1;
      if layered {
        TailLayered(es, i, |original|);
        assert es[i..][1..] == es[i + 1..] && es[i..][0] == es[i];
        OneMoreLayered(original, es[i..]);
      }
      lines := Replace(lines, es[i]);
    }
    assert es[0..] == es;
    if Stacked(es, |original|) {
      FilledLayersCollapse(original, es);
      AllIsText(original, es);
    }
  }

  lemma NothingOverlaid(lines: seq<string>, es: seq<Edit>)
    ensures Layered(es[|es|..], |lines|) && Overlaid(lines, es[|es|..], 0) == lines
  {
    assert es[|es|..] == [];
  }

  lemma AllIsText(lines: seq<string>, es: seq<Edit>)
    requires Stacked(es, |lines|)
    ensures Join(SplicedAll(lines, es)) == SplicedAllText(lines, es)
  {
    CollapsedInOrder(es, |lines|);
    hide Join, Spliced, SplicedText, Collapsed;
    SplicedIsText(lines, Collapsed(es), 0);
  }

  lemma TailInOrder(es: seq<Edit>, i: nat, n: nat)
    requires i <= |es| && InOrder(es, n)
    ensures InOrder(es[i..], n)
  {
    forall k | 0 < k < |es[i..]|
      ensures es[i..][k - 1].last <= es[i..][k].first
    {
      assert es[i + k - 1].last <= es[i + k].first;
    }
  }

  // ---- Untouched lines ----

  predicate Untouched(es: seq<Edit>, i: nat) {
    forall e | e in es :: !(e.first <= i < e.last)
  }

  /** The untouched positions of a range, in order. */
  function UntouchedFrom(es: seq<Edit>, lo: nat, hi: nat): seq<nat>
    requires lo <= hi
    decreases hi - lo
  {
    if lo == hi then [] else (if Untouched(es, lo) then [lo] else []) + UntouchedFrom(es, lo + 1, hi)
  }

  function Positions(lo: nat, hi: nat): seq<Option<nat>>
    requires lo <= hi
  {
    seq(hi - lo, i requires 0 <= i < hi - lo => Some(lo + i))
  }

  function Inserted(n: nat): seq<Option<nat>> {
    seq(n, _ => None)
  }

  /** For every line of the splice, the original line it is, or none for a replacement line. */
  function Origins(n: nat, es: seq<Edit>, from: nat): seq<Option<nat>>
    requires InOrder(es, n) && from <= n && (es != [] ==> from <= es[0].first)
  {
    if es == [] then Positions(from, n)
    else Positions(from, es[0].first) + Inserted(|SplitLines(es[0].text)|) + Origins(n, es[1..], es[0].last)
  }

  function Kept(s: seq<Option<nat>>): seq<nat> {
    if s == [] then [] else (if s[0].Some? then [s[0].value] else []) + Kept(s[1..])
  }

  /** Dropping edits of a shared range leaves the same lines untouched. */
  lemma {:induction false} CollapsedTouchesTheSame(es: seq<Edit>, i: nat)
    ensures Untouched(es, i) <==> Untouched(Collapsed(es), i)
    decreases |es|
  {
    if 1 < |es| {
      var rest := Collapsed(es[1..]);
      CollapsedTouchesTheSame(es[1..], i);
      assert es == [es[0]] + es[1..] && rest == [rest[0]] + rest[1..];
      hide Collapsed;
      UntouchedConcat(es[0], es[1..], i);
      UntouchedConcat(rest[0], rest[1..], i);
      UntouchedConcat(es[0], rest[1..], i);
      UntouchedConcat(es[0], rest, i);
    }
  }

  lemma UntouchedConcat(e: Edit, es: seq<Edit>, i: nat)
    ensures Untouched([e] + es, i) <==> !(e.first <= i < e.last) && Untouched(es, i)
  {
    assert forall x :: x in [e] + es <==> x == e || x in es;
  }

  lemma {:induction false} KeptConcat(a: seq<Option<nat>>, b: seq<Option<nat>>)
    ensures Kept(a + b) == Kept(a) + Kept(b)
  {
    if a == [] {
      assert a + b == b;
    } else {
      KeptConcat(a[1..], b);
      assert (a + b)[1..] == a[1..] + b && (a + b)[0] == a[0];
      var first := if a[0].Some? then [a[0].value] else [];
      assert first + (Kept(a[1..]) + Kept(b)) == (first + Kept(a[1..])) + Kept(b);
    }
  }

  lemma {:induction false} NoneInserted(n: nat)
    ensures Kept(Inserted(n)) == []
  {
    if n != 0 {
      NoneInserted(n - 1);
      assert Inserted(n)[1..] == Inserted(n - 1);
    }
  }

  lemma {:induction false} UntouchedRange(es: seq<Edit>, lo: nat, hi: nat)
    requires lo <= hi && forall i | lo <= i < hi :: Untouched(es, i)
    ensures UntouchedFrom(es, lo, hi) == Kept(Positions(lo, hi))
    decreases hi - lo
  {
    if lo != hi {
      UntouchedRange(es, lo + 1, hi);
      assert Positions(lo, hi)[1..] == Positions(lo + 1, hi);
      hide Untouched;
    }
  }

  lemma {:induction false} TouchedRange(es: seq<Edit>, e: Edit, lo: nat)
    requires e in es && e.first <= lo <= e.last
    ensures UntouchedFrom(es, lo, e.last) == []
    decreases e.last - lo
  {
    if lo != e.last { TouchedRange(es, e, lo + 1); }
  }

  lemma {:induction false} UntouchedSplits(es: seq<Edit>, lo: nat, mid: nat, hi: nat)
    requires lo <= mid <= hi
    ensures UntouchedFrom(es, lo, hi) == UntouchedFrom(es, lo, mid) + UntouchedFrom(es, mid, hi)
    decreases mid - lo
  {
    if lo != mid { UntouchedSplits(es, lo + 1, mid, hi); }
  }

  lemma {:induction false} SameUntouched(a: seq<Edit>, b: seq<Edit>, lo: nat, hi: nat)
    requires lo <= hi && forall i | lo <= i < hi :: Untouched(a, i) <==> Untouched(b, i)
    ensures UntouchedFrom(a, lo, hi) == UntouchedFrom(b, lo, hi)
    decreases hi - lo
  {
    hide Untouched;
    if lo != hi { SameUntouched(a, b, lo + 1, hi); }
  }

  lemma {:induction false} LaterEdits(es: seq<Edit>, n: nat, k: nat)
    requires InOrder(es, n) && k < |es|
    ensures es[0].first <= es[k].first && (0 < k ==> es[0].last <= es[k].first)
    decreases k
  {
    if 0 < k { LaterEdits(es, n, k - 1); }
  }

  /** The first edit and the later ones, line by line. */
  lemma FirstEditTouches(n: nat, es: seq<Edit>, from: nat)
    requires es != [] && InOrder(es, n) && from <= es[0].first
    ensures es[0] in es && es[0].first <= es[0].last <= n
    ensures forall i | from <= i < es[0].first :: Untouched(es, i)
    ensures forall i | es[0].last <= i < n :: Untouched(es, i) <==> Untouched(es[1..], i)
  {
    assert es == [es[0]] + es[1..];
    forall x | x in es
      ensures es[0].first <= x.first
    {
      var k :| 0 <= k < |es| && es[k] == x;
      LaterEdits(es, n, k);
    }
  }

  lemma UntouchedPieces(n: nat, es: seq<Edit>, from: nat)
    requires es != [] && InOrder(es, n) && from <= es[0].first
    ensures UntouchedFrom(es, from, n) == Kept(Positions(from, es[0].first)) + UntouchedFrom(es[1..], es[0].last, n)
  {
    hide InOrder, Untouched;
    var e, rest := es[0], es[1..];
    FirstEditTouches(n, es, from);
    UntouchedSplits(es, from, e.first, n);
    UntouchedSplits(es, e.first, e.last, n);
    UntouchedRange(es, from, e.first);
    TouchedRange(es, e, e.first);
    SameUntouched(es, rest, e.last, n);
  }

  /** Every untouched line of the original is kept once, in the original order, and nothing else is kept. */
  lemma {:induction false} UntouchedLinesAppearOnce(n: nat, es: seq<Edit>, from: nat)
    requires InOrder(es, n) && from <= n && (es != [] ==> from <= es[0].first)
    ensures Kept(Origins(n, es, from)) == UntouchedFrom(es, from, n)
    decreases |es|
  {
    hide SplitLines, Untouched, UntouchedFrom, Kept;
    if es == [] {
      assert forall i | from <= i < n :: Untouched(es, i) by { NothingTouched(); }
      UntouchedRange(es, from, n);
    } else {
      var e, rest := es[0], es[1..];
      TailInOrder(es, 1, n);
      UntouchedLinesAppearOnce(n, rest, e.last);
      UntouchedPieces(n, es, from);
      var added := Inserted(|SplitLines(e.text)|);
      KeptConcat(Positions(from, e.first) + added, Origins(n, rest, e.last));
      KeptConcat(Positions(from, e.first), added);
      NoneInserted(|SplitLines(e.text)|);
      hide Positions, Inserted;
    }
  }

  lemma NothingTouched()
    ensures forall i :: Untouched([], i)
  {
  }

  /** What the origins say about the spliced lines. */
  lemma {:induction false} OriginsDescribe(lines: seq<string>, es: seq<Edit>, from: nat)
    requires InOrder(es, |lines|) && from <= |lines| && (es != [] ==> from <= es[0].first)
    ensures var o, s := Origins(|lines|, es, from), Spliced(lines, es, from);
            |o| == |s| && forall j | 0 <= j < |s| && o[j].Some? :: o[j].value < |lines| && s[j] == lines[o[j].value]
    decreases |es|
  {
    if es != [] {
      var e := es[0];
      TailInOrder(es, 1, |lines|);
      OriginsDescribe(lines, es[1..], e.last);
      hide SplitLines;
      var o, s := Origins(|lines|, es, from), Spliced(lines, es, from);
      var below := e.first - from + |SplitLines(e.text)|;
      forall j | 0 <= j < |s| && o[j].Some?
        ensures o[j].value < |lines| && s[j] == lines[o[j].value]
      {
        if below <= j {
          assert o[j] == Origins(|lines|, es[1..], e.last)[j - below];
          assert s[j] == Spliced(lines, es[1..], e.last)[j - below];
        }
      }
    }
  }

  // ---- When edits are in order ----

  predicate Apart(a: Edit, b: Edit) {
    a.last <= b.first || b.last <= a.first
  }

  /** Two edits are apart or replace one range; if `filling`, both texts then fill it. */
  predicate Fits(a: Edit, b: Edit, filling: bool) {
    Apart(a, b) || (Shares(a, b) && (filling ==> FillsRange(a) && FillsRange(b)))
  }

  /** Nonempty edits of the document, pairwise fitting. */
  ghost predicate Compatible(edits: seq<Edit>, n: nat, filling: bool) {
    && (forall e | e in edits :: e.first < e.last <= n)
    && (forall i, j | 0 <= i < j < |edits| :: Fits(edits[i], edits[j], filling))
  }

  lemma {:induction false} TwoOccurrences<T>(s: seq<T>, x: T)
    requires multiset(s)[x] >= 2
    ensures exists i, j :: 0 <= i < j < |s| && s[i] == x && s[j] == x
  {
    var init, last := s[..|s| - 1], s[|s| - 1];
    assert s == init + [last];
    if last == x {
      assert multiset(init)[x] >= 1;
      assert x in init;
      var i :| 0 <= i < |init| && init[i] == x;
      assert s[i] == x && s[|s| - 1] == x;
    } else {
      assert multiset(init)[x] >= 2;
      TwoOccurrences(init, x);
      var i, j :| 0 <= i < j < |init| && init[i] == x && init[j] == x;
      assert s[i] == x && s[j] == x;
    }
  }

  lemma {:induction false} OccursTwice<T>(s: seq<T>, i: nat, j: nat)
    requires i < j < |s| && s[i] == s[j]
    ensures multiset(s)[s[i]] >= 2
  {
    var init := s[..|s| - 1];
    assert s == init + [s[|s| - 1]];
    if j < |s| - 1 { OccursTwice(init, i, j); } else { assert init[i] in multiset(init); }
  }

  /** Any two places of a permutation are two places of the original. */
  lemma PlacesOf<T>(a: seq<T>, b: seq<T>, i: nat, j: nat) returns (x: nat, y: nat)
    requires multiset(a) == multiset(b) && i < j < |b|
    ensures x < |a| && y < |a| && x != y && a[x] == b[i] && a[y] == b[j]
  {
    if b[i] == b[j] {
      OccursTwice(b, i, j);
      TwoOccurrences(a, b[i]);
      x, y :| 0 <= x < y < |a| && a[x] == b[i] && a[y] == b[i];
    } else {
      SameMembers(a, b);
      assert b[i] in a && b[j] in a;
      x :| 0 <= x < |a| && a[x] == b[i];
      y :| 0 <= y < |a| && a[y] == b[j];
    }
  }

  lemma FitsInOrder(a: Edit, b: Edit, filling: bool)
    requires EditLeq(a, b) && (Fits(a, b, filling) || Fits(b, a, filling)) && a.first < a.last && b.first < b.last
    ensures a.last <= b.first || (Shares(a, b) && (filling ==> FillsRange(b)))
  {
    hide StringLeq, FillsRange;
  }

  /** Any two places of a permutation of fitting edits hold fitting edits. */
  lemma PermutedFit(edits: seq<Edit>, es: seq<Edit>, n: nat, filling: bool, i: nat, j: nat)
    requires Compatible(edits, n, filling) && multiset(edits) == multiset(es) && i < j < |es|
    ensures Fits(es[i], es[j], filling) || Fits(es[j], es[i], filling)
  {
    hide Fits;
    var x, y := PlacesOf(edits, es, i, j);
    assert if x < y then Fits(edits[x], edits[y], filling) else Fits(edits[y], edits[x], filling);
  }

  lemma PermutedRanges(edits: seq<Edit>, es: seq<Edit>, n: nat, filling: bool)
    requires Compatible(edits, n, filling) && multiset(edits) == multiset(es)
    ensures forall i | 0 <= i < |es| :: es[i].first < es[i].last <= n
  {
    hide Fits;
    SameMembers(edits, es);
    assert forall i | 0 <= i < |es| :: es[i] in es;
  }

  lemma CompatibleSorts(edits: seq<Edit>, n: nat, filling: bool)
    requires Compatible(edits, n, filling)
    ensures Layered(Sort(edits, EditLeq), n)
    ensures filling ==> Stacked(Sort(edits, EditLeq), n)
  {
    hide Sort, EditLeq, FillsRange, Fits, Compatible, Shares;
    var es := Sort(edits, EditLeq);
    EditTotal();
    SortAscends(edits, EditLeq);
    PermutedRanges(edits, es, n, filling);
    forall i | 0 < i < |es|
      ensures es[i - 1].last <= es[i].first || (Shares(es[i - 1], es[i]) && (filling ==> FillsRange(es[i])))
    {
      PermutedFit(edits, es, n, filling, i - 1, i);
      assert EditLeq(es[i - 1], es[i]);
      FitsInOrder(es[i - 1], es[i], filling);
    }
  }

  /**
    Two edits of one range that fill it: the smaller text stands, and nothing of the other one is lost
    exactly when the texts are equal.
   */
  lemma SharedRangeKeepsOne(lines: seq<string>, a: Edit, b: Edit)
    requires Shares(a, b) && a.last <= |lines| && FillsRange(b)
    ensures Replace(Replace(lines, b), a) == Replace(lines, a)
    ensures Replace(Replace(lines, b), a) == Replace(lines, b) <==> a.text == b.text
  {
    hide SplitLines;
    var once, alone := Replace(lines, b), Replace(lines, a);
    assert once[..a.first] == lines[..a.first] && once[a.last..] == lines[a.last..];
    if alone == once {
      assert |SplitLines(a.text)| == |SplitLines(b.text)|;
      assert alone[a.first..a.last] == SplitLines(a.text);
      assert once[a.first..a.last] == SplitLines(b.text);
      JoinSplit(a.text);
      JoinSplit(b.text);
    }
  }

  /**
    When the later edit of a shared range does not fill it, the other one hits shifted lines: what follows
    the range survives exactly when the range was filled, or cut short at the very end of the document.
   */
  lemma SharedRangeIsCleanExactlyWhen(lines: seq<string>, a: Edit, b: Edit)
    requires Shares(a, b) && a.last <= |lines|
    ensures Replace(Replace(lines, b), a) == Replace(lines, a) <==>
            FillsRange(b) || (b.last == |lines| && |SplitLines(b.text)| < b.last - b.first)
  {
    var head, rest, texts := lines[..a.first], lines[a.last..], SplitLines(b.text);
    var once := Replace(lines, b);
    assert once == head + texts + rest;
    var cut := Min(a.last, |once|);
    assert once[..a.first] == head;
    hide SplitLines;
    assert Replace(once, a) == head + SplitLines(a.text) + once[cut..];
    assert Replace(lines, a) == head + SplitLines(a.text) + rest;
    if |texts| == a.last - a.first {
      assert once[cut..] == rest;
    } else if a.last == |lines| && |texts| < a.last - a.first {
      assert once[cut..] == rest;
    } else {
      assert |once[cut..]| != |rest|;
    }
  }

  // ---- Collecting the edits ----

  /** An action call: its expanded blocks with their columns, and its rewritten job outputs, if any. */
  datatype Call = Call(parts: seq<(string, int)>, outputs: Option<string>)

  datatype Step = Step(first: nat, last: nat, column: int, call: Option<Call>)

  /** Where a job's steps and its outputs, if it has any, stand; a job without a step list has no steps. */
  datatype Job = Job(steps: seq<Step>, outputs: Option<(nat, nat)>)

  /** The blocks of the called action, each moved to the column of the calling step. */
  function Body(parts: seq<(string, int)>, column: int): string {
    if parts == [] then ""
    else Body(parts[..|parts| - 1], column) + Shift(parts[|parts| - 1].0, column - parts[|parts| - 1].1)
  }

  function StepEdits(s: Step, outputs: Option<(nat, nat)>): seq<Edit> {
    if s.call.None? then []
    else
      [Edit(s.first, s.last, Body(s.call.value.parts, s.column))]
      + if s.call.value.outputs.Some? && outputs.Some? then
          [Edit(outputs.value.0, outputs.value.1, s.call.value.outputs.value)] else []
  }

  function StepsEdits(steps: seq<Step>, outputs: Option<(nat, nat)>): seq<Edit> {
    if steps == [] then [] else StepsEdits(steps[..|steps| - 1], outputs) + StepEdits(steps[|steps| - 1], outputs)
  }

  function JobsEdits(jobs: seq<Job>): seq<Edit> {
    if jobs == [] then []
    else JobsEdits(jobs[..|jobs| - 1]) + StepsEdits(jobs[|jobs| - 1].steps, jobs[|jobs| - 1].outputs)
  }

  method CalledBody(parts: seq<(string, int)>, column: int) returns (replacement: string)
    ensures replacement == Body(parts, column)
  {
    hide Shift;
    replacement := "";
    for k := 0 to |parts|
      invariant replacement == Body(parts[..k], column)
    {
      assert parts[..k + 1][..k] == parts[..k];
      replacement := replacement + Shift(parts[k].0, column - parts[k].1);
    }
    assert parts[..|parts|] == parts;
  }

  lemma NextStepEdits(steps: seq<Step>, outputs: Option<(nat, nat)>, i: nat)
    ensures StepsEdits([], outputs) == []
    ensures i < |steps| ==>
              StepsEdits(steps[..i + 1], outputs) == StepsEdits(steps[..i], outputs) + StepEdits(steps[i], outputs)
  {
    hide StepEdits;
    if i < |steps| { assert steps[..i + 1][..i] == steps[..i]; }
  }

  method JobActionEdits(job: Job) returns (edits: seq<Edit>)
    ensures edits == StepsEdits(job.steps, job.outputs)
  {
    hide Body, StepsEdits;
    edits := [];
    NextStepEdits(job.steps, job.outputs, 0);
    for i := 0 to |job.steps|
      invariant edits == StepsEdits(job.steps[..i], job.outputs)
    {
      var step := job.steps[i];
      NextStepEdits(job.steps, job.outputs, i);
      if step.call.Some? {
        var call := step.call.value;
        var replacement := CalledBody(call.parts, step.column);
        edits := edits + [Edit(step.first, step.last, replacement)];
        if call.outputs.Some? && job.outputs.Some? {
          edits := edits + [Edit(job.outputs.value.0, job.outputs.value.1, call.outputs.value)];
        }
      }
    }
    assert job.steps[..|job.steps|] == job.steps;
  }

  /** Calls that rewrite the job's outputs. */
  function Rewriting(steps: seq<Step>): nat {
    if steps == [] then 0
    else Rewriting(steps[..|steps| - 1])
         + if steps[|steps| - 1].call.Some? && steps[|steps| - 1].call.value.outputs.Some? then 1 else 0
  }

  /** Every rewritten outputs block has as many lines as the block has. */
  ghost predicate KeepsLines(job: Job) {
    job.outputs.Some? ==>
      forall s | s in job.steps && s.call.Some? && s.call.value.outputs.Some? ::
        FillsRange(Edit(job.outputs.value.0, job.outputs.value.1, s.call.value.outputs.value))
  }

  /** The outputs are rewritten by one call at most, or line for line. */
  ghost predicate RewritesCleanly(job: Job) {
    job.outputs.Some? ==> Rewriting(job.steps) <= 1 || KeepsLines(job)
  }

  /** A job as the parser lays it out: steps one after the other, outputs elsewhere. */
  ghost predicate LaidOut(job: Job, lo: nat, hi: nat) {
    && (forall i | 0 <= i < |job.steps| :: lo <= job.steps[i].first < job.steps[i].last <= hi)
    && (forall i, j | 0 <= i < j < |job.steps| :: job.steps[i].last <= job.steps[j].first)
    && (job.outputs.Some? ==>
          && lo <= job.outputs.value.0 < job.outputs.value.1 <= hi
          && (forall i | 0 <= i < |job.steps| ::
                job.steps[i].last <= job.outputs.value.0 || job.outputs.value.1 <= job.steps[i].first))
  }

  /** Jobs one after the other, each within its own lines. */
  ghost predicate Document(jobs: seq<Job>, starts: seq<nat>, n: nat) {
    && |starts| == |jobs| + 1 && starts[|jobs|] <= n
    && (forall i | 0 <= i < |jobs| :: starts[i] <= starts[i + 1] && LaidOut(jobs[i], starts[i], starts[i + 1]))
  }

  ghost predicate AtStep(job: Job, k: nat, e: Edit)
    requires k <= |job.steps|
  {
    exists i :: 0 <= i < k && e.first == job.steps[i].first && e.last == job.steps[i].last
  }

  predicate AtOutputs(job: Job, e: Edit) {
    job.outputs.Some? && e.first == job.outputs.value.0 && e.last == job.outputs.value.1
  }

  /** Where an edit of the first steps stands: at one of them or, with the right text, at the outputs. */
  ghost predicate Stands(job: Job, k: nat, e: Edit)
    requires k <= |job.steps|
  {
    AtStep(job, k, e) || (AtOutputs(job, e) && (KeepsLines(job) ==> FillsRange(e)))
  }

  ghost predicate Placed(job: Job, lo: nat, hi: nat, k: nat, es: seq<Edit>, filling: bool)
    requires k <= |job.steps|
  {
    && Compatible(es, hi, filling) && (forall e | e in es :: lo <= e.first && Stands(job, k, e))
    && (job.outputs.None? || Rewriting(job.steps[..k]) == 0 ==> forall e | e in es :: AtStep(job, k, e))
  }

  lemma OneMoreCompatible(es: seq<Edit>, e: Edit, n: nat, filling: bool)
    requires Compatible(es, n, filling) && e.first < e.last <= n && forall x | x in es :: Fits(x, e, filling)
    ensures Compatible(es + [e], n, filling)
  {
    hide Fits;
    var all := es + [e];
    forall i, j | 0 <= i < j < |all|
      ensures Fits(all[i], all[j], filling)
    {
      assert all[i] in es;
    }
  }

  lemma PlaceStep(job: Job, lo: nat, hi: nat, k: nat, es: seq<Edit>, text: string,
      filling: bool)
    requires LaidOut(job, lo, hi) && k < |job.steps| && Placed(job, lo, hi, k, es, filling)
    ensures Compatible(es + [Edit(job.steps[k].first, job.steps[k].last, text)], hi, filling)
    ensures AtStep(job, k + 1, Edit(job.steps[k].first, job.steps[k].last, text))
  {
    hide FillsRange, KeepsLines, Rewriting;
    var e := Edit(job.steps[k].first, job.steps[k].last, text);
    forall x | x in es
      ensures Fits(x, e, filling)
    {
      assert Stands(job, k, x);
      if !AtOutputs(job, x) { assert AtStep(job, k, x); }
    }
    hide LaidOut;
    OneMoreCompatible(es, e, hi, filling);
  }

  /** Outputs are rewritten where no earlier edit stands, or over an earlier rewriting. */
  lemma PlaceOutputs(job: Job, lo: nat, hi: nat, k: nat, es: seq<Edit>, text: string, filling: bool)
    requires LaidOut(job, lo, hi) && k <= |job.steps| && Compatible(es, hi, filling) && job.outputs.Some?
    requires forall e | e in es :: Stands(job, k, e)
    requires var o := Edit(job.outputs.value.0, job.outputs.value.1, text);
             filling ==> (forall e | e in es :: AtStep(job, k, e)) || (KeepsLines(job) && FillsRange(o))
    ensures Compatible(es + [Edit(job.outputs.value.0, job.outputs.value.1, text)], hi, filling)
  {
    hide FillsRange, KeepsLines, Rewriting;
    var o := Edit(job.outputs.value.0, job.outputs.value.1, text);
    forall x | x in es
      ensures Fits(x, o, filling)
    {
      assert Stands(job, k, x);
    }
    OneMoreCompatible(es, o, hi, filling);
  }

  lemma RewritingSnoc(steps: seq<Step>)
    requires steps != []
    ensures Rewriting(steps) == Rewriting(steps[..|steps| - 1])
              + if steps[|steps| - 1].call.Some? && steps[|steps| - 1].call.value.outputs.Some? then 1 else 0
  {
  }

  lemma StandsOn(job: Job, k: nat, es: seq<Edit>)
    requires k < |job.steps|
    ensures forall e | e in es && AtStep(job, k, e) :: AtStep(job, k + 1, e)
    ensures forall e | e in es && Stands(job, k, e) :: Stands(job, k + 1, e)
  {
    hide KeepsLines, FillsRange;
  }

  /** Outputs are rewritten for the first time, unless every rewriting fills them. */
  lemma FirstRewriting(job: Job, k: nat)
    requires k < |job.steps|
    ensures Rewriting(job.steps[..k + 1]) <= 1 && job.steps[k].call.Some? && job.steps[k].call.value.outputs.Some? ==>
              Rewriting(job.steps[..k]) == 0
    ensures Rewriting(job.steps[..k]) <= Rewriting(job.steps[..k + 1])
  {
    var upto := job.steps[..k + 1];
    assert upto[..k] == job.steps[..k] && upto[k] == job.steps[k];
    RewritingSnoc(upto);
  }

  lemma RewrittenFills(job: Job, k: nat)
    requires k < |job.steps| && KeepsLines(job) && job.outputs.Some?
    requires job.steps[k].call.Some? && job.steps[k].call.value.outputs.Some?
    ensures FillsRange(Edit(job.outputs.value.0, job.outputs.value.1, job.steps[k].call.value.outputs.value))
  {
    hide FillsRange;
    assert job.steps[k] in job.steps;
  }

  /** What is added stands where it should. */
  ghost predicate Added(job: Job, lo: nat, k: nat, more: seq<Edit>)
    requires k <= |job.steps|
  {
    && (forall e | e in more :: lo <= e.first && Stands(job, k, e))
    && (job.outputs.None? || Rewriting(job.steps[..k]) == 0 ==> forall e | e in more :: AtStep(job, k, e))
  }

  lemma PlacedMore(job: Job, lo: nat, hi: nat, k: nat, es: seq<Edit>, more: seq<Edit>, filling: bool)
    requires k < |job.steps| && Placed(job, lo, hi, k, es, filling) && Added(job, lo, k + 1, more)
    requires Compatible(es + more, hi, filling)
    ensures Placed(job, lo, hi, k + 1, es + more, filling)
  {
    StandsOn(job, k, es);
    FirstRewriting(job, k);
    hide Stands, AtStep, Rewriting, Compatible;
    assert forall e | e in es + more :: e in es || e in more;
  }

  lemma CallAdded(job: Job, lo: nat, hi: nat, k: nat)
    requires LaidOut(job, lo, hi) && k < |job.steps| && job.steps[k].call.Some?
    ensures Added(job, lo, k + 1, StepEdits(job.steps[k], job.outputs))
  {
    var s := job.steps[k];
    var text := Body(s.call.value.parts, s.column);
    assert AtStep(job, k + 1, Edit(s.first, s.last, text));
    assert lo <= s.first && (job.outputs.Some? ==> lo <= job.outputs.value.0);
    hide Body, LaidOut, AtStep, KeepsLines, FillsRange, Rewriting;
    if s.call.value.outputs.Some? && job.outputs.Some? {
      if KeepsLines(job) { RewrittenFills(job, k); }
      RewritingCounts(job, k);
    }
  }

  lemma RewritingCounts(job: Job, k: nat)
    requires k < |job.steps| && job.steps[k].call.Some? && job.steps[k].call.value.outputs.Some?
    ensures Rewriting(job.steps[..k + 1]) > 0
  {
    var upto := job.steps[..k + 1];
    assert upto[..k] == job.steps[..k] && upto[k] == job.steps[k];
    RewritingSnoc(upto);
  }

  lemma OwnStands(job: Job, lo: nat, hi: nat, k: nat, es: seq<Edit>, own: Edit, filling: bool)
    requires k < |job.steps| && Placed(job, lo, hi, k, es, filling) && AtStep(job, k + 1, own)
    ensures forall e | e in es + [own] :: Stands(job, k + 1, e)
    ensures job.outputs.None? || Rewriting(job.steps[..k]) == 0 ==> forall e | e in es + [own] :: AtStep(job, k + 1, e)
  {
    StandsOn(job, k, es);
    hide AtStep, AtOutputs, KeepsLines, FillsRange, Compatible, Rewriting;
    assert forall e | e in es + [own] :: e in es || e == own;
  }

  lemma StepEditsOf(s: Step, outputs: Option<(nat, nat)>, es: seq<Edit>)
    requires s.call.Some?
    ensures var own := Edit(s.first, s.last, Body(s.call.value.parts, s.column));
            es + StepEdits(s, outputs) ==
            if s.call.value.outputs.Some? && outputs.Some? then
              es + [own] + [Edit(outputs.value.0, outputs.value.1, s.call.value.outputs.value)]
            else es + [own]
  {
    hide Body;
  }

  lemma CallCompatible(job: Job, lo: nat, hi: nat, k: nat, es: seq<Edit>, filling: bool)
    requires LaidOut(job, lo, hi) && k < |job.steps| && Placed(job, lo, hi, k, es, filling)
    requires job.steps[k].call.Some?
    requires filling && job.outputs.Some? ==> Rewriting(job.steps[..k + 1]) <= 1 || KeepsLines(job)
    ensures Compatible(es + StepEdits(job.steps[k], job.outputs), hi, filling)
  {
    hide Body, Rewriting, LaidOut, AtStep, Stands, KeepsLines, FillsRange, Placed, StepEdits, Compatible;
    var s := job.steps[k];
    var text := Body(s.call.value.parts, s.column);
    StepEditsOf(s, job.outputs, es);
    PlaceStep(job, lo, hi, k, es, text, filling);
    if s.call.value.outputs.Some? && job.outputs.Some? {
      OwnStands(job, lo, hi, k, es, Edit(s.first, s.last, text), filling);
      FirstRewriting(job, k);
      if KeepsLines(job) { RewrittenFills(job, k); }
      PlaceOutputs(job, lo, hi, k + 1, es + [Edit(s.first, s.last, text)], s.call.value.outputs.value, filling);
    }
  }

  /** The edits of one more step: its own lines, and the outputs where they may be rewritten. */
  lemma StepPlaced(job: Job, lo: nat, hi: nat, k: nat, es: seq<Edit>, filling: bool)
    requires LaidOut(job, lo, hi) && k < |job.steps| && Placed(job, lo, hi, k, es, filling)
    requires filling && job.outputs.Some? ==> Rewriting(job.steps[..k + 1]) <= 1 || KeepsLines(job)
    ensures Placed(job, lo, hi, k + 1, es + StepEdits(job.steps[k], job.outputs), filling)
  {
    assert Compatible(es, hi, filling);
    hide Placed, LaidOut, Rewriting, KeepsLines, Compatible;
    var more := StepEdits(job.steps[k], job.outputs);
    if job.steps[k].call.Some? {
      CallCompatible(job, lo, hi, k, es, filling);
      CallAdded(job, lo, hi, k);
    } else {
      assert es + more == es;
    }
    hide StepEdits;
    PlacedMore(job, lo, hi, k, es, more, filling);
  }

  lemma {:induction false} StepsCompatible(job: Job, lo: nat, hi: nat, k: nat, filling: bool)
    requires LaidOut(job, lo, hi) && k <= |job.steps|
    requires filling && job.outputs.Some? ==> Rewriting(job.steps[..k]) <= 1 || KeepsLines(job)
    ensures Placed(job, lo, hi, k, StepsEdits(job.steps[..k], job.outputs), filling)
    decreases k
  {
    hide LaidOut, StepEdits;
    if k != 0 {
      var upto := job.steps[..k];
      assert upto[..k - 1] == job.steps[..k - 1] && upto[k - 1] == job.steps[k - 1];
      RewritingSnoc(upto);
      NextStepEdits(job.steps, job.outputs, k - 1);
      hide Placed, Rewriting, StepsEdits, KeepsLines;
      StepsCompatible(job, lo, hi, k - 1, filling);
      StepPlaced(job, lo, hi, k - 1, StepsEdits(job.steps[..k - 1], job.outputs), filling);
    }
  }

  lemma {:induction false} JobsCompatible(jobs: seq<Job>, starts: seq<nat>, n: nat, k: nat, filling: bool)
    requires Document(jobs, starts, n) && k <= |jobs| && (filling ==> forall j | j in jobs :: RewritesCleanly(j))
    ensures Compatible(JobsEdits(jobs[..k]), starts[k], filling)
    decreases k
  {
    hide StepsEdits, Rewriting;
    if k != 0 {
      var job := jobs[k - 1];
      assert jobs[..k][..k - 1] == jobs[..k - 1];
      JobsCompatible(jobs, starts, n, k - 1, filling);
      assert LaidOut(job, starts[k - 1], starts[k]) && (filling ==> RewritesCleanly(job));
      assert job.steps[..|job.steps|] == job.steps;
      StepsCompatible(job, starts[k - 1], starts[k], |job.steps|, filling);
      hide LaidOut, JobsEdits;
      JoinCompatible(JobsEdits(jobs[..k - 1]), StepsEdits(job.steps, job.outputs), starts[k - 1], starts[k], filling);
      JobsEditsSnoc(jobs[..k]);
    }
  }

  lemma JobsEditsSnoc(jobs: seq<Job>)
    requires jobs != []
    ensures JobsEdits(jobs) == JobsEdits(jobs[..|jobs| - 1])
             + StepsEdits(jobs[|jobs| - 1].steps, jobs[|jobs| - 1].outputs)
  {
  }

  lemma JoinCompatible(a: seq<Edit>, b: seq<Edit>, mid: nat, hi: nat, filling: bool)
    requires Compatible(a, mid, filling) && Compatible(b, hi, filling) && mid <= hi
    requires forall e | e in b :: mid <= e.first
    ensures Compatible(a + b, hi, filling)
  {
    hide FillsRange;
    var all := a + b;
    forall i, j | 0 <= i < j < |all|
      ensures Fits(all[i], all[j], filling)
    {
      if i < |a| && |a| <= j {
        assert all[i] in a && all[j] in b;
      } else if |a| <= i {
        assert all[i] == b[i - |a|] && all[j] == b[j - |a|];
      }
    }
  }

  /**
    The expanded workflow is the overlay of all edits: every call's lines become the shifted blocks of
    its action and every rewritten outputs block its new text, and every other line stays.  Where each
    job's outputs are rewritten at most once or line for line, it is the splice in which of several
    rewritings of one block the smallest stands.
   */
  method ExpandWorkflow(text: string, jobs: seq<Job>, ghost starts: seq<nat>) returns (expanded: string)
    ensures var lines, es := SplitLines(text), Sort(JobsEdits(jobs), EditLeq);
            Document(jobs, starts, |lines|) ==>
              && Layered(es, |lines|) && expanded == Join(Overlaid(lines, es, 0))
              && ((forall job | job in jobs :: RewritesCleanly(job)) ==>
                    Stacked(es, |lines|) && expanded == SplicedAllText(lines, es))
  {
    hide JobsEdits, Document, RewritesCleanly, Layered, Stacked, Overlaid, SplicedAllText, SplitLines, Join, Sort;
    var lines, edits := SplitLines(text), [];
    NoJobs();
    for i := 0 to |jobs|
      invariant edits == JobsEdits(jobs[..i])
    {
      var more := JobActionEdits(jobs[i]);
      JobsEditsSnoc(jobs[..i + 1]);
      assert jobs[..i + 1][..i] == jobs[..i];
      edits := edits + more;
    }
    assert jobs[..|jobs|] == jobs;
    if Document(jobs, starts, |lines|) { DocumentSorts(jobs, starts, |lines|); }
    var done := ApplyEdits(lines, edits);
    expanded := Join(done);
  }

  lemma NoJobs()
    ensures JobsEdits([]) == []
  {
  }

  lemma DocumentSorts(jobs: seq<Job>, starts: seq<nat>, n: nat)
    requires Document(jobs, starts, n)
    ensures Layered(Sort(JobsEdits(jobs), EditLeq), n)
    ensures (forall job | job in jobs :: RewritesCleanly(job)) ==> Stacked(Sort(JobsEdits(jobs), EditLeq), n)
  {
    hide JobsEdits, RewritesCleanly, Layered, Stacked, Sort, Compatible;
    var filling := forall job | job in jobs :: RewritesCleanly(job);
    assert jobs[..|jobs|] == jobs;
    JobsCompatible(jobs, starts, n, |jobs|, filling);
    CompatibleMore(JobsEdits(jobs), starts[|jobs|], n, filling);
    CompatibleSorts(JobsEdits(jobs), n, filling);
  }

  lemma CompatibleMore(es: seq<Edit>, n: nat, m: nat, filling: bool)
    requires Compatible(es, n, filling) && n <= m
    ensures Compatible(es, m, filling)
  {
    hide Fits;
  }
}
